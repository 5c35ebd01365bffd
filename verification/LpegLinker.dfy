/** Closing the calls of a grammar in place, one after the other, as `correctcalls` does. */
module LpegLinker {
  import opened Basics
  import opened LpegTree
  import opened LpegVm
  import opened LpegCodegen
  import opened LpegCorrect
  import opened LpegLabels
  import opened LpegWalk
  import G = LpegGood

  /** The chain of jumps from `x` stops inside the code, and not at an open call before `x`. */
  ghost predicate StopsIn(c: Code, x: int) {
    exists n: nat :: StopsInAt(c, x, n)
  }

  ghost predicate StopsInAt(c: Code, x: int, n: nat) {
    var y := Follow(c, x, n);
    0 <= y < |c| && !JmpAt(c, y) && (y >= x || !OpAt(c, y, IOpenCall))
  }

  /** What the linker needs to know of the instruction at `x`. */
  ghost predicate PointLinkable(c: Code, rules: nat, x: int)
    requires 0 <= x < |c|
  {
    && (OpAt(c, x, IOpenCall) ==> x + 2 < |c| && 0 <= c[x].key < rules && c[x + 1] == Open(c[x].key) &&
                                  StopsIn(c, x + 2))
    && (c[x].Open? ==> x > 0 && OpAt(c, x - 1, IOpenCall))
    && (JmpAt(c, x) ==> x + 1 < |c| && c[x + 1].Offset?)
  }

  ghost predicate Linkable(c: Code, rules: nat) {
    Walk(c, 0) && forall x :: 0 <= x < |c| ==> PointLinkable(c, rules, x)
  }

  /** The body of a grammar, its calls closed up to element `i`. */
  ghost function PartLink(body: Code, starts: seq<nat>, i: nat): Code {
    seq(|body|, j requires 0 <= j < |body| => if j < i then LinkSlot(body, starts, true, j) else body[j])
  }

  lemma PartLinkEnds(body: Code, starts: seq<nat>)
    ensures PartLink(body, starts, 0) == body
    ensures PartLink(body, starts, |body|) == Link(body, starts, true)
  {
    hide LinkSlot;
  }

  lemma {:induction false} FollowPartLink(body: Code, starts: seq<nat>, rules: nat, i: nat, x: int, n: nat)
    requires Linkable(body, rules)
    ensures Lands(PartLink(body, starts, i), x, Follow(body, x, n))
    decreases n
  {
    hide TailCall, Linkable, StopsIn;
    var c := PartLink(body, starts, i);
    if n > 0 && JmpAt(body, x) {
      LinkablePoint(body, rules, x);
      assert c[x] == body[x] && c[x + 1] == body[x + 1];
      FollowPartLink(body, starts, rules, i, Target(body, x), n - 1);
      var m: nat :| Follow(c, Target(body, x), m) == Follow(body, Target(body, x), n - 1);
      assert Follow(c, x, m + 1) == Follow(body, x, n);
    } else {
      assert Follow(c, x, 0) == x;
    }
  }

  lemma LinkablePoint(c: Code, rules: nat, x: int)
    requires Linkable(c, rules) && 0 <= x < |c|
    ensures PointLinkable(c, rules, x)
  {
    hide PointLinkable, Walk;
  }

  lemma PartLinkJmps(body: Code, starts: seq<nat>, rules: nat, i: nat)
    requires Linkable(body, rules) && (OpAt(body, i, IOpenCall) || i >= |body|)
    ensures JmpsComplete(PartLink(body, starts, i))
  {
    hide TailCall, Linkable, StopsIn;
    var c := PartLink(body, starts, i);
    forall k | 0 <= k < |c| && c[k].Inst? && c[k].op == IJmp ensures k + 1 < |c| && c[k + 1].Offset? {
      LinkablePoint(body, rules, k);
    }
  }

  /** Whether a call is a tail call can be read off the code as it is when its turn comes. */
  lemma TailCallSeen(pre: Code, body: Code, starts: seq<nat>, rules: nat, i: nat) returns (n: nat)
    requires Linkable(body, rules) && OpAt(body, i, IOpenCall)
    ensures var c := pre + PartLink(body, starts, i);
            var y := Follow(c, |pre| + i + 2, n);
            0 <= y < |c| && !JmpAt(c, y) && (TailCall(body, i) <==> OpAt(c, y, IRet))
  {
    hide Linkable, StopsIn, PartLink, FinalTarget;
    LinkablePoint(body, rules, i);
    var k, z := StopsWhere(body, i + 2);
    var part := PartLink(body, starts, i);
    var c := pre + part;
    FollowPartLink(body, starts, rules, i, i + 2, k);
    var m: nat :| Follow(part, i + 2, m) == z;
    PartLinkJmps(body, starts, rules, i);
    assert |part| == |body| by { PartLinkAt(body, starts, i, z); }
    assert c[|pre|..|pre| + |part|] == part;
    FollowPart(c, |pre|, part, i + 2, m);
    n :| Follow(c, |pre| + (i + 2), n) == |pre| + z;
    PartLinkAt(body, starts, i, z);
    assert c[|pre| + z] == part[z];
    FinalTargetIs(body, i + 2, k);
  }

  lemma StopsWhere(c: Code, x: int) returns (n: nat, y: int)
    requires StopsIn(c, x)
    ensures y == Follow(c, x, n) && 0 <= y < |c| && !JmpAt(c, y) && (y >= x || !OpAt(c, y, IOpenCall))
  {
    n :| StopsInAt(c, x, n);
    y := Follow(c, x, n);
  }

  lemma PartLinkAt(body: Code, starts: seq<nat>, i: nat, z: int)
    requires 0 <= z < |body| && (z >= i || !OpAt(body, z, IOpenCall))
    ensures |PartLink(body, starts, i)| == |body|
    ensures body[z].Inst? ==> PartLink(body, starts, i)[z] == body[z]
    ensures !body[z].Inst? ==> !PartLink(body, starts, i)[z].Inst?
  {
    hide TailCall;
  }

  /** Closing the call at `i` brings the linked part two elements further. */
  lemma PartLinkCall(pre: Code, body: Code, starts: seq<nat>, rules: nat, i: nat)
    requires Linkable(body, rules) && |starts| == rules && OpAt(body, i, IOpenCall)
    ensures i + 1 < |body| && 0 <= body[i].key < |starts|
    ensures var c, b := pre + PartLink(body, starts, i), |pre|;
            var op := if TailCall(body, i) then IJmp else ICall;
            |c| == b + |body| && c[b + i] == body[i] &&
            c[b + i := Inst(op, body[i].aux, body[i].key)][b + i + 1 := Offset(b + starts[body[i].key] - (b + i))] ==
              pre + PartLink(body, starts, i + 2)
  {
    hide Linkable, StopsIn, TailCall;
    LinkablePoint(body, rules, i);
    LinkablePoint(body, rules, i + 1);
    var key := body[i].key;
    assert LinkSlot(body, starts, true, i + 1) == Offset(starts[key] - i);
  }

  /** Other instructions stay as they are. */
  lemma PartLinkOther(body: Code, starts: seq<nat>, rules: nat, i: nat)
    requires Linkable(body, rules) && Walk(body, i) && i < |body| && !OpAt(body, i, IOpenCall)
    ensures body[i].Inst? && PartLink(body, starts, i)[i] == body[i]
    ensures PartLink(body, starts, i) == PartLink(body, starts, i + Size(body[i].op))
  {
    hide Linkable, StopsIn, TailCall;
    var n := Size(body[i].op);
    forall j | i <= j < i + n ensures LinkSlot(body, starts, true, j) == body[j] {
      LinkablePoint(body, rules, j);
    }
  }

  // ---------------------------------------------------------------- the body of a grammar is linkable

  lemma {:induction false} StopsPart(c: Code, a: int, c1: Code, x: int)
    requires 0 <= a && a + |c1| <= |c| && c[a..a + |c1|] == c1 && JmpsComplete(c1) && StopsIn(c1, x)
    ensures StopsIn(c, a + x)
  {
    var n, y := StopsWhere(c1, x);
    FollowPart(c, a, c1, x, n);
    var m: nat :| Follow(c, a + x, m) == a + y;
    Slice(c, a, c1, y);
    assert StopsInAt(c, a + x, m);
  }

  /** Inside a rule every chain stops: at the latest at its return. */
  lemma RuleStopsIn(c: Code, tops: Tops, rules: nat, x: int)
    requires ShapedBut(c, tops, rules, {}) && SettledBut(c, tops, false, {}) && 0 <= x <= |c| && At(c, x) &&
             TopAt(tops, x)
    ensures StopsIn(c + I(IRet), x)
  {
    hide PointOk;
    var r := c + I(IRet);
    ShapedJmps(c, tops, rules, {});
    if x < |c| {
      var n: nat :| EndsAt(c, {}, x, n);
      var y := Follow(c, x, n);
      assert r[0..0 + |c|] == c;
      FollowPart(r, 0, c, x, n);
      var m: nat :| Follow(r, 0 + x, m) == 0 + y;
      if y < |c| { Slice(r, 0, c, y); }
      assert StopsInAt(r, x, m);
    } else {
      assert StopsInAt(r, x, 0);
    }
  }

  lemma RulePoint(c: Code, tops: Tops, rules: nat, x: int)
    requires ShapedBut(c, tops, rules, {}) && SettledBut(c, tops, false, {}) && 0 <= x <= |c|
    ensures PointLinkable(c + I(IRet), rules, x)
  {
    hide SettledBut;
    var r := c + I(IRet);
    if x < |c| {
      assert PointOk(c, tops, rules, {}, x);
      if OpAt(c, x, IOpenCall) {
        RuleStopsIn(c, tops, rules, x + 2);
      }
    }
  }

  lemma PointPart(c: Code, a: int, c1: Code, rules: nat, x: int)
    requires 0 <= a && a + |c1| <= |c| && c[a..a + |c1|] == c1 && JmpsComplete(c1)
    requires 0 <= x < |c1| && PointLinkable(c1, rules, x)
    ensures PointLinkable(c, rules, a + x)
  {
    hide StopsIn, JmpsComplete;
    Slice(c, a, c1, x);
    if x + 1 < |c1| { Slice(c, a, c1, x + 1); }
    if x > 0 { Slice(c, a, c1, x - 1); }
    if OpAt(c1, x, IOpenCall) { StopsPart(c, a, c1, x + 2); }
  }

  lemma PointsJmps(c: Code, rules: nat)
    requires forall x :: 0 <= x < |c| ==> PointLinkable(c, rules, x)
    ensures JmpsComplete(c)
  {
    hide StopsIn;
    forall k | 0 <= k < |c| && c[k].Inst? && c[k].op == IJmp ensures k + 1 < |c| && c[k + 1].Offset? {
      assert PointLinkable(c, rules, k);
    }
  }

  ghost predicate AllLinkable(c: Code, rules: nat) {
    forall x :: 0 <= x < |c| ==> PointLinkable(c, rules, x)
  }

  lemma AllAppend(c1: Code, c2: Code, rules: nat)
    requires AllLinkable(c1, rules) && AllLinkable(c2, rules)
    ensures AllLinkable(c1 + c2, rules)
  {
    hide PointLinkable;
    var c := c1 + c2;
    PointsJmps(c1, rules);
    PointsJmps(c2, rules);
    assert c[0..0 + |c1|] == c1 && c[|c1|..|c1| + |c2|] == c2;
    forall x | 0 <= x < |c| ensures PointLinkable(c, rules, x) {
      if x < |c1| { PointPart(c, 0, c1, rules, x); } else { PointPart(c, |c1|, c2, rules, x - |c1|); }
    }
  }

  lemma {:induction false} FlattenLinkable(codes: seq<Code>, rules: nat)
    requires forall k :: 0 <= k < |codes| ==> AllLinkable(codes[k], rules)
    ensures AllLinkable(Flatten(codes), rules)
    decreases |codes|
  {
    hide AllLinkable;
    if codes == [] {
      EmptyLinkable(rules);
    } else {
      FlattenLinkable(codes[1..], rules);
      AllAppend(codes[0], Flatten(codes[1..]), rules);
    }
  }

  lemma EmptyLinkable(rules: nat)
    ensures AllLinkable([], rules)
  {
  }

  /** The rules of a well-formed grammar make a linkable body. */
  lemma BodyLinkable(rules: Rules, d: nat)
    requires forall k :: 0 <= k < |rules| ==> WellFormed(rules, rules[k], d)
    ensures Linkable(Flatten(GenRules(rules, rules, d, true)), |rules|)
  {
    hide WellFormed, Gen, PointLinkable, Walk, AllLinkable;
    var codes := GenRules(rules, rules, d, true);
    RulesWalk(rules, rules, d, true);
    forall k | 0 <= k < |codes| ensures AllLinkable(codes[k], |rules|) {
      RuleLinkable(rules, rules[k], d);
    }
    FlattenLinkable(codes, |rules|);
    LinkableIntro(Flatten(codes), |rules|);
  }

  lemma LinkableIntro(c: Code, rules: nat)
    requires Walk(c, 0) && AllLinkable(c, rules)
    ensures Linkable(c, rules)
  {
  }

  lemma RuleLinkable(g: Rules, p: Tree, d: nat)
    requires WellFormed(g, p, d)
    ensures AllLinkable(GenRule(g, p, d, true), |g|)
  {
    hide WellFormed, Gen, PointLinkable, ShapedBut, SettledBut, Paired;
    var c := Gen(g, p, false, None, FullSet(), d, true);
    var tops := RuleCodeGood(g, p, d);
    forall x | 0 <= x < |c + I(IRet)| ensures PointLinkable(c + I(IRet), |g|, x) {
      RulePoint(c, tops, |g|, x);
    }
  }

  lemma RuleCodeGood(g: Rules, p: Tree, d: nat) returns (tops: Tops)
    requires WellFormed(g, p, d)
    ensures ShapedBut(Gen(g, p, false, None, FullSet(), d, true), tops, |g|, {})
    ensures SettledBut(Gen(g, p, false, None, FullSet(), d, true), tops, false, {})
  {
    hide WellFormed, Gen, ShapedBut, SettledBut, Paired;
    tops := G.GenGood(g, p, false, None, FullSet(), d, false);
  }
}
