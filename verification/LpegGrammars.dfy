/** Linking the rules of a grammar: labels and chains of jumps, tail calls included. */
module LpegGrammars {
  import opened LpegVm
  import opened LpegCodegen
  import opened LpegLabels
  import opened LpegLead

  ghost function NoTops(n: nat): Tops { seq(n, i => false) }

  /** Each rule is in the body, where its start says. */
  lemma {:induction false} StartsAt(codes: seq<Code>, from: nat, k: nat) returns (pre: Code, post: Code)
    requires k < |codes|
    ensures Flatten(codes) == pre + codes[k] + post
    ensures |Starts(codes, from)| == |codes| && Starts(codes, from)[k] == from + |pre|
    decreases |codes|
  {
    StartsLength(codes, from);
    if k > 0 {
      var pre1, post1 := StartsAt(codes[1..], from + |codes[0]|, k - 1);
      pre, post := codes[0] + pre1, post1;
      assert codes[0] + (pre1 + codes[k] + post1) == pre + codes[k] + post;
    } else {
      pre, post := [], Flatten(codes[1..]);
    }
  }

  /** Linking keeps the jumps of the body. */
  lemma {:induction false} FollowLinked(body: Code, starts: seq<nat>, tail: bool, x: int, n: nat)
    requires JmpsComplete(body)
    ensures Lands(Link(body, starts, tail), x, Follow(body, x, n))
    decreases n
  {
    hide TailCall;
    var linked := Link(body, starts, tail);
    if n > 0 && JmpAt(body, x) {
      assert linked[x] == body[x] && linked[x + 1] == body[x + 1];
      FollowLinked(body, starts, tail, Target(body, x), n - 1);
      var m: nat :| Follow(linked, Target(body, x), m) == Follow(body, Target(body, x), n - 1);
      assert Follow(linked, x, m + 1) == Follow(body, x, n);
    } else {
      assert Follow(linked, x, 0) == x;
    }
  }

  lemma ReturnsLinked(body: Code, starts: seq<nat>, tail: bool, x: int)
    requires JmpsComplete(body) && ReturnsFrom(body, x)
    ensures ReturnsFrom(Link(body, starts, tail), x)
  {
    hide TailCall;
    var n: nat :| OpAt(body, Follow(body, x, n), IRet);
    FollowLinked(body, starts, tail, x, n);
    var m: nat :| Follow(Link(body, starts, tail), x, m) == Follow(body, x, n);
  }

  /** A jump at top level is in both bodies, and stays at top level. */
  lemma TopJump(body0: Code, body: Code, tops: Tops, w: Setting, x: int)
    requires Good(body0, body, tops, w) && TopAt(tops, x)
    ensures JmpAt(body0, x) <==> JmpAt(body, x)
    ensures JmpAt(body, x) ==> Target(body0, x) == Target(body, x) && TopAt(tops, Target(body, x))
  {
    hide SettledBut, ReturnsFrom, JmpsComplete;
    if 0 <= x < |body| {
      assert body0[x] == body[x];
      assert PointOk(body, tops, w.rules, {}, x);
      if JmpAt(body, x) { assert body0[x + 1] == body[x + 1]; }
    }
  }

  /** From top level, the plain body and the body with tail calls have the same chains of jumps. */
  lemma {:induction false} TopFollow(body0: Code, body: Code, tops: Tops, w: Setting, x: int, n: nat)
    requires Good(body0, body, tops, w) && TopAt(tops, x)
    ensures Follow(body0, x, n) == Follow(body, x, n) && TopAt(tops, Follow(body, x, n))
    decreases n
  {
    hide Good, Target, JmpAt;
    TopJump(body0, body, tops, w, x);
    if n > 0 && JmpAt(body, x) { TopFollow(body0, body, tops, w, Target(body, x), n - 1); }
  }

  lemma TailReturns(body0: Code, body: Code, tops: Tops, w: Setting, i: int)
    requires Good(body0, body, tops, w) && OpAt(body, i, IOpenCall) && TailCall(body, i)
    ensures ReturnsFrom(body0, i + 2)
  {
    assert PointOk(body, tops, w.rules, {}, i);
    var y := FinalTarget(body, i + 2);
    assert Settles(body, i + 2) by { TopSettles(body, tops, w.deep, i + 2); }
    var n: nat :| !JmpAt(body, Follow(body, i + 2, n)) && y == Follow(body, i + 2, n);
    TopFollow(body0, body, tops, w, i + 2, n);
    assert body0[y] == body[y];
  }

  lemma TopSettles(c: Code, tops: Tops, deep: bool, x: int)
    requires SettledBut(c, tops, deep, {}) && At(c, x) && TopAt(tops, x)
    ensures Settles(c, x)
  {
    if x == |c| {
      assert !JmpAt(c, Follow(c, x, 0));
    } else {
      var n: nat :| EndsAt(c, {}, x, n);
    }
  }

  lemma LinkPaired(body0: Code, body: Code, tops: Tops, w: Setting, starts: seq<nat>)
    requires Good(body0, body, tops, w)
    ensures Paired(Link(body0, starts, false), Link(body, starts, true), NoTops(|body|))
  {
    hide Good, TailPoint, LinkSlot;
    GoodLength(body0, body, tops, w);
    var l0, l := Link(body0, starts, false), Link(body, starts, true);
    forall i | 0 <= i < |body| ensures l0[i] == l[i] || TailPoint(l0, l, i) {
      LinkPoint(body0, body, tops, w, starts, i);
    }
  }

  lemma LinkPoint(body0: Code, body: Code, tops: Tops, w: Setting, starts: seq<nat>, i: nat)
    requires Good(body0, body, tops, w) && i < |body| == |body0|
    ensures var l0, l := Link(body0, starts, false), Link(body, starts, true);
            l0[i] == l[i] || TailPoint(l0, l, i)
  {
    hide ShapedBut, SettledBut, TailCall, ReturnsFrom;
    if body0[i] == body[i] {
      if OpAt(body, i, IOpenCall) && TailCall(body, i) {
        TailReturns(body0, body, tops, w, i);
        ReturnsLinked(body0, starts, false, i + 2);
      }
    } else {
      ReturnsLinked(body0, starts, false, i + 2);
    }
  }

  lemma LinkJmps(body: Code, starts: seq<nat>)
    requires JmpsComplete(body)
    ensures JmpsComplete(Link(body, starts, false))
  {
    var l := Link(body, starts, false);
    forall k | 0 <= k < |l| && l[k].Inst? && l[k].op == IJmp ensures k + 1 < |l| && l[k + 1].Offset? {
      assert body[k].Inst? && body[k].op == IJmp;
    }
  }

  // ---------------------------------------------------------------- the grammar as a whole

  ghost function GrammarTops(n: nat): Tops { [true, false, true, false] + NoTops(n) }

  /** A rule of the body begins with an instruction. */
  lemma RuleStart(codes: seq<Code>, k: nat)
    requires k < |codes| && codes[k] != [] && codes[k][0].Inst?
    ensures var starts := Starts(codes, 0);
            |starts| == |codes| && starts[k] < |Flatten(codes)| && Flatten(codes)[starts[k]].Inst?
  {
    var pre, post := StartsAt(codes, 0, k);
    assert Flatten(codes)[|pre|] == codes[k][0];
  }

  lemma LinkedPoint(codes: seq<Code>, tops: Tops, tail: bool, rules: nat, x: int)
    requires var body := Flatten(codes); Shaped(body, tops, |codes|) && 0 <= x < |body|
    requires forall k :: 0 <= k < |codes| ==> codes[k] != [] && codes[k][0].Inst?
    ensures PointOk(GrammarCode(codes, tail), GrammarTops(|Flatten(codes)|), rules, {}, 4 + x)
  {
    hide TailCall, GrammarCode, GrammarTops, Flatten, Starts;
    var body, starts := Flatten(codes), Starts(codes, 0);
    var c := GrammarCode(codes, tail);
    assert PointOk(body, tops, |codes|, {}, x);
    LinkedSlots(codes, tail, x);
    if x + 1 < |body| { LinkedSlots(codes, tail, x + 1); }
    if x + 2 < |body| { LinkedSlots(codes, tail, x + 2); }
    if body[x].Inst? {
      LinkedAt(codes, tail, x + Size(body[x].op));
      if body[x].op == IOpenCall {
        RuleStart(codes, body[x].key);
        LinkedAt(codes, tail, starts[body[x].key]);
      } else if Labelled(body[x].op) {
        LinkedAt(codes, tail, Target(body, x));
      }
    }
  }

  lemma LinkedAt(codes: seq<Code>, tail: bool, y: int)
    requires At(Flatten(codes), y)
    ensures At(GrammarCode(codes, tail), 4 + y)
  {
    hide TailCall, GrammarCode, Flatten, Starts;
    if y < |Flatten(codes)| { LinkedSlots(codes, tail, y); }
    else { LinkedLength(codes, tail); }
  }

  lemma LinkedLength(codes: seq<Code>, tail: bool)
    ensures |GrammarCode(codes, tail)| == 4 + |Flatten(codes)| == |GrammarTops(|Flatten(codes)|)|
  {
    hide TailCall, LinkSlot, Flatten;
  }

  lemma LinkedSlots(codes: seq<Code>, tail: bool, x: int)
    requires 0 <= x < |Flatten(codes)|
    ensures var body, c := Flatten(codes), GrammarCode(codes, tail);
            && |c| == 4 + |body| && c[4 + x] == LinkSlot(body, Starts(codes, 0), tail, x)
            && GrammarTops(|body|)[4 + x] == false
  {
    hide TailCall, LinkSlot;
  }

  lemma GrammarShaped(codes: seq<Code>, tops: Tops, tail: bool, rules: nat)
    requires Shaped(Flatten(codes), tops, |codes|) && codes != []
    requires forall k :: 0 <= k < |codes| ==> codes[k] != [] && codes[k][0].Inst?
    ensures Shaped(GrammarCode(codes, tail), GrammarTops(|Flatten(codes)|), rules)
  {
    var body, c := Flatten(codes), GrammarCode(codes, tail);
    var t := GrammarTops(|body|);
    assert body != [] by { RuleStart(codes, 0); }
    hide LinkSlot, Shaped;
    forall x | 0 <= x < |c| ensures PointOk(c, t, rules, {}, x) {
      if x >= 4 { LinkedPoint(codes, tops, tail, rules, x - 4); }
      else { GrammarHead(codes, tops, tail, rules, x); }
    }
    assert Shaped(c, t, rules) by { ShapedIntro(c, t, rules); }
  }

  lemma ShapedIntro(c: Code, tops: Tops, rules: nat)
    requires |tops| == |c| && (c != [] ==> c[0].Inst? && tops[0]) && forall x :: 0 <= x < |c| ==>
             PointOk(c, tops, rules, {}, x)
    ensures Shaped(c, tops, rules)
  {
  }

  lemma GrammarHead(codes: seq<Code>, tops: Tops, tail: bool, rules: nat, x: int)
    requires Shaped(Flatten(codes), tops, |codes|) && Flatten(codes) != [] && 0 <= x < 4
    ensures PointOk(GrammarCode(codes, tail), GrammarTops(|Flatten(codes)|), rules, {}, x)
  {
    hide TailCall;
    LinkedSlots(codes, tail, 0);
    assert PointOk(Flatten(codes), tops, |codes|, {}, 0);
  }

  // ---------------------------------------------------------------- chains through tail calls

  predicate NoOpenCall(c: Code) {
    forall k :: 0 <= k < |c| && c[k].Inst? ==> c[k].op != IOpenCall
  }

  lemma LinkCloses(body: Code, starts: seq<nat>)
    ensures NoOpenCall(Link(body, starts, true))
  {
    hide TailCall;
  }

  lemma LandsEnds(c: Code, x: int, y: int)
    requires Lands(c, x, y) && Ends(c, {}, y) && (y >= x || NoOpenCall(c))
    ensures Ends(c, {}, x)
  {
    var n: nat :| Follow(c, x, n) == y;
    var m: nat :| EndsAt(c, {}, y, m);
    FollowAdd(c, x, n, m);
    assert EndsAt(c, {}, x, n + m);
  }

  lemma LandsLinked(body: Code, starts: seq<nat>, tail: bool, x: int, y: int)
    requires JmpsComplete(body) && Lands(body, x, y)
    ensures Lands(Link(body, starts, tail), x, y)
  {
    var n: nat :| Follow(body, x, n) == y;
    FollowLinked(body, starts, tail, x, n);
  }

  /** Where the chains from the rules of `codes` lead, before linking. */
  ghost predicate RulesLead(codes: seq<Code>, leads: seq<Lead>) {
    && |codes| == |leads| && |Starts(codes, 0)| == |codes|
    && forall k :: 0 <= k < |codes| ==> Leads(Flatten(codes), Starts(codes, 0)[k], leads[k])
  }

  /** After linking, a chain that ended at a tail call goes on to the start of the rule. */
  lemma LeadLinked(body: Code, tops: Tops, starts: seq<nat>, x: int, lead: Lead) returns (y: int)
    requires Shaped(body, tops, |starts|) && Leads(body, x, lead)
    ensures var linked := Link(body, starts, true);
            && Lands(linked, x, y) && 0 <= y < |linked| && (JmpAt(linked, y) <==> lead.Jumps?)
            && (lead.Jumps? ==> lead.rule < |starts| && Target(linked, y) == starts[lead.rule])
  {
    hide TailCall, ShapedBut, Lands, PointOk;
    y :| Lands(body, x, y) && LeadAt(body, y, lead);
    ShapedJmps(body, tops, |starts|, {});
    LandsLinked(body, starts, true, x, y);
    if lead.Jumps? { OpenCallAt(body, tops, |starts|, y); }
  }

  lemma OpenCallAt(c: Code, tops: Tops, rules: nat, y: int)
    requires Shaped(c, tops, rules) && OpAt(c, y, IOpenCall)
    ensures y + 1 < |c| && 0 <= c[y].key < rules && c[y + 1] == Open(c[y].key)
  {
    assert PointOk(c, tops, rules, {}, y);
  }

  /** From the start of each rule the chain of jumps, tail calls included, comes to an end. */
  lemma RuleEnds(codes: seq<Code>, tops: Tops, leads: seq<Lead>, rank: seq<nat>, k: nat)
    requires k < |codes| && RulesLead(codes, leads) && Shaped(Flatten(codes), tops, |codes|) && Decreasing(leads, rank)
    ensures Ends(Link(Flatten(codes), Starts(codes, 0), true), {}, Starts(codes, 0)[k])
    decreases rank[k]
  {
    hide Leads, Shaped, Lands, Ends, Link, Flatten, Starts;
    var body, starts := Flatten(codes), Starts(codes, 0);
    var linked := Link(body, starts, true);
    LinkCloses(body, starts);
    var y := LeadLinked(body, tops, starts, starts[k], leads[k]);
    if leads[k].Jumps? {
      RuleEnds(codes, tops, leads, rank, leads[k].rule);
      JumpEnds(linked, y, starts[leads[k].rule]);
    } else {
      StopEnds(linked, y);
    }
    LandsEnds(linked, starts[k], y);
  }

  lemma JumpEnds(c: Code, z: int, y: int)
    requires JmpAt(c, z) && Target(c, z) == y && Ends(c, {}, y) && (y >= z || NoOpenCall(c))
    ensures Ends(c, {}, z)
  {
    assert Follow(c, z, 1) == Follow(c, y, 0);
    assert Lands(c, z, y);
    LandsEnds(c, z, y);
  }

  lemma StopEnds(c: Code, z: int)
    requires !JmpAt(c, z) && 0 <= z <= |c|
    ensures Ends(c, {}, z)
  {
    assert EndsAt(c, {}, z, 0);
  }

  /** Every chain of jumps of `c` comes to an end. */
  ghost predicate AllSettled(c: Code) {
    forall x :: 0 <= x < |c| && c[x].Inst? ==> Ends(c, {}, x)
  }

  /** Every chain of jumps of the linked body comes to an end if following the leads does. */
  lemma LinkSettled(codes: seq<Code>, tops: Tops, leads: seq<Lead>)
    requires RulesLead(codes, leads) && Shaped(Flatten(codes), tops, |codes|) &&
             SettledBut(Flatten(codes), tops, true, {}) && LeadsEnd(leads)
    ensures AllSettled(Link(Flatten(codes), Starts(codes, 0), true))
  {
    hide TailCall, RulesLead, JmpsComplete, Decreasing, Lands;
    var body, starts := Flatten(codes), Starts(codes, 0);
    var linked := Link(body, starts, true);
    var rank :| Decreasing(leads, rank);
    LinkCloses(body, starts);
    ShapedJmps(body, tops, |codes|, {});
    forall x | 0 <= x < |linked| && linked[x].Inst? ensures Ends(linked, {}, x) {
      assert body[x].Inst?;
      var z := EndOf(body, x);
      LandsLinked(body, starts, true, x, z);
      assert |starts| == |codes| by { StartsLength(codes, 0); }
      if JmpAt(linked, z) {
        OpenCallAt(body, tops, |codes|, z);
        RuleEnds(codes, tops, leads, rank, body[z].key);
        JumpEnds(linked, z, starts[body[z].key]);
      } else {
        StopEnds(linked, z);
      }
      LandsEnds(linked, x, z);
    }
  }

  lemma EndOf(c: Code, x: int) returns (z: int)
    requires Ends(c, {}, x)
    ensures Lands(c, x, z) && 0 <= z <= |c| && !JmpAt(c, z)
  {
    var n: nat :| EndsAt(c, {}, x, n);
    z := Follow(c, x, n);
  }

  // ---------------------------------------------------------------- endless chains

  /** How many jumps are made in `n` steps from `x`. */
  function Hops(c: Code, x: int, n: nat): nat
    decreases n
  {
    if n > 0 && JmpAt(c, x) then 1 + Hops(c, Target(c, x), n - 1) else 0
  }

  lemma {:induction false} HopsUnique(c: Code, x: int, m: nat, n: nat)
    requires !JmpAt(c, Follow(c, x, m)) && !JmpAt(c, Follow(c, x, n))
    ensures Hops(c, x, m) == Hops(c, x, n)
    decreases m
  {
    if JmpAt(c, x) { HopsUnique(c, Target(c, x), m - 1, n - 1); }
  }

  /** Fewer jumps are left behind a jump that the chain from `x` passes through. */
  lemma {:induction false} HopsFewer(c: Code, x: int, m: nat, n: nat, k: nat)
    requires JmpAt(c, Follow(c, x, m)) && !JmpAt(c, Follow(c, x, n)) &&
             !JmpAt(c, Follow(c, Target(c, Follow(c, x, m)), k))
    ensures Hops(c, Target(c, Follow(c, x, m)), k) < Hops(c, x, n)
    decreases m
  {
    if m == 0 { HopsUnique(c, Target(c, x), n - 1, k); }
    else if JmpAt(c, x) { HopsFewer(c, Target(c, x), m - 1, n - 1, k); }
  }

  ghost function Count(c: Code, x: int): nat {
    if Settles(c, x) then (var n: nat :| !JmpAt(c, Follow(c, x, n)); Hops(c, x, n)) else 0
  }

  lemma CountFewer(c: Code, x: int, y: int, z: int)
    requires Lands(c, x, y) && JmpAt(c, y) && Target(c, y) == z && Settles(c, x) && Settles(c, z)
    ensures Count(c, z) < Count(c, x)
  {
    var m: nat :| Follow(c, x, m) == y;
    var n: nat :| !JmpAt(c, Follow(c, x, n)) && Count(c, x) == Hops(c, x, n);
    var k: nat :| !JmpAt(c, Follow(c, z, k)) && Count(c, z) == Hops(c, z, k);
    HopsFewer(c, x, m, n, k);
  }

  /** The condition is exact: linking the rules of a grammar leaves no endless chain of jumps if and
      only if going from rule to rule by the tail calls at their starts comes to an end. */
  lemma LinkSettles(codes: seq<Code>, tops: Tops, leads: seq<Lead>)
    requires RulesLead(codes, leads) && Shaped(Flatten(codes), tops, |codes|) &&
             SettledBut(Flatten(codes), tops, true, {})
    requires forall k :: 0 <= k < |codes| ==> codes[k] != [] && codes[k][0].Inst?
    ensures AllSettled(Link(Flatten(codes), Starts(codes, 0), true)) <==> LeadsEnd(leads)
  {
    hide Leads, Shaped, SettledBut, AllSettled, LeadsEnd, Flatten, Starts, Link, Count;
    if LeadsEnd(leads) { LinkSettled(codes, tops, leads); }
    if AllSettled(Link(Flatten(codes), Starts(codes, 0), true)) {
      forall k | 0 <= k < |codes| ensures Settles(Link(Flatten(codes), Starts(codes, 0), true), Starts(codes, 0)[k]) {
        RuleSettles(codes, k);
      }
      SettledLeads(codes, tops, leads);
    }
  }

  /** If no rule starts with an endless chain, following the leads comes to an end. */
  lemma SettledLeads(codes: seq<Code>, tops: Tops, leads: seq<Lead>)
    requires RulesLead(codes, leads) && Shaped(Flatten(codes), tops, |codes|)
    requires forall k :: 0 <= k < |codes| ==> Settles(Link(Flatten(codes), Starts(codes, 0), true), Starts(codes, 0)[k])
    ensures LeadsEnd(leads)
  {
    hide Leads, Shaped, Flatten, Starts, Link, Count, Lands, Settles;
    var body, starts := Flatten(codes), Starts(codes, 0);
    var linked := Link(body, starts, true);
    var rank := seq(|codes|, k requires 0 <= k < |codes| => Count(linked, starts[k]));
    forall k | 0 <= k < |leads| && leads[k].Jumps? ensures leads[k].rule < |rank| && rank[leads[k].rule] < rank[k] {
      var y := LeadLinked(body, tops, starts, starts[k], leads[k]);
      CountFewer(linked, starts[k], y, starts[leads[k].rule]);
    }
    assert Decreasing(leads, rank);
  }

  lemma RuleSettles(codes: seq<Code>, k: nat)
    requires k < |codes| && codes[k] != [] && codes[k][0].Inst? && |Starts(codes, 0)| == |codes|
    requires AllSettled(Link(Flatten(codes), Starts(codes, 0), true))
    ensures Settles(Link(Flatten(codes), Starts(codes, 0), true), Starts(codes, 0)[k])
  {
    hide TailCall, Flatten, Starts;
    RuleStart(codes, k);
    var linked, x := Link(Flatten(codes), Starts(codes, 0), true), Starts(codes, 0)[k];
    assert linked[x].Inst?;
    var n: nat :| EndsAt(linked, {}, x, n);
    assert !JmpAt(linked, Follow(linked, x, n));
  }

  // ---------------------------------------------------------------- good grammars

  /** All rules of a grammar, plain and with tail calls, are good. */
  ghost predicate RulesGood(codes0: seq<Code>, codes: seq<Code>, tops: seq<Tops>, w: Setting) {
    |codes0| == |codes| == |tops| && forall k :: 0 <= k < |codes| ==> Good(codes0[k], codes[k], tops[k], w)
  }

  ghost function FlattenTops(tops: seq<Tops>): Tops {
    if tops == [] then [] else tops[0] + FlattenTops(tops[1..])
  }

  lemma {:induction false} FlattenGood(codes0: seq<Code>, codes: seq<Code>, tops: seq<Tops>, w: Setting)
    requires RulesGood(codes0, codes, tops, w)
    ensures Good(Flatten(codes0), Flatten(codes), FlattenTops(tops), w)
    ensures forall from :: Starts(codes0, from) == Starts(codes, from)
    decreases |codes|
  {
    hide Good;
    if codes == [] {
      EmptyGood(w);
    } else {
      FlattenGood(codes0[1..], codes[1..], tops[1..], w);
      GoodSeq(codes0[0], codes[0], tops[0], Flatten(codes0[1..]), Flatten(codes[1..]), FlattenTops(tops[1..]), w);
      GoodLength(codes0[0], codes[0], tops[0], w);
    }
  }

  /** The code of a grammar is good if that of its rules is; for all of its chains to end, its leads have to. */
  lemma GrammarGood(codes0: seq<Code>, codes: seq<Code>, tops: seq<Tops>, leads: seq<Lead>, w: Setting)
      returns (t: Tops)
    requires RulesGood(codes0, codes, tops, Setting(|codes|, w.deep)) && codes != []
    requires forall k :: 0 <= k < |codes| ==> codes[k] != []
    requires RulesLead(codes, leads) && (w.deep ==> LeadsEnd(leads))
    ensures Good(GrammarCode(codes0, false), GrammarCode(codes, true), t, w)
  {
    hide TailCall, TailPoint, RulesLead, LeadsEnd, Link, PointOk, AllSettled;
    var body0, body, tb := Flatten(codes0), Flatten(codes), FlattenTops(tops);
    FlattenGood(codes0, codes, tops, Setting(|codes|, w.deep));
    t := GrammarTops(|body|);
    GrammarShaped(codes, tb, true, w.rules);
    ShapedJmps(GrammarCode(codes, true), t, w.rules, {});
    if w.deep { LinkSettled(codes, tb, leads); }
    GrammarSettled(codes, w.deep);
    LinkPaired(body0, body, tb, Setting(|codes|, w.deep), Starts(codes, 0));
    LinkJmps(body0, Starts(codes, 0));
    GrammarPaired(codes0, codes);
  }

  /** The code of a grammar begins with two jumps, the second one to its end. */
  lemma GrammarFront(codes: seq<Code>)
    ensures var linked, c := Link(Flatten(codes), Starts(codes, 0), true), GrammarCode(codes, true);
            && |c| == 4 + |linked| && c[4..4 + |linked|] == linked
            && !JmpAt(c, 0) && JmpAt(c, 2) && Target(c, 2) == |c| && !c[1].Inst? && !c[3].Inst?
  {
    hide LinkSlot, Flatten, Starts;
  }

  lemma LinkedJmps(codes: seq<Code>)
    requires JmpsComplete(GrammarCode(codes, true))
    ensures JmpsComplete(Link(Flatten(codes), Starts(codes, 0), true))
  {
    hide Link, Flatten, Starts, GrammarCode;
    GrammarFront(codes);
    var linked, c := Link(Flatten(codes), Starts(codes, 0), true), GrammarCode(codes, true);
    forall k | 0 <= k < |linked| && linked[k].Inst? && linked[k].op == IJmp ensures k + 1 < |linked| &&
        linked[k + 1].Offset? {
      Slice(c, 4, linked, k);
      if k + 1 < |linked| { Slice(c, 4, linked, k + 1); }
    }
  }

  lemma GrammarSettled(codes: seq<Code>, deep: bool)
    requires deep ==> AllSettled(Link(Flatten(codes), Starts(codes, 0), true))
    requires JmpsComplete(GrammarCode(codes, true))
    ensures SettledBut(GrammarCode(codes, true), GrammarTops(|Flatten(codes)|), deep, {})
  {
    hide Link, Flatten, Starts, GrammarCode, Ends;
    var linked := Link(Flatten(codes), Starts(codes, 0), true);
    var c, t := GrammarCode(codes, true), GrammarTops(|Flatten(codes)|);
    GrammarFront(codes);
    LinkedLength(codes, true);
    LinkedJmps(codes);
    StopEnds(c, |c|);
    forall x | 0 <= x < |c| && c[x].Inst? && (deep || t[x]) ensures Ends(c, {}, x) {
      if x >= 4 {
        Slice(c, 4, linked, x - 4);
        SettlePart(c, {}, 4, linked, {}, x - 4);
      } else if x == 2 {
        JumpEnds(c, 2, |c|);
      } else {
        StopEnds(c, x);
      }
    }
  }

  lemma GrammarPaired(codes0: seq<Code>, codes: seq<Code>)
    requires Starts(codes0, 0) == Starts(codes, 0) && |Flatten(codes0)| == |Flatten(codes)|
    requires var l0, l := Link(Flatten(codes0), Starts(codes, 0), false), Link(Flatten(codes), Starts(codes, 0), true);
             Paired(l0, l, NoTops(|l|)) && JmpsComplete(l0)
    ensures Paired(GrammarCode(codes0, false), GrammarCode(codes, true), GrammarTops(|Flatten(codes)|))
    ensures JmpsComplete(GrammarCode(codes0, false))
  {
    hide Paired, JmpsComplete, LinkSlot, Flatten, Starts;
    var n := |Flatten(codes)|;
    var l0, l := Link(Flatten(codes0), Starts(codes, 0), false), Link(Flatten(codes), Starts(codes, 0), true);
    var head := Jump(ICall, 4) + Jump(IJmp, 2 + n);
    HeadPaired(n);
    PairedAppend(head, head, [true, false, true, false], l0, l, NoTops(n));
    JmpsAppend(head, l0);
  }

  lemma HeadPaired(n: nat)
    ensures var head := Jump(ICall, 4) + Jump(IJmp, 2 + n);
            Paired(head, head, [true, false, true, false]) && JmpsComplete(head)
  {
  }
}
