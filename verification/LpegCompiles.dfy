/** Compiling as the C code does it, and when it comes to an end.

    A run of the compiler is given `n`: that many nested calls for each analysis, and that many jumps for
    each chain that the optimizer follows.  If it does not come to an end, no `n` is enough. */
module LpegCompiles {
  import opened Basics
  import opened LpegTree
  import opened LpegAnalysis
  import opened LpegVm
  import opened LpegCodegen
  import opened LpegAnswers
  import opened LpegCorrect
  import opened LpegShapes
  import opened LpegLabels
  import opened LpegLead
  import opened LpegGrammars
  import opened LpegGood
  import opened LpegWalk
  import opened LpegPeephole
  import opened LpegCompiled

  // ---------------------------------------------------------------- the optimizer as it runs

  /** finaltarget */
  function TargetRun(c: Code, i: int, n: nat): Option<int>
    decreases n
  {
    if !JmpAt(c, i) then Some(i) else if n == 0 then None else TargetRun(c, Target(c, i), n - 1)
  }

  /** Redirects the label of the instruction at `i`. */
  function LabelRun(c: Code, i: int, n: nat): (r: Option<Code>)
    requires 0 <= i && i + 1 < |c|
    ensures r.Some? ==> |r.value| == |c|
  {
    match TargetRun(c, Target(c, i), n)
    case None => None
    case Some(t) => Some(c[i + 1 := Offset(t - i)])
  }

  /** One turn of peephole.  An instruction that a jump has become gets its own label redirected, too. */
  function PeepAtRun(c: Code, i: int, n: nat): (r: Option<Code>)
    ensures r.Some? ==> |r.value| == |c|
  {
    if !InstAt(c, i) || !Labelled(c[i].op) || i + 1 >= |c| then Some(c)
    else if c[i].op != IJmp then LabelRun(c, i, n)
    else
      match TargetRun(c, i, n)
      case None => None
      case Some(ft) =>
        if !InstAt(c, ft) then Some(c)
        else if c[ft].op in {IRet, IFail, IFailTwice, IEnd} then Some(c[i := c[ft]][i + 1 := Inst(IAny, 0, 0)])
        else if c[ft].op in {ICommit, IPartialCommit, IBackCommit} then
          match TargetRun(c, Target(c, ft), n)
          case None => None
          case Some(fft) => LabelRun(c[i := c[ft]][i + 1 := Offset(fft - i)], i, n)
        else Some(c[i + 1 := Offset(ft - i)])
  }

  /** The loop of peephole, from `i` on */
  function PeepRun(c: Code, i: nat, n: nat): Option<Code>
    decreases |c| - i
  {
    if i >= |c| then Some(c)
    else
      match PeepAtRun(c, i, n)
      case None => None
      case Some(c1) => PeepRun(c1, i + if c1[i].Inst? then Size(c1[i].op) else 1, n)
  }

  /** compile.  When the analyses have come back within `n` calls, `Gen` at depth `n` is the code that is
      generated; linking it never fails to come to an end. */
  ghost function CompileRun(p: Tree, n: nat): Option<Code> {
    if GenBack([], p, n) then PeepRun(CompileTree(p, n, true), 0, n) else None
  }

  /** The compiler comes to an end. */
  ghost predicate CompileEnds(p: Tree) {
    exists n: nat :: CompileRun(p, n).Some?
  }

  lemma {:induction false} TargetRunIs(c: Code, i: int, n: nat)
    requires TargetRun(c, i, n).Some?
    ensures Settles(c, i) && FinalTarget(c, i) == TargetRun(c, i, n).value
    decreases n
  {
    hide FinalTarget, Settles;
    var k := TargetSteps(c, i, n);
    FinalTargetIs(c, i, k);
  }

  lemma {:induction false} TargetSteps(c: Code, i: int, n: nat) returns (k: nat)
    requires TargetRun(c, i, n).Some?
    ensures Follow(c, i, k) == TargetRun(c, i, n).value && !JmpAt(c, Follow(c, i, k))
    decreases n
  {
    k := 0;
    if JmpAt(c, i) {
      k := TargetSteps(c, Target(c, i), n - 1);
      k := k + 1;
    }
  }

  lemma {:induction false} TargetRunBack(c: Code, i: int, k: nat, n: nat)
    requires !JmpAt(c, Follow(c, i, k)) && k <= n
    ensures TargetRun(c, i, n).Some?
    decreases n
  {
    if JmpAt(c, i) && k > 0 { TargetRunBack(c, Target(c, i), k - 1, n - 1); }
  }

  /** A chain that ends is followed to its end if `n` is large enough. */
  lemma TargetRunEnds(c: Code, i: int) returns (k: nat)
    requires Settles(c, i)
    ensures forall n: nat :: n >= k ==> TargetRun(c, i, n) == Some(FinalTarget(c, i))
  {
    hide FinalTarget, Settles;
    k := FinalTargetStops(c, i);
    forall n: nat | n >= k ensures TargetRun(c, i, n) == Some(FinalTarget(c, i)) {
      TargetRunBack(c, i, k, n);
      TargetRunIs(c, i, n);
    }
  }

  // ---------------------------------------------------------------- if all chains end, so does the optimizer

  lemma PeepAtBack(c: Code, i: int) returns (k: nat)
    requires Whole(c)
    ensures forall n: nat :: n >= k ==> PeepAtRun(c, i, n) == Some(PeepAt(c, i))
  {
    hide Whole, FinalTarget, Settles, TargetRun, Complete;
    k := 0;
    if InstAt(c, i) && Labelled(c[i].op) && i + 1 < |c| {
      if c[i].op == IJmp { k := PeepJumpBack(c, i); } else { k := PeepLabelBack(c, i); }
    }
  }

  lemma PeepLabelBack(c: Code, i: int) returns (k: nat)
    requires Whole(c) && InstAt(c, i) && Labelled(c[i].op) && i + 1 < |c|
    ensures forall n: nat :: n >= k ==> LabelRun(c, i, n) == Some(Retarget(c, i, FinalLabel(c, i)))
  {
    hide Whole, FinalTarget, Settles, TargetRun;
    WholeAt(c, i);
    FinalTargetInst(c, Target(c, i));
    k := TargetRunEnds(c, Target(c, i));
  }

  lemma PeepJumpBack(c: Code, i: int) returns (k: nat)
    requires Whole(c) && InstAt(c, i) && c[i].op == IJmp && i + 1 < |c|
    ensures forall n: nat :: n >= k ==> PeepAtRun(c, i, n) == Some(PeepAt(c, i))
  {
    hide Whole, FinalTarget, Settles, TargetRun;
    FinalTargetInst(c, i);
    var ft := FinalTarget(c, i);
    k := TargetRunEnds(c, i);
    if c[ft].op in {ICommit, IPartialCommit, IBackCommit} {
      WholeAt(c, ft);
      FinalTargetInst(c, Target(c, ft));
      var k1 := TargetRunEnds(c, Target(c, ft));
      var c1 := PeepAt(c, i);
      PeepAtPeeped(c, i);
      PeepWhole(c, i, c1);
      var k2 := PeepLabelBack(c1, i);
      assert Target(c1, i) == FinalLabel(c, ft);
      FinalTargetHere(c1, FinalLabel(c, ft));
      assert Retarget(c1, i, FinalLabel(c1, i)) == c1;
      k := if k < k1 then k1 else k;
      k := if k < k2 then k2 else k;
    }
  }

  lemma {:induction false} PeepBack(c: Code, i: nat) returns (k: nat)
    requires Whole(c)
    ensures forall n: nat :: n >= k ==> PeepRun(c, i, n) == Some(PeepFrom(c, i))
    decreases |c| - i
  {
    hide Whole, PeepAt, PeepAtRun;
    k := 0;
    if i < |c| {
      var c1 := PeepAt(c, i);
      PeepAtStaysWhole(c, i);
      var k1 := PeepAtBack(c, i);
      var k2 := PeepBack(c1, i + if c1[i].Inst? then Size(c1[i].op) else 1);
      k := if k1 < k2 then k2 else k1;
    }
  }

  lemma PeepAtStaysWhole(c: Code, i: int)
    requires Whole(c)
    ensures Whole(PeepAt(c, i))
  {
    hide Whole, FinalTarget;
    if InstAt(c, i) && Labelled(c[i].op) && i + 1 < |c| {
      PeepAtPeeped(c, i);
      PeepWhole(c, i, PeepAt(c, i));
    }
  }

  // ---------------------------------------------------------------- an endless chain keeps it busy

  /** There is room between instructions for what belongs to them. */
  ghost predicate Spaced(c: Code) {
    forall x, y :: InstAt(c, x) && InstAt(c, y) && x < y ==> x + Size(c[x].op) <= y
  }

  lemma {:induction false} WalkSpaced(c: Code, i: nat, x: int, y: int)
    requires Walk(c, i) && InstAt(c, x) && InstAt(c, y) && i <= x < y
    ensures x + Size(c[x].op) <= y
    decreases |c| - i
  {
    if i < x { WalkSpaced(c, i + Size(c[i].op), x, y); }
  }

  /** Only the instruction at `i` and its label have changed. */
  predicate ChangedAt(c: Code, i: int, c1: Code) {
    |c1| == |c| && forall x :: 0 <= x < |c| && x != i && x != i + 1 ==> c1[x] == c[x]
  }

  lemma {:induction false} FollowUnchanged(c: Code, i: int, c1: Code, y: int, n: nat)
    requires Spaced(c) && ChangedAt(c, i, c1) && !Settles(c, y)
    requires InstAt(c, i) && Labelled(c[i].op) && (c[i].op == IJmp ==> Settles(c, i))
    ensures Follow(c1, y, n) == Follow(c, y, n) && JmpAt(c1, Follow(c1, y, n))
    decreases n
  {
    hide Settles;
    EndlessStep(c, y);
    assert InstAt(c, y) && y != i;
    assert y + Size(IJmp) <= i || i + Size(c[i].op) <= y;
    assert c1[y] == c[y] && c1[y + 1] == c[y + 1];
    if n > 0 { FollowUnchanged(c, i, c1, Target(c, y), n - 1); }
  }

  /** An endless chain goes from jump to jump. */
  lemma EndlessStep(c: Code, y: int)
    requires !Settles(c, y)
    ensures JmpAt(c, y) && y + 1 < |c| && c[y + 1].Offset? && !Settles(c, Target(c, y))
  {
    assert JmpAt(c, Follow(c, y, 0));
    assert JmpAt(c, Follow(c, y, 1));
    if n: nat :| !JmpAt(c, Follow(c, Target(c, y), n)) { assert Follow(c, y, n + 1) == Follow(c, Target(c, y), n); }
  }

  lemma PeepAtRunChanges(c: Code, i: int, n: nat)
    requires InstAt(c, i) && PeepAtRun(c, i, n).Some? && Spaced(c)
    ensures ChangedAt(c, i, PeepAtRun(c, i, n).value) && Spaced(PeepAtRun(c, i, n).value)
    ensures InstAt(PeepAtRun(c, i, n).value, i)
    ensures Labelled(c[i].op) && c[i].op == IJmp && i + 1 < |c| ==> Settles(c, i)
  {
    hide TargetRun, Settles;
    if c[i].op == IJmp && i + 1 < |c| { TargetRunIs(c, i, n); }
    var c1 := PeepAtRun(c, i, n).value;
    if c1 != c { StillSpaced(c, i, c1); }
  }

  lemma StillSpaced(c: Code, i: int, c1: Code)
    requires Spaced(c) && ChangedAt(c, i, c1) && InstAt(c, i) && Labelled(c[i].op) && i + 1 < |c| && c1[i].Inst?
    requires Size(c1[i].op) <= Size(c[i].op)
    requires c1[i + 1].Inst? ==> Size(c1[i].op) == Size(c1[i + 1].op) == 1
    ensures Spaced(c1)
  {
    forall x, y | InstAt(c1, x) && InstAt(c1, y) && x < y ensures x + Size(c1[x].op) <= y {
      if x != i + 1 && y != i + 1 {
        assert InstAt(c, x) && InstAt(c, y);
      } else if x == i + 1 {
        assert InstAt(c, i) && InstAt(c, y);
      } else if x != i {
        assert InstAt(c, x) && InstAt(c, i);
      }
    }
  }

  lemma {:induction false} EndlessPeep(c: Code, i: nat, y: int, n: nat)
    requires Spaced(c) && !Settles(c, y) && i <= y
    ensures PeepRun(c, i, n).None?
    decreases |c| - i
  {
    hide Settles, PeepAtRun, Spaced;
    EndlessStep(c, y);
    if PeepAtRun(c, i, n).Some? {
      var c1 := PeepAtRun(c, i, n).value;
      EndlessTurn(c, i, c1, y, n);
      EndlessPeep(c1, i + if c1[i].Inst? then Size(c1[i].op) else 1, y, n);
    }
  }

  /** A turn of the optimizer before the endless jump leaves it endless, and ahead. */
  lemma EndlessTurn(c: Code, i: nat, c1: Code, y: int, n: nat)
    requires Spaced(c) && !Settles(c, y) && i <= y && PeepAtRun(c, i, n) == Some(c1)
    ensures |c1| == |c| && Spaced(c1) && !Settles(c1, y) && i < |c| &&
            i + (if c1[i].Inst? then Size(c1[i].op) else 1) <= y
  {
    hide Settles;
    EndlessStep(c, y);
    assert InstAt(c, y);
    if !InstAt(c, i) || !Labelled(c[i].op) {
      assert c1 == c && i != y;
      assert InstAt(c, i) ==> i + Size(c[i].op) <= y;
    } else {
      PeepAtRunChanges(c, i, n);
      assert i != y;
      StillEndless(c, i, c1, y);
      EndlessStep(c1, y);
      assert InstAt(c1, i) && InstAt(c1, y);
    }
  }

  lemma StillEndless(c: Code, i: int, c1: Code, y: int)
    requires Spaced(c) && ChangedAt(c, i, c1) && !Settles(c, y)
    requires InstAt(c, i) && Labelled(c[i].op) && (c[i].op == IJmp ==> Settles(c, i))
    ensures !Settles(c1, y)
  {
    hide Spaced, ChangedAt;
    forall n: nat ensures JmpAt(c1, Follow(c1, y, n)) { FollowUnchanged(c, i, c1, y, n); }
  }

  // ---------------------------------------------------------------- where there is an endless chain

  /** An endless chain of a part is one of the whole. */
  lemma Lifted(pre: Code, part: Code, post: Code, c: Code, y: int)
    requires !Settles(part, y) && c == pre + part + post
    ensures !Settles(c, |pre| + y)
  {
    hide Settles;
    var z := |pre| + y;
    forall n: nat ensures JmpAt(c, Follow(c, z, n)) { LiftedSteps(pre, part, post, c, y, n); }
    StaysEndless(c, z);
  }

  lemma StaysEndless(c: Code, y: int)
    requires forall n: nat :: JmpAt(c, Follow(c, y, n))
    ensures !Settles(c, y)
  {
  }

  lemma {:induction false} LiftedSteps(pre: Code, part: Code, post: Code, c: Code, y: int, n: nat)
    requires !Settles(part, y) && c == pre + part + post
    ensures Follow(c, |pre| + y, n) == |pre| + Follow(part, y, n) && JmpAt(c, Follow(c, |pre| + y, n))
    decreases n
  {
    hide Settles;
    EndlessStep(part, y);
    assert c[|pre| + y] == part[y] && c[|pre| + y + 1] == part[y + 1];
    if n > 0 { LiftedSteps(pre, part, post, c, Target(part, y), n - 1); }
  }

  /** Linking leaves endless chains as they are. */
  lemma LinkedEndless(body: Code, starts: seq<nat>, y: int)
    requires !Settles(body, y)
    ensures !Settles(Link(body, starts, true), y)
  {
    hide Settles;
    var c := Link(body, starts, true);
    forall n: nat ensures JmpAt(c, Follow(c, y, n)) { LinkedSteps(body, starts, y, n); }
    StaysEndless(c, y);
  }

  lemma {:induction false} LinkedSteps(body: Code, starts: seq<nat>, y: int, n: nat)
    requires !Settles(body, y)
    ensures var c := Link(body, starts, true); Follow(c, y, n) == Follow(body, y, n) && JmpAt(c, Follow(c, y, n))
    decreases n
  {
    hide Settles, TailCall;
    EndlessStep(body, y);
    if n > 0 { LinkedSteps(body, starts, Target(body, y), n - 1); }
  }

  /** If not all chains of jumps end, the code of the tree has an endless one. */
  lemma {:induction false} EndlessCode(g: Rules, p: Tree, opt: bool, tt: Dominating, fl: Charset, d: nat)
      returns (y: int)
    requires WellFormed(g, p, d) && !JumpsEnd(g, p, d)
    ensures !Settles(Gen(g, p, opt, tt, fl, d, true), y)
    decreases p, 2
  {
    hide Gen, WellFormed, Settles, HeadFail, FixedLen, FirstOf, AndByLength, CaptureByLength, SeqFollow, SeqProtecting,
      LeadsEnd, NotCode, GoBack;
    WellFormedParts(g, p, d);
    match p
    case TSeq(_, _) => y := EndlessSeq(g, p, opt, tt, fl, d);
    case TChoice(_, _) => y := EndlessChoice(g, p, opt, tt, fl, d);
    case TRep(_) => y := EndlessRep(g, p, opt, tt, fl, d);
    case TNot(q) =>
      GenNot(g, q, opt, tt, fl, d, true);
      y := EndlessCode(g, q, false, None, FullSet(), d);
      y := EndlessNot(FirstOf(g, q, d), Gen(g, q, false, None, FullSet(), d, true), y);
    case TAnd(q) => y := EndlessAnd(g, p, opt, tt, fl, d);
    case TBehind(n, q) =>
      GenLeaf(g, p, opt, tt, fl, d, true);
      y := EndlessCode(g, q, false, None, FullSet(), d);
      var c := Gen(g, q, false, None, FullSet(), d, true);
      assert GoBack(n) + c == GoBack(n) + c + [];
      Lifted(GoBack(n), c, [], GoBack(n) + c, y);
      y := |GoBack(n)| + y;
    case TCapture(_, _, _) => y := EndlessCapture(g, p, opt, tt, fl, d);
    case TGrammar(_) => y := EndlessGrammar(g, p, opt, tt, fl, d);
  }

  lemma EndlessSeq(g: Rules, p: Tree, opt: bool, tt: Dominating, fl: Charset, d: nat) returns (y: int)
    requires p.TSeq? && WellFormed(g, p, d) && !JumpsEnd(g, p, d)
    ensures !Settles(Gen(g, p, opt, tt, fl, d, true), y)
    decreases p, 1
  {
    hide Gen, WellFormed, Settles, FixedLen, SeqFollow, SeqProtecting;
    WellFormedParts(g, p, d);
    var p1, p2, fl1, tt2 := p.first, p.second, SeqFollow(g, p.first, p.second, fl, d), SeqProtecting(g, p.first, tt, d);
    var c1, c2 := Gen(g, p1, false, tt, fl1, d, true), Gen(g, p2, opt, tt2, fl, d, true);
    GenSeq(g, p1, p2, opt, tt, fl, d, true);
    if !JumpsEnd(g, p1, d) {
      y := EndlessCode(g, p1, false, tt, fl1, d);
      assert c1 + c2 == [] + c1 + c2;
      Lifted([], c1, c2, c1 + c2, y);
    } else {
      y := EndlessCode(g, p2, opt, tt2, fl, d);
      assert c1 + c2 == c1 + c2 + [];
      Lifted(c1, c2, [], c1 + c2, y);
      y := |c1| + y;
    }
  }

  lemma EndlessChoice(g: Rules, p: Tree, opt: bool, tt: Dominating, fl: Charset, d: nat) returns (y: int)
    requires p.TChoice? && WellFormed(g, p, d) && !JumpsEnd(g, p, d)
    ensures !Settles(Gen(g, p, opt, tt, fl, d, true), y)
    decreases p, 1
  {
    hide Gen, WellFormed, Settles, FirstOf, ChoiceByTest, ChoiceByTestCode, ChoiceCode;
    WellFormedParts(g, p, d);
    var p1, p2, f := p.left, p.right, FirstOf(g, p.left, d);
    var left := !JumpsEnd(g, p1, d);
    if ChoiceByTest(g, p1, p2, fl, d) {
      GenChoiceByTest(g, p1, p2, opt, tt, fl, d, true);
      if left { y := EndlessCode(g, p1, false, Some(f.cs), fl, d); }
      else { y := EndlessCode(g, p2, opt, None, fl, d); }
      y := EndlessByTest(f.cs, Gen(g, p1, false, Some(f.cs), fl, d, true), p2.TTrue?,
                         Gen(g, p2, opt, None, fl, d, true), left, y);
    } else if opt && p2.TTrue? {
      GenOptionReuse(g, p1, tt, fl, d, true);
      y := EndlessCode(g, p1, true, None, FullSet(), d);
      var c1 := Gen(g, p1, true, None, FullSet(), d, true);
      assert Jump(IPartialCommit, 2) + c1 == Jump(IPartialCommit, 2) + c1 + [];
      Lifted(Jump(IPartialCommit, 2), c1, [], Jump(IPartialCommit, 2) + c1, y);
      y := 2 + y;
    } else {
      GenChoice(g, p1, p2, opt, tt, fl, d, true);
      if left { y := EndlessCode(g, p1, p2.TTrue?, Protecting(f), FullSet(), d); }
      else { y := EndlessCode(g, p2, opt, None, fl, d); }
      y := EndlessKeeping(f, Gen(g, p1, p2.TTrue?, Protecting(f), FullSet(), d, true),
                          Gen(g, p2, opt, None, fl, d, true), left, y);
    }
  }

  lemma EndlessByTest(cs: Charset, c1: Code, empty2: bool, c2: Code, left: bool, y0: int) returns (y: int)
    requires !Settles(if left then c1 else c2, y0)
    ensures !Settles(ChoiceByTestCode(cs, c1, empty2, c2), y)
  {
    hide Settles, Test;
    var jmp := if empty2 then [] else Jump(IJmp, 2 + |c2|);
    var test := Test(cs, |Test(cs, 0)| + |c1| + |jmp|);
    var c := ChoiceByTestCode(cs, c1, empty2, c2);
    if left {
      assert c == test + c1 + (jmp + c2);
      Lifted(test, c1, jmp + c2, c, y0);
      y := |test| + y0;
    } else {
      assert c == test + c1 + jmp + c2 + [];
      Lifted(test + c1 + jmp, c2, [], c, y0);
      y := |test + c1 + jmp| + y0;
    }
  }

  lemma EndlessKeeping(f: First, c1: Code, c2: Code, left: bool, y0: int) returns (y: int)
    requires !Settles(if left then c1 else c2, y0)
    ensures !Settles(ChoiceCode(f, c1, c2), y)
  {
    hide Settles, OptTest;
    var pre := OptTest(f, |OptTest(f, 0)| + 4 + |c1|) + Jump(IChoice, 4 + |c1|);
    var c := ChoiceCode(f, c1, c2);
    if left {
      assert c == pre + c1 + (Jump(ICommit, 2 + |c2|) + c2);
      Lifted(pre, c1, Jump(ICommit, 2 + |c2|) + c2, c, y0);
      y := |pre| + y0;
    } else {
      assert c == pre + c1 + Jump(ICommit, 2 + |c2|) + c2 + [];
      Lifted(pre + c1 + Jump(ICommit, 2 + |c2|), c2, [], c, y0);
      y := |pre + c1 + Jump(ICommit, 2 + |c2|)| + y0;
    }
  }

  lemma EndlessRep(g: Rules, p: Tree, opt: bool, tt: Dominating, fl: Charset, d: nat) returns (y: int)
    requires p.TRep? && WellFormed(g, p, d) && !JumpsEnd(g, p, d)
    ensures !Settles(Gen(g, p, opt, tt, fl, d, true), y)
    decreases p, 1
  {
    hide Gen, WellFormed, Settles, FirstOf, RepByTest, Test, OptTest;
    WellFormedParts(g, p, d);
    var q, f := p.body, FirstOf(g, p.body, d);
    if RepByTest(g, q, fl, d) {
      GenRepByTest(g, q, opt, tt, fl, d, true);
      y := EndlessCode(g, q, false, Some(f.cs), FullSet(), d);
      var c := Gen(g, q, false, Some(f.cs), FullSet(), d, true);
      var n := |Test(f.cs, 0)| + |c|;
      Lifted(Test(f.cs, n + 2), c, Jump(IJmp, -n), RepByTestCode(f.cs, c), y);
      y := |Test(f.cs, n + 2)| + y;
    } else {
      GenRep(g, q, opt, tt, fl, d, true);
      y := EndlessCode(g, q, false, None, FullSet(), d);
      var c := Gen(g, q, false, None, FullSet(), d, true);
      var pre := OptTest(f, |OptTest(f, 0)| + 4 + |c|) + RepHead(opt, c);
      Lifted(pre, c, Jump(IPartialCommit, -|c|), RepCode(f, opt, c), y);
      y := |pre| + y;
    }
  }

  lemma EndlessNot(f: First, c: Code, y0: int) returns (y: int)
    requires !Settles(c, y0)
    ensures !Settles(NotCode(f, c), y)
  {
    hide Settles, OptTest;
    var pre := OptTest(f, |OptTest(f, 0)| + 3 + |c|) + Jump(IChoice, 3 + |c|);
    Lifted(pre, c, I(IFailTwice), NotCode(f, c), y0);
    y := |pre| + y0;
  }

  lemma EndlessAnd(g: Rules, p: Tree, opt: bool, tt: Dominating, fl: Charset, d: nat) returns (y: int)
    requires p.TAnd? && WellFormed(g, p, d) && !JumpsEnd(g, p, d)
    ensures !Settles(Gen(g, p, opt, tt, fl, d, true), y)
    decreases p, 1
  {
    hide Gen, WellFormed, Settles, AndByLength, FixedLen, GoBack;
    WellFormedParts(g, p, d);
    var q := p.body;
    GenAnd(g, q, opt, tt, fl, d, true);
    y := EndlessCode(g, q, false, tt, FullSet(), d);
    var c := Gen(g, q, false, tt, FullSet(), d, true);
    if AndByLength(g, q, d) {
      var back := GoBack(FixedLen(g, q, d));
      assert c + back == [] + c + back;
      Lifted([], c, back, c + back, y);
    } else {
      assert AndCode(c) == Jump(IChoice, 4 + |c|) + c + (Jump(IBackCommit, 3) + I(IFail));
      Lifted(Jump(IChoice, 4 + |c|), c, Jump(IBackCommit, 3) + I(IFail), AndCode(c), y);
      y := 2 + y;
    }
  }

  lemma EndlessCapture(g: Rules, p: Tree, opt: bool, tt: Dominating, fl: Charset, d: nat) returns (y: int)
    requires p.TCapture? && WellFormed(g, p, d) && !JumpsEnd(g, p, d)
    ensures !Settles(Gen(g, p, opt, tt, fl, d, true), y)
    decreases p, 1
  {
    hide Gen, WellFormed, Settles, CaptureByLength, FixedLen;
    WellFormedParts(g, p, d);
    var q, kind, key := p.body, p.kind, p.key;
    GenCapture(g, kind, key, q, opt, tt, fl, d, true);
    y := EndlessCode(g, q, false, tt, fl, d);
    var c := Gen(g, q, false, tt, fl, d, true);
    if CaptureByLength(g, q, d) {
      var n := FixedLen(g, q, d);
      assert FullCaptureCode(kind, key, n, c) == [] + c + [Inst(IFullCapture, kind + 16 * n, key)];
      Lifted([], c, [Inst(IFullCapture, kind + 16 * n, key)], FullCaptureCode(kind, key, n, c), y);
    } else {
      Lifted([Inst(IOpenCapture, kind, key)], c, I(ICloseCapture), OpenCaptureCode(kind, key, c), y);
      y := 1 + y;
    }
  }

  lemma EndlessGrammar(g: Rules, p: Tree, opt: bool, tt: Dominating, fl: Charset, d: nat) returns (y: int)
    requires p.TGrammar? && WellFormed(g, p, d) && !JumpsEnd(g, p, d)
    ensures !Settles(Gen(g, p, opt, tt, fl, d, true), y)
    decreases p, 1
  {
    hide Gen, WellFormed, Settles, LeadsEnd, Link, Flatten, Starts, GenRules, RuleLeads;
    WellFormedParts(g, p, d);
    var rules := p.rules;
    var codes := GenRules(rules, rules, d, true);
    GenLeaf(g, p, opt, tt, fl, d, true);
    var linked := Link(Flatten(codes), Starts(codes, 0), true);
    if !LeadsEnd(RuleLeads(rules, d)) {
      y := EndlessLeads(rules, d);
    } else {
      var k :| 0 <= k < |rules| && !JumpsEnd(rules, rules[k], d);
      y := EndlessCode(rules, rules[k], false, None, FullSet(), d);
      y := EndlessRule(rules, d, k, y);
    }
    var head := Jump(ICall, 4) + Jump(IJmp, 2 + |Flatten(codes)|);
    assert GrammarCode(codes, true) == head + linked + [];
    Lifted(head, linked, [], GrammarCode(codes, true), y);
    y := |head| + y;
  }

  lemma EndlessRule(rules: Rules, d: nat, k: nat, y0: int) returns (y: int)
    requires k < |rules| && !Settles(Gen(rules, rules[k], false, None, FullSet(), d, true), y0)
    ensures var codes := GenRules(rules, rules, d, true); !Settles(Link(Flatten(codes), Starts(codes, 0), true), y)
  {
    hide Gen, Settles, Link, Flatten, Starts;
    var codes, c := GenRules(rules, rules, d, true), Gen(rules, rules[k], false, None, FullSet(), d, true);
    var pre, post := StartsAt(codes, 0, k);
    assert Flatten(codes) == pre + c + (I(IRet) + post);
    Lifted(pre, c, I(IRet) + post, Flatten(codes), y0);
    y := |pre| + y0;
    LinkedEndless(Flatten(codes), Starts(codes, 0), y);
  }

  lemma EndlessLeads(rules: Rules, d: nat) returns (y: int)
    requires forall k :: 0 <= k < |rules| ==> WellFormed(rules, rules[k], d)
    requires !LeadsEnd(RuleLeads(rules, d))
    ensures var codes := GenRules(rules, rules, d, true); !Settles(Link(Flatten(codes), Starts(codes, 0), true), y)
  {
    hide Gen, WellFormed, JumpsEnd, Settles, LeadsEnd, RuleLeads, RulesLead, Link, Flatten, Starts, PointOk, SettledBut,
      Paired, JmpsComplete;
    var codes0, codes := GenRules(rules, rules, d, false), GenRules(rules, rules, d, true);
    var ts := RulesCaseGood(rules, rules, d, false);
    FlattenGood(codes0, codes, ts, Setting(|rules|, false));
    RulesLeadTo(rules, d);
    var linked := Link(Flatten(codes), Starts(codes, 0), true);
    StartsLength(codes, 0);
    if forall k :: 0 <= k < |codes| ==> Settles(linked, Starts(codes, 0)[k]) {
      SettledLeads(codes, FlattenTops(ts), RuleLeads(rules, d));
    }
    var k :| 0 <= k < |codes| && !Settles(linked, Starts(codes, 0)[k]);
    y := Starts(codes, 0)[k];
  }

  // ---------------------------------------------------------------- what a run of the compiler shows

  lemma ProgramSpaced(p: Tree, d: nat)
    ensures Spaced(CompileTree(p, d, true))
  {
    hide Gen, Walk;
    var c, g := CompileTree(p, d, true), Gen([], p, false, None, FullSet(), d, true);
    GenWalks([], p, false, None, FullSet(), d, true);
    IWalks(Inst(IEnd, 0, 0));
    WalkAppend(g, I(IEnd), 0);
    forall x, y | InstAt(c, x) && InstAt(c, y) && x < y ensures x + Size(c[x].op) <= y { WalkSpaced(c, 0, x, y); }
  }

  /** A compiler that comes to an end has been given a tree that can be compiled, and returns its program. */
  lemma RunCompilable(p: Tree, n: nat)
    requires WellFormed([], p, n) && CompileRun(p, n).Some?
    ensures Compilable([], p, n) && CompileRun(p, n) == Some(Compiled(p, n))
  {
    hide Gen, WellFormed, AnalysesEnd, JumpsEnd, GenBack, PeepRun, Spaced, Settles, Whole, PeepFrom;
    GenBackEnds([], p, n, n);
    var c, g := CompileTree(p, n, true), Gen([], p, false, None, FullSet(), n, true);
    if !JumpsEnd([], p, n) {
      var y := EndlessCode([], p, false, None, FullSet(), n);
      assert c == [] + g + I(IEnd);
      Lifted([], g, I(IEnd), c, y);
      ProgramSpaced(p, n);
      EndlessStep(c, y);
      EndlessPeep(c, 0, y, n);
    }
    CompiledWhole(p, n);
    var k := PeepBack(c, 0);
    PeepMore(c, 0, n, if n < k then k else n);
  }

  lemma {:induction false} TargetMore(c: Code, i: int, n: nat, m: nat)
    requires TargetRun(c, i, n).Some? && n <= m
    ensures TargetRun(c, i, m) == TargetRun(c, i, n)
    decreases n
  {
    if JmpAt(c, i) { TargetMore(c, Target(c, i), n - 1, m - 1); }
  }

  lemma PeepAtMore(c: Code, i: int, n: nat, m: nat)
    requires PeepAtRun(c, i, n).Some? && n <= m
    ensures PeepAtRun(c, i, m) == PeepAtRun(c, i, n)
  {
    hide TargetRun;
    if InstAt(c, i) && Labelled(c[i].op) && i + 1 < |c| {
      if c[i].op != IJmp {
        TargetMore(c, Target(c, i), n, m);
      } else {
        TargetMore(c, i, n, m);
        var ft := TargetRun(c, i, n).value;
        if InstAt(c, ft) && c[ft].op in {ICommit, IPartialCommit, IBackCommit} {
          TargetMore(c, Target(c, ft), n, m);
          var c1 := c[i := c[ft]][i + 1 := Offset(TargetRun(c, Target(c, ft), n).value - i)];
          TargetMore(c1, Target(c1, i), n, m);
        }
      }
    }
  }

  lemma {:induction false} PeepMore(c: Code, i: nat, n: nat, m: nat)
    requires PeepRun(c, i, n).Some? && n <= m
    ensures PeepRun(c, i, m) == PeepRun(c, i, n)
    decreases |c| - i
  {
    hide PeepAtRun;
    if i < |c| {
      PeepAtMore(c, i, n, m);
      var c1 := PeepAtRun(c, i, n).value;
      PeepMore(c1, i + if c1[i].Inst? then Size(c1[i].op) else 1, n, m);
    }
  }
}
