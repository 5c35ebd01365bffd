/** The peephole optimizer of lpcode.c changes no run. */
module LpegPeephole {
  import opened LpegTree
  import opened LpegVm
  import opened LpegCodegen
  import opened LpegLabels

  predicate InstAt(c: Code, x: int) { 0 <= x < |c| && c[x].Inst? }

  /** An instruction is followed by its label, if it has one, and by another instruction; only the
      last one, `end`, is followed by nothing. */
  predicate Complete(c: Code, x: int)
    requires InstAt(c, x)
  {
    && (InstAt(c, x + Size(c[x].op)) || (x == |c| - 1 && c[x].op == IEnd))
    && (Labelled(c[x].op) ==> x + 1 < |c| && c[x + 1].Offset? && InstAt(c, Target(c, x)))
  }

  /** A whole program: all instructions are complete, and all chains of jumps end. */
  ghost predicate Whole(c: Code) {
    forall x :: InstAt(c, x) ==> Complete(c, x) && Settles(c, x)
  }

  lemma WholeAt(c: Code, x: int)
    requires Whole(c) && InstAt(c, x)
    ensures Complete(c, x) && Settles(c, x)
  {
    hide Complete, Settles;
  }

  lemma WholeIntro(c: Code)
    requires forall x :: InstAt(c, x) ==> Complete(c, x) && Settles(c, x)
    ensures Whole(c)
  {
    hide Complete, Settles;
  }

  // ---------------------------------------------------------------- the optimizer

  ghost function FinalLabel(c: Code, i: int): int {
    FinalTarget(c, Target(c, i))
  }

  ghost function Retarget(c: Code, i: int, y: int): Code
    requires 0 <= i && i + 1 < |c|
  {
    c[i + 1 := Offset(y - i)]
  }

  /** What becomes of the instruction at `i`. */
  ghost function PeepAt(c: Code, i: int): (r: Code)
    ensures |r| == |c|
  {
    if !InstAt(c, i) || !Labelled(c[i].op) || i + 1 >= |c| then c
    else if c[i].op != IJmp then Retarget(c, i, FinalLabel(c, i))
    else
      var ft := FinalTarget(c, i);
      if !InstAt(c, ft) then c
      else if c[ft].op in {IRet, IFail, IFailTwice, IEnd} then c[i := c[ft]][i + 1 := Inst(IAny, 0, 0)]
      else if c[ft].op in {ICommit, IPartialCommit, IBackCommit} then Retarget(c[i := c[ft]], i, FinalLabel(c, ft))
      else Retarget(c, i, ft)
  }

  ghost function PeepFrom(c: Code, i: nat): (r: Code)
    ensures |r| == |c|
    decreases |c| - i
  {
    if i >= |c| then c
    else
      var c1 := PeepAt(c, i);
      PeepFrom(c1, i + if c1[i].Inst? then Size(c1[i].op) else 1)
  }

  ghost function Optimized(c: Code): Code { PeepFrom(c, 0) }

  // ---------------------------------------------------------------- final targets

  lemma FinalTargetHere(c: Code, i: int)
    requires !JmpAt(c, i)
    ensures Settles(c, i) && FinalTarget(c, i) == i
  {
    FinalTargetIs(c, i, 0);
  }

  lemma FinalTargetJump(c: Code, i: int)
    requires JmpAt(c, i) && Settles(c, i)
    ensures Settles(c, Target(c, i)) && FinalTarget(c, i) == FinalTarget(c, Target(c, i))
  {
    var n := FinalTargetStops(c, i);
    assert n > 0;
    assert Follow(c, i, n) == Follow(c, Target(c, i), n - 1);
    FinalTargetIs(c, Target(c, i), n - 1);
  }

  lemma {:induction false} FollowInst(c: Code, i: int, n: nat)
    requires Whole(c) && InstAt(c, i)
    ensures InstAt(c, Follow(c, i, n))
    decreases n
  {
    hide Whole, Settles;
    if n > 0 && JmpAt(c, i) {
      WholeAt(c, i);
      FollowInst(c, Target(c, i), n - 1);
    }
  }

  lemma FinalTargetInst(c: Code, i: int)
    requires Whole(c) && InstAt(c, i)
    ensures Settles(c, i) && InstAt(c, FinalTarget(c, i)) && !JmpAt(c, FinalTarget(c, i))
  {
    hide Whole, Complete, Settles, FinalTarget;
    WholeAt(c, i);
    var n := FinalTargetStops(c, i);
    FollowInst(c, i, n);
  }

  // ---------------------------------------------------------------- one step of the optimizer

  /** How `c1` relates to `c` when one instruction, at `i`, has been optimized. */
  ghost predicate Peeped(c: Code, i: int, c1: Code) {
    && InstAt(c, i) && i + 1 < |c| == |c1| && c[i + 1].Offset?
    && (forall x :: 0 <= x < |c| && x != i && x != i + 1 ==> c1[x] == c[x])
    && (|| Redirected(c, i, c1)
        || Copied(c, i, c1))
  }

  /** A label now leads to where its chain ends. */
  ghost predicate Redirected(c: Code, i: int, c1: Code)
    requires InstAt(c, i) && i + 1 < |c| == |c1|
  {
    Labelled(c[i].op) && c1[i] == c[i] && c1[i + 1] == Offset(FinalLabel(c, i) - i)
  }

  /** A jump now is the instruction where its chain ends. */
  ghost predicate Copied(c: Code, i: int, c1: Code)
    requires InstAt(c, i) && i + 1 < |c| == |c1|
  {
    var ft := FinalTarget(c, i);
    && JmpAt(c, i) && InstAt(c, ft) && c1[i] == c[ft]
    && (|| (c[ft].op in {IRet, IFail, IFailTwice, IEnd} && c1[i + 1] == Inst(IAny, 0, 0))
        || (c[ft].op in {ICommit, IPartialCommit, IBackCommit} && c1[i + 1] == Offset(FinalLabel(c, ft) - i)))
  }

  lemma PeepAtPeeped(c: Code, i: int)
    requires Whole(c) && InstAt(c, i) && Labelled(c[i].op)
    ensures Peeped(c, i, PeepAt(c, i))
  {
    hide FinalTarget, Whole, Settles;
    FinalTargetInst(c, i);
    WholeAt(c, i);
    if c[i].op == IJmp {
      FinalTargetJump(c, i);
    }
  }

  /** In the optimized code the chain from `x` ends where it ended, or at a copy of that instruction. */
  ghost predicate EndsLike(c: Code, i: int, c1: Code, x: int) {
    var e := FinalTarget(c, x);
    && InstAt(c, i) && i + 1 < |c| == |c1| && Settles(c1, x)
    && (|| FinalTarget(c1, x) == e
        || (FinalTarget(c1, x) == i && JmpAt(c, i) && Copied(c, i, c1) && FinalTarget(c, i) == e))
  }

  lemma {:induction false} PeepEnds(c: Code, i: int, c1: Code, x: int, n: nat)
    requires Whole(c) && InstAt(c, x) && Peeped(c, i, c1) && !JmpAt(c, Follow(c, x, n))
    ensures EndsLike(c, i, c1, x)
    decreases n
  {
    hide FinalTarget, Settles, Whole;
    WholeAt(c, x);
    if !JmpAt(c, x) {
      FinalTargetHere(c, x);
      FinalTargetHere(c1, x);
    } else {
      FinalTargetIs(c, x, n);
      FinalTargetJump(c, x);
      if x != i {
        assert c1[x] == c[x] && c1[x + 1] == c[x + 1];
        PeepEnds(c, i, c1, Target(c, x), n - 1);
        var m := FinalTargetStops(c1, Target(c, x));
        assert Follow(c1, x, m + 1) == Follow(c1, Target(c, x), m);
        FinalTargetIs(c1, x, m + 1);
      } else {
        PeepEndsHere(c, i, c1);
      }
    }
  }

  lemma PeepEndsHere(c: Code, i: int, c1: Code)
    requires Whole(c) && Peeped(c, i, c1) && JmpAt(c, i)
    ensures EndsLike(c, i, c1, i)
  {
    hide FinalTarget, Settles, Whole, Complete;
    FinalTargetInst(c, i);
    if Copied(c, i, c1) {
      FinalTargetHere(c1, i);
    } else {
      FinalTargetJump(c, i);
      var e := FinalTarget(c, i);
      assert Target(c1, i) == e;
      assert c1[e] == c[e];
      FinalTargetHere(c1, e);
      assert Follow(c1, i, 1) == Follow(c1, e, 0);
      FinalTargetIs(c1, i, 1);
    }
  }

  lemma PeepEndsAny(c: Code, i: int, c1: Code, x: int)
    requires Whole(c) && Peeped(c, i, c1) && InstAt(c, x)
    ensures EndsLike(c, i, c1, x)
  {
    hide FinalTarget, Settles, Whole, Complete, Peeped, EndsLike;
    WholeAt(c, x);
    var n := FinalTargetStops(c, x);
    PeepEnds(c, i, c1, x, n);
  }

  lemma PeepComplete(c: Code, i: int, c1: Code, x: int)
    requires Whole(c) && Peeped(c, i, c1) && InstAt(c1, x)
    ensures Complete(c1, x) && (InstAt(c, x) || !JmpAt(c1, x))
  {
    hide FinalTarget, Settles, Whole;
    WholeAt(c, i);
    if x != i && x != i + 1 {
      WholeAt(c, x);
    } else if x == i {
      FinalTargetInst(c, i);
      if JmpAt(c, i) { FinalTargetJump(c, i); } else { FinalTargetInst(c, Target(c, i)); }
      var ft := FinalTarget(c, i);
      if Copied(c, i, c1) {
        WholeAt(c, ft);
        if Labelled(c[ft].op) { FinalTargetInst(c, Target(c, ft)); }
      }
    }
  }

  lemma PeepKeeps(c: Code, i: int, c1: Code, x: int)
    requires Peeped(c, i, c1) && InstAt(c, x)
    ensures InstAt(c1, x)
  {
    hide FinalTarget;
  }

  lemma PeepWhole(c: Code, i: int, c1: Code)
    requires Whole(c) && Peeped(c, i, c1)
    ensures Whole(c1)
    ensures forall x :: InstAt(c, x) ==> InstAt(c1, x)
  {
    hide FinalTarget, Complete, Settles, Copied, Redirected, Whole;
    forall x | InstAt(c1, x) ensures Complete(c1, x) && Settles(c1, x) {
      PeepComplete(c, i, c1, x);
      if InstAt(c, x) { PeepEndsAny(c, i, c1, x); } else { FinalTargetHere(c1, x); }
    }
    forall x | InstAt(c, x) ensures InstAt(c1, x) { PeepKeeps(c, i, c1, x); }
    WholeIntro(c1);
  }

  // ---------------------------------------------------------------- runs, jump chains taken at once

  /** Follows the chain of jumps and executes the instruction where it ends. */
  ghost function Leap(c: Code, subj: Subject, k: Config): Config {
    if !k.Run? then k
    else if !InstAt(c, k.pc) then Stuck
    else Step(c, subj, k.(pc := FinalTarget(c, k.pc)))
  }

  ghost function Leaps(c: Code, subj: Subject, k: Config, n: nat): Config
    decreases n
  {
    if n == 0 then k else Leaps(c, subj, Leap(c, subj, k), n - 1)
  }

  lemma LeapJump(c: Code, subj: Subject, k: Config)
    requires Whole(c) && k.Run? && k.s <= |subj| && JmpAt(c, k.pc)
    ensures Leap(c, subj, Step(c, subj, k)) == Leap(c, subj, k)
  {
    hide Whole, FinalTarget, Settles, Step;
    WholeAt(c, k.pc);
    JumpStep(c, subj, k);
    FinalTargetJump(c, k.pc);
  }

  lemma LeapStep(c: Code, subj: Subject, k: Config)
    requires Whole(c) && (!k.Run? || k.s > |subj| || !JmpAt(c, k.pc))
    ensures Leap(c, subj, k) == Step(c, subj, k)
  {
    hide Whole, FinalTarget, Settles, Exec;
    if k.Run? && !JmpAt(c, k.pc) { FinalTargetHere(c, k.pc); }
  }

  /** A run that halts halts when chains are taken at once. */
  lemma {:induction false} HaltsByLeaps(c: Code, subj: Subject, k: Config, n: nat) returns (m: nat)
    requires Whole(c) && !Steps(c, subj, k, n).Run?
    ensures Leaps(c, subj, k, m) == Steps(c, subj, k, n)
    decreases n
  {
    hide Whole, Leap, Step;
    m := 0;
    if n > 0 {
      if !k.Run? {
        StepsStay(c, subj, k, n);
      } else {
        m := HaltsByLeaps(c, subj, Step(c, subj, k), n - 1);
        if k.s <= |subj| && JmpAt(c, k.pc) {
          JumpStep(c, subj, k);
          LeapJump(c, subj, k);
        } else {
          LeapStep(c, subj, k);
          m := m + 1;
        }
      }
    }
  }

  lemma {:induction false} ChainReaches(c: Code, subj: Subject, k: Config, n: nat)
    requires k.Run? && k.s <= |subj|
    ensures Reaches(c, subj, k, k.(pc := Follow(c, k.pc, n)))
    decreases n
  {
    hide Step;
    if n > 0 && JmpAt(c, k.pc) {
      JumpStep(c, subj, k);
      ReachesStep(c, subj, k);
      ChainReaches(c, subj, Step(c, subj, k), n - 1);
      ReachesTrans(c, subj, k, Step(c, subj, k), k.(pc := Follow(c, k.pc, n)));
    } else {
      ReachesRefl(c, subj, k);
    }
  }

  lemma LeapReaches(c: Code, subj: Subject, k: Config)
    requires Whole(c)
    ensures Reaches(c, subj, k, Leap(c, subj, k))
  {
    hide Whole, FinalTarget, Exec, Reaches;
    if !k.Run? {
      ReachesRefl(c, subj, k);
    } else if !InstAt(c, k.pc) || k.s > |subj| {
      ReachesStep(c, subj, k);
    } else {
      WholeAt(c, k.pc);
      var n := FinalTargetStops(c, k.pc);
      var there := k.(pc := FinalTarget(c, k.pc));
      ChainReaches(c, subj, k, n);
      ReachesStep(c, subj, there);
      ReachesTrans(c, subj, k, there, Step(c, subj, there));
    }
  }

  lemma {:induction false} LeapsReach(c: Code, subj: Subject, k: Config, n: nat)
    requires Whole(c)
    ensures Reaches(c, subj, k, Leaps(c, subj, k, n))
    decreases n
  {
    hide Whole, Leap, Reaches;
    if n == 0 {
      ReachesRefl(c, subj, k);
    } else {
      LeapReaches(c, subj, k);
      LeapsReach(c, subj, Leap(c, subj, k), n - 1);
      ReachesTrans(c, subj, k, Leap(c, subj, k), Leaps(c, subj, k, n));
    }
  }

  // ---------------------------------------------------------------- the two programs side by side

  /** Places from which the original program does the same. */
  ghost predicate Same(c: Code, x: int, y: int) {
    InstAt(c, x) && InstAt(c, y) && FinalTarget(c, x) == FinalTarget(c, y)
  }

  ghost predicate SameFrame(c: Code, f: Frame, g: Frame) {
    Same(c, f.pc, g.pc) && f == match g { case Choice(s, _, lvl) => Choice(s, f.pc,
        lvl) case Return(_) => Return(f.pc) }
  }

  ghost predicate SameStack(c: Code, stk: seq<Frame>, stk1: seq<Frame>) {
    |stk| == |stk1| && forall n :: 0 <= n < |stk| ==> SameFrame(c, stk[n], stk1[n])
  }

  ghost predicate Alike(c: Code, k: Config, k1: Config) {
    || (k == k1 && !k.Run?)
    || (k.Run? && k1.Run? && k.s == k1.s && k.caps == k1.caps && Same(c, k.pc, k1.pc) && SameStack(c, k.stk, k1.stk))
  }

  /** All places that a configuration refers to are instructions. */
  ghost predicate Placed(c: Code, k: Config) {
    k.Run? ==> InstAt(c, k.pc) && forall f :: f in k.stk ==> InstAt(c, f.pc)
  }

  lemma {:induction false} PopAlike(c: Code, stk: seq<Frame>, stk1: seq<Frame>, caps: seq<CapEntry>)
    requires SameStack(c, stk, stk1)
    ensures Alike(c, Pop(stk, caps), Pop(stk1, caps))
    decreases |stk|
  {
    hide Same;
    if stk != [] {
      assert SameFrame(c, stk[|stk| - 1], stk1[|stk| - 1]);
      PopAlike(c, stk[..|stk| - 1], stk1[..|stk| - 1], caps);
    }
  }

  lemma PushAlike(c: Code, stk: seq<Frame>, stk1: seq<Frame>, f: Frame, g: Frame)
    requires SameStack(c, stk, stk1) && SameFrame(c, f, g)
    ensures SameStack(c, stk + [f], stk1 + [g])
  {
    hide SameFrame;
  }

  lemma TopAlike(c: Code, stk: seq<Frame>, stk1: seq<Frame>)
    requires SameStack(c, stk, stk1) && stk != []
    ensures stk1 != [] && SameFrame(c, stk[|stk| - 1], stk1[|stk1| - 1]) &&
            SameStack(c, stk[..|stk| - 1], stk1[..|stk1| - 1])
  {
    hide SameFrame;
  }

  const GOES_ON := {IAny, IChar, ISet, ITestAny, ITestChar, ITestSet, ISpan, IBehind, IChoice, ICall, IOpenCall,
                    IFullCapture, IOpenCapture, ICloseCapture}

  /** The instruction at `e` of `c` and the one at `e1` of `c1` do the same. */
  ghost predicate SameInst(c: Code, e: int, c1: Code, e1: int) {
    && InstAt(c, e) && InstAt(c1, e1) && c1[e1] == c[e] && c[e].op != IJmp
    && (Labelled(c[e].op) ==> Same(c, Target(c, e), Target(c1, e1)))
    && (c[e].op in GOES_ON ==>
          && e1 == e && Same(c, e + Size(c[e].op), e + Size(c[e].op))
          && BuffAt(c1, e + 1) == BuffAt(c, e + 1) && BuffAt(c1, e + 2) == BuffAt(c, e + 2))
  }

  lemma ExecAlike(c: Code, e: int, c1: Code, e1: int, subj: Subject, k: Config, k1: Config)
    requires SameInst(c, e, c1, e1) && k.Run? && k1.Run? && k.s == k1.s <= |subj| && k.caps == k1.caps && k.pc == e &&
             k1.pc == e1
    requires SameStack(c, k.stk, k1.stk)
    ensures Alike(c, Step(c, subj, k), Step(c1, subj, k1))
  {
    hide Target, BuffAt, SpanEnd, Pop, CloseCapture, CanClose, InSet, Same, SameStack;
    var s, caps, stk, stk1 := k.s, k.caps, k.stk, k1.stk;
    PopAlike(c, stk, stk1, caps);
    EmptyAlike(c, stk, stk1);
    if Labelled(c[e].op) {
      PushAlike2(c, stk, stk1, s, |caps|, Target(c, e), Target(c1, e1));
    }
    if c[e].op == ICall { PushAlike(c, stk, stk1, Return(e + 2), Return(e + 2)); }
    if stk != [] {
      TopAlike(c, stk, stk1);
      var rest, rest1 := stk[..|stk| - 1], stk1[..|stk1| - 1];
      PopAlike(c, rest, rest1, caps);
      PushAlike2(c, rest, rest1, s, |caps|, stk[|stk| - 1].pc, stk1[|stk1| - 1].pc);
    }
  }

  lemma PushAlike2(c: Code, stk: seq<Frame>, stk1: seq<Frame>, s: nat, lvl: nat, x: int, y: int)
    requires SameStack(c, stk, stk1) && Same(c, x, y)
    ensures SameStack(c, stk + [Choice(s, x, lvl)], stk1 + [Choice(s, y, lvl)])
  {
    hide SameStack, Same;
    PushAlike(c, stk, stk1, Choice(s, x, lvl), Choice(s, y, lvl));
  }

  lemma EmptyAlike(c: Code, stk: seq<Frame>, stk1: seq<Frame>)
    requires SameStack(c, stk, stk1)
    ensures stk == [] <==> stk1 == []
  {
  }

  /** Where the chains end, the two programs have the same instruction. */
  lemma EndsSame(c: Code, i: int, c1: Code, x: int)
    requires Whole(c) && Peeped(c, i, c1) && InstAt(c, x)
    ensures InstAt(c1, x) && SameInst(c, FinalTarget(c, x), c1, FinalTarget(c1, x))
  {
    hide FinalTarget, Settles, Whole;
    PeepKeeps(c, i, c1, x);
    PeepEndsAny(c, i, c1, x);
    FinalTargetInst(c, x);
    var e, e1 := FinalTarget(c, x), FinalTarget(c1, x);
    WholeAt(c, e);
    if Labelled(c[e].op) {
      var t := Target(c, e);
      FinalTargetInst(c, t);
      FinalTargetHere(c, FinalTarget(c, t));
    }
  }

  lemma LeapAlike(c: Code, i: int, c1: Code, subj: Subject, k: Config, k1: Config)
    requires Whole(c) && Peeped(c, i, c1) && Alike(c, k, k1)
    ensures Alike(c, Leap(c, subj, k), Leap(c1, subj, k1))
  {
    hide FinalTarget, Whole, Exec, Peeped, SameStack;
    if k.Run? {
      EndsSame(c, i, c1, k1.pc);
      var e, e1 := FinalTarget(c, k.pc), FinalTarget(c1, k1.pc);
      if k.s <= |subj| { ExecAlike(c, e, c1, e1, subj, k.(pc := e), k1.(pc := e1)); }
    }
  }

  lemma {:induction false} LeapsAlike(c: Code, i: int, c1: Code, subj: Subject, k: Config, k1: Config, n: nat)
    requires Whole(c) && Peeped(c, i, c1) && Alike(c, k, k1)
    ensures Alike(c, Leaps(c, subj, k, n), Leaps(c1, subj, k1, n))
    decreases n
  {
    hide Whole, Peeped, Alike, Leap;
    if n > 0 {
      LeapAlike(c, i, c1, subj, k, k1);
      LeapsAlike(c, i, c1, subj, Leap(c, subj, k), Leap(c1, subj, k1), n - 1);
    }
  }

  lemma AlikeSelf(c: Code, k: Config)
    requires Placed(c, k)
    ensures Alike(c, k, k)
  {
    hide FinalTarget;
  }

  /** One step of the optimizer changes no outcome. */
  lemma PeepedOutcome(c: Code, i: int, c1: Code, subj: Subject, k: Config, h: Config)
    requires Whole(c) && Peeped(c, i, c1) && Placed(c, k) && !h.Run?
    ensures Reaches(c, subj, k, h) <==> Reaches(c1, subj, k, h)
  {
    hide Whole, Peeped, Placed, Leaps, Steps;
    PeepWhole(c, i, c1);
    AlikeSelf(c, k);
    if Reaches(c, subj, k, h) {
      var n: nat :| Steps(c, subj, k, n) == h;
      var m := HaltsByLeaps(c, subj, k, n);
      LeapsAlike(c, i, c1, subj, k, k, m);
      LeapsReach(c1, subj, k, m);
    }
    if Reaches(c1, subj, k, h) {
      var n: nat :| Steps(c1, subj, k, n) == h;
      var m := HaltsByLeaps(c1, subj, k, n);
      LeapsAlike(c, i, c1, subj, k, k, m);
      LeapsReach(c, subj, k, m);
    }
  }

  lemma {:induction false} PeepFromOutcome(c: Code, i: nat, subj: Subject, k: Config, h: Config)
    requires Whole(c) && (InstAt(c, i) || i >= |c|) && Placed(c, k) && !h.Run?
    ensures Whole(PeepFrom(c, i))
    ensures Reaches(c, subj, k, h) <==> Reaches(PeepFrom(c, i), subj, k, h)
    decreases |c| - i
  {
    hide Whole, Reaches, PeepAt, Peeped;
    if i < |c| {
      var c1 := PeepAt(c, i);
      if Labelled(c[i].op) {
        PeepAtPeeped(c, i);
        PeepedOutcome(c, i, c1, subj, k, h);
        PeepWhole(c, i, c1);
      } else {
        PeepAtSame(c, i);
      }
      WholeAt(c1, i);
      PeepFromOutcome(c1, i + Size(c1[i].op), subj, k, h);
    }
  }

  lemma PeepAtSame(c: Code, i: int)
    requires InstAt(c, i) && !Labelled(c[i].op)
    ensures PeepAt(c, i) == c
  {
  }

  /** The peephole optimizer changes no outcome: from any place where an instruction begins, with
      any stack of such places, the optimized program halts exactly as the original does. */
  lemma OptimizedOutcome(c: Code, subj: Subject, k: Config, h: Config)
    requires Whole(c) && c != [] && c[0].Inst? && Placed(c, k) && !h.Run?
    ensures Reaches(c, subj, k, h) <==> Reaches(Optimized(c), subj, k, h)
  {
    hide Whole, Reaches, PeepFrom, Placed;
    PeepFromOutcome(c, 0, subj, k, h);
  }

  // ---------------------------------------------------------------- what the optimizer achieves

  /** Nothing is left to improve at `i`: its label does not lead to a jump, and a jump does not lead
      to an instruction that leaves unconditionally. */
  ghost predicate Short(c: Code, i: int) {
    InstAt(c, i) && Labelled(c[i].op) ==>
      var t := Target(c, i);
      InstAt(c, t) && c[t].op != IJmp && (c[i].op == IJmp ==> c[t].op in GOES_ON)
  }

  /** Nothing is left to improve from `i` on. */
  ghost predicate ShortFrom(c: Code, i: nat)
    decreases |c| - i
  {
    i < |c| ==> c[i].Inst? && Short(c, i) && ShortFrom(c, i + Size(c[i].op))
  }

  lemma {:induction false} PeepFromKeeps(c: Code, i: nat, x: nat)
    requires x < i
    ensures x < |c| ==> PeepFrom(c, i)[x] == c[x]
    decreases |c| - i
  {
    hide FinalTarget, FinalLabel;
    if i < |c| {
      var c1 := PeepAt(c, i);
      PeepFromKeeps(c1, i + if c1[i].Inst? then Size(c1[i].op) else 1, x);
    }
  }

  /** Only jumps become other instructions. */
  lemma {:induction false} PeepFromStays(c: Code, i: nat, t: int)
    requires Whole(c) && InstAt(c, i) && InstAt(c, t) && c[t].op != IJmp
    ensures InstAt(PeepFrom(c, i), t) && PeepFrom(c, i)[t].op == c[t].op
    decreases |c| - i
  {
    hide Whole, FinalTarget, FinalLabel;
    var c1 := PeepAt(c, i);
    PeepAtWhole(c, i);
    WholeAt(c, i);
    WholeAt(c1, i);
    var next := i + Size(c1[i].op);
    if next < |c1| { PeepFromStays(c1, next, t); }
  }

  lemma PeepAtWhole(c: Code, i: int)
    requires Whole(c) && InstAt(c, i)
    ensures Whole(PeepAt(c, i)) && InstAt(PeepAt(c, i), i)
  {
    hide Whole, PeepAt, Peeped;
    if Labelled(c[i].op) {
      PeepAtPeeped(c, i);
      PeepWhole(c, i, PeepAt(c, i));
    } else {
      PeepAtSame(c, i);
    }
  }

  lemma PeepAtShort(c: Code, i: int)
    requires Whole(c) && InstAt(c, i)
    ensures Short(PeepAt(c, i), i)
  {
    hide Whole, FinalTarget;
    WholeAt(c, i);
    if Labelled(c[i].op) {
      FinalTargetInst(c, Target(c, i));
      FinalTargetInst(c, i);
      var ft := FinalTarget(c, i);
      WholeAt(c, ft);
      if Labelled(c[ft].op) { FinalTargetInst(c, Target(c, ft)); }
    }
  }

  lemma {:induction false} PeepFromShort(c: Code, i: nat)
    requires Whole(c) && (InstAt(c, i) || i >= |c|)
    ensures ShortFrom(PeepFrom(c, i), i)
    decreases |c| - i
  {
    hide Whole, PeepAt;
    if i < |c| {
      var c1 := PeepAt(c, i);
      PeepAtWhole(c, i);
      PeepAtShort(c, i);
      WholeAt(c1, i);
      var next := i + Size(c1[i].op);
      PeepFromShort(c1, next);
      PeepFromKeeps(c1, next, i);
      if Labelled(c1[i].op) {
        PeepFromKeeps(c1, next, i + 1);
        if next < |c1| { PeepFromStays(c1, next, Target(c1, i)); }
      }
    }
  }

  /** Instruction by instruction, nothing is left to improve in the optimized program. */
  lemma OptimizedShort(c: Code)
    requires Whole(c) && c != [] && c[0].Inst?
    ensures ShortFrom(Optimized(c), 0)
  {
    hide Whole, PeepFrom;
    PeepFromShort(c, 0);
  }
}
