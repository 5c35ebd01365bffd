/** The plain code is correct, and turning calls into tail calls changes no answer. */
module LpegTail {
  import opened Basics
  import opened LpegTree
  import opened LpegVm
  import opened LpegCodegen
  import opened LpegCorrect
  import opened LpegLead
  import opened LpegCases
  import opened LpegTheorem
  import opened LpegLabels
  import opened LpegGood

  /** How a run that gives answer `r` ends. */
  ghost function Answer(r: Result): Config
    requires r != Out
  {
    if r.No? then GaveUp else Matched(r.pos, FlatAll(r.caps))
  }

  // ---------------------------------------------------------------- the plain code

  lemma CompiledGood(p: Tree, d: nat, deep: bool) returns (tops: Tops)
    requires Suitable([], p, d, deep)
    ensures var w := Setting(0, deep);
            && Good(Gen([], p, false, None, FullSet(), d, false), Gen([], p, false, None, FullSet(), d, true), tops, w)
            && Good(CompileTree(p, d, false), CompileTree(p, d, true), tops + [true], w)
  {
    hide Suitable, Gen, Good;
    var w := Setting(0, deep);
    tops := GenGood([], p, false, None, FullSet(), d, deep);
    OneGood(IEnd, 0, 0, w);
    GoodSeq(Gen([], p, false, None, FullSet(), d, false), Gen([], p, false, None, FullSet(), d, true), tops, I(IEnd),
            I(IEnd), [true], w);
  }

  predicate OpenSlot(slot: Slot) {
    slot.Open? || (slot.Inst? && slot.op == IOpenCall)
  }

  /** Outside grammars no call stays open. */
  lemma NoOpenCalls(c0: Code, c: Code, tops: Tops, i: int)
    requires Good(c0, c, tops, Setting(0, false)) && 0 <= i < |c0|
    ensures !OpenSlot(c0[i])
  {
    hide SettledBut, JmpsComplete;
    assert PointOk(c, tops, 0, {}, i);
    assert i > 0 ==> PointOk(c, tops, 0, {}, i - 1);
  }

  lemma PlainLinked(p: Tree, d: nat, subj: Subject)
    requires WellFormed([], p, d)
    ensures Linked(Ctx(CompileTree(p, d, false), subj, [], [], d), 0, CompileTree(p, d, false))
  {
    hide WellFormed, CompileTree, Good;
    var tops := CompiledGood(p, d, false);
    var c := CompileTree(p, d, false);
    forall i | 0 <= i < |c| ensures c[i] == LinkedSlot(c[i], [], i) {
      NoOpenCalls(c, CompileTree(p, d, true), tops + [true], i);
    }
  }

  /** The plain code, run on any subject from any position, gives the answer `Eval` gives. */
  lemma PlainCorrect(p: Tree, d: nat, subj: Subject, s: nat, fuel: nat)
    requires WellFormed([], p, d) && s <= |subj| && Eval([], p, subj, s, fuel) != Out
    ensures Reaches(CompileTree(p, d, false), subj, Run(0, s, [], []), Answer(Eval([], p, subj, s, fuel)))
  {
    hide WellFormed, Gen, Eval, FlatAll, Linked, Arrives;
    var code := CompileTree(p, d, false);
    var x := Ctx(code, subj, [], [], d);
    var c := Gen([], p, false, None, FullSet(), d, false);
    var start := Run(0, s, [], []);
    PlainLinked(p, d, subj);
    LinkedAppend(x, 0, c, I(IEnd));
    AtHead(x, |c|, I(IEnd));
    GenDelivers(x, p, false, None, FullSet(), 0, s, fuel, [], []);
    var r := Eval([], p, subj, s, fuel);
    if r.Yes? {
      DeliversExactly(x, start, |c|, r, [], []);
      assert [] + FlatAll(r.caps) == FlatAll(r.caps);
      ViaStep(x, start, Run(|c|, r.pos, FlatAll(r.caps), []), Matched(r.pos, FlatAll(r.caps)));
    }
  }

  // ---------------------------------------------------------------- tail calls

  /** Stacks of the plain code and of the code with tail calls: the latter lacks some of the
      return addresses that only lead to a return. */
  ghost predicate Erased(c0: Code, stk0: seq<Frame>, stk1: seq<Frame>)
    decreases |stk0|
  {
    if stk0 == [] then stk1 == [] else
    var top, rest := stk0[|stk0| - 1], stk0[..|stk0| - 1];
    || (stk1 != [] && stk1[|stk1| - 1] == top && Erased(c0, rest, stk1[..|stk1| - 1]))
    || (top.Return? && ReturnsFrom(c0, top.pc) && Erased(c0, rest, stk1))
  }

  /** The machines are at the same place, or the plain one still has to come back from calls that
      the other one never made. */
  ghost predicate TailRelated(c0: Code, c1: Code, k0: Config, k1: Config) {
    || (k0 == k1 && !k0.Run?)
    || (k0.Run? && k1.Run? && k0.s == k1.s && k0.caps == k1.caps && Erased(c0, k0.stk, k1.stk) &&
        (k0.pc == k1.pc || (ReturnsFrom(c0, k0.pc) && OpAt(c1, k1.pc, IRet))))
  }

  lemma ErasedPush(c0: Code, stk0: seq<Frame>, stk1: seq<Frame>, f: Frame)
    requires Erased(c0, stk0, stk1)
    ensures Erased(c0, stk0 + [f], stk1 + [f])
    ensures f.Return? && ReturnsFrom(c0, f.pc) ==> Erased(c0, stk0 + [f], stk1)
  {
    assert (stk0 + [f])[..|stk0|] == stk0 && (stk1 + [f])[..|stk1|] == stk1;
  }

  lemma ErasedChoice(c0: Code, stk0: seq<Frame>, stk1: seq<Frame>)
    requires Erased(c0, stk0, stk1) && HasChoice(stk0)
    ensures HasChoice(stk1) && stk1[|stk1| - 1] == stk0[|stk0| - 1] &&
            Erased(c0, stk0[..|stk0| - 1], stk1[..|stk1| - 1])
  {
  }

  lemma {:induction false} ErasedPop(c0: Code, c1: Code, stk0: seq<Frame>, stk1: seq<Frame>, caps: seq<CapEntry>)
    requires Erased(c0, stk0, stk1)
    ensures TailRelated(c0, c1, Pop(stk0, caps), Pop(stk1, caps))
    decreases |stk0|
  {
    if stk0 != [] && stk0[|stk0| - 1].Return? {
      var top, rest := stk0[|stk0| - 1], stk0[..|stk0| - 1];
      if stk1 != [] && stk1[|stk1| - 1] == top && Erased(c0, rest, stk1[..|stk1| - 1]) {
        ErasedPop(c0, c1, rest, stk1[..|stk1| - 1], caps);
      } else {
        ErasedPop(c0, c1, rest, stk1, caps);
      }
    }
  }

  lemma SameTarget(c0: Code, c1: Code, tops: Tops, pc: int)
    requires Paired(c0, c1, tops)
    ensures |c0| == |c1| && Target(c0, pc) == Target(c1, pc) && BuffAt(c0, pc) == BuffAt(c1, pc)
  {
  }

  lemma {:induction false} ReturnsStep(c: Code, i: int)
    requires ReturnsFrom(c, i)
    ensures OpAt(c, i, IRet) || (JmpAt(c, i) && ReturnsFrom(c, Target(c, i)))
  {
    var n: nat :| OpAt(c, Follow(c, i, n), IRet);
    if n > 0 && JmpAt(c, i) { assert OpAt(c, Follow(c, Target(c, i), n - 1), IRet); }
  }

  /** The plain code executes a return, and the other one is at a return too. */
  lemma ReturnSimulated(c0: Code, c1: Code, subj: Subject, k0: Config, k1: Config) returns (n: nat)
    requires k0.Run? && k1.Run? && k0.s == k1.s <= |subj| && k0.caps == k1.caps && Erased(c0, k0.stk, k1.stk)
    requires OpAt(c0, k0.pc, IRet) && OpAt(c1, k1.pc, IRet)
    ensures var next := Step(c0, subj, k0); next == Stuck || TailRelated(c0, c1, next, Steps(c1, subj, k1, n))
  {
    n := 0;
    if k0.stk != [] && k0.stk[|k0.stk| - 1].Return? {
      var top, rest := k0.stk[|k0.stk| - 1], k0.stk[..|k0.stk| - 1];
      if k1.stk != [] && k1.stk[|k1.stk| - 1] == top && Erased(c0, rest, k1.stk[..|k1.stk| - 1]) {
        n := 1;
        assert Steps(c1, subj, k1, 1) == Steps(c1, subj, Step(c1, subj, k1), 0);
      }
    }
  }

  /** Instructions that need a choice on top of the stack, and those that leave the stack alone unless
      they fail. */
  const USES_TOP := {ICommit, IPartialCommit, IBackCommit, IFailTwice}

  const PUSHES := {IChoice, ICall}

  /** Both machines execute the same instruction, other than a return. */
  lemma SameSimulated(c0: Code, c1: Code, tops: Tops, subj: Subject, k0: Config, k1: Config)
    requires Paired(c0, c1, tops) && k0.Run? && k1.Run? && k0.s == k1.s <= |subj| && k0.caps == k1.caps &&
             k0.pc == k1.pc
    requires Erased(c0, k0.stk, k1.stk)
    requires 0 <= k0.pc < |c0| && c0[k0.pc].Inst? && c0[k0.pc] == c1[k0.pc] && c0[k0.pc].op != IRet
    ensures var next := Step(c0, subj, k0); next == Stuck || TailRelated(c0, c1, next, Step(c1, subj, k1))
  {
    hide Paired, Erased, Step, TailRelated;
    if c0[k0.pc].op in USES_TOP { TopSimulated(c0, c1, tops, subj, k0, k1); }
    else if c0[k0.pc].op in PUSHES { PushSimulated(c0, c1, tops, subj, k0, k1); }
    else { PlainSimulated(c0, c1, tops, subj, k0, k1); }
  }

  lemma PlainSimulated(c0: Code, c1: Code, tops: Tops, subj: Subject, k0: Config, k1: Config)
    requires Paired(c0, c1, tops) && k0.Run? && k1.Run? && k0.s == k1.s <= |subj| && k0.caps == k1.caps &&
             k0.pc == k1.pc
    requires Erased(c0, k0.stk, k1.stk)
    requires 0 <= k0.pc < |c0| && c0[k0.pc].Inst? && c0[k0.pc] == c1[k0.pc]
    requires c0[k0.pc].op != IRet && c0[k0.pc].op !in USES_TOP && c0[k0.pc].op !in PUSHES
    ensures var next := Step(c0, subj, k0); next == Stuck || TailRelated(c0, c1, next, Step(c1, subj, k1))
  {
    hide Paired, Target, BuffAt, SpanEnd, Pop, CloseCapture, CanClose, ReturnsFrom, OpAt, InSet, Erased;
    SameTarget(c0, c1, tops, k0.pc);
    SameTarget(c0, c1, tops, k0.pc + 1);
    SameTarget(c0, c1, tops, k0.pc + 2);
    ErasedPop(c0, c1, k0.stk, k1.stk, k0.caps);
    if k0.stk == [] { ErasedEmpty(c0, k0.stk, k1.stk); }
  }

  lemma PushSimulated(c0: Code, c1: Code, tops: Tops, subj: Subject, k0: Config, k1: Config)
    requires Paired(c0, c1, tops) && k0.Run? && k1.Run? && k0.s == k1.s <= |subj| && k0.caps == k1.caps &&
             k0.pc == k1.pc
    requires Erased(c0, k0.stk, k1.stk)
    requires 0 <= k0.pc < |c0| && c0[k0.pc].Inst? && c0[k0.pc] == c1[k0.pc]
    requires c0[k0.pc].op in PUSHES
    ensures TailRelated(c0, c1, Step(c0, subj, k0), Step(c1, subj, k1))
  {
    hide Paired, Target, BuffAt, SpanEnd, Pop, CloseCapture, CanClose, ReturnsFrom, OpAt, InSet, Erased;
    SameTarget(c0, c1, tops, k0.pc);
    ErasedPush(c0, k0.stk, k1.stk, Choice(k0.s, Target(c0, k0.pc), |k0.caps|));
    ErasedPush(c0, k0.stk, k1.stk, Return(k0.pc + 2));
  }

  lemma TopSimulated(c0: Code, c1: Code, tops: Tops, subj: Subject, k0: Config, k1: Config)
    requires Paired(c0, c1, tops) && k0.Run? && k1.Run? && k0.s == k1.s <= |subj| && k0.caps == k1.caps &&
             k0.pc == k1.pc
    requires Erased(c0, k0.stk, k1.stk)
    requires 0 <= k0.pc < |c0| && c0[k0.pc].Inst? && c0[k0.pc] == c1[k0.pc]
    requires c0[k0.pc].op in USES_TOP
    ensures var next := Step(c0, subj, k0); next == Stuck || TailRelated(c0, c1, next, Step(c1, subj, k1))
  {
    hide Paired, Target, BuffAt, SpanEnd, Pop, CloseCapture, CanClose, ReturnsFrom, OpAt, InSet, Erased;
    SameTarget(c0, c1, tops, k0.pc);
    if HasChoice(k0.stk) {
      ErasedChoice(c0, k0.stk, k1.stk);
      var rest0, rest1 := k0.stk[..|k0.stk| - 1], k1.stk[..|k1.stk| - 1];
      ErasedPop(c0, c1, rest0, rest1, k0.caps);
      ErasedPush(c0, rest0, rest1, Choice(k0.s, k0.stk[|k0.stk| - 1].pc, |k0.caps|));
    }
  }

  lemma ErasedEmpty(c0: Code, stk0: seq<Frame>, stk1: seq<Frame>)
    requires Erased(c0, stk0, stk1) && stk0 == []
    ensures stk1 == []
  {
  }

  /** One step of the plain code is followed by some steps of the other one, perhaps none. */
  lemma StepSimulated(c0: Code, c1: Code, tops: Tops, subj: Subject, k0: Config, k1: Config) returns (n: nat)
    requires Paired(c0, c1, tops) && TailRelated(c0, c1, k0, k1)
    ensures var next := Step(c0, subj, k0); next == Stuck || TailRelated(c0, c1, next, Steps(c1, subj, k1, n))
  {
    hide Erased, ReturnsFrom, Exec, Steps;
    n := 0;
    StepsZeroOne(c1, subj, k1);
    if !k0.Run? || !(0 <= k0.pc < |c0| && k0.s <= |subj| && c0[k0.pc].Inst?) {
    } else if OpAt(c0, k0.pc, IRet) && OpAt(c1, k1.pc, IRet) {
      n := ReturnSimulated(c0, c1, subj, k0, k1);
    } else if k0.pc == k1.pc && c0[k0.pc] == c1[k0.pc] {
      SameSimulated(c0, c1, tops, subj, k0, k1);
      n := 1;
    } else if k0.pc == k1.pc {
      TailSimulated(c0, c1, tops, subj, k0, k1);
      n := 1;
    } else {
      ReturnsStep(c0, k0.pc);
      JumpStep(c0, subj, k0);
    }
  }

  lemma StepsZeroOne(c: Code, subj: Subject, k: Config)
    ensures Steps(c, subj, k, 0) == k && Steps(c, subj, k, 1) == Step(c, subj, k)
  {
    assert Steps(c, subj, k, 1) == Steps(c, subj, Step(c, subj, k), 0);
  }

  /** The plain code calls where the other one jumps. */
  lemma TailSimulated(c0: Code, c1: Code, tops: Tops, subj: Subject, k0: Config, k1: Config)
    requires Paired(c0, c1, tops) && k0.Run? && k1.Run? && k0.s == k1.s <= |subj| && k0.caps == k1.caps &&
             k0.pc == k1.pc
    requires Erased(c0, k0.stk, k1.stk)
    requires 0 <= k0.pc < |c0| && c0[k0.pc] != c1[k0.pc]
    ensures TailRelated(c0, c1, Step(c0, subj, k0), Step(c1, subj, k1))
  {
    hide Erased, ReturnsFrom, Target;
    SameTarget(c0, c1, tops, k0.pc);
    ErasedPush(c0, k0.stk, k1.stk, Return(k0.pc + 2));
  }

  /** Whatever answer the plain code gives, the code with tail calls gives the same. */
  lemma {:induction false} TailSimulates(c0: Code, c1: Code, tops: Tops, subj: Subject, k0: Config, k1: Config, n: nat)
    requires Paired(c0, c1, tops) && TailRelated(c0, c1, k0, k1)
    requires var e := Steps(c0, subj, k0, n); e.Matched? || e.GaveUp?
    ensures Reaches(c1, subj, k1, Steps(c0, subj, k0, n))
    decreases n
  {
    hide Paired, Step;
    if n == 0 {
      ReachesRefl(c1, subj, k1);
    } else {
      var next := Step(c0, subj, k0);
      if next == Stuck { StepsStay(c0, subj, next, n - 1); }
      var m := StepSimulated(c0, c1, tops, subj, k0, k1);
      TailSimulates(c0, c1, tops, subj, next, Steps(c1, subj, k1, m), n - 1);
      assert Reaches(c1, subj, k1, Steps(c1, subj, k1, m));
      ReachesTrans(c1, subj, k1, Steps(c1, subj, k1, m), Steps(c0, subj, k0, n));
    }
  }

  /** The code with tail calls gives the answer `Eval` gives. */
  lemma TailCorrect(p: Tree, d: nat, subj: Subject, s: nat, fuel: nat)
    requires WellFormed([], p, d) && s <= |subj| && Eval([], p, subj, s, fuel) != Out
    ensures Reaches(CompileTree(p, d, true), subj, Run(0, s, [], []), Answer(Eval([], p, subj, s, fuel)))
  {
    hide WellFormed, CompileTree, Eval, FlatAll, Paired, ShapedBut, SettledBut, JmpsComplete;
    var c0, c1, start := CompileTree(p, d, false), CompileTree(p, d, true), Run(0, s, [], []);
    var tops := CompiledGood(p, d, false);
    PlainCorrect(p, d, subj, s, fuel);
    var n: nat :| Steps(c0, subj, start, n) == Answer(Eval([], p, subj, s, fuel));
    TailSimulates(c0, c1, tops + [true], subj, start, start, n);
  }
}
