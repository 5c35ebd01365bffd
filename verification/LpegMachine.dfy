/** The interpreter loop of lpvm.c. */
module LpegMachine {
  import opened LpegTree
  import opened LpegVm
  import opened LpegCodegen
  import opened LpegLabels
  import opened LpegPeephole
  import opened LpegStack

  /** Where the frame at the bottom of the stack leads: to the instruction that gives up. */
  const GIVEUP := -1

  /** The stack as lpvm.c keeps it, with a choice at the bottom that gives up. */
  ghost function Based(start: nat, stk: seq<Frame>): (stack: seq<Frame>)
    ensures stack != [] && (stk != [] ==> stack[|stack| - 1] == stk[|stk| - 1])
    ensures |stack| == |stk| + 1
  {
    [Choice(start, GIVEUP, 0)] + stk
  }

  lemma BasedTop(start: nat, stk: seq<Frame>, f: Frame)
    ensures Based(start, stk) + [f] == Based(start, stk + [f])
    ensures stk != [] ==> Based(start, stk)[..|stk|] == Based(start, stk[..|stk| - 1])
  {
  }

  /** The two arrays of a run. */
  ghost predicate Holds(st: BackStack, cl: CaptureList, start: nat, caps: seq<CapEntry>, stk: seq<Frame>)
    reads st, st.frames, cl, cl.entries
  {
    st.Valid() && cl.Valid() && st.View() == Based(start, stk) && cl.View() == caps
  }

  lemma CaptopIs(st: BackStack, cl: CaptureList, start: nat, caps: seq<CapEntry>, stk: seq<Frame>)
    requires Holds(st, cl, start, caps, stk)
    ensures cl.captop == |caps|
  {
  }

  /** What a failure does to a stack that has a choice at its bottom. */
  ghost predicate FailsTo(next: Config, start: nat, p: int, s: nat, caps: seq<CapEntry>, stack: seq<Frame>) {
    match next
    case GaveUp => p == GIVEUP
    case Run(pc, s0, c0, stk0) => p == pc && s == s0 && caps == c0 && stack == Based(start, stk0)
    case _ => false
  }

  /** A failure: removes pending calls and goes back to the last choice. */
  method Backtrack(st: BackStack, cl: CaptureList, ghost start: nat, ghost caps: seq<CapEntry>, ghost stk: seq<Frame>)
    returns (p: int, s: nat)
    requires Holds(st, cl, start, caps, stk) && Pop(stk, caps) != Stuck
    modifies st`top, cl`captop
    ensures st.Valid() && cl.Valid() && FailsTo(Pop(stk, caps), start, p, s, cl.View(), st.View())
  {
    ghost var rest := stk;
    var f := st.Drop();
    BasedTop(start, rest, f);
    while f.Return?
      invariant Pop(rest, caps) == Pop(stk, caps) && st.Valid() && cl.Valid() && cl.View() == caps
      invariant if rest == [] then f == Choice(start, GIVEUP, 0)
                else f == rest[|rest| - 1] && st.View() == Based(start, rest[..|rest| - 1])
      decreases |rest|
    {
      rest := rest[..|rest| - 1];
      f := st.Drop();
      BasedTop(start, rest, f);
    }
    cl.Cut(f.lvl);
    p, s := f.pc, f.s;
  }

  method Span(subj: Subject, s: nat, cs: Charset) returns (t: nat)
    requires s <= |subj|
    ensures t == SpanEnd(subj, s, cs)
  {
    t := s;
    while t < |subj|
      invariant s <= t <= |subj| && SpanEnd(subj, t, cs) == SpanEnd(subj, s, cs)
    {
      if subj[t] !in cs { break; }
      t := t + 1;
    }
  }

  /** How an instruction ends: the loop goes on, the pattern fails, or there is no room for another frame. */
  datatype Signal = Goes | Fails | Overflows

  /** After an instruction from which the machine goes on to `next`. */
  ghost predicate TurnIs(next: Config, st: BackStack, start: nat, p: int, s: nat, signal: Signal, caps: seq<CapEntry>,
                         stk: seq<Frame>)
  {
    match signal
    case Overflows => TooDeep(next, Limit(st.max))
    case Fails => next == Pop(stk, caps)
    case Goes => next == Run(p, s, caps, stk)
  }

  /** The instructions that put a frame on the stack, that use the one on top, and that make captures. */
  const PUSHES := {IChoice, ICall}

  const TOP_OPS := {IRet, ICommit, IPartialCommit, IBackCommit, IFailTwice}

  const CAPTURE_OPS := {IFullCapture, IOpenCapture, ICloseCapture}

  ghost predicate AtInst(code: array<Slot>, subj: Subject, p: nat, s: nat, ops: set<Opcode>)
    reads code
  {
    Whole(code[..]) && p < code.Length && code[p].Inst? && s <= |subj| && code[p].op in ops
  }

  /** One frame more, if there is room. */
  method PushFrame(st: BackStack, cl: CaptureList, f: Frame, ghost start: nat, ghost caps: seq<CapEntry>,
                   ghost stk: seq<Frame>)
    returns (signal: Signal)
    requires Holds(st, cl, start, caps, stk)
    modifies st, st.frames
    ensures st.frames == old(st.frames) || fresh(st.frames)
    ensures signal == if |stk| + 1 >= Limit(st.max) then Overflows else Goes
    ensures signal == Goes ==> Holds(st, cl, start, caps, stk + [f])
  {
    hide Based;
    BasedTop(start, stk, f);
    var ok := st.Push(f);
    signal := if ok then Goes else Overflows;
  }

  /** The frame on top is taken away; the bottom one stays. */
  method DropFrame(st: BackStack, cl: CaptureList, ghost start: nat, ghost caps: seq<CapEntry>, ghost stk: seq<Frame>)
    returns (top: Frame)
    requires Holds(st, cl, start, caps, stk) && stk != []
    modifies st`top
    ensures top == stk[|stk| - 1] && Holds(st, cl, start, caps, stk[..|stk| - 1])
  {
    hide Based;
    BasedTop(start, stk, stk[|stk| - 1]);
    top := st.Drop();
  }

  method ExecutePush(code: array<Slot>, subj: Subject, p: nat, s: nat, st: BackStack, cl: CaptureList,
                     ghost start: nat, ghost caps: seq<CapEntry>, ghost stk: seq<Frame>)
    returns (p1: int, s1: nat, signal: Signal, ghost caps1: seq<CapEntry>, ghost stk1: seq<Frame>)
    requires AtInst(code, subj, p, s, PUSHES) && Holds(st, cl, start, caps, stk)
    requires Step(code[..], subj, Run(p, s, caps, stk)) != Stuck
    modifies st, st.frames
    ensures st.frames == old(st.frames) || fresh(st.frames)
    ensures TurnIs(Step(code[..], subj, Run(p, s, caps, stk)), st, start, p1, s1, signal, caps1, stk1)
    ensures !signal.Overflows? ==> Holds(st, cl, start, caps1, stk1)
  {
    hide Whole, Pop, SpanEnd, CloseCapture, CanClose, BuffAt, InSet, Holds;
    WholeAt(code[..], p);
    var offset, captop := code[p + 1].off, cl.captop;
    CaptopIs(st, cl, start, caps, stk);
    s1, caps1 := s, caps;
    if code[p].op == IChoice {
      signal := PushFrame(st, cl, Choice(s, p + offset, captop), start, caps, stk);
      p1, stk1 := p + 2, stk + [Choice(s, p + offset, captop)];
    } else {
      signal := PushFrame(st, cl, Return(p + 2), start, caps, stk);
      p1, stk1 := p + offset, stk + [Return(p + 2)];
    }
  }

  method ExecuteOnTop(code: array<Slot>, subj: Subject, p: nat, s: nat, st: BackStack, cl: CaptureList,
                      ghost start: nat, ghost caps: seq<CapEntry>, ghost stk: seq<Frame>)
    returns (p1: int, s1: nat, signal: Signal, ghost caps1: seq<CapEntry>, ghost stk1: seq<Frame>)
    requires AtInst(code, subj, p, s, TOP_OPS) && Holds(st, cl, start, caps, stk)
    requires Step(code[..], subj, Run(p, s, caps, stk)) != Stuck
    modifies st`top, st.frames, cl`captop
    ensures st.frames == old(st.frames) || fresh(st.frames)
    ensures TurnIs(Step(code[..], subj, Run(p, s, caps, stk)), st, start, p1, s1, signal, caps1, stk1)
    ensures !signal.Overflows? ==> Holds(st, cl, start, caps1, stk1)
  {
    hide Whole, Pop, SpanEnd, CloseCapture, CanClose, BuffAt, InSet, Holds;
    WholeAt(code[..], p);
    var i := code[p];
    var offset := if Labelled(i.op) then code[p + 1].off else 0;
    ghost var last := |stk| - 1;
    p1, s1, signal, caps1, stk1 := p + offset, s, Goes, caps, stk[..last];
    if i.op == IPartialCommit {
      var captop := cl.captop;
      CaptopIs(st, cl, start, caps, stk);
      stk1 := stk[..last] + [Choice(s, stk[last].pc, captop)];
      RenewFrame(st, cl, s, captop, start, caps, stk);
    } else {
      var top := DropFrame(st, cl, start, caps, stk);
      if i.op == IRet {
        p1 := top.pc;
      } else if i.op == IBackCommit {
        CutList(st, cl, top.lvl, start, caps, stk1);
        s1, caps1 := top.s, caps[..top.lvl];
      } else if i.op == IFailTwice {
        signal := Fails;
      }
    }
  }

  method RenewFrame(st: BackStack, cl: CaptureList, s: nat, lvl: nat, ghost start: nat, ghost caps: seq<CapEntry>,
                    ghost stk: seq<Frame>)
    requires Holds(st, cl, start, caps, stk) && stk != []
    modifies st.frames
    ensures Holds(st, cl, start, caps, stk[..|stk| - 1] + [Choice(s, stk[|stk| - 1].pc, lvl)])
  {
    hide Based;
    BasedTop(start, stk, stk[|stk| - 1]);
    BasedTop(start, stk[..|stk| - 1], Choice(s, stk[|stk| - 1].pc, lvl));
    st.Renew(s, lvl);
  }

  method CutList(st: BackStack, cl: CaptureList, lvl: nat, ghost start: nat, ghost caps: seq<CapEntry>,
                 ghost stk: seq<Frame>)
    requires Holds(st, cl, start, caps, stk) && lvl <= |caps|
    modifies cl`captop
    ensures Holds(st, cl, start, caps[..lvl], stk)
  {
    cl.Cut(lvl);
  }

  method ExecuteCapture(code: array<Slot>, subj: Subject, p: nat, s: nat, cl: CaptureList,
                        ghost caps: seq<CapEntry>, ghost stk: seq<Frame>)
    returns (ghost caps1: seq<CapEntry>)
    requires AtInst(code, subj, p, s, CAPTURE_OPS) && cl.Valid() && cl.View() == caps
    requires Step(code[..], subj, Run(p, s, caps, stk)) != Stuck
    modifies cl, cl.entries
    ensures cl.Valid() && (cl.entries == old(cl.entries) || fresh(cl.entries)) && cl.View() == caps1
    ensures Step(code[..], subj, Run(p, s, caps, stk)) == Run(p + 1, s, caps1, stk)
  {
    hide Whole, Pop, SpanEnd, CloseCapture, CanClose, BuffAt, InSet;
    var i := code[p];
    match i.op {
      case IFullCapture => cl.Push(CapEntry(s - Off(i.aux), i.key, Kind(i.aux), Off(i.aux) + 1));
      case IOpenCapture => cl.Push(CapEntry(s, i.key, Kind(i.aux), 0));
      case ICloseCapture => cl.Close(s, i.key, Kind(i.aux));
    }
    caps1 := cl.View();
  }

  /** An instruction that reads the subject, or jumps. */
  method ExecuteOnSubject(code: array<Slot>, subj: Subject, p: nat, s: nat, ghost caps: seq<CapEntry>,
                          ghost stk: seq<Frame>)
    returns (p1: int, s1: nat, fail: bool)
    requires Whole(code[..]) && p < code.Length && code[p].Inst? && s <= |subj|
    requires code[p].op !in PUSHES + TOP_OPS + CAPTURE_OPS + {IEnd}
    requires Step(code[..], subj, Run(p, s, caps, stk)) != Stuck
    ensures Step(code[..], subj, Run(p, s, caps, stk)) == if fail then Pop(stk, caps) else Run(p1, s1, caps, stk)
  {
    hide Whole, Pop, SpanEnd, CloseCapture, CanClose;
    ghost var c := code[..];
    WholeAt(c, p);
    var i := code[p];
    var offset := if Labelled(i.op) then code[p + 1].off else 0;
    p1, s1, fail := p + offset, s, false;
    match i.op {
      case IAny => if s < |subj| { p1, s1 := p + 1, s + 1; } else { fail := true; }
      case ITestAny => if s < |subj| { p1 := p + 2; }
      case IChar => if s < |subj| && subj[s] == i.aux { p1, s1 := p + 1, s + 1; } else { fail := true; }
      case ITestChar => if s < |subj| && subj[s] == i.aux { p1 := p + 2; }
      case ISet =>
        if InSet(subj, s, BuffAt(code[..], p + 1)) { p1, s1 := p + CHARSETINSTSIZE, s + 1; } else { fail := true; }
      case ITestSet => if InSet(subj, s, BuffAt(code[..], p + 2)) { p1 := p + 1 + CHARSETINSTSIZE; }
      case IBehind => if 0 <= i.aux <= s { p1, s1 := p + 1, s - i.aux; } else { fail := true; }
      case ISpan =>
        s1 := Span(subj, s, BuffAt(code[..], p + 1));
        p1 := p + CHARSETINSTSIZE;
      case IJmp =>
      case IFail => fail := true;
    }
  }

  /** One instruction of the interpreter's switch, other than `end`. */
  method Execute(code: array<Slot>, subj: Subject, p: nat, s: nat, st: BackStack, cl: CaptureList, ghost start: nat,
                 ghost caps: seq<CapEntry>, ghost stk: seq<Frame>)
    returns (p1: int, s1: nat, signal: Signal, ghost caps1: seq<CapEntry>, ghost stk1: seq<Frame>)
    requires Whole(code[..]) && p < code.Length && code[p].Inst? && code[p].op != IEnd && s <= |subj|
    requires Holds(st, cl, start, caps, stk) && Step(code[..], subj, Run(p, s, caps, stk)) != Stuck
    modifies st, st.frames, cl, cl.entries
    ensures st.frames == old(st.frames) || fresh(st.frames)
    ensures cl.entries == old(cl.entries) || fresh(cl.entries)
    ensures TurnIs(Step(code[..], subj, Run(p, s, caps, stk)), st, start, p1, s1, signal, caps1, stk1)
    ensures !signal.Overflows? ==> Holds(st, cl, start, caps1, stk1)
  {
    hide Whole, Pop, Step, Based;
    p1, s1, signal, caps1, stk1 := p + 1, s, Goes, caps, stk;
    if code[p].op in PUSHES {
      p1, s1, signal, caps1, stk1 := ExecutePush(code, subj, p, s, st, cl, start, caps, stk);
    } else if code[p].op in TOP_OPS {
      p1, s1, signal, caps1, stk1 := ExecuteOnTop(code, subj, p, s, st, cl, start, caps, stk);
    } else if code[p].op in CAPTURE_OPS {
      caps1 := ExecuteCapture(code, subj, p, s, cl, caps, stk);
    } else {
      var fail;
      p1, s1, fail := ExecuteOnSubject(code, subj, p, s, caps, stk);
      if fail { signal := Fails; }
    }
  }

  /** One turn of the loop, failure included.  There is nowhere to go when the bottom of the stack is reached. */
  method Turn(code: array<Slot>, subj: Subject, p: nat, s: nat, st: BackStack, cl: CaptureList, ghost start: nat,
              ghost caps: seq<CapEntry>, ghost stk: seq<Frame>)
    returns (p1: int, s1: nat, ok: bool, ghost next: Config)
    requires Whole(code[..]) && p < code.Length && code[p].Inst? && code[p].op != IEnd && s <= |subj|
    requires Holds(st, cl, start, caps, stk) && Step(code[..], subj, Run(p, s, caps, stk)) != Stuck
    modifies st, st.frames, cl, cl.entries
    ensures st.frames == old(st.frames) || fresh(st.frames)
    ensures cl.entries == old(cl.entries) || fresh(cl.entries)
    ensures next == Step(code[..], subj, Run(p, s, caps, stk))
    ensures !ok ==> TooDeep(next, Limit(st.max))
    ensures ok ==> if next == GaveUp then p1 == GIVEUP
                   else next.Run? && next.pc == p1 && next.s == s1 && Holds(st, cl, start, next.caps, next.stk)
  {
    hide Whole, Pop, Step, Based;
    next := Step(code[..], subj, Run(p, s, caps, stk));
    var signal;
    ghost var caps1, stk1;
    p1, s1, signal, caps1, stk1 := Execute(code, subj, p, s, st, cl, start, caps, stk);
    ok := signal != Overflows;
    if signal == Fails { p1, s1 := Backtrack(st, cl, start, caps1, stk1); }
  }

  // ---------------------------------------------------------------- the loop

  ghost predicate TooDeep(k: Config, limit: nat) {
    k.Run? && |k.stk| + 1 > limit
  }

  /** No state of the next `n` steps has as many frames as `limit`; one is below them, at the bottom. */
  ghost predicate Fits(c: Code, subj: Subject, k: Config, n: nat, limit: nat)
    decreases n
  {
    !TooDeep(k, limit) && (n > 0 ==> Fits(c, subj, Step(c, subj, k), n - 1, limit))
  }

  lemma {:induction false} HaltedFits(c: Code, subj: Subject, k: Config, n: nat, limit: nat)
    requires !k.Run?
    ensures Fits(c, subj, k, n, limit)
    decreases n
  {
    if n > 0 { HaltedFits(c, subj, k, n - 1, limit); }
  }

  lemma {:induction false} FitsLast(c: Code, subj: Subject, k: Config, n: nat, limit: nat)
    requires Fits(c, subj, k, n, limit)
    ensures !TooDeep(Steps(c, subj, k, n), limit)
    decreases n
  {
    hide Step;
    if n > 0 { FitsLast(c, subj, Step(c, subj, k), n - 1, limit); }
  }

  lemma {:induction false} FitsAll(c: Code, subj: Subject, k: Config, n: nat, limit: nat, j: nat)
    requires Fits(c, subj, k, n, limit) && !Steps(c, subj, k, n).Run?
    ensures !TooDeep(Steps(c, subj, k, j), limit)
    decreases j
  {
    hide Exec, Step;
    if n == 0 { StepsStay(c, subj, k, j); }
    else if j > 0 { FitsAll(c, subj, Step(c, subj, k), n - 1, limit, j - 1); }
  }

  lemma {:induction false} FitsNot(c: Code, subj: Subject, k: Config, n: nat, limit: nat) returns (j: nat)
    requires !Fits(c, subj, k, n, limit)
    ensures TooDeep(Steps(c, subj, k, j), limit)
    decreases n
  {
    hide Exec, Step;
    if TooDeep(k, limit) {
      j := 0;
    } else {
      j := FitsNot(c, subj, Step(c, subj, k), n - 1, limit);
      j := j + 1;
    }
  }

  /** The machine gets to a state with more frames, the one at the bottom included, than `limit`. */
  ghost predicate Overruns(c: Code, subj: Subject, start: nat, limit: nat) {
    exists j: nat :: TooDeep(Steps(c, subj, Run(0, start, [], []), j), limit)
  }

  /** A run is over: it has ended well, or it needs too many frames. */
  ghost predicate Over(k: Config, limit: nat) {
    k.Matched? || k.GaveUp? || TooDeep(k, limit)
  }

  lemma OverrunsUnlessFits(c: Code, subj: Subject, start: nat, n: nat, limit: nat)
    requires Over(Steps(c, subj, Run(0, start, [], []), n), limit)
    ensures Overruns(c, subj, start, limit) <==> !Fits(c, subj, Run(0, start, [], []), n, limit)
  {
    hide Steps, Fits;
    var k := Run(0, start, [], []);
    if Fits(c, subj, k, n, limit) {
      FitsLast(c, subj, k, n, limit);
      forall j: nat ensures !TooDeep(Steps(c, subj, k, j), limit) { FitsAll(c, subj, k, n, limit, j); }
    } else {
      var j := FitsNot(c, subj, k, n, limit);
      assert TooDeep(Steps(c, subj, k, j), limit);
    }
  }

  lemma {:induction false} PopShrinks(stk: seq<Frame>, caps: seq<CapEntry>)
    ensures var k := Pop(stk, caps); k.Run? ==> |k.stk| <= |stk|
  {
    if stk != [] { PopShrinks(stk[..|stk| - 1], caps); }
  }

  lemma StepDepth(c: Code, subj: Subject, k: Config)
    requires k.Run?
    ensures var e := Step(c, subj, k); e.Run? ==> |e.stk| <= |k.stk| + 1
  {
    hide Pop, SpanEnd, CloseCapture, CanClose, BuffAt, InSet, Target;
    PopShrinks(k.stk, k.caps);
    if k.stk != [] { PopShrinks(k.stk[..|k.stk| - 1], k.caps); }
  }

  lemma {:induction false} DepthFits(c: Code, subj: Subject, k: Config, n: nat, limit: nat)
    requires k.Run? ==> |k.stk| + n < limit
    ensures Fits(c, subj, k, n, limit)
    decreases n
  {
    hide Step;
    if k.Run? {
      StepDepth(c, subj, k);
      if n > 0 { DepthFits(c, subj, Step(c, subj, k), n - 1, limit); }
    } else {
      HaltedFits(c, subj, k, n, limit);
    }
  }

  /** A run that halts has room enough if the limit is high enough. */
  lemma RoomEnough(c: Code, subj: Subject, start: nat, n: nat, limit: nat)
    requires var e := Steps(c, subj, Run(0, start, [], []), n); e.Matched? || e.GaveUp?
    requires limit > n
    ensures !Overruns(c, subj, start, limit)
  {
    hide Steps, Fits, Overruns;
    OverrunsUnlessFits(c, subj, start, n, limit);
    DepthFits(c, subj, Run(0, start, [], []), n, limit);
  }

  /** How a call of match ends. */
  datatype Outcome = NoMatch | EndsAt(pos: nat) | StackOverflow

  lemma FitsFirst(c: Code, subj: Subject, k: Config, n: nat, limit: nat)
    ensures Fits(c, subj, k, n, limit) ==> !TooDeep(k, limit)
    ensures !TooDeep(k, limit) && n > 0 ==>
              Fits(c, subj, k, n, limit) == Fits(c, subj, Step(c, subj, k), n - 1, limit)
  {
    hide Step;
  }

  /** What the arrays hold is not too deep, and the captures are those in the list. */
  lemma ThereIsRoom(st: BackStack, cl: CaptureList, start: nat, k: Config)
    requires k.Run? && Holds(st, cl, start, k.caps, k.stk)
    ensures !TooDeep(k, Limit(st.max)) && cl.captop <= cl.entries.Length && cl.entries[..cl.captop] == k.caps
  {
  }

  /** The stack with the choice at its bottom, and no captures. */
  method Prepare(start: nat, max: nat) returns (st: BackStack, cl: CaptureList)
    ensures fresh(st) && fresh(st.frames) && fresh(cl) && fresh(cl.entries)
    ensures st.max == max && Holds(st, cl, start, [], [])
  {
    st := new BackStack(max);
    cl := new CaptureList();
    var _ := st.Push(Choice(start, GIVEUP, 0));
  }

  /** Runs `code` on `subj` from `start`, on a stack of at most `max` frames.  `n` bounds the number of
      instructions executed. */
  method Match(code: array<Slot>, subj: Subject, start: nat, max: nat, ghost n: nat)
      returns (r: Outcome, capture: seq<CapEntry>)
    requires Whole(code[..]) && start <= |subj|
    requires Over(Steps(code[..], subj, Run(0, start, [], []), n), Limit(max))
    ensures r == StackOverflow <==> Overruns(code[..], subj, start, Limit(max))
    ensures var e := Steps(code[..], subj, Run(0, start, [], []), n);
            r != StackOverflow ==> e == if r == NoMatch then GaveUp else Matched(r.pos, capture)
  {
    hide Whole, Exec, Pop, Step, Steps, Fits, Over, Overruns, Holds;
    ghost var c, limit := code[..], Limit(max);
    var st, cl := Prepare(start, max);
    var p, s := 0, start;
    ghost var here, k := Run(0, start, [], []), n;
    ghost var last, fits := Steps(c, subj, here, n), Fits(c, subj, here, n, limit);
    OverrunsUnlessFits(c, subj, start, n, limit);
    while true
      invariant c == code[..] && fresh(st) && fresh(st.frames) && fresh(cl) && fresh(cl.entries) && st.max == max
      invariant here.Run? && here.pc == p && here.s == s && Holds(st, cl, start, here.caps, here.stk)
      invariant Steps(c, subj, here, k) == last && Fits(c, subj, here, k, limit) == fits
      decreases k
    {
      ThereIsRoom(st, cl, start, here);
      GoesOn(c, subj, here, k, limit);
      FitsFirst(c, subj, here, k, limit);
      if code[p].op == IEnd {
        EndStep(c, subj, here, k, limit);
        HaltedFits(c, subj, last, k - 1, limit);
        return EndsAt(s), cl.entries[..cl.captop];
      }
      NeverStuck(c, subj, Step(c, subj, here), k - 1, limit);
      var ok;
      p, s, ok, here := Turn(code, subj, p, s, st, cl, start, here.caps, here.stk);
      k := k - 1;
      if !ok {
        FitsFirst(c, subj, here, k, limit);
        return StackOverflow, [];
      }
      if here.Run? {
        ThereIsRoom(st, cl, start, here);
        GoesOn(c, subj, here, k, limit);
      }
      if p == GIVEUP {
        StepsStay(c, subj, here, k);
        HaltedFits(c, subj, here, k, limit);
        return NoMatch, [];
      }
    }
  }

  /** A run that is over at some time is never stuck on the way. */
  lemma NeverStuck(c: Code, subj: Subject, k: Config, n: nat, limit: nat)
    requires Over(Steps(c, subj, k, n), limit)
    ensures k != Stuck
  {
    if k == Stuck { StepsStay(c, subj, k, n); }
  }

  /** Nor does it leave the code. */
  lemma GoesOn(c: Code, subj: Subject, k: Config, n: nat, limit: nat)
    requires Over(Steps(c, subj, k, n), limit) && k.Run? && !TooDeep(k, limit)
    ensures n > 0 && 0 <= k.pc < |c| && k.s <= |subj| && c[k.pc].Inst?
    ensures Steps(c, subj, Step(c, subj, k), n - 1) == Steps(c, subj, k, n)
  {
    hide Exec;
    assert n > 0;
    NeverStuck(c, subj, Step(c, subj, k), n - 1, limit);
  }

  lemma EndStep(c: Code, subj: Subject, k: Config, n: nat, limit: nat)
    requires Over(Steps(c, subj, k, n), limit)
    requires k.Run? && n > 0 && 0 <= k.pc < |c| && k.s <= |subj| && OpAt(c, k.pc, IEnd)
    ensures Steps(c, subj, k, n) == Step(c, subj, k) == Matched(k.s, k.caps)
  {
    StepsStay(c, subj, Step(c, subj, k), n - 1);
  }
}
