/** One lemma per construction: the code around the parts delivers when the parts do. */
module LpegCases {
  import opened Basics
  import opened LpegTree
  import opened LpegAnalysis
  import opened LpegVm
  import opened LpegCodegen
  import opened LpegCorrect

  lemma SlotAt(x: Ctx, a: int, frag: Code, i: int)
    requires Linked(x, a, frag) && 0 <= i < |frag|
    ensures 0 <= a + i < |x.code| && x.code[a + i] == LinkedSlot(frag[i], x.calls, a + i)
  {
  }

  /** A single instruction without open calls is in place as it was generated. */
  lemma AtHead(x: Ctx, a: int, frag: Code)
    requires Linked(x, a, frag) && frag != [] && !frag[0].Open? && (frag[0].Inst? ==> frag[0].op != IOpenCall)
    ensures 0 <= a < |x.code| && x.code[a] == frag[0]
    ensures |frag| > 1 && frag[1].Offset? ==> Target(x.code, a) == a + frag[1].off
    ensures |frag| > 1 && frag[1].Buff? ==> BuffAt(x.code, a + 1) == frag[1].cs
    ensures |frag| > 2 && frag[2].Buff? ==> BuffAt(x.code, a + 2) == frag[2].cs
  {
    SlotAt(x, a, frag, 0);
    if |frag| > 1 { SlotAt(x, a, frag, 1); }
    if |frag| > 2 { SlotAt(x, a, frag, 2); }
  }

  lemma TypeOfMeaning(cs: Charset)
    ensures match TypeOf(cs)
            case CsFail => cs == {}
            case CsAny => cs == FullSet()
            case CsChar(c) => cs == {c}
            case CsSet => true
  {
    hide FullSet;
  }

  lemma TestGoes(x: Ctx, a: int, cs: Charset, off: int, s: nat, c0: seq<CapEntry>, stk: seq<Frame>)
    requires Linked(x, a, Test(cs, off)) && s <= |x.subj|
    ensures var next := if InSet(x.subj, s, cs) then a + |Test(cs, off)| else a + off;
            Goes(x, Run(a, s, c0, stk), Run(next, s, c0, stk))
  {
    hide TypeOf, FullSet, Linked, Target, BuffAt, Pop, SpanEnd, CloseCapture, Kind, Off;
    TypeOfMeaning(cs);
    AtHead(x, a, Test(cs, off));
    var next := if InSet(x.subj, s, cs) then a + |Test(cs, off)| else a + off;
    assert FullSet() == cs ==> s < |x.subj| ==> x.subj[s] in FullSet();
    Step1(x, Run(a, s, c0, stk), Run(next, s, c0, stk));
  }

  lemma OptTestGoes(x: Ctx, a: int, f: First, off: int, s: nat, c0: seq<CapEntry>, stk: seq<Frame>)
    requires Linked(x, a, OptTest(f, off)) && s <= |x.subj|
    ensures var next := if f.empty || InSet(x.subj, s, f.cs) then a + |OptTest(f, off)| else a + off;
            Goes(x, Run(a, s, c0, stk), Run(next, s, c0, stk))
  {
    if f.empty { ReachesRefl(x.code, x.subj, Run(a, s, c0, stk)); }
    else { TestGoes(x, a, f.cs, off, s, c0, stk); }
  }

  lemma NoCaptures(c0: seq<CapEntry>)
    ensures c0 + FlatAll([]) == c0
  {
  }

  // ---------------------------------------------------------------- characters and sets

  lemma CharDelivers(x: Ctx, c: Byte, tt: Dominating, fl: Charset, opt: bool, a: int, s: nat, c0: seq<CapEntry>,
                     stk: seq<Frame>)
    requires Linked(x, a, GenChar(c, tt)) && s <= |x.subj|
    requires tt.Some? ==> InSet(x.subj, s, tt.value)
    ensures Delivers(x, opt, Run(a, s, c0, stk), a + |GenChar(c, tt)|, One(x.subj, s, {c}), fl, c0, stk)
  {
    AtHead(x, a, GenChar(c, tt));
    ReachesStep(x.code, x.subj, Run(a, s, c0, stk));
    assert c0 + [] == c0;
  }

  lemma CharsetDelivers(x: Ctx, cs: Charset, tt: Dominating, fl: Charset, opt: bool, a: int, s: nat, c0: seq<CapEntry>,
                        stk: seq<Frame>)
    requires Linked(x, a, GenCharset(cs, tt)) && s <= |x.subj|
    requires tt.Some? ==> InSet(x.subj, s, tt.value)
    ensures Delivers(x, opt, Run(a, s, c0, stk), a + |GenCharset(cs, tt)|, One(x.subj, s, cs), fl, c0, stk)
  {
    hide TypeOf, FullSet, Linked, Target, SpanEnd, CloseCapture, Kind, Off, GenChar, Steps;
    TypeOfMeaning(cs);
    if TypeOf(cs).CsChar? {
      CharDelivers(x, TypeOf(cs).c, tt, fl, opt, a, s, c0, stk);
    } else {
      AtHead(x, a, GenCharset(cs, tt));
      assert s < |x.subj| ==> x.subj[s] in FullSet();
      ReachesStep(x.code, x.subj, Run(a, s, c0, stk));
      assert c0 + [] == c0;
    }
  }

  // ---------------------------------------------------------------- sequence

  function Joined(r1: Result, r2: Result): Result {
    if r1.Yes? && r2.Yes? then Yes(r2.pos, r1.caps + r2.caps) else if r1.Yes? then r2 else r1
  }

  /** A character after `r1` that `fl1` rules out also rules out that `r2` goes on to succeed there. */
  ghost predicate FollowOk(subj: Subject, r1: Result, r2: Result, fl1: Charset, fl: Charset) {
    r1.Yes? && r2.Yes? && r1.pos < |subj| && subj[r1.pos] !in fl1 ==> r2.pos == r1.pos && subj[r1.pos] !in fl
  }

  lemma SeqDelivers(x: Ctx, opt: bool, fl: Charset, fl1: Charset, start: Config, m: int, b: int, r1: Result, r2: Result,
                    c0: seq<CapEntry>, stk: seq<Frame>)
    requires LevelsOk(stk, |c0|) && FollowOk(x.subj, r1, r2, fl1, fl)
    requires Delivers(x, false, start, m, r1, fl1, c0, stk)
    requires r1.Yes? ==> var c1 := c0 + FlatAll(r1.caps); Delivers(x, opt, Run(m, r1.pos, c1, stk), b, r2, fl, c1, stk)
    ensures Delivers(x, opt, start, b, Joined(r1, r2), fl, c0, stk)
  {
    hide Goes, FlatAll, Pop, Target;
    if r1.Yes? {
      var t, c1 := r1.pos, c0 + FlatAll(r1.caps);
      PopPrefix(stk, c0, FlatAll(r1.caps));
      if Goes(x, start, Run(m, t, c1, stk)) {
        DeliversFrom(x, opt, start, Run(m, t, c1, stk), b, r2, fl, c1, stk);
        if r2.Yes? {
          FlatAppend(r1.caps, r2.caps);
          assert c1 + FlatAll(r2.caps) == c0 + FlatAll(r1.caps + r2.caps);
        }
      }
    }
  }

  // ---------------------------------------------------------------- choice

  function Either(r1: Result, r2: Result): Result {
    if r1.No? then r2 else r1
  }

  lemma StepJmp(x: Ctx, a: int, s: nat, c0: seq<CapEntry>, stk: seq<Frame>)
    requires s <= |x.subj| && OpAt(x.code, a, IJmp)
    ensures Goes(x, Run(a, s, c0, stk), Run(Target(x.code, a), s, c0, stk))
  {
    ReachesStep(x.code, x.subj, Run(a, s, c0, stk));
  }

  lemma StepCommit(x: Ctx, a: int, t: nat, c1: seq<CapEntry>, stk: seq<Frame>, f: Frame)
    requires t <= |x.subj| && OpAt(x.code, a, ICommit) && f.Choice?
    ensures Goes(x, Run(a, t, c1, stk + [f]), Run(Target(x.code, a), t, c1, stk))
  {
    assert (stk + [f])[..|stk|] == stk;
    ReachesStep(x.code, x.subj, Run(a, t, c1, stk + [f]));
  }

  lemma StepFailTwice(x: Ctx, a: int, t: nat, c1: seq<CapEntry>, stk: seq<Frame>, f: Frame)
    requires t <= |x.subj| && OpAt(x.code, a, IFailTwice) && f.Choice?
    ensures Goes(x, Run(a, t, c1, stk + [f]), Pop(stk, c1))
  {
    assert (stk + [f])[..|stk|] == stk;
    ReachesStep(x.code, x.subj, Run(a, t, c1, stk + [f]));
  }

  lemma StepBackCommit(x: Ctx, a: int, t: nat, c0: seq<CapEntry>, more: seq<CapEntry>, stk: seq<Frame>, s: nat, pc: int)
    requires t <= |x.subj| && OpAt(x.code, a, IBackCommit)
    ensures Goes(x, Run(a, t, c0 + more, stk + [Choice(s, pc, |c0|)]), Run(Target(x.code, a), s, c0, stk))
  {
    var with := stk + [Choice(s, pc, |c0|)];
    assert with[..|stk|] == stk && (c0 + more)[..|c0|] == c0;
    ReachesStep(x.code, x.subj, Run(a, t, c0 + more, with));
  }

  lemma StepCall(x: Ctx, a: int, s: nat, c0: seq<CapEntry>, stk: seq<Frame>)
    requires s <= |x.subj| && OpAt(x.code, a, ICall)
    ensures Goes(x, Run(a, s, c0, stk), Run(Target(x.code, a), s, c0, stk + [Return(a + 2)]))
  {
    ReachesStep(x.code, x.subj, Run(a, s, c0, stk));
  }

  lemma StepReturn(x: Ctx, a: int, t: nat, c1: seq<CapEntry>, stk: seq<Frame>, pc: int)
    requires t <= |x.subj| && OpAt(x.code, a, IRet)
    ensures Goes(x, Run(a, t, c1, stk + [Return(pc)]), Run(pc, t, c1, stk))
  {
    assert (stk + [Return(pc)])[..|stk|] == stk;
    ReachesStep(x.code, x.subj, Run(a, t, c1, stk + [Return(pc)]));
  }

  /** The end of the first part is the end of the whole, or a jump to it. */
  ghost predicate LeadsTo(x: Ctx, m: int, b: int) {
    m == b || (OpAt(x.code, m, IJmp) && Target(x.code, m) == b)
  }

  /** A choice decided by a test at `a`: the first part runs from `m` to `e`, the second one from `l1` to `b`. */
  lemma ChoiceByTestDelivers(x: Ctx, opt: bool, fl: Charset, a: int, m: int, e: int, l1: int, b: int, s: nat,
                             passes: bool,
                             r1: Result, r2: Result, c0: seq<CapEntry>, stk: seq<Frame>)
    requires s <= |x.subj| && LeadsTo(x, e, b) && r1 != Out
    requires !passes ==> r1.No?
    requires passes && r1.No? && r2.Yes? ==> r2.pos == s && s < |x.subj| && x.subj[s] !in fl
    requires r1.Yes? ==> r1.pos <= |x.subj|
    requires Goes(x, Run(a, s, c0, stk), Run(if passes then m else l1, s, c0, stk))
    requires passes ==> Delivers(x, false, Run(m, s, c0, stk), e, r1, fl, c0, stk)
    requires Delivers(x, opt, Run(l1, s, c0, stk), b, r2, fl, c0, stk)
    ensures Delivers(x, opt, Run(a, s, c0, stk), b, Either(r1, r2), fl, c0, stk)
  {
    hide Goes, FlatAll, Pop, Target;
    var start := Run(a, s, c0, stk);
    if !passes {
      DeliversFrom(x, opt, start, Run(l1, s, c0, stk), b, r2, fl, c0, stk);
    } else {
      DeliversFrom(x, false, start, Run(m, s, c0, stk), e, r1, fl, c0, stk);
      if r1.Yes? && e != b {
        var c1 := c0 + FlatAll(r1.caps);
        if Goes(x, start, Run(e, r1.pos, c1, stk)) {
          StepJmp(x, e, r1.pos, c1, stk);
          Via(x, start, Run(e, r1.pos, c1, stk), Run(b, r1.pos, c1, stk));
        }
      }
    }
  }

  lemma PopChoice(stk: seq<Frame>, s: nat, pc: int, c0: seq<CapEntry>)
    ensures Pop(stk + [Choice(s, pc, |c0|)], c0) == Run(pc, s, c0, stk)
  {
    var with := stk + [Choice(s, pc, |c0|)];
    assert with[..|with| - 1] == stk;
    assert c0[..|c0|] == c0;
  }

  /** partialcommit; <p1>, reusing the choice of the enclosing optional pattern. */
  lemma OptionReuseDelivers(x: Ctx, fl: Charset, a: int, b: int, s: nat, r1: Result, c0: seq<CapEntry>, stk: seq<Frame>)
    requires s <= |x.subj| && HasChoice(stk) && Linked(x, a, Jump(IPartialCommit, 2))
    requires var moved := stk[..|stk| - 1] + [Choice(s, stk[|stk| - 1].pc, |c0|)];
             Delivers(x, true, Run(a + 2, s, c0, moved), b, r1, FullSet(), c0, moved)
    ensures Delivers(x, true, Run(a, s, c0, stk), b, Either(r1, Yes(s, [])), fl, c0, stk)
  {
    hide Goes, FlatAll, Pop, Target;
    var top, rest := stk[|stk| - 1], stk[..|stk| - 1];
    var moved := rest + [Choice(s, top.pc, |c0|)];
    var start := Run(a, s, c0, stk);
    AtHead(x, a, Jump(IPartialCommit, 2));
    assert moved[..|moved| - 1] == rest;
    StepMoved(x, a, s, c0, stk);
    DeliversFrom(x, true, start, Run(a + 2, s, c0, moved), b, r1, FullSet(), c0, moved);
    match r1
    case Out =>
    case No =>
      PopChoice(rest, s, top.pc, c0);
      NoCaptures(c0);
      assert Arrives(x, true, start, b, s, c0, stk);
    case Yes(t, caps) =>
      var c1 := c0 + FlatAll(caps);
      if Goes(x, start, Run(b, t, c1, moved)) {
        assert Goes(x, start, Run(b, t, c1, rest + [Choice(s, top.pc, |c0|)]));
      }
      assert Arrives(x, true, start, b, t, c1, stk);
  }

  lemma StepMoved(x: Ctx, a: int, s: nat, c0: seq<CapEntry>, stk: seq<Frame>)
    requires s <= |x.subj| && HasChoice(stk) && OpAt(x.code, a, IPartialCommit)
    ensures Goes(x, Run(a, s, c0, stk), Run(Target(x.code, a), s, c0,
                                            stk[..|stk| - 1] + [Choice(s, stk[|stk| - 1].pc, |c0|)]))
  {
    ReachesStep(x.code, x.subj, Run(a, s, c0, stk));
  }

  /** A run of a part that leaves the choice `exit` on the stack ends at `b` once committed, if that
      is also where the choice leads. */
  lemma CommitArrives(x: Ctx, opt: bool, start: Config, m: int, b: int, t: nat, c1: seq<CapEntry>, stk: seq<Frame>,
                      exit: Frame)
    requires exit.Choice? && t <= |x.subj|
    requires Arrives(x, opt, start, m, t, c1, stk + [exit]) && (opt ==> exit.pc == b)
    requires OpAt(x.code, m, ICommit) && Target(x.code, m) == b
    ensures Goes(x, start, Run(b, t, c1, stk))
  {
    hide Goes, FlatAll, Pop, Target;
    var with := stk + [exit];
    assert with[..|with| - 1] == stk;
    if Goes(x, start, Run(m, t, c1, with)) {
      StepCommit(x, m, t, c1, stk, exit);
      Via(x, start, Run(m, t, c1, with), Run(b, t, c1, stk));
    } else if !Goes(x, start, Run(exit.pc, t, c1, stk)) {
      var s, lvl :| Goes(x, start, Run(m, t, c1, stk + [Choice(s, exit.pc, lvl)]));
      StepCommit(x, m, t, c1, stk, Choice(s, exit.pc, lvl));
      Via(x, start, Run(m, t, c1, stk + [Choice(s, exit.pc, lvl)]), Run(b, t, c1, stk));
    }
  }

  lemma StepChoice(x: Ctx, a: int, s: nat, c0: seq<CapEntry>, stk: seq<Frame>)
    requires s <= |x.subj| && OpAt(x.code, a, IChoice)
    ensures Goes(x, Run(a, s, c0, stk), Run(a + 2, s, c0, stk + [Choice(s, Target(x.code, a), |c0|)]))
  {
    ReachesStep(x.code, x.subj, Run(a, s, c0, stk));
  }

  /** The ordinary choice: the choice point is made at `m`, the first part ends at `e`, the second is at `l1`. */
  lemma ChoiceDelivers(x: Ctx, opt: bool, opt1: bool, fl: Charset, a: int, m: int, e: int, l1: int, b: int, s: nat,
                       passes: bool,
                       r1: Result, r2: Result, c0: seq<CapEntry>, stk: seq<Frame>)
    requires s <= |x.subj| && (opt1 ==> l1 == b) && r1 != Out
    requires OpAt(x.code, m, IChoice) && Target(x.code, m) == l1
    requires OpAt(x.code, e, ICommit) && Target(x.code, e) == b
    requires !passes ==> r1.No?
    requires r1.Yes? ==> r1.pos <= |x.subj|
    requires Goes(x, Run(a, s, c0, stk), Run(if passes then m else l1, s, c0, stk))
    requires passes ==> var with := stk + [Choice(s, l1, |c0|)];
                        Delivers(x, opt1, Run(m + 2, s, c0, with), e, r1, FullSet(), c0, with)
    requires Delivers(x, opt, Run(l1, s, c0, stk), b, r2, fl, c0, stk)
    ensures Delivers(x, opt, Run(a, s, c0, stk), b, Either(r1, r2), fl, c0, stk)
  {
    hide Goes, FlatAll, Pop, Target;
    var exit := Choice(s, l1, |c0|);
    var with := stk + [exit];
    var start := Run(a, s, c0, stk);
    if !passes {
      DeliversFrom(x, opt, start, Run(l1, s, c0, stk), b, r2, fl, c0, stk);
    } else {
      StepChoice(x, m, s, c0, stk);
      Via(x, start, Run(m, s, c0, stk), Run(m + 2, s, c0, with));
      DeliversFrom(x, opt1, start, Run(m + 2, s, c0, with), e, r1, FullSet(), c0, with);
      if r1.No? {
        PopChoice(stk, s, l1, c0);
        DeliversFrom(x, opt, start, Run(l1, s, c0, stk), b, r2, fl, c0, stk);
      } else {
        CommitArrives(x, opt1, start, e, b, r1.pos, c0 + FlatAll(r1.caps), stk, exit);
      }
    }
  }

  // ---------------------------------------------------------------- repetition

  function RepTurn(s: nat, r1: Result, rest: Result): Result {
    match r1
    case Out => Out
    case No => Yes(s, [])
    case Yes(_, _) => Joined(r1, rest)
  }

  lemma SpanDelivers(x: Ctx, cs: Charset, opt: bool, fl: Charset, a: int, s: nat, c0: seq<CapEntry>, stk: seq<Frame>)
    requires s <= |x.subj| && Linked(x, a, I(ISpan) + Buffer(cs))
    ensures Delivers(x, opt, Run(a, s, c0, stk), a + CHARSETINSTSIZE, Yes(SpanEnd(x.subj, s, cs), []), fl, c0, stk)
  {
    AtHead(x, a, I(ISpan) + Buffer(cs));
    ReachesStep(x.code, x.subj, Run(a, s, c0, stk));
    assert c0 + [] == c0;
  }

  /** A turn of a loop decided by tests, followed by the remaining turns. */
  lemma RepByTestDelivers(x: Ctx, opt: bool, fl: Charset, a: int, m: int, e: int, b: int, s: nat, passes: bool,
                          r1: Result, rest: Result, c0: seq<CapEntry>, stk: seq<Frame>)
    requires s <= |x.subj| && LevelsOk(stk, |c0|) && r1 != Out
    requires OpAt(x.code, e, IJmp) && Target(x.code, e) == a
    requires !passes ==> r1.No?
    requires passes && r1.No? ==> s < |x.subj| && x.subj[s] !in fl
    requires r1.Yes? ==> r1.pos <= |x.subj|
    requires Goes(x, Run(a, s, c0, stk), Run(if passes then m else b, s, c0, stk))
    requires passes ==> Delivers(x, false, Run(m, s, c0, stk), e, r1, FullSet(), c0, stk)
    requires r1.Yes? ==> var c1 := c0 + FlatAll(r1.caps); Delivers(x, opt, Run(a, r1.pos, c1, stk), b, rest, fl, c1,
                                                                   stk)
    ensures Delivers(x, opt, Run(a, s, c0, stk), b, RepTurn(s, r1, rest), fl, c0, stk)
  {
    hide Goes, FlatAll, Pop, Target;
    var start := Run(a, s, c0, stk);
    if !passes {
      NoCaptures(c0);
    } else {
      DeliversFrom(x, false, start, Run(m, s, c0, stk), e, r1, FullSet(), c0, stk);
      if r1.Yes? {
        var c1 := c0 + FlatAll(r1.caps);
        StepJmp(x, e, r1.pos, c1, stk);
        Via(x, start, Run(e, r1.pos, c1, stk), Run(a, r1.pos, c1, stk));
        DeliversExactly(x, start, a, Yes(r1.pos, r1.caps), c0, stk);
        SeqDelivers(x, opt, fl, FullSet(), start, a, b, r1, rest, c0, stk);
      }
    }
  }

  /** A turn of a loop that keeps a choice point: it leads to `exit`, and the turn that fails takes it. */
  lemma RepLoopTurn(x: Ctx, l: int, e: int, exit: int, s: nat, r1: Result, rest: Result, c0: seq<CapEntry>,
                    stk: seq<Frame>)
    requires s <= |x.subj|
    requires OpAt(x.code, e, IPartialCommit) && Target(x.code, e) == l
    requires r1.Yes? ==> r1.pos <= |x.subj|
    requires var with := stk + [Choice(s, exit, |c0|)]; Delivers(x, false, Run(l, s, c0, with), e, r1, FullSet(), c0,
                                                                 with)
    requires r1.Yes? && rest.Yes? ==>
               var c1 := c0 + FlatAll(r1.caps);
               Goes(x, Run(l, r1.pos, c1, stk + [Choice(r1.pos, exit, |c1|)]),
                    Run(exit, rest.pos, c1 + FlatAll(rest.caps), stk))
    requires !rest.No?
    ensures var r := RepTurn(s, r1, rest);
            r.Yes? ==> Goes(x, Run(l, s, c0, stk + [Choice(s, exit, |c0|)]),
                            Run(exit, r.pos, c0 + FlatAll(r.caps), stk))
  {
    hide Goes, FlatAll, Pop, Target;
    var with := stk + [Choice(s, exit, |c0|)];
    var start := Run(l, s, c0, with);
    if r1.No? {
      PopChoice(stk, s, exit, c0);
      NoCaptures(c0);
    } else if r1.Yes? && rest.Yes? {
      var t, c1 := r1.pos, c0 + FlatAll(r1.caps);
      StepMoved(x, e, t, c1, with);
      assert with[..|with| - 1] == stk;
      Via(x, start, Run(e, t, c1, with), Run(l, t, c1, stk + [Choice(t, exit, |c1|)]));
      Via(x, start, Run(l, t, c1, stk + [Choice(t, exit, |c1|)]), Run(exit, rest.pos, c1 + FlatAll(rest.caps), stk));
      FlatAppend(r1.caps, rest.caps);
      assert c1 + FlatAll(rest.caps) == c0 + FlatAll(r1.caps + rest.caps);
    }
  }

  // ---------------------------------------------------------------- predicates

  function Negated(s: nat, r1: Result): Result {
    match r1
    case Out => Out
    case No => Yes(s, [])
    case Yes(_, _) => No
  }

  function Dry(s: nat, r1: Result): Result {
    if r1.Yes? then Yes(s, []) else r1
  }

  lemma StepFail(x: Ctx, a: int, s: nat, c0: seq<CapEntry>, stk: seq<Frame>)
    requires s <= |x.subj| && OpAt(x.code, a, IFail)
    ensures Goes(x, Run(a, s, c0, stk), Pop(stk, c0))
  {
    ReachesStep(x.code, x.subj, Run(a, s, c0, stk));
  }

  /** A negation decided by a test. */
  lemma NotByTestDelivers(x: Ctx, opt: bool, fl: Charset, a: int, m: int, b: int, s: nat, passes: bool, r1: Result,
                          c0: seq<CapEntry>, stk: seq<Frame>)
    requires s <= |x.subj| && OpAt(x.code, m, IFail) && r1 != Out
    requires passes <==> r1.Yes?
    requires Goes(x, Run(a, s, c0, stk), Run(if passes then m else b, s, c0, stk))
    ensures Delivers(x, opt, Run(a, s, c0, stk), b, Negated(s, r1), fl, c0, stk)
  {
    hide Goes, FlatAll, Pop, Target;
    if passes {
      StepFail(x, m, s, c0, stk);
      Via(x, Run(a, s, c0, stk), Run(m, s, c0, stk), Pop(stk, c0));
    } else {
      NoCaptures(c0);
    }
  }

  /** A negation with a choice point. */
  lemma NotDelivers(x: Ctx, opt: bool, fl: Charset, a: int, m: int, e: int, b: int, s: nat, passes: bool, r1: Result,
                    c0: seq<CapEntry>, stk: seq<Frame>)
    requires s <= |x.subj| && LevelsOk(stk, |c0|) && r1 != Out
    requires OpAt(x.code, m, IChoice) && Target(x.code, m) == b && OpAt(x.code, e, IFailTwice)
    requires !passes ==> r1.No?
    requires r1.Yes? ==> r1.pos <= |x.subj|
    requires Goes(x, Run(a, s, c0, stk), Run(if passes then m else b, s, c0, stk))
    requires passes ==> var with := stk + [Choice(s, b, |c0|)]; Delivers(x, false, Run(m + 2, s, c0, with), e, r1,
             FullSet(), c0, with)
    ensures Delivers(x, opt, Run(a, s, c0, stk), b, Negated(s, r1), fl, c0, stk)
  {
    hide Goes, FlatAll, Pop, Target;
    var start := Run(a, s, c0, stk);
    var with := stk + [Choice(s, b, |c0|)];
    NoCaptures(c0);
    if passes {
      StepChoice(x, m, s, c0, stk);
      Via(x, start, Run(m, s, c0, stk), Run(m + 2, s, c0, with));
      DeliversFrom(x, false, start, Run(m + 2, s, c0, with), e, r1, FullSet(), c0, with);
      if r1.No? {
        PopChoice(stk, s, b, c0);
      } else {
        var c1 := c0 + FlatAll(r1.caps);
        PopPrefix(stk, c0, FlatAll(r1.caps));
        StepFailTwice(x, e, r1.pos, c1, stk, Choice(s, b, |c0|));
        Via(x, start, Run(e, r1.pos, c1, with), Pop(stk, c1));
      }
    }
  }

  lemma StepBehind(x: Ctx, a: int, n: nat, s: nat, c0: seq<CapEntry>, stk: seq<Frame>)
    requires s <= |x.subj| && Linked(x, a, GoBack(n))
    ensures Goes(x, Run(a, s, c0, stk), if n <= s then Run(a + |GoBack(n)|, s - n, c0, stk) else Pop(stk, c0))
  {
    hide Pop;
    if n > 0 {
      AtHead(x, a, GoBack(n));
      ReachesStep(x.code, x.subj, Run(a, s, c0, stk));
    } else {
      ReachesRefl(x.code, x.subj, Run(a, s, c0, stk));
    }
  }

  /** <p>; behind n */
  lemma AndByLengthDelivers(x: Ctx, opt: bool, fl: Charset, a: int, e: int, n: nat, s: nat, r1: Result,
                            c0: seq<CapEntry>, stk: seq<Frame>)
    requires r1.Yes? ==> r1.pos == s + n <= |x.subj| && r1.caps == []
    requires Linked(x, e, GoBack(n))
    requires Delivers(x, false, Run(a, s, c0, stk), e, r1, FullSet(), c0, stk)
    ensures Delivers(x, opt, Run(a, s, c0, stk), e + |GoBack(n)|, Dry(s, r1), fl, c0, stk)
  {
    hide Goes, FlatAll, Pop, Linked, GoBack;
    NoCaptures(c0);
    if r1.Yes? {
      StepBehind(x, e, n, s + n, c0, stk);
      Via(x, Run(a, s, c0, stk), Run(e, s + n, c0, stk), Run(e + |GoBack(n)|, s, c0, stk));
    }
  }

  /** A predicate that goes back to its choice point. */
  lemma AndDelivers(x: Ctx, opt: bool, fl: Charset, a: int, e: int, l1: int, b: int, s: nat, r1: Result,
                    c0: seq<CapEntry>, stk: seq<Frame>)
    requires s <= |x.subj|
    requires OpAt(x.code, a, IChoice) && Target(x.code, a) == l1
    requires OpAt(x.code, e, IBackCommit) && Target(x.code, e) == b && OpAt(x.code, l1, IFail)
    requires r1.Yes? ==> r1.pos <= |x.subj|
    requires var with := stk + [Choice(s, l1, |c0|)]; Delivers(x, false, Run(a + 2, s, c0, with), e, r1, FullSet(), c0,
                                                               with)
    ensures Delivers(x, opt, Run(a, s, c0, stk), b, Dry(s, r1), fl, c0, stk)
  {
    hide Goes, FlatAll, Pop, Target;
    var start := Run(a, s, c0, stk);
    var with := stk + [Choice(s, l1, |c0|)];
    StepChoice(x, a, s, c0, stk);
    DeliversFrom(x, false, start, Run(a + 2, s, c0, with), e, r1, FullSet(), c0, with);
    NoCaptures(c0);
    if r1.No? {
      PopChoice(stk, s, l1, c0);
      StepFail(x, l1, s, c0, stk);
      Via(x, start, Run(l1, s, c0, stk), Pop(stk, c0));
    } else if r1.Yes? {
      var c1 := c0 + FlatAll(r1.caps);
      StepBackCommit(x, e, r1.pos, c0, FlatAll(r1.caps), stk, s, l1);
      Via(x, start, Run(e, r1.pos, c1, with), Run(b, s, c0, stk));
    }
  }

  /** behind n; <p> */
  lemma BehindDelivers(x: Ctx, opt: bool, fl: Charset, a: int, b: int, n: nat, s: nat, r1: Result, c0: seq<CapEntry>,
                       stk: seq<Frame>)
    requires s <= |x.subj| && Linked(x, a, GoBack(n))
    requires r1.Yes? ==> r1.pos == s && r1.caps == []
    requires n <= s ==> Delivers(x, false, Run(a + |GoBack(n)|, s - n, c0, stk), b, r1, FullSet(), c0, stk)
    ensures Delivers(x, opt, Run(a, s, c0, stk), b, if n > s then No else Dry(s, r1), fl, c0, stk)
  {
    hide Goes, FlatAll, Pop, Linked, GoBack;
    NoCaptures(c0);
    StepBehind(x, a, n, s, c0, stk);
    if n <= s {
      DeliversFrom(x, false, Run(a, s, c0, stk), Run(a + |GoBack(n)|, s - n, c0, stk), b, r1, FullSet(), c0, stk);
    }
  }

  // ---------------------------------------------------------------- captures

  function Captured(kind: nat, key: int, s: nat, r1: Result): Result {
    if r1.Yes? then Yes(r1.pos, [Capture(kind, key, s, r1.pos, r1.caps)]) else r1
  }

  lemma StepFullCapture(x: Ctx, e: int, kind: nat, key: int, n: nat, s: nat, c0: seq<CapEntry>, stk: seq<Frame>)
    requires kind < 16 && n <= MAXOFF && s + n <= |x.subj|
    requires Linked(x, e, [Inst(IFullCapture, kind + 16 * n, key)])
    ensures Goes(x, Run(e, s + n, c0, stk), Run(e + 1, s + n, c0 + FlatAll([Capture(kind, key, s, s + n, [])]), stk))
  {
    FlatSingle(Capture(kind, key, s, s + n, []));
    AtHead(x, e, [Inst(IFullCapture, kind + 16 * n, key)]);
    ReachesStep(x.code, x.subj, Run(e, s + n, c0, stk));
  }

  /** <p>; fullcapture */
  lemma FullCaptureDelivers(x: Ctx, opt: bool, fl: Charset, a: int, e: int, kind: nat, key: int, n: nat, s: nat,
                            r1: Result,
                            c0: seq<CapEntry>, stk: seq<Frame>)
    requires kind < 16 && n <= MAXOFF
    requires Linked(x, e, [Inst(IFullCapture, kind + 16 * n, key)])
    requires r1.Yes? ==> r1.pos == s + n <= |x.subj| && r1.caps == []
    requires Delivers(x, false, Run(a, s, c0, stk), e, r1, fl, c0, stk)
    ensures Delivers(x, opt, Run(a, s, c0, stk), e + 1, Captured(kind, key, s, r1), fl, c0, stk)
  {
    hide Goes, FlatAll, Pop, Linked;
    NoCaptures(c0);
    if r1.Yes? && Goes(x, Run(a, s, c0, stk), Run(e, s + n, c0 + FlatAll([]), stk)) {
      StepFullCapture(x, e, kind, key, n, s, c0, stk);
      Via(x, Run(a, s, c0, stk), Run(e, s + n, c0, stk),
          Run(e + 1, s + n, c0 + FlatAll([Capture(kind, key, s, s + n, [])]), stk));
    }
  }

  /** The list of a nonempty forest never ends with an open capture. */
  lemma {:induction false} LastClosed(cs: seq<Capture>)
    requires cs != []
    ensures FlatAll(cs) != [] && FlatAll(cs)[|FlatAll(cs)| - 1].siz != 0
    decreases |cs|
  {
    if |cs| > 1 { LastClosed(cs[1..]); } else { FlatSingle(cs[0]); assert cs == [cs[0]]; }
  }

  lemma CloseCaptureFlat(c0: seq<CapEntry>, c: Capture)
    requires c.start <= c.end
    ensures CanClose(c0 + [CapEntry(c.start, c.key, c.kind, 0)] + FlatAll(c.nested), c.end)
    ensures CloseCapture(c0 + [CapEntry(c.start, c.key, c.kind, 0)] + FlatAll(c.nested), c.end, 0, CCLOSE) == c0 +
            FlatAll([c])
  {
    FlatSingle(c);
    var inner := FlatAll(c.nested);
    var caps := c0 + [CapEntry(c.start, c.key, c.kind, 0)] + inner;
    if c.nested != [] {
      LastClosed(c.nested);
      assert caps[|caps| - 1] == inner[|inner| - 1];
    } else {
      assert caps == c0 + [CapEntry(c.start, c.key, c.kind, 0)];
    }
  }

  lemma StepOpenCapture(x: Ctx, a: int, kind: nat, key: int, s: nat, c0: seq<CapEntry>, stk: seq<Frame>)
    requires s <= |x.subj| && kind < 16 && Linked(x, a, [Inst(IOpenCapture, kind, key)])
    ensures Goes(x, Run(a, s, c0, stk), Run(a + 1, s, c0 + [CapEntry(s, key, kind, 0)], stk))
  {
    AtHead(x, a, [Inst(IOpenCapture, kind, key)]);
    ReachesStep(x.code, x.subj, Run(a, s, c0, stk));
  }

  lemma StepCloseCapture(x: Ctx, e: int, t: nat, c0: seq<CapEntry>, c: Capture, stk: seq<Frame>)
    requires t <= |x.subj| && Linked(x, e, I(ICloseCapture)) && c.start <= c.end == t
    ensures Goes(x, Run(e, t, c0 + [CapEntry(c.start, c.key, c.kind, 0)] + FlatAll(c.nested), stk),
                 Run(e + 1, t, c0 + FlatAll([c]), stk))
  {
    hide CloseCapture, CanClose, FlatAll;
    AtHead(x, e, I(ICloseCapture));
    CloseCaptureFlat(c0, c);
    ReachesStep(x.code, x.subj, Run(e, t, c0 + [CapEntry(c.start, c.key, c.kind, 0)] + FlatAll(c.nested), stk));
  }

  /** opencapture; <p>; closecapture */
  lemma OpenCaptureDelivers(x: Ctx, opt: bool, fl: Charset, a: int, e: int, kind: nat, key: int, s: nat, r1: Result,
                            c0: seq<CapEntry>, stk: seq<Frame>)
    requires s <= |x.subj| && kind < 16 && LevelsOk(stk, |c0|)
    requires Linked(x, a, [Inst(IOpenCapture, kind, key)]) && Linked(x, e, I(ICloseCapture))
    requires r1.Yes? ==> s <= r1.pos <= |x.subj|
    requires var c1 := c0 + [CapEntry(s, key, kind, 0)]; Delivers(x, false, Run(a + 1, s, c1, stk), e, r1, fl, c1, stk)
    ensures Delivers(x, opt, Run(a, s, c0, stk), e + 1, Captured(kind, key, s, r1), fl, c0, stk)
  {
    hide Goes, FlatAll, Pop, Linked;
    var start, c1 := Run(a, s, c0, stk), c0 + [CapEntry(s, key, kind, 0)];
    StepOpenCapture(x, a, kind, key, s, c0, stk);
    DeliversFrom(x, false, start, Run(a + 1, s, c1, stk), e, r1, fl, c1, stk);
    PopPrefix(stk, c0, [CapEntry(s, key, kind, 0)]);
    if r1.Yes? {
      var t, c := r1.pos, Capture(kind, key, s, r1.pos, r1.caps);
      if Goes(x, start, Run(e, t, c1 + FlatAll(r1.caps), stk)) {
        StepCloseCapture(x, e, t, c0, c, stk);
        Via(x, start, Run(e, t, c1 + FlatAll(r1.caps), stk), Run(e + 1, t, c0 + FlatAll([c]), stk));
      }
    }
  }

  // ---------------------------------------------------------------- calls

  lemma PopReturn(stk: seq<Frame>, pc: int, c0: seq<CapEntry>)
    ensures Pop(stk + [Return(pc)], c0) == Pop(stk, c0)
  {
    assert (stk + [Return(pc)])[..|stk|] == stk;
  }

  /** A call of code that ends with a return at `e`. */
  lemma CallDelivers(x: Ctx, opt: bool, fl: Charset, a: int, l: int, e: int, b: int, s: nat, r1: Result,
                     c0: seq<CapEntry>, stk: seq<Frame>)
    requires s <= |x.subj| && OpAt(x.code, a, ICall) && Target(x.code, a) == l
    requires OpAt(x.code, e, IRet) && LeadsTo(x, a + 2, b)
    requires r1.Yes? ==> r1.pos <= |x.subj|
    requires var with := stk + [Return(a + 2)]; Delivers(x, false, Run(l, s, c0, with), e, r1, FullSet(), c0, with)
    ensures Delivers(x, opt, Run(a, s, c0, stk), b, r1, fl, c0, stk)
  {
    hide Goes, FlatAll, Pop, Target;
    var start, with := Run(a, s, c0, stk), stk + [Return(a + 2)];
    StepCall(x, a, s, c0, stk);
    DeliversFrom(x, false, start, Run(l, s, c0, with), e, r1, FullSet(), c0, with);
    PopReturn(stk, a + 2, c0);
    if r1.Yes? {
      var c1 := c0 + FlatAll(r1.caps);
      StepReturn(x, e, r1.pos, c1, stk, a + 2);
      Via(x, start, Run(e, r1.pos, c1, with), Run(a + 2, r1.pos, c1, stk));
      if a + 2 != b {
        StepJmp(x, a + 2, r1.pos, c1, stk);
        Via(x, start, Run(a + 2, r1.pos, c1, stk), Run(b, r1.pos, c1, stk));
      }
    }
  }

  /** What a fragment delivers depends on the program and the subject only. */
  lemma DeliversSame(x: Ctx, y: Ctx, opt: bool, start: Config, b: int, r: Result, fl: Charset, c0: seq<CapEntry>,
                     stk: seq<Frame>)
    requires x.code == y.code && x.subj == y.subj
    requires Delivers(x, opt, start, b, r, fl, c0, stk)
    ensures Delivers(y, opt, start, b, r, fl, c0, stk)
  {
  }
}
