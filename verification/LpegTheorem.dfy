/** The compiler is correct: by induction on the tree, with the cases of LpegCases.dfy. */
module LpegTheorem {
  import opened Basics
  import opened LpegTree
  import opened LpegAnalysis
  import opened LpegVm
  import opened LpegCodegen
  import opened LpegCorrect
  import opened LpegCases
  import opened LpegShapes
  import opened LpegLayout

  /** Everything in place to run the code of `p` at `a` from position `s`. */
  ghost predicate Ready(x: Ctx, p: Tree, opt: bool, tt: Dominating, fl: Charset, a: int, s: nat, c0: seq<CapEntry>,
                        stk: seq<Frame>) {
    && s <= |x.subj| && InScope(x) && WellFormed(x.g, p, x.d)
    && LevelsOk(stk, |c0|) && (opt ==> HasChoice(stk))
    && (tt.Some? ==> InSet(x.subj, s, tt.value))
    && Linked(x, a, Gen(x.g, p, opt, tt, fl, x.d, false))
  }

  lemma GenDelivers(x: Ctx, p: Tree, opt: bool, tt: Dominating, fl: Charset, a: int, s: nat, fuel: nat,
                    c0: seq<CapEntry>, stk: seq<Frame>)
    requires Ready(x, p, opt, tt, fl, a, s, c0, stk)
    ensures Delivers(x, opt, Run(a, s, c0, stk), a + |Gen(x.g, p, opt, tt, fl, x.d, false)|,
                     Eval(x.g, p, x.subj, s, fuel), fl, c0, stk)
    decreases fuel, p, 1
  {
    hide *;
    match p
    case TSeq(_, _) => SeqCase(x, p, opt, tt, fl, a, s, fuel, c0, stk);
    case TChoice(p1, p2) =>
      if ChoiceByTest(x.g, p1, p2, fl, x.d) { ChoiceByTestCase(x, p, opt, tt, fl, a, s, fuel, c0, stk); }
      else if opt && p2.TTrue? { OptionReuseCase(x, p, opt, tt, fl, a, s, fuel, c0, stk); }
      else { ChoiceCase(x, p, opt, tt, fl, a, s, fuel, c0, stk); }
    case TRep(q) =>
      if IsCharset(q) { LeafCase(x, p, opt, tt, fl, a, s, fuel, c0, stk); }
      else if RepByTest(x.g, q, fl, x.d) { RepByTestCase(x, p, opt, tt, fl, a, s, fuel, c0, stk); }
      else { RepCase(x, p, opt, tt, fl, a, s, fuel, c0, stk); }
    case TNot(_) => NotCase(x, p, opt, tt, fl, a, s, fuel, c0, stk);
    case TAnd(q) =>
      if AndByLength(x.g, q, x.d) { AndByLengthCase(x, p, opt, tt, fl, a, s, fuel, c0, stk); }
      else { AndChoiceCase(x, p, opt, tt, fl, a, s, fuel, c0, stk); }
    case TBehind(n, q) => BehindCase(x, p, opt, tt, fl, a, s, fuel, c0, stk);
    case TCapture(_, _, q) =>
      if CaptureByLength(x.g, q, x.d) { FullCaptureCase(x, p, opt, tt, fl, a, s, fuel, c0, stk); }
      else { OpenCaptureCase(x, p, opt, tt, fl, a, s, fuel, c0, stk); }
    case TCall(_) => CallCase(x, p, opt, tt, fl, a, s, fuel, c0, stk);
    case TGrammar(_) => GrammarCase(x, p, opt, tt, fl, a, s, fuel, c0, stk);
    case _ => LeafCase(x, p, opt, tt, fl, a, s, fuel, c0, stk);
  }

  lemma LeafCase(x: Ctx, p: Tree, opt: bool, tt: Dominating, fl: Charset, a: int, s: nat, fuel: nat, c0: seq<CapEntry>,
                 stk: seq<Frame>)
    requires Ready(x, p, opt, tt, fl, a, s, c0, stk) &&
             (p.TChar? || p.TSet? || p.TAny? || p.TTrue? || p.TFalse? || (p.TRep? && IsCharset(p.body)))
    ensures Delivers(x, opt, Run(a, s, c0, stk), a + |Gen(x.g, p, opt, tt, fl, x.d, false)|,
                     Eval(x.g, p, x.subj, s, fuel), fl, c0, stk)
    decreases fuel, p, 0
  {
    hide Gen, FirstOf, GetFirst, HeadFail, FixedLen, HasCaptures, WellFormed, InScope, Linked, Arrives, Goes, GenChar,
      GenCharset, ToCharset, FullSet;
    GenLeaf(x.g, p, opt, tt, fl, x.d, false);
    assert c0 + FlatAll([]) == c0;
    match p
    case TChar(c) => CharDelivers(x, c, tt, fl, opt, a, s, c0, stk);
    case TSet(cs) => CharsetDelivers(x, cs, tt, fl, opt, a, s, c0, stk);
    case TAny => AnyDelivers(x, opt, fl, a, s, c0, stk);
    case TTrue => TrueDelivers(x, opt, fl, a, s, c0, stk);
    case TFalse => FalseDelivers(x, opt, fl, a, s, c0, stk);
    case TRep(q) =>
      SpanEval(x.g, q, x.subj, s, fuel);
      SpanDelivers(x, ToCharset(q), opt, fl, a, s, c0, stk);
  }

  lemma SeqCase(x: Ctx, p: Tree, opt: bool, tt: Dominating, fl: Charset, a: int, s: nat, fuel: nat, c0: seq<CapEntry>,
                stk: seq<Frame>)
    requires Ready(x, p, opt, tt, fl, a, s, c0, stk) && p.TSeq?
    ensures Delivers(x, opt, Run(a, s, c0, stk), a + |Gen(x.g, p, opt, tt, fl, x.d, false)|,
                     Eval(x.g, p, x.subj, s, fuel), fl, c0, stk)
    decreases fuel, p, 0
  {
    hide Gen, Eval, FirstOf, GetFirst, HeadFail, FixedLen, HasCaptures, WellFormed, InScope, Linked, Delivers, Goes,
      FlatAll, Test, Target;
    EvalEquations(x.g, p, x.subj, s, fuel);
    WellFormedParts(x.g, p, x.d);
    var p1, p2 := p.first, p.second;
    GenSeq(x.g, p1, p2, opt, tt, fl, x.d, false);
    var fl1, tt2 := SeqFollow(x.g, p1, p2, fl, x.d), SeqProtecting(x.g, p1, tt, x.d);
    var g1, g2 := Gen(x.g, p1, false, tt, fl1, x.d, false), Gen(x.g, p2, opt, tt2, fl, x.d, false);
    LinkedAppend(x, a, g1, g2);
    GenDelivers(x, p1, false, tt, fl1, a, s, fuel, c0, stk);
    var r1, r2 := Eval(x.g, p1, x.subj, s, fuel), Out;
    if r1.Yes? {
      var t, c1 := r1.pos, c0 + FlatAll(r1.caps);
      if FixedLen(x.g, p1, x.d) == 0 { FixedLenSound(x.g, p1, x.d, x.subj, s, fuel); }
      GenDelivers(x, p2, opt, tt2, fl, a + |g1|, t, fuel, c1, stk);
      r2 := Eval(x.g, p2, x.subj, t, fuel);
      if r2.Yes? { FirstSound(x.g, p2, fl, x.d, x.subj, t, fuel); }
    }
    SeqDelivers(x, opt, fl, fl1, Run(a, s, c0, stk), a + |g1|, a + |g1| + |g2|, r1, r2, c0, stk);
  }

  lemma ChoiceByTestCase(x: Ctx, p: Tree, opt: bool, tt: Dominating, fl: Charset, a: int, s: nat, fuel: nat,
                         c0: seq<CapEntry>, stk: seq<Frame>)
    requires Ready(x, p, opt, tt, fl, a, s, c0, stk) && p.TChoice? && ChoiceByTest(x.g, p.left, p.right, fl, x.d)
    ensures Delivers(x, opt, Run(a, s, c0, stk), a + |Gen(x.g, p, opt, tt, fl, x.d, false)|,
                     Eval(x.g, p, x.subj, s, fuel), fl, c0, stk)
    decreases fuel, p, 0
  {
    hide Gen, Eval, FirstOf, GetFirst, HeadFail, FixedLen, HasCaptures, WellFormed, InScope, Linked, Delivers, Goes,
      FlatAll, Test, Target;
    EvalEquations(x.g, p, x.subj, s, fuel);
    WellFormedParts(x.g, p, x.d);
    var p1, p2 := p.left, p.right;
    GenChoiceByTest(x.g, p1, p2, opt, tt, fl, x.d, false);
    var cs := FirstOf(x.g, p1, x.d).cs;
    var g1, g2 := Gen(x.g, p1, false, Some(cs), fl, x.d, false), Gen(x.g, p2, opt, None, fl, x.d, false);
    if p2.TTrue? { GenLeaf(x.g, p2, opt, None, fl, x.d, false); }
    var m, e, l1, b := ChoiceByTestLayout(x, a, cs, g1, p2.TTrue?, g2, s, c0, stk);
    var r1, r2 := Eval(x.g, p1, x.subj, s, fuel), Eval(x.g, p2, x.subj, s, fuel);
    var passes := InSet(x.subj, s, cs);
    if passes { GenDelivers(x, p1, false, Some(cs), fl, m, s, fuel, c0, stk); }
    GenDelivers(x, p2, opt, None, fl, l1, s, fuel, c0, stk);
    ChoiceByTestFacts(x, p1, p2, fl, s, fuel);
    if r1 != Out {
      ChoiceByTestDelivers(x, opt, fl, a, m, e, l1, b, s, passes, r1, r2, c0, stk);
    } else {
      OutDelivers(x, opt, Run(a, s, c0, stk), b, fl, c0, stk);
    }
  }

  lemma OptionReuseCase(x: Ctx, p: Tree, opt: bool, tt: Dominating, fl: Charset, a: int, s: nat, fuel: nat,
                        c0: seq<CapEntry>, stk: seq<Frame>)
    requires Ready(x, p, opt, tt, fl, a, s, c0, stk) && p.TChoice? && !ChoiceByTest(x.g, p.left, p.right, fl, x.d) &&
             opt && p.right.TTrue?
    ensures Delivers(x, opt, Run(a, s, c0, stk), a + |Gen(x.g, p, opt, tt, fl, x.d, false)|,
                     Eval(x.g, p, x.subj, s, fuel), fl, c0, stk)
    decreases fuel, p, 0
  {
    hide Gen, Eval, FirstOf, GetFirst, HeadFail, FixedLen, HasCaptures, WellFormed, InScope, Linked, Delivers, Goes,
      FlatAll, Test, Target;
    EvalEquations(x.g, p, x.subj, s, fuel);
    WellFormedParts(x.g, p, x.d);
    var p1 := p.left;
    GenOptionReuse(x.g, p1, tt, fl, x.d, false);
    EvalTrue(x.g, x.subj, s, fuel);
    var g1 := Gen(x.g, p1, true, None, FullSet(), x.d, false);
    var moved := stk[..|stk| - 1] + [Choice(s, stk[|stk| - 1].pc, |c0|)];
    LinkedAppend(x, a, Jump(IPartialCommit, 2), g1);
    GenDelivers(x, p1, true, None, FullSet(), a + 2, s, fuel, c0, moved);
    OptionReuseDelivers(x, fl, a, a + 2 + |g1|, s, Eval(x.g, p1, x.subj, s, fuel), c0, stk);
  }

  lemma ChoiceCase(x: Ctx, p: Tree, opt: bool, tt: Dominating, fl: Charset, a: int, s: nat, fuel: nat,
                   c0: seq<CapEntry>, stk: seq<Frame>)
    requires Ready(x, p, opt, tt, fl, a, s, c0, stk) && p.TChoice? && !ChoiceByTest(x.g, p.left, p.right, fl, x.d) &&
             !(opt && p.right.TTrue?)
    ensures Delivers(x, opt, Run(a, s, c0, stk), a + |Gen(x.g, p, opt, tt, fl, x.d, false)|,
                     Eval(x.g, p, x.subj, s, fuel), fl, c0, stk)
    decreases fuel, p, 0
  {
    hide Gen, Eval, FirstOf, GetFirst, HeadFail, FixedLen, HasCaptures, WellFormed, InScope, Linked, Delivers, Goes,
      FlatAll, Test, Target, ChoiceCode, ChoiceByTest;
    EvalEquations(x.g, p, x.subj, s, fuel);
    WellFormedParts(x.g, p, x.d);
    var p1, p2 := p.left, p.right;
    GenChoice(x.g, p1, p2, opt, tt, fl, x.d, false);
    var f1 := FirstOf(x.g, p1, x.d);
    var g1 := Gen(x.g, p1, p2.TTrue?, Protecting(f1), FullSet(), x.d, false);
    var g2 := Gen(x.g, p2, opt, None, fl, x.d, false);
    if p2.TTrue? { GenLeaf(x.g, p2, opt, None, fl, x.d, false); }
    var m, e, l1, b := ChoiceLayout(x, a, f1, g1, g2, s, c0, stk);
    var r1, r2 := Eval(x.g, p1, x.subj, s, fuel), Eval(x.g, p2, x.subj, s, fuel);
    var passes := f1.empty || InSet(x.subj, s, f1.cs);
    if passes { GenDelivers(x, p1, p2.TTrue?, Protecting(f1), FullSet(), m + 2, s, fuel, c0,
                            stk + [Choice(s, l1, |c0|)]); }
    GenDelivers(x, p2, opt, None, fl, l1, s, fuel, c0, stk);
    FirstFacts(x, p1, s, fuel);
    if r1 != Out {
      ChoiceDelivers(x, opt, p2.TTrue?, fl, a, m, e, l1, b, s, passes, r1, r2, c0, stk);
    } else {
      OutDelivers(x, opt, Run(a, s, c0, stk), b, fl, c0, stk);
    }
  }

  lemma RepByTestCase(x: Ctx, p: Tree, opt: bool, tt: Dominating, fl: Charset, a: int, s: nat, fuel: nat,
                      c0: seq<CapEntry>, stk: seq<Frame>)
    requires Ready(x, p, opt, tt, fl, a, s, c0, stk) && p.TRep? && !IsCharset(p.body) && RepByTest(x.g, p.body, fl, x.d)
    ensures Delivers(x, opt, Run(a, s, c0, stk), a + |Gen(x.g, p, opt, tt, fl, x.d, false)|,
                     Eval(x.g, p, x.subj, s, fuel), fl, c0, stk)
    decreases fuel, p, 0
  {
    hide Gen, Eval, FirstOf, GetFirst, HeadFail, FixedLen, HasCaptures, WellFormed, InScope, Linked, Delivers, Goes,
      FlatAll, Test, Target;
    EvalEquations(x.g, p, x.subj, s, fuel);
    WellFormedParts(x.g, p, x.d);
    var q := p.body;
    GenRepByTest(x.g, q, opt, tt, fl, x.d, false);
    GenRepByTest(x.g, q, opt, None, fl, x.d, false);
    var cs := FirstOf(x.g, q, x.d).cs;
    var c := Gen(x.g, q, false, Some(cs), FullSet(), x.d, false);
    var m, e, b := RepByTestLayout(x, a, cs, c, s, c0, stk);
    var r1 := Eval(x.g, q, x.subj, s, fuel);
    var passes := InSet(x.subj, s, cs);
    if passes { GenDelivers(x, q, false, Some(cs), FullSet(), m, s, fuel, c0, stk); }
    RepByTestFacts(x, q, fl, s, fuel);
    if r1 == Out || (r1.Yes? && fuel == 0) {
      OutDelivers(x, opt, Run(a, s, c0, stk), b, fl, c0, stk);
    } else {
      var rest := Out;
      if r1.Yes? {
        GenDelivers(x, p, opt, None, fl, a, r1.pos, fuel - 1, c0 + FlatAll(r1.caps), stk);
        rest := Eval(x.g, p, x.subj, r1.pos, fuel - 1);
      }
      RepByTestDelivers(x, opt, fl, a, m, e, b, s, passes, r1, rest, c0, stk);
    }
  }

  /** The loop `L1: <q>; partialcommit L1` of a repetition at `l`, with a choice that leads to `exit`. */
  lemma LoopGoes(x: Ctx, q: Tree, l: int, exit: int, s: nat, fuel: nat, c0: seq<CapEntry>, stk: seq<Frame>)
    requires Ready(x, q, false, None, FullSet(), l, s, c0, stk + [Choice(s, exit, |c0|)])
    requires var e := l + |Gen(x.g, q, false, None, FullSet(), x.d, false)|;
             OpAt(x.code, e, IPartialCommit) && Target(x.code, e) == l
    ensures var r := Eval(x.g, TRep(q), x.subj, s, fuel);
            r.Yes? ==> Goes(x, Run(l, s, c0, stk + [Choice(s, exit, |c0|)]),
                            Run(exit, r.pos, c0 + FlatAll(r.caps), stk))
    decreases fuel, q, 2
  {
    hide Gen, Eval, WellFormed, InScope, Linked, Delivers, Goes, FlatAll, Target;
    EvalEquations(x.g, TRep(q), x.subj, s, fuel);
    var e := l + |Gen(x.g, q, false, None, FullSet(), x.d, false)|;
    var with := stk + [Choice(s, exit, |c0|)];
    GenDelivers(x, q, false, None, FullSet(), l, s, fuel, c0, with);
    var r1, rest := Eval(x.g, q, x.subj, s, fuel), Out;
    if r1.Yes? && fuel > 0 {
      var t, c1 := r1.pos, c0 + FlatAll(r1.caps);
      assert forall f :: f in stk ==> f in with;
      LoopGoes(x, q, l, exit, t, fuel - 1, c1, stk);
      RepNeverFails(x.g, q, x.subj, t, fuel - 1);
      rest := Eval(x.g, TRep(q), x.subj, t, fuel - 1);
    }
    RepLoopTurn(x, l, e, exit, s, r1, rest, c0, stk);
  }

  lemma RepCase(x: Ctx, p: Tree, opt: bool, tt: Dominating, fl: Charset, a: int, s: nat, fuel: nat, c0: seq<CapEntry>,
                stk: seq<Frame>)
    requires Ready(x, p, opt, tt, fl, a, s, c0, stk) && p.TRep? && !IsCharset(p.body) &&
             !RepByTest(x.g, p.body, fl, x.d)
    ensures Delivers(x, opt, Run(a, s, c0, stk), a + |Gen(x.g, p, opt, tt, fl, x.d, false)|,
                     Eval(x.g, p, x.subj, s, fuel), fl, c0, stk)
    decreases fuel, p, 0
  {
    hide Gen, Eval, FirstOf, GetFirst, HeadFail, FixedLen, HasCaptures, WellFormed, InScope, Linked, Delivers, Goes,
      FlatAll, Test, Target, RepCode, RepByTest;
    EvalEquations(x.g, p, x.subj, s, fuel);
    WellFormedParts(x.g, p, x.d);
    var q := p.body;
    GenRep(x.g, q, opt, tt, fl, x.d, false);
    var f := FirstOf(x.g, q, x.d);
    var c := Gen(x.g, q, false, None, FullSet(), x.d, false);
    var m, l, e, b := RepLayout(x, a, f, opt, c, s, c0, stk);
    RepNeverFails(x.g, q, x.subj, s, fuel);
    FirstFacts(x, q, s, fuel);
    var r := Eval(x.g, p, x.subj, s, fuel);
    if r == Out {
      OutDelivers(x, opt, Run(a, s, c0, stk), b, fl, c0, stk);
    } else if f.empty || InSet(x.subj, s, f.cs) {
      var rest, exit := if opt then stk[..|stk| - 1] else stk, if opt then stk[|stk| - 1].pc else b;
      assert forall g :: g in rest ==> g in stk;
      LoopGoes(x, q, l, exit, s, fuel, c0, rest);
      RepDelivers(x, opt, fl, a, m, l, b, s, r, c0, stk);
    } else {
      DoneDelivers(x, opt, fl, Run(a, s, c0, stk), b, s, c0, stk);
    }
  }

  lemma NotByTestCase(x: Ctx, p: Tree, opt: bool, tt: Dominating, fl: Charset, a: int, s: nat, fuel: nat,
                      c0: seq<CapEntry>, stk: seq<Frame>)
    requires Ready(x, p, opt, tt, fl, a, s, c0, stk) && p.TNot? && HeadFail(x.g, p.body, x.d)
    ensures Delivers(x, opt, Run(a, s, c0, stk), a + |Gen(x.g, p, opt, tt, fl, x.d, false)|,
                     Eval(x.g, p, x.subj, s, fuel), fl, c0, stk)
  {
    hide Gen, Eval, FirstOf, GetFirst, HeadFail, FixedLen, HasCaptures, WellFormed, InScope, Linked, Delivers, Goes,
      FlatAll, Test, Target, NotByTestCode, NotCode;
    EvalEquations(x.g, p, x.subj, s, fuel);
    var q := p.body;
    GenNot(x.g, q, opt, tt, fl, x.d, false);
    var f := FirstOf(x.g, q, x.d);
    var r1 := Eval(x.g, q, x.subj, s, fuel);
    FirstFacts(x, q, s, fuel);
    HeadFailFacts(x, q, s, fuel);
    var m, b := NotByTestLayout(x, a, f, s, c0, stk);
    if r1 != Out { NotByTestDelivers(x, opt, fl, a, m, b, s, f.empty || InSet(x.subj, s, f.cs), r1, c0, stk); }
    else { OutDelivers(x, opt, Run(a, s, c0, stk), b, fl, c0, stk); }
  }

  lemma NotCase(x: Ctx, p: Tree, opt: bool, tt: Dominating, fl: Charset, a: int, s: nat, fuel: nat, c0: seq<CapEntry>,
                stk: seq<Frame>)
    requires Ready(x, p, opt, tt, fl, a, s, c0, stk) && p.TNot?
    ensures Delivers(x, opt, Run(a, s, c0, stk), a + |Gen(x.g, p, opt, tt, fl, x.d, false)|,
                     Eval(x.g, p, x.subj, s, fuel), fl, c0, stk)
    decreases fuel, p, 0
  {
    hide Gen, Eval, FirstOf, GetFirst, HeadFail, FixedLen, HasCaptures, WellFormed, InScope, Linked, Delivers, Goes,
      FlatAll, Test, Target, NotByTestCode, NotCode;
    if HeadFail(x.g, p.body, x.d) {
      NotByTestCase(x, p, opt, tt, fl, a, s, fuel, c0, stk);
    } else {
      EvalEquations(x.g, p, x.subj, s, fuel);
      WellFormedParts(x.g, p, x.d);
      var q := p.body;
      GenNot(x.g, q, opt, tt, fl, x.d, false);
      var f := FirstOf(x.g, q, x.d);
      var r1 := Eval(x.g, q, x.subj, s, fuel);
      var passes := f.empty || InSet(x.subj, s, f.cs);
      FirstFacts(x, q, s, fuel);
      var c := Gen(x.g, q, false, None, FullSet(), x.d, false);
      var m, e, b := NotLayout(x, a, f, c, s, c0, stk);
      if passes { GenDelivers(x, q, false, None, FullSet(), m + 2, s, fuel, c0, stk + [Choice(s, b, |c0|)]); }
      if r1 != Out { NotDelivers(x, opt, fl, a, m, e, b, s, passes, r1, c0, stk); }
      else { OutDelivers(x, opt, Run(a, s, c0, stk), b, fl, c0, stk); }
    }
  }

  lemma AndByLengthCase(x: Ctx, p: Tree, opt: bool, tt: Dominating, fl: Charset, a: int, s: nat, fuel: nat,
                        c0: seq<CapEntry>, stk: seq<Frame>)
    requires Ready(x, p, opt, tt, fl, a, s, c0, stk) && p.TAnd? && AndByLength(x.g, p.body, x.d)
    ensures Delivers(x, opt, Run(a, s, c0, stk), a + |Gen(x.g, p, opt, tt, fl, x.d, false)|,
                     Eval(x.g, p, x.subj, s, fuel), fl, c0, stk)
    decreases fuel, p, 0
  {
    hide Gen, Eval, FirstOf, GetFirst, HeadFail, FixedLen, HasCaptures, WellFormed, InScope, Linked, Delivers, Goes,
      FlatAll, Test, Target, AndByLength, AndCode, GoBack;
    EvalEquations(x.g, p, x.subj, s, fuel);
    WellFormedParts(x.g, p, x.d);
    var q := p.body;
    GenAnd(x.g, q, opt, tt, fl, x.d, false);
    var c := Gen(x.g, q, false, tt, FullSet(), x.d, false);
    var r1 := Eval(x.g, q, x.subj, s, fuel);
    var n := FixedLen(x.g, q, x.d);
    AndByLengthFacts(x, q, s, fuel);
    LinkedAppend(x, a, c, GoBack(n));
    GenDelivers(x, q, false, tt, FullSet(), a, s, fuel, c0, stk);
    AndByLengthDelivers(x, opt, fl, a, a + |c|, n, s, r1, c0, stk);
  }

  lemma AndChoiceCase(x: Ctx, p: Tree, opt: bool, tt: Dominating, fl: Charset, a: int, s: nat, fuel: nat,
                      c0: seq<CapEntry>, stk: seq<Frame>)
    requires Ready(x, p, opt, tt, fl, a, s, c0, stk) && p.TAnd? && !AndByLength(x.g, p.body, x.d)
    ensures Delivers(x, opt, Run(a, s, c0, stk), a + |Gen(x.g, p, opt, tt, fl, x.d, false)|,
                     Eval(x.g, p, x.subj, s, fuel), fl, c0, stk)
    decreases fuel, p, 0
  {
    hide Gen, Eval, FirstOf, GetFirst, HeadFail, FixedLen, HasCaptures, WellFormed, InScope, Linked, Delivers, Goes,
      FlatAll, Test, Target, AndByLength, AndCode, GoBack;
    EvalEquations(x.g, p, x.subj, s, fuel);
    WellFormedParts(x.g, p, x.d);
    var q := p.body;
    GenAnd(x.g, q, opt, tt, fl, x.d, false);
    var c := Gen(x.g, q, false, tt, FullSet(), x.d, false);
    var r1 := Eval(x.g, q, x.subj, s, fuel);
    var e, l1 := AndLayout(x, a, c);
    GenDelivers(x, q, false, tt, FullSet(), a + 2, s, fuel, c0, stk + [Choice(s, l1, |c0|)]);
    AndDelivers(x, opt, fl, a, e, l1, l1 + 1, s, r1, c0, stk);
  }

  lemma BehindCase(x: Ctx, p: Tree, opt: bool, tt: Dominating, fl: Charset, a: int, s: nat, fuel: nat,
                   c0: seq<CapEntry>, stk: seq<Frame>)
    requires Ready(x, p, opt, tt, fl, a, s, c0, stk) && p.TBehind?
    ensures Delivers(x, opt, Run(a, s, c0, stk), a + |Gen(x.g, p, opt, tt, fl, x.d, false)|,
                     Eval(x.g, p, x.subj, s, fuel), fl, c0, stk)
    decreases fuel, p, 0
  {
    hide Gen, Eval, FirstOf, GetFirst, HeadFail, FixedLen, HasCaptures, WellFormed, InScope, Linked, Delivers, Goes,
      FlatAll, Test, Target;
    EvalEquations(x.g, p, x.subj, s, fuel);
    WellFormedParts(x.g, p, x.d);
    var n, q := p.n, p.body;
    GenLeaf(x.g, p, opt, tt, fl, x.d, false);
    var c := Gen(x.g, q, false, None, FullSet(), x.d, false);
    LinkedAppend(x, a, GoBack(n), c);
    var r1 := No;
    if n <= s {
      r1 := Eval(x.g, q, x.subj, s - n, fuel);
      GenDelivers(x, q, false, None, FullSet(), a + |GoBack(n)|, s - n, fuel, c0, stk);
      BehindFixed(x.g, q, x.d);
      FixedLenSound(x.g, q, x.d, x.subj, s - n, fuel);
      BehindQuiet(x.g, q, x.d, x.subj, s - n, fuel);
    }
    BehindDelivers(x, opt, fl, a, a + |GoBack(n)| + |c|, n, s, r1, c0, stk);
  }

  lemma FullCaptureCase(x: Ctx, p: Tree, opt: bool, tt: Dominating, fl: Charset, a: int, s: nat, fuel: nat,
                        c0: seq<CapEntry>, stk: seq<Frame>)
    requires Ready(x, p, opt, tt, fl, a, s, c0, stk) && p.TCapture? && CaptureByLength(x.g, p.body, x.d)
    ensures Delivers(x, opt, Run(a, s, c0, stk), a + |Gen(x.g, p, opt, tt, fl, x.d, false)|,
                     Eval(x.g, p, x.subj, s, fuel), fl, c0, stk)
    decreases fuel, p, 0
  {
    hide Gen, Eval, FirstOf, GetFirst, HeadFail, FixedLen, HasCaptures, WellFormed, InScope, Linked, Delivers, Goes,
      FlatAll, Test, Target, CaptureByLength, FullCaptureCode, OpenCaptureCode;
    EvalEquations(x.g, p, x.subj, s, fuel);
    WellFormedParts(x.g, p, x.d);
    var kind, key, q := p.kind, p.key, p.body;
    GenCapture(x.g, kind, key, q, opt, tt, fl, x.d, false);
    var c := Gen(x.g, q, false, tt, fl, x.d, false);
    var r1 := Eval(x.g, q, x.subj, s, fuel);
    var n := FixedLen(x.g, q, x.d);
    CaptureByLengthFacts(x, q, s, fuel);
    FullCaptureLayout(x, a, c, kind, key, n);
    GenDelivers(x, q, false, tt, fl, a, s, fuel, c0, stk);
    FullCaptureDelivers(x, opt, fl, a, a + |c|, kind, key, n, s, r1, c0, stk);
  }

  lemma OpenCaptureCase(x: Ctx, p: Tree, opt: bool, tt: Dominating, fl: Charset, a: int, s: nat, fuel: nat,
                        c0: seq<CapEntry>, stk: seq<Frame>)
    requires Ready(x, p, opt, tt, fl, a, s, c0, stk) && p.TCapture? && !CaptureByLength(x.g, p.body, x.d)
    ensures Delivers(x, opt, Run(a, s, c0, stk), a + |Gen(x.g, p, opt, tt, fl, x.d, false)|,
                     Eval(x.g, p, x.subj, s, fuel), fl, c0, stk)
    decreases fuel, p, 0
  {
    hide Gen, Eval, FirstOf, GetFirst, HeadFail, FixedLen, HasCaptures, WellFormed, InScope, Linked, Delivers, Goes,
      FlatAll, Test, Target, CaptureByLength, FullCaptureCode, OpenCaptureCode;
    EvalEquations(x.g, p, x.subj, s, fuel);
    WellFormedParts(x.g, p, x.d);
    var kind, key, q := p.kind, p.key, p.body;
    GenCapture(x.g, kind, key, q, opt, tt, fl, x.d, false);
    var c := Gen(x.g, q, false, tt, fl, x.d, false);
    var r1 := Eval(x.g, q, x.subj, s, fuel);
    OpenCaptureLayout(x, a, c, kind, key);
    GenDelivers(x, q, false, tt, fl, a + 1, s, fuel, c0 + [CapEntry(s, key, kind, 0)], stk);
    OpenCaptureDelivers(x, opt, fl, a, a + 1 + |c|, kind, key, s, r1, c0, stk);
  }

  lemma CallCase(x: Ctx, p: Tree, opt: bool, tt: Dominating, fl: Charset, a: int, s: nat, fuel: nat, c0: seq<CapEntry>,
                 stk: seq<Frame>)
    requires Ready(x, p, opt, tt, fl, a, s, c0, stk) && p.TCall?
    ensures Delivers(x, opt, Run(a, s, c0, stk), a + |Gen(x.g, p, opt, tt, fl, x.d, false)|,
                     Eval(x.g, p, x.subj, s, fuel), fl, c0, stk)
    decreases fuel, p, 0
  {
    hide Gen, Eval, FirstOf, GetFirst, HeadFail, FixedLen, HasCaptures, WellFormed, Linked, Delivers, Goes, FlatAll,
      Test, Target;
    EvalEquations(x.g, p, x.subj, s, fuel);
    WellFormedParts(x.g, p, x.d);
    var n := p.rule;
    GenLeaf(x.g, p, opt, tt, fl, x.d, false);
    CallLayout(x, a, n);
    if fuel > 0 {
      var e := RuleDelivers(x, n, a + 2, s, fuel - 1, c0, stk);
      CallDelivers(x, opt, fl, a, x.calls[n], e, a + 2, s, Eval(x.g, x.g[n], x.subj, s, fuel - 1), c0, stk);
    } else {
      OutDelivers(x, opt, Run(a, s, c0, stk), a + 2, fl, c0, stk);
    }
  }

  /** The code of rule `n`, entered with a return address on the stack. */
  lemma RuleDelivers(x: Ctx, n: nat, ret: int, s: nat, fuel: nat, c0: seq<CapEntry>, stk: seq<Frame>) returns (e: int)
    requires s <= |x.subj| && InScope(x) && n < |x.g| && LevelsOk(stk, |c0|)
    ensures OpAt(x.code, e, IRet)
    ensures var with := stk + [Return(ret)];
            Delivers(x, false, Run(x.calls[n], s, c0, with), e, Eval(x.g, x.g[n], x.subj, s, fuel), FullSet(), c0, with)
    decreases fuel, x.g[n], 3
  {
    hide Gen, Eval, WellFormed, Linked, Delivers;
    var c := Gen(x.g, x.g[n], false, None, FullSet(), x.d, false);
    e := x.calls[n] + |c|;
    LinkedAppend(x, x.calls[n], c, I(IRet));
    AtHead(x, e, I(IRet));
    GenDelivers(x, x.g[n], false, None, FullSet(), x.calls[n], s, fuel, c0, stk + [Return(ret)]);
  }

  lemma GrammarCase(x: Ctx, p: Tree, opt: bool, tt: Dominating, fl: Charset, a: int, s: nat, fuel: nat,
                    c0: seq<CapEntry>, stk: seq<Frame>)
    requires Ready(x, p, opt, tt, fl, a, s, c0, stk) && p.TGrammar?
    ensures Delivers(x, opt, Run(a, s, c0, stk), a + |Gen(x.g, p, opt, tt, fl, x.d, false)|,
                     Eval(x.g, p, x.subj, s, fuel), fl, c0, stk)
    decreases fuel, p, 0
  {
    hide Gen, Eval, FirstOf, GetFirst, HeadFail, FixedLen, HasCaptures, WellFormed, InScope, Linked, Delivers, Goes,
      FlatAll, Test, Target;
    EvalEquations(x.g, p, x.subj, s, fuel);
    WellFormedParts(x.g, p, x.d);
    var rules := p.rules;
    GenLeaf(x.g, p, opt, tt, fl, x.d, false);
    var b := GrammarLayout(x, a, GenRules(rules, rules, x.d, false));
    var y := RulesInScope(x, rules, a + 4);
    if fuel > 0 {
      var r1 := Eval(rules, rules[0], x.subj, s, fuel - 1);
      var e := RuleDelivers(y, 0, a + 2, s, fuel - 1, c0, stk);
      DeliversSame(y, x, false, Run(a + 4, s, c0, stk + [Return(a + 2)]), e, r1, FullSet(), c0, stk + [Return(a + 2)]);
      CallDelivers(x, opt, fl, a, a + 4, e, b, s, r1, c0, stk);
    } else {
      OutDelivers(x, opt, Run(a, s, c0, stk), b, fl, c0, stk);
    }
  }

  lemma {:induction false} StartsLinked(y: Ctx, codes: seq<Code>, a: int, from: nat, k: nat)
    requires k < |codes| && Linked(y, a + from, Flatten(codes))
    ensures |Starts(codes, from)| == |codes| && Linked(y, a + Starts(codes, from)[k], codes[k])
    decreases |codes|
  {
    LinkedAppend(y, a + from, codes[0], Flatten(codes[1..]));
    if k > 0 { StartsLinked(y, codes[1..], a, from + |codes[0]|, k - 1); }
    else { StartsLength(codes, from); }
  }

  /** Where the rules of a grammar are, if its body is at `a`. */
  function RulesFrom(starts: seq<nat>, a: int): (calls: seq<int>)
    ensures |calls| == |starts| && forall k :: 0 <= k < |starts| ==> calls[k] == a + starts[k]
  {
    seq(|starts|, k requires 0 <= k < |starts| => a + starts[k])
  }

  /** The linked body of a grammar is the body with its calls directed to its rules. */
  lemma BodyLinked(x: Ctx, y: Ctx, body: Code, starts: seq<nat>, a: int)
    requires y == Ctx(x.code, x.subj, y.g, RulesFrom(starts, a), x.d) && Linked(x, a, Link(body, starts, false))
    ensures Linked(y, a, body)
  {
    var linked := Link(body, starts, false);
    forall i | 0 <= i < |body| ensures y.code[a + i] == LinkedSlot(body[i], y.calls, a + i) {
      assert x.code[a + i] == LinkedSlot(linked[i], x.calls, a + i);
    }
  }

  /** Linking the body of a grammar brings its rules in scope. */
  lemma RulesInScope(x: Ctx, rules: Rules, a: int) returns (y: Ctx)
    requires rules != [] && forall k :: 0 <= k < |rules| ==> WellFormed(rules, rules[k], x.d)
    requires var codes := GenRules(rules, rules, x.d, false); Linked(x, a,
                                                                     Link(Flatten(codes), Starts(codes, 0), false))
    ensures y == Ctx(x.code, x.subj, rules, y.calls, x.d) && InScope(y) && y.calls[0] == a
  {
    hide Linked, Link, WellFormed, GenRule, Flatten;
    var codes := GenRules(rules, rules, x.d, false);
    var starts := Starts(codes, 0);
    StartsLength(codes, 0);
    y := Ctx(x.code, x.subj, rules, RulesFrom(starts, a), x.d);
    BodyLinked(x, y, Flatten(codes), starts, a);
    forall n | 0 <= n < |rules| ensures Linked(y, y.calls[n], GenRule(rules, rules[n], x.d, false)) {
      StartsLinked(y, codes, a, 0, n);
    }
  }
}
