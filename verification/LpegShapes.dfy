/** The equations of the recursive definitions, one construction at a time. */
module LpegShapes {
  import opened Basics
  import opened LpegTree
  import opened LpegAnalysis
  import opened LpegVm
  import opened LpegCodegen
  import opened LpegCases

  lemma GenChoiceByTest(g: Rules, p1: Tree, p2: Tree, opt: bool, tt: Dominating, fl: Charset, d: nat, tail: bool)
    requires ChoiceByTest(g, p1, p2, fl, d)
    ensures Gen(g, TChoice(p1, p2), opt, tt, fl, d, tail) ==
              ChoiceByTestCode(FirstOf(g, p1, d).cs, Gen(g, p1, false, Some(FirstOf(g, p1, d).cs), fl, d, tail),
                               p2.TTrue?, Gen(g, p2, opt, None, fl, d, tail))
  {
    hide ChoiceByTest, FirstOf, ChoiceByTestCode;
  }

  lemma GenOptionReuse(g: Rules, p1: Tree, tt: Dominating, fl: Charset, d: nat, tail: bool)
    requires !ChoiceByTest(g, p1, TTrue, fl, d)
    ensures Gen(g, TChoice(p1, TTrue), true, tt, fl, d, tail) == Jump(IPartialCommit, 2) +
            Gen(g, p1, true, None, FullSet(), d, tail)
  {
    hide ChoiceByTest, FirstOf;
  }

  lemma GenChoice(g: Rules, p1: Tree, p2: Tree, opt: bool, tt: Dominating, fl: Charset, d: nat, tail: bool)
    requires !ChoiceByTest(g, p1, p2, fl, d) && !(opt && p2.TTrue?)
    ensures Gen(g, TChoice(p1, p2), opt, tt, fl, d, tail) ==
              ChoiceCode(FirstOf(g, p1, d), Gen(g, p1, p2.TTrue?, Protecting(FirstOf(g, p1, d)), FullSet(), d, tail),
                         Gen(g, p2, opt, None, fl, d, tail))
  {
    hide ChoiceByTest, FirstOf, ChoiceCode, Protecting;
  }

  lemma GenRepByTest(g: Rules, q: Tree, opt: bool, tt: Dominating, fl: Charset, d: nat, tail: bool)
    requires !IsCharset(q) && RepByTest(g, q, fl, d)
    ensures Gen(g, TRep(q), opt, tt, fl, d, tail) ==
              RepByTestCode(FirstOf(g, q, d).cs, Gen(g, q, false, Some(FirstOf(g, q, d).cs), FullSet(), d, tail))
  {
    hide RepByTest, FirstOf, RepByTestCode;
  }

  lemma GenRep(g: Rules, q: Tree, opt: bool, tt: Dominating, fl: Charset, d: nat, tail: bool)
    requires !IsCharset(q) && !RepByTest(g, q, fl, d)
    ensures Gen(g, TRep(q), opt, tt, fl, d, tail) == RepCode(FirstOf(g, q, d), opt,
                                                             Gen(g, q, false, None, FullSet(), d, tail))
  {
    hide RepByTest, FirstOf, RepCode;
  }

  lemma GenNot(g: Rules, q: Tree, opt: bool, tt: Dominating, fl: Charset, d: nat, tail: bool)
    ensures Gen(g, TNot(q), opt, tt, fl, d, tail) ==
              if HeadFail(g, q, d) then NotByTestCode(FirstOf(g, q, d))
              else NotCode(FirstOf(g, q, d), Gen(g, q, false, None, FullSet(), d, tail))
  {
    hide HeadFail, FirstOf, NotByTestCode, NotCode;
  }

  lemma GenAnd(g: Rules, q: Tree, opt: bool, tt: Dominating, fl: Charset, d: nat, tail: bool)
    ensures var c := Gen(g, q, false, tt, FullSet(), d, tail);
            Gen(g, TAnd(q), opt, tt, fl, d, tail) == if AndByLength(g, q, d) then c + GoBack(FixedLen(g, q, d))
                else AndCode(c)
  {
    hide AndByLength, FixedLen, AndCode, GoBack;
  }

  lemma GenCapture(g: Rules, kind: nat, key: int, q: Tree, opt: bool, tt: Dominating, fl: Charset, d: nat, tail: bool)
    ensures var c := Gen(g, q, false, tt, fl, d, tail);
            Gen(g, TCapture(kind, key, q), opt, tt, fl, d, tail) ==
              if CaptureByLength(g, q, d) then FullCaptureCode(kind, key, FixedLen(g, q, d), c)
                  else OpenCaptureCode(kind, key, c)
  {
    hide CaptureByLength, FixedLen, FullCaptureCode, OpenCaptureCode;
  }

  lemma GenSeq(g: Rules, p1: Tree, p2: Tree, opt: bool, tt: Dominating, fl: Charset, d: nat, tail: bool)
    ensures Gen(g, TSeq(p1, p2), opt, tt, fl, d, tail) ==
              Gen(g, p1, false, tt, SeqFollow(g, p1, p2, fl, d), d, tail) +
                  Gen(g, p2, opt, SeqProtecting(g, p1, tt, d), fl, d, tail)
  {
    hide FirstOf, ChoiceByTest, RepByTest, HeadFail, AndByLength, CaptureByLength, SeqFollow, SeqProtecting, FixedLen,
      ChoiceByTestCode, ChoiceCode, RepByTestCode, RepCode, NotByTestCode, NotCode, AndCode, FullCaptureCode,
      OpenCaptureCode, GenChar, GenCharset, GrammarCode, GoBack, GenRules, FullSet;
  }

  lemma GenLeaf(g: Rules, p: Tree, opt: bool, tt: Dominating, fl: Charset, d: nat, tail: bool)
    ensures p.TChar? ==> Gen(g, p, opt, tt, fl, d, tail) == GenChar(p.c, tt)
    ensures p.TSet? ==> Gen(g, p, opt, tt, fl, d, tail) == GenCharset(p.cs, tt)
    ensures p.TAny? ==> Gen(g, p, opt, tt, fl, d, tail) == I(IAny)
    ensures p.TTrue? ==> Gen(g, p, opt, tt, fl, d, tail) == []
    ensures p.TFalse? ==> Gen(g, p, opt, tt, fl, d, tail) == I(IFail)
    ensures p.TRep? && IsCharset(p.body) ==> Gen(g, p, opt, tt, fl, d, tail) == I(ISpan) + Buffer(ToCharset(p.body))
    ensures p.TCall? ==> Gen(g, p, opt, tt, fl, d, tail) == [Inst(IOpenCall, 0, p.rule), Open(p.rule)]
    ensures p.TGrammar? ==> Gen(g, p, opt, tt, fl, d, tail) == GrammarCode(GenRules(p.rules, p.rules, d, tail), tail)
    ensures p.TBehind? ==> Gen(g, p, opt, tt, fl, d, tail) == GoBack(p.n) +
                           Gen(g, p.body, false, None, FullSet(), d, tail)
  {
    hide FirstOf, ChoiceByTest, RepByTest, HeadFail, AndByLength, CaptureByLength, SeqFollow, SeqProtecting, FixedLen,
      ChoiceByTestCode, ChoiceCode, RepByTestCode, RepCode, NotByTestCode, NotCode, AndCode, FullCaptureCode,
      OpenCaptureCode, GenChar, GenCharset, GrammarCode, GoBack, GenRules;
  }

  lemma EvalEquations(g: Rules, p: Tree, subj: Subject, s: nat, fuel: nat)
    requires s <= |subj|
    ensures p.TSeq? ==> var r1 := Eval(g, p.first, subj, s, fuel);
                        Eval(g, p, subj, s, fuel) == if r1.Yes? then Joined(r1, Eval(g, p.second, subj, r1.pos, fuel))
                            else r1
    ensures p.TChoice? ==> Eval(g, p, subj, s, fuel) ==
                           Either(Eval(g, p.left, subj, s, fuel), Eval(g, p.right, subj, s, fuel))
    ensures p.TRep? ==> var r1 := Eval(g, p.body, subj, s, fuel);
                        Eval(g, p, subj, s, fuel) ==
                          RepTurn(s, r1, if r1.Yes? && fuel > 0 then Eval(g, p, subj, r1.pos, fuel - 1) else Out)
    ensures p.TNot? ==> Eval(g, p, subj, s, fuel) == Negated(s, Eval(g, p.body, subj, s, fuel))
    ensures p.TAnd? ==> Eval(g, p, subj, s, fuel) == Dry(s, Eval(g, p.body, subj, s, fuel))
    ensures p.TBehind? ==> Eval(g, p, subj, s, fuel) == if p.n > s then No
            else Dry(s, Eval(g, p.body, subj, s - p.n, fuel))
    ensures p.TCapture? ==> Eval(g, p, subj, s, fuel) == Captured(p.kind, p.key, s, Eval(g, p.body, subj, s, fuel))
    ensures p.TCall? && p.rule < |g| ==> Eval(g, p, subj, s, fuel) == if fuel == 0 then Out
            else Eval(g, g[p.rule], subj, s, fuel - 1)
    ensures p.TGrammar? && p.rules != [] ==>
              Eval(g, p, subj, s, fuel) == if fuel == 0 then Out else Eval(p.rules, p.rules[0], subj, s, fuel - 1)
  {
    hide One, FullSet;
    if p.TRep? { RepNeverFails(g, p.body, subj, s, fuel); }
  }

  lemma CharsetEval(g: Rules, q: Tree, subj: Subject, s: nat, fuel: nat)
    requires s <= |subj| && IsCharset(q)
    ensures Eval(g, q, subj, s, fuel) == if InSet(subj, s, ToCharset(q)) then Yes(s + 1, []) else No
  {
  }

  /** A repeated charset, matched to the end of its span. */
  lemma {:induction false} SpanEval(g: Rules, q: Tree, subj: Subject, s: nat, fuel: nat)
    requires s <= |subj| && IsCharset(q)
    ensures var r := Eval(g, TRep(q), subj, s, fuel); r != Out ==> r == Yes(SpanEnd(subj, s, ToCharset(q)), [])
    decreases fuel
  {
    hide Eval, ToCharset;
    EvalEquations(g, TRep(q), subj, s, fuel);
    CharsetEval(g, q, subj, s, fuel);
    if InSet(subj, s, ToCharset(q)) && fuel > 0 { SpanEval(g, q, subj, s + 1, fuel - 1); }
  }
}
