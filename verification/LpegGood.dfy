/** Everything the code generator emits is good: labels, chains of jumps and tail calls. */
module LpegGood {
  import opened Basics
  import opened LpegTree
  import opened LpegAnalysis
  import opened LpegVm
  import opened LpegCodegen
  import opened LpegCorrect
  import opened LpegShapes
  import opened LpegLabels
  import opened LpegLead
  import opened LpegGrammars

  lemma GoBackGood(n: int, w: Setting) returns (tops: Tops)
    ensures Good(GoBack(n), GoBack(n), tops, w)
  {
    if n > 0 { OneGood(IBehind, n, 0, w); tops := [true]; } else { EmptyGood(w); tops := []; }
  }

  /** The code of a leaf. */
  predicate Leaf(p: Tree)
    ensures !Leaf(p) ==> p.TChoice? || p.TRep? || p.TGrammar? || p.TSeq? || p.TNot? || p.TAnd? || p.TBehind? ||
                         p.TCapture?
    ensures !Leaf(p) && p.TRep? ==> !IsCharset(p.body)
  {
    p.TChar? || p.TSet? || p.TAny? || p.TTrue? || p.TFalse? || p.TCall? || (p.TRep? && IsCharset(p.body))
  }

  lemma LeafGood(g: Rules, p: Tree, opt: bool, tt: Dominating, fl: Charset, d: nat, deep: bool) returns (tops: Tops)
    requires Leaf(p) && (p.TCall? ==> p.rule < |g|)
    ensures Good(Gen(g, p, opt, tt, fl, d, false), Gen(g, p, opt, tt, fl, d, true), tops, Setting(|g|, deep))
  {
    hide Gen, Good, TypeOf, Buffer;
    var w := Setting(|g|, deep);
    GenLeaf(g, p, opt, tt, fl, d, false);
    GenLeaf(g, p, opt, tt, fl, d, true);
    tops := [true];
    match p
    case TChar(c) => CharGood(c, tt, w);
    case TSet(cs) =>
      match TypeOf(cs) {
        case CsFail => OneGood(IFail, 0, 0, w);
        case CsAny => OneGood(IAny, 0, 0, w);
        case CsChar(c) => CharGood(c, tt, w);
        case CsSet =>
          if tt == Some(cs) { OneGood(IAny, 0, 0, w); }
          else { SetGood(ISet, cs, w); tops := [true] + BufferTops(); }
      }
    case TAny => OneGood(IAny, 0, 0, w);
    case TTrue => EmptyGood(w); tops := [];
    case TFalse => OneGood(IFail, 0, 0, w);
    case TCall(n) => CallGood(n, w); tops := [true, false];
    case TRep(q) => SetGood(ISpan, ToCharset(q), w); tops := [true] + BufferTops();
  }

  lemma CharGood(c: Byte, tt: Dominating, w: Setting)
    ensures Good(GenChar(c, tt), GenChar(c, tt), [true], w)
  {
    OneGood(IAny, 0, 0, w);
    OneGood(IChar, c, 0, w);
  }

  lemma CallGood(n: nat, w: Setting)
    requires n < w.rules
    ensures var c := [Inst(IOpenCall, 0, n), Open(n)]; Good(c, c, [true, false], w)
  {
    var c := [Inst(IOpenCall, 0, n), Open(n)];
    NoJumpSettled(c, [true, false], w.deep);
    SameGood(c, [true, false], w, {}, {});
  }

  lemma FullCaptureGood(kind: nat, key: int, n: int, a0: Code, a: Code, t: Tops, w: Setting) returns (tops: Tops)
    requires Good(a0, a, t, w)
    ensures Good(FullCaptureCode(kind, key, n, a0), FullCaptureCode(kind, key, n, a), tops, w)
  {
    hide Good;
    var i := [Inst(IFullCapture, kind + 16 * n, key)];
    OneGood(IFullCapture, kind + 16 * n, key, w);
    GoodSeq(a0, a, t, i, i, [true], w);
    tops := t + [true];
  }

  lemma OpenCaptureGood(kind: nat, key: int, a0: Code, a: Code, t: Tops, w: Setting) returns (tops: Tops)
    requires Good(a0, a, t, w)
    ensures Good(OpenCaptureCode(kind, key, a0), OpenCaptureCode(kind, key, a), tops, w)
  {
    hide Good;
    var i := [Inst(IOpenCapture, kind, key)];
    OneGood(IOpenCapture, kind, key, w);
    OneGood(ICloseCapture, 0, 0, w);
    GoodSeq(i, i, [true], a0, a, t, w);
    GoodSeq(i + a0, i + a, [true] + t, I(ICloseCapture), I(ICloseCapture), [true], w);
    tops := [true] + t + [true];
  }

  // ---------------------------------------------------------------- the generator

  /** The plain code of a tree and its code with tail calls are good. */
  lemma {:induction false} GenGood(g: Rules, p: Tree, opt: bool, tt: Dominating, fl: Charset, d: nat, deep: bool)
      returns (tops: Tops)
    requires Suitable(g, p, d, deep)
    ensures Good(Gen(g, p, opt, tt, fl, d, false), Gen(g, p, opt, tt, fl, d, true), tops, Setting(|g|, deep))
    decreases p, 2
  {
    hide *;
    SuitableParts(g, p, d, deep);
    if Leaf(p) {
      tops := LeafGood(g, p, opt, tt, fl, d, deep);
    } else {
      match p
      case TChoice(_, _) => tops := ChoiceCaseGood(g, p, opt, tt, fl, d, deep);
      case TRep(_) => tops := RepCaseGood(g, p, opt, tt, fl, d, deep);
      case TGrammar(_) => tops := GrammarCaseGood(g, p, opt, tt, fl, d, deep);
      case _ => tops := OtherCaseGood(g, p, opt, tt, fl, d, deep);
    }
  }

  lemma ChoiceCaseGood(g: Rules, p: Tree, opt: bool, tt: Dominating, fl: Charset, d: nat, deep: bool)
      returns (tops: Tops)
    requires Suitable(g, p, d, deep) && p.TChoice?
    ensures Good(Gen(g, p, opt, tt, fl, d, false), Gen(g, p, opt, tt, fl, d, true), tops, Setting(|g|, deep))
    decreases p, 1
  {
    hide Gen, Good, Suitable, FirstOf, ChoiceByTest, ChoiceByTestCode, ChoiceCode;
    var w := Setting(|g|, deep);
    SuitableParts(g, p, d, deep);
    var p1, p2 := p.left, p.right;
    if ChoiceByTest(g, p1, p2, fl, d) {
      var cs := FirstOf(g, p1, d).cs;
      var t1 := GenGood(g, p1, false, Some(cs), fl, d, deep);
      var t2 := GenGood(g, p2, opt, None, fl, d, deep);
      GenChoiceByTest(g, p1, p2, opt, tt, fl, d, false);
      GenChoiceByTest(g, p1, p2, opt, tt, fl, d, true);
      if p2.TTrue? { GenLeaf(g, p2, opt, None, fl, d, true); }
      tops := ChoiceByTestGood(cs, Gen(g, p1, false, Some(cs), fl, d, false), Gen(g, p1, false, Some(cs), fl, d, true),
                               t1, p2.TTrue?,
                               Gen(g, p2, opt, None, fl, d, false), Gen(g, p2, opt, None, fl, d, true), t2, w);
    } else if opt && p2.TTrue? {
      var t1 := GenGood(g, p1, true, None, FullSet(), d, deep);
      GenOptionReuse(g, p1, tt, fl, d, false);
      GenOptionReuse(g, p1, tt, fl, d, true);
      tops := OptionReuseGood(Gen(g, p1, true, None, FullSet(), d, false), Gen(g, p1, true, None, FullSet(), d, true),
                              t1, w);
    } else {
      var f := FirstOf(g, p1, d);
      var t1 := GenGood(g, p1, p2.TTrue?, Protecting(f), FullSet(), d, deep);
      var t2 := GenGood(g, p2, opt, None, fl, d, deep);
      GenChoice(g, p1, p2, opt, tt, fl, d, false);
      GenChoice(g, p1, p2, opt, tt, fl, d, true);
      tops := ChoiceGood(f, Gen(g, p1, p2.TTrue?, Protecting(f), FullSet(), d, false),
                         Gen(g, p1, p2.TTrue?, Protecting(f), FullSet(), d, true), t1,
                         Gen(g, p2, opt, None, fl, d, false), Gen(g, p2, opt, None, fl, d, true), t2, w);
    }
  }

  lemma RepCaseGood(g: Rules, p: Tree, opt: bool, tt: Dominating, fl: Charset, d: nat, deep: bool) returns (tops: Tops)
    requires Suitable(g, p, d, deep) && p.TRep? && !IsCharset(p.body)
    ensures Good(Gen(g, p, opt, tt, fl, d, false), Gen(g, p, opt, tt, fl, d, true), tops, Setting(|g|, deep))
    decreases p, 1
  {
    hide Gen, Good, Suitable, FirstOf, RepByTest, RepByTestCode, RepCode;
    var w := Setting(|g|, deep);
    SuitableParts(g, p, d, deep);
    var q := p.body;
    var f := FirstOf(g, q, d);
    if RepByTest(g, q, fl, d) {
      var t := GenGood(g, q, false, Some(f.cs), FullSet(), d, deep);
      GenRepByTest(g, q, opt, tt, fl, d, false);
      GenRepByTest(g, q, opt, tt, fl, d, true);
      tops := RepByTestGood(f.cs, Gen(g, q, false, Some(f.cs), FullSet(), d, false),
                            Gen(g, q, false, Some(f.cs), FullSet(), d, true), t, w);
    } else {
      var t := GenGood(g, q, false, None, FullSet(), d, deep);
      GenRep(g, q, opt, tt, fl, d, false);
      GenRep(g, q, opt, tt, fl, d, true);
      tops := RepGood(f, opt, Gen(g, q, false, None, FullSet(), d, false), Gen(g, q, false, None, FullSet(), d, true),
                      t, w);
    }
  }

  lemma OtherCaseGood(g: Rules, p: Tree, opt: bool, tt: Dominating, fl: Charset, d: nat, deep: bool)
      returns (tops: Tops)
    requires Suitable(g, p, d, deep) && (p.TSeq? || p.TNot? || p.TAnd? || p.TBehind? || p.TCapture?)
    ensures Good(Gen(g, p, opt, tt, fl, d, false), Gen(g, p, opt, tt, fl, d, true), tops, Setting(|g|, deep))
    decreases p, 1
  {
    hide Gen, Good, Suitable, FirstOf, HeadFail, AndByLength, CaptureByLength, FixedLen, SeqFollow, SeqProtecting,
      NotByTestCode, NotCode, AndCode, GoBack, FullCaptureCode, OpenCaptureCode;
    var w := Setting(|g|, deep);
    SuitableParts(g, p, d, deep);
    match p
    case TSeq(p1, p2) =>
      var fl1, tt2 := SeqFollow(g, p1, p2, fl, d), SeqProtecting(g, p1, tt, d);
      var t1 := GenGood(g, p1, false, tt, fl1, d, deep);
      var t2 := GenGood(g, p2, opt, tt2, fl, d, deep);
      GenSeq(g, p1, p2, opt, tt, fl, d, false);
      GenSeq(g, p1, p2, opt, tt, fl, d, true);
      GoodSeq(Gen(g, p1, false, tt, fl1, d, false), Gen(g, p1, false, tt, fl1, d, true), t1,
              Gen(g, p2, opt, tt2, fl, d, false), Gen(g, p2, opt, tt2, fl, d, true), t2, w);
      tops := t1 + t2;
    case TNot(q) =>
      GenNot(g, q, opt, tt, fl, d, false);
      GenNot(g, q, opt, tt, fl, d, true);
      if HeadFail(g, q, d) {
        tops := NotByTestGood(FirstOf(g, q, d), w);
      } else {
        var t := GenGood(g, q, false, None, FullSet(), d, deep);
        tops := NotGood(FirstOf(g, q, d), Gen(g, q, false, None, FullSet(), d, false),
                        Gen(g, q, false, None, FullSet(), d, true), t, w);
      }
    case TAnd(q) =>
      var t := GenGood(g, q, false, tt, FullSet(), d, deep);
      GenAnd(g, q, opt, tt, fl, d, false);
      GenAnd(g, q, opt, tt, fl, d, true);
      var c0, c := Gen(g, q, false, tt, FullSet(), d, false), Gen(g, q, false, tt, FullSet(), d, true);
      if AndByLength(g, q, d) {
        var n := FixedLen(g, q, d);
        var t2 := GoBackGood(n, w);
        GoodSeq(c0, c, t, GoBack(n), GoBack(n), t2, w);
        tops := t + t2;
      } else {
        tops := AndGood(c0, c, t, w);
      }
    case TBehind(n, q) =>
      var t := GenGood(g, q, false, None, FullSet(), d, deep);
      GenLeaf(g, p, opt, tt, fl, d, false);
      GenLeaf(g, p, opt, tt, fl, d, true);
      var t1 := GoBackGood(n, w);
      GoodSeq(GoBack(n), GoBack(n), t1, Gen(g, q, false, None, FullSet(), d, false),
              Gen(g, q, false, None, FullSet(), d, true), t, w);
      tops := t1 + t;
    case TCapture(kind, key, q) =>
      var t := GenGood(g, q, false, tt, fl, d, deep);
      GenCapture(g, kind, key, q, opt, tt, fl, d, false);
      GenCapture(g, kind, key, q, opt, tt, fl, d, true);
      var c0, c := Gen(g, q, false, tt, fl, d, false), Gen(g, q, false, tt, fl, d, true);
      if CaptureByLength(g, q, d) { tops := FullCaptureGood(kind, key, FixedLen(g, q, d), c0, c, t, w); }
      else { tops := OpenCaptureGood(kind, key, c0, c, t, w); }
  }

  lemma GrammarCaseGood(g: Rules, p: Tree, opt: bool, tt: Dominating, fl: Charset, d: nat, deep: bool)
      returns (tops: Tops)
    requires Suitable(g, p, d, deep) && p.TGrammar?
    ensures Good(Gen(g, p, opt, tt, fl, d, false), Gen(g, p, opt, tt, fl, d, true), tops, Setting(|g|, deep))
    decreases p, 1
  {
    hide Gen, Good, Suitable, RulesLead, LeadsEnd, RuleLeads, GrammarCode;
    var w := Setting(|g|, deep);
    SuitableParts(g, p, d, deep);
    GenLeaf(g, p, opt, tt, fl, d, false);
    GenLeaf(g, p, opt, tt, fl, d, true);
    var rules := p.rules;
    var codes0, codes := GenRules(rules, rules, d, false), GenRules(rules, rules, d, true);
    var ts := RulesCaseGood(rules, rules, d, deep);
    RulesLeadTo(rules, d);
    tops := GrammarGood(codes0, codes, ts, RuleLeads(rules, d), w);
  }

  lemma RulesCaseGood(g: Rules, ps: seq<Tree>, d: nat, deep: bool) returns (ts: seq<Tops>)
    requires forall k :: 0 <= k < |ps| ==> Suitable(g, ps[k], d, deep)
    ensures RulesGood(GenRules(g, ps, d, false), GenRules(g, ps, d, true), ts, Setting(|g|, deep))
    decreases ps
  {
    hide Gen, Good, Suitable;
    var w := Setting(|g|, deep);
    if ps == [] {
      ts := [];
    } else {
      var t := GenGood(g, ps[0], false, None, FullSet(), d, deep);
      OneGood(IRet, 0, 0, w);
      GoodSeq(Gen(g, ps[0], false, None, FullSet(), d, false), Gen(g, ps[0], false, None, FullSet(), d, true), t,
              I(IRet), I(IRet), [true], w);
      var rest := RulesCaseGood(g, ps[1..], d, deep);
      ts := [t + [true]] + rest;
    }
  }

  /** The chains from the rules of a grammar lead where `RuleLeads` says. */
  lemma RulesLeadTo(rules: Rules, d: nat)
    ensures RulesLead(GenRules(rules, rules, d, true), RuleLeads(rules, d))
  {
    hide Gen, Leads, LeadOf, Flatten, Starts, GenRule;
    var codes := GenRules(rules, rules, d, true);
    StartsLength(codes, 0);
    forall k | 0 <= k < |codes| ensures Leads(Flatten(codes), Starts(codes, 0)[k],
                                              LeadOf(rules, rules[k], d, Returns)) {
      var pre, post := StartsAt(codes, 0, k);
      RuleLeadsTo(rules, rules[k], d, pre, post);
    }
  }

  lemma RuleLeadsTo(g: Rules, p: Tree, d: nat, pre: Code, post: Code)
    ensures Leads(pre + GenRule(g, p, d, true) + post, |pre|, LeadOf(g, p, d, Returns))
  {
    hide Gen, LeadOf, TailCall;
    var code := Gen(g, p, false, None, FullSet(), d, true);
    var c := pre + GenRule(g, p, d, true) + post;
    assert c == pre + (code + (I(IRet) + post));
    assert c[|pre| + |code|] == Inst(IRet, 0, 0);
    assert Within(c, |pre|, code);
    LeadHere(c, |pre| + |code|, Returns);
    GenLeads(g, p, false, None, FullSet(), d, c, |pre|, Returns);
  }

  /** Linking the rules of a grammar leaves no endless chain of jumps, so that `finaltarget` comes back
      from wherever it is called, if and only if the leads of its rules end. */
  lemma GrammarSettles(rules: Rules, d: nat)
    requires forall k :: 0 <= k < |rules| ==> Suitable(rules, rules[k], d, true)
    ensures var codes := GenRules(rules, rules, d, true);
            AllSettled(Link(Flatten(codes), Starts(codes, 0), true)) <==> LeadsEnd(RuleLeads(rules, d))
  {
    hide Gen, WellFormed, JumpsEnd, RulesLead, LeadsEnd, RuleLeads, Link, Flatten, Starts, PointOk, SettledBut,
      AllSettled, Paired, JmpsComplete;
    var codes0, codes := GenRules(rules, rules, d, false), GenRules(rules, rules, d, true);
    var ts := RulesCaseGood(rules, rules, d, true);
    FlattenGood(codes0, codes, ts, Setting(|rules|, true));
    RulesLeadTo(rules, d);
    LinkSettles(codes, FlattenTops(ts), RuleLeads(rules, d));
  }
}
