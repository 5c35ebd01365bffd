/** Generated code is a row of whole instructions: stepping from one to the next by their sizes, as
    the loops of lpcode.c do, meets every instruction there is. */
module LpegWalk {
  import opened Basics
  import opened LpegTree
  import opened LpegAnalysis
  import opened LpegVm
  import opened LpegCodegen
  import opened LpegLabels
  import opened LpegShapes

  predicate NoInst(c: Code, from: int, to: int)
    requires 0 <= from && to <= |c|
  {
    forall k :: from <= k < to ==> !c[k].Inst?
  }

  predicate Walk(c: Code, i: nat)
    decreases |c| - i
  {
    i == |c| ||
    (i < |c| && c[i].Inst? && i + Size(c[i].op) <= |c| && NoInst(c, i + 1, i + Size(c[i].op)) &&
     Walk(c, i + Size(c[i].op)))
  }

  lemma {:induction false} WalkShift(c1: Code, c2: Code, i: nat)
    requires Walk(c2, i)
    ensures Walk(c1 + c2, |c1| + i)
    decreases |c2| - i
  {
    if i < |c2| {
      WalkShift(c1, c2, i + Size(c2[i].op));
    }
  }

  lemma {:induction false} WalkAppend(c1: Code, c2: Code, i: nat)
    requires Walk(c1, i) && Walk(c2, 0)
    ensures Walk(c1 + c2, i)
    decreases |c1| - i
  {
    if i < |c1| {
      assert (c1 + c2)[i] == c1[i];
      WalkAppend(c1, c2, i + Size(c1[i].op));
    } else {
      WalkShift(c1, c2, 0);
    }
  }

  lemma WalkAppend3(c1: Code, c2: Code, c3: Code)
    requires Walk(c1, 0) && Walk(c2, 0) && Walk(c3, 0)
    ensures Walk(c1 + c2 + c3, 0)
  {
    hide Walk;
    WalkAppend(c1, c2, 0);
    WalkAppend(c1 + c2, c3, 0);
  }

  lemma OneWalks(c: Code)
    requires c != [] && c[0].Inst? && Size(c[0].op) == |c| && NoInst(c, 1, |c|)
    ensures Walk(c, 0)
  {
    assert Walk(c, |c|);
  }

  lemma JumpWalks(op: Opcode, off: int)
    requires Size(op) == 2
    ensures Walk(Jump(op, off), 0)
  {
    OneWalks(Jump(op, off));
  }

  lemma TestWalks(cs: Charset, off: int)
    ensures Walk(Test(cs, off), 0)
  {
    hide TypeOf;
    OneWalks(Test(cs, off));
  }

  lemma OptTestWalks(f: First, off: int)
    ensures Walk(OptTest(f, off), 0)
  {
    hide Test;
    if !f.empty { TestWalks(f.cs, off); }
  }

  lemma GoBackWalks(n: int)
    ensures Walk(GoBack(n), 0)
  {
    if n > 0 { OneWalks(GoBack(n)); }
  }

  lemma IWalks(i: Slot)
    requires i.Inst? && Size(i.op) == 1
    ensures Walk([i], 0)
  {
    OneWalks([i]);
  }

  lemma SetWalks(op: Opcode, cs: Charset)
    requires op == ISet || op == ISpan
    ensures Walk(I(op) + Buffer(cs), 0)
  {
    OneWalks(I(op) + Buffer(cs));
  }

  lemma LeafWalks(g: Rules, p: Tree, opt: bool, tt: Dominating, fl: Charset, d: nat, tail: bool)
    requires p.TChar? || p.TSet? || p.TAny? || p.TTrue? || p.TFalse? || p.TCall? || (p.TRep? && IsCharset(p.body))
    ensures Walk(Gen(g, p, opt, tt, fl, d, tail), 0)
  {
    hide Gen, TypeOf, Walk, Buffer;
    GenLeaf(g, p, opt, tt, fl, d, tail);
    match p
    case TTrue => EmptyWalks();
    case TRep(q) => SetWalks(ISpan, ToCharset(q));
    case TSet(cs) => CharsetWalks(cs, tt);
    case TCall(n) => CallWalks(n);
    case TChar(c) => IWalks(GenChar(c, tt)[0]);
    case TAny => IWalks(I(IAny)[0]);
    case TFalse => IWalks(I(IFail)[0]);
  }

  lemma CallWalks(n: nat)
    ensures Walk([Inst(IOpenCall, 0, n), Open(n)], 0)
  {
    OneWalks([Inst(IOpenCall, 0, n), Open(n)]);
  }

  lemma EmptyWalks()
    ensures Walk([], 0)
  {
  }

  lemma CharsetWalks(cs: Charset, tt: Dominating)
    ensures Walk(GenCharset(cs, tt), 0)
  {
    hide TypeOf, Walk, Buffer;
    match TypeOf(cs)
    case CsFail => IWalks(I(IFail)[0]);
    case CsAny => IWalks(I(IAny)[0]);
    case CsChar(c) => IWalks(GenChar(c, tt)[0]);
    case CsSet => if tt == Some(cs) { IWalks(I(IAny)[0]); } else { SetWalks(ISet, cs); }
  }

  lemma ChoiceByTestWalks(cs: Charset, c1: Code, empty2: bool, c2: Code)
    requires Walk(c1, 0) && Walk(c2, 0)
    ensures Walk(ChoiceByTestCode(cs, c1, empty2, c2), 0)
  {
    hide Walk, Test;
    var jmp := if empty2 then [] else Jump(IJmp, 2 + |c2|);
    if empty2 { EmptyWalks(); } else { JumpWalks(IJmp, 2 + |c2|); }
    var l := |Test(cs, 0)| + |c1| + |jmp|;
    TestWalks(cs, l);
    WalkAppend3(Test(cs, l), c1, jmp);
    WalkAppend(Test(cs, l) + c1 + jmp, c2, 0);
  }

  lemma ChoiceCodeWalks(f: First, c1: Code, c2: Code)
    requires Walk(c1, 0) && Walk(c2, 0)
    ensures Walk(ChoiceCode(f, c1, c2), 0)
  {
    hide Walk, OptTest;
    var test, choice, commit := OptTest(f, |OptTest(f, 0)| + 4 + |c1|), Jump(IChoice, 4 + |c1|),
        Jump(ICommit, 2 + |c2|);
    OptTestWalks(f, |OptTest(f, 0)| + 4 + |c1|);
    JumpWalks(IChoice, 4 + |c1|);
    JumpWalks(ICommit, 2 + |c2|);
    WalkAppend3(test, choice, c1);
    WalkAppend3(test + choice + c1, commit, c2);
  }

  lemma RepByTestWalks(cs: Charset, c: Code)
    requires Walk(c, 0)
    ensures Walk(RepByTestCode(cs, c), 0)
  {
    hide Walk, Test;
    var n := |Test(cs, 0)| + |c|;
    TestWalks(cs, n + 2);
    JumpWalks(IJmp, -n);
    WalkAppend3(Test(cs, n + 2), c, Jump(IJmp, -n));
  }

  lemma RepCodeWalks(f: First, opt: bool, c: Code)
    requires Walk(c, 0)
    ensures Walk(RepCode(f, opt, c), 0)
  {
    hide Walk, OptTest;
    var test, head := OptTest(f, |OptTest(f, 0)| + 4 + |c|), RepHead(opt, c);
    OptTestWalks(f, |OptTest(f, 0)| + 4 + |c|);
    JumpWalks(IPartialCommit, 2);
    JumpWalks(IChoice, 4 + |c|);
    JumpWalks(IPartialCommit, -|c|);
    WalkAppend3(test, head, c);
    WalkAppend(test + head + c, Jump(IPartialCommit, -|c|), 0);
  }

  lemma AndWalks(c: Code, n: int)
    requires Walk(c, 0)
    ensures Walk(c + GoBack(n), 0) && Walk(AndCode(c), 0)
  {
    hide Walk, GoBack;
    GoBackWalks(n);
    WalkAppend(c, GoBack(n), 0);
    JumpWalks(IChoice, 4 + |c|);
    JumpWalks(IBackCommit, 3);
    IWalks(I(IFail)[0]);
    WalkAppend3(Jump(IChoice, 4 + |c|), c, Jump(IBackCommit, 3));
    WalkAppend(Jump(IChoice, 4 + |c|) + c + Jump(IBackCommit, 3), I(IFail), 0);
  }

  lemma CaptureWalks(kind: nat, key: int, n: int, c: Code)
    requires Walk(c, 0)
    ensures n >= 0 ==> Walk(FullCaptureCode(kind, key, n, c), 0)
    ensures Walk(OpenCaptureCode(kind, key, c), 0)
  {
    hide Walk;
    IWalks(Inst(IFullCapture, kind + 16 * n, key));
    IWalks(Inst(IOpenCapture, kind, key));
    IWalks(I(ICloseCapture)[0]);
    WalkAppend(c, [Inst(IFullCapture, kind + 16 * n, key)], 0);
    WalkAppend3([Inst(IOpenCapture, kind, key)], c, I(ICloseCapture));
  }

  lemma NotWalks(f: First, c: Code)
    requires Walk(c, 0)
    ensures Walk(NotByTestCode(f), 0) && Walk(NotCode(f, c), 0)
  {
    hide Walk, OptTest;
    var n := |OptTest(f, 0)|;
    OptTestWalks(f, n + 1);
    OptTestWalks(f, n + 3 + |c|);
    IWalks(I(IFail)[0]);
    IWalks(I(IFailTwice)[0]);
    JumpWalks(IChoice, 3 + |c|);
    WalkAppend(OptTest(f, n + 1), I(IFail), 0);
    WalkAppend3(OptTest(f, n + 3 + |c|), Jump(IChoice, 3 + |c|), c);
    WalkAppend(OptTest(f, n + 3 + |c|) + Jump(IChoice, 3 + |c|) + c, I(IFailTwice), 0);
  }

  lemma {:induction false} GenWalks(g: Rules, p: Tree, opt: bool, tt: Dominating, fl: Charset, d: nat, tail: bool)
    ensures Walk(Gen(g, p, opt, tt, fl, d, tail), 0)
    decreases p, 1
  {
    hide *;
    match p
    case TSeq(_, _) => PartsWalk(g, p, opt, tt, fl, d, tail);
    case TChoice(_, _) => ChoiceWalks(g, p, opt, tt, fl, d, tail);
    case TRep(q) => if IsCharset(q) { LeafWalks(g, p, opt, tt, fl, d, tail); }
        else { RepWalks(g, p, opt, tt, fl, d, tail); }
    case TNot(_) => PartsWalk(g, p, opt, tt, fl, d, tail);
    case TAnd(_) => PartsWalk(g, p, opt, tt, fl, d, tail);
    case TBehind(_, _) => PartsWalk(g, p, opt, tt, fl, d, tail);
    case TCapture(_, _, _) => PartsWalk(g, p, opt, tt, fl, d, tail);
    case TGrammar(_) => GrammarWalks(g, p, opt, tt, fl, d, tail);
    case _ => LeafWalks(g, p, opt, tt, fl, d, tail);
  }

  lemma ChoiceWalks(g: Rules, p: Tree, opt: bool, tt: Dominating, fl: Charset, d: nat, tail: bool)
    requires p.TChoice?
    ensures Walk(Gen(g, p, opt, tt, fl, d, tail), 0)
    decreases p, 0
  {
    hide Gen, Walk, FirstOf, ChoiceByTest, ChoiceByTestCode, ChoiceCode;
    var p1, p2 := p.left, p.right;
    var f := FirstOf(g, p1, d);
    GenWalks(g, p2, opt, None, fl, d, tail);
    var c2 := Gen(g, p2, opt, None, fl, d, tail);
    if ChoiceByTest(g, p1, p2, fl, d) {
      GenChoiceByTest(g, p1, p2, opt, tt, fl, d, tail);
      GenWalks(g, p1, false, Some(f.cs), fl, d, tail);
      ChoiceByTestWalks(f.cs, Gen(g, p1, false, Some(f.cs), fl, d, tail), p2.TTrue?, c2);
    } else if opt && p2.TTrue? {
      GenOptionReuse(g, p1, tt, fl, d, tail);
      GenWalks(g, p1, true, None, FullSet(), d, tail);
      JumpWalks(IPartialCommit, 2);
      WalkAppend(Jump(IPartialCommit, 2), Gen(g, p1, true, None, FullSet(), d, tail), 0);
    } else {
      GenChoice(g, p1, p2, opt, tt, fl, d, tail);
      GenWalks(g, p1, p2.TTrue?, Protecting(f), FullSet(), d, tail);
      ChoiceCodeWalks(f, Gen(g, p1, p2.TTrue?, Protecting(f), FullSet(), d, tail), c2);
    }
  }

  lemma RepWalks(g: Rules, p: Tree, opt: bool, tt: Dominating, fl: Charset, d: nat, tail: bool)
    requires p.TRep? && !IsCharset(p.body)
    ensures Walk(Gen(g, p, opt, tt, fl, d, tail), 0)
    decreases p, 0
  {
    hide Gen, Walk, FirstOf, RepByTest, RepByTestCode, RepCode;
    var q := p.body;
    var f := FirstOf(g, q, d);
    if RepByTest(g, q, fl, d) {
      GenRepByTest(g, q, opt, tt, fl, d, tail);
      GenWalks(g, q, false, Some(f.cs), FullSet(), d, tail);
      RepByTestWalks(f.cs, Gen(g, q, false, Some(f.cs), FullSet(), d, tail));
    } else {
      GenRep(g, q, opt, tt, fl, d, tail);
      GenWalks(g, q, false, None, FullSet(), d, tail);
      RepCodeWalks(f, opt, Gen(g, q, false, None, FullSet(), d, tail));
    }
  }

  lemma PartsWalk(g: Rules, p: Tree, opt: bool, tt: Dominating, fl: Charset, d: nat, tail: bool)
    requires p.TSeq? || p.TNot? || p.TAnd? || p.TBehind? || p.TCapture?
    ensures Walk(Gen(g, p, opt, tt, fl, d, tail), 0)
    decreases p, 0
  {
    hide Gen, Walk, FirstOf, HeadFail, AndByLength, FixedLen, SeqFollow, SeqProtecting, GoBack,
      NotByTestCode, NotCode, AndCode, FullCaptureCode, OpenCaptureCode;
    match p
    case TSeq(p1, p2) =>
      GenSeq(g, p1, p2, opt, tt, fl, d, tail);
      GenWalks(g, p1, false, tt, SeqFollow(g, p1, p2, fl, d), d, tail);
      GenWalks(g, p2, opt, SeqProtecting(g, p1, tt, d), fl, d, tail);
      WalkAppend(Gen(g, p1, false, tt, SeqFollow(g, p1, p2, fl, d), d, tail),
                 Gen(g, p2, opt, SeqProtecting(g, p1, tt, d), fl, d, tail), 0);
    case TNot(q) =>
      GenNot(g, q, opt, tt, fl, d, tail);
      GenWalks(g, q, false, None, FullSet(), d, tail);
      NotWalks(FirstOf(g, q, d), Gen(g, q, false, None, FullSet(), d, tail));
    case TAnd(q) =>
      GenAnd(g, q, opt, tt, fl, d, tail);
      GenWalks(g, q, false, tt, FullSet(), d, tail);
      AndWalks(Gen(g, q, false, tt, FullSet(), d, tail), FixedLen(g, q, d));
    case TBehind(n, q) =>
      GenLeaf(g, p, opt, tt, fl, d, tail);
      GenWalks(g, q, false, None, FullSet(), d, tail);
      GoBackWalks(n);
      WalkAppend(GoBack(n), Gen(g, q, false, None, FullSet(), d, tail), 0);
    case TCapture(kind, key, q) =>
      GenCapture(g, kind, key, q, opt, tt, fl, d, tail);
      GenWalks(g, q, false, tt, fl, d, tail);
      CaptureWalks(kind, key, FixedLen(g, q, d), Gen(g, q, false, tt, fl, d, tail));
  }

  lemma GrammarWalks(g: Rules, p: Tree, opt: bool, tt: Dominating, fl: Charset, d: nat, tail: bool)
    requires p.TGrammar?
    ensures Walk(Gen(g, p, opt, tt, fl, d, tail), 0)
    decreases p, 0
  {
    hide Gen, Walk, Link, Starts;
    GenLeaf(g, p, opt, tt, fl, d, tail);
    var codes := GenRules(p.rules, p.rules, d, tail);
    RulesWalk(p.rules, p.rules, d, tail);
    var body := Flatten(codes);
    LinkWalks(body, Starts(codes, 0), tail, 0);
    JumpWalks(ICall, 4);
    JumpWalks(IJmp, 2 + |body|);
    WalkAppend3(Jump(ICall, 4), Jump(IJmp, 2 + |body|), Link(body, Starts(codes, 0), tail));
  }

  lemma RulesWalk(g: Rules, ps: seq<Tree>, d: nat, tail: bool)
    ensures Walk(Flatten(GenRules(g, ps, d, tail)), 0)
    decreases ps
  {
    hide Gen, Walk;
    if ps == [] {
      EmptyWalks();
    } else {
      GenWalks(g, ps[0], false, None, FullSet(), d, tail);
      IWalks(I(IRet)[0]);
      WalkAppend(Gen(g, ps[0], false, None, FullSet(), d, tail), I(IRet), 0);
      RulesWalk(g, ps[1..], d, tail);
      WalkAppend(GenRule(g, ps[0], d, tail), Flatten(GenRules(g, ps[1..], d, tail)), 0);
    }
  }

  lemma {:induction false} LinkWalks(body: Code, starts: seq<nat>, tail: bool, i: nat)
    requires Walk(body, i)
    ensures Walk(Link(body, starts, tail), i)
    decreases |body| - i
  {
    hide TailCall;
    if i < |body| { LinkWalks(body, starts, tail, i + Size(body[i].op)); }
  }

  /** Stepping by sizes passes through every instruction. */
  predicate OnWalk(c: Code, i: nat, y: int)
    decreases |c| - i
  {
    i == y || (i < |c| && c[i].Inst? && OnWalk(c, i + Size(c[i].op), y))
  }

  lemma {:induction false} WalkMeets(c: Code, i: nat, y: int)
    requires Walk(c, i) && i <= y < |c| && c[y].Inst?
    ensures OnWalk(c, i, y)
    decreases |c| - i
  {
    if i != y { WalkMeets(c, i + Size(c[i].op), y); }
  }
}
