/** Where the labels of each piece of code end up, and what the analyses say where they are used. */
module LpegLayout {
  import opened LpegTree
  import opened LpegAnalysis
  import opened LpegVm
  import opened LpegCodegen
  import opened LpegCorrect
  import opened LpegCases

  lemma OutDelivers(x: Ctx, opt: bool, start: Config, b: int, fl: Charset, c0: seq<CapEntry>, stk: seq<Frame>)
    ensures Delivers(x, opt, start, b, Out, fl, c0, stk)
  {
  }

  lemma DoneDelivers(x: Ctx, opt: bool, fl: Charset, start: Config, b: int, s: nat, c0: seq<CapEntry>, stk: seq<Frame>)
    requires Goes(x, start, Run(b, s, c0, stk))
    ensures Delivers(x, opt, start, b, Yes(s, []), fl, c0, stk)
  {
    assert c0 + FlatAll([]) == c0;
  }

  lemma AnyDelivers(x: Ctx, opt: bool, fl: Charset, a: int, s: nat, c0: seq<CapEntry>, stk: seq<Frame>)
    requires s <= |x.subj| && Linked(x, a, I(IAny))
    ensures Delivers(x, opt, Run(a, s, c0, stk), a + 1, One(x.subj, s, FullSet()), fl, c0, stk)
  {
    hide FullSet;
    AtHead(x, a, I(IAny));
    ReachesStep(x.code, x.subj, Run(a, s, c0, stk));
    assert s < |x.subj| ==> x.subj[s] in FullSet();
    assert c0 + FlatAll([]) == c0;
  }

  lemma TrueDelivers(x: Ctx, opt: bool, fl: Charset, a: int, s: nat, c0: seq<CapEntry>, stk: seq<Frame>)
    ensures Delivers(x, opt, Run(a, s, c0, stk), a, Yes(s, []), fl, c0, stk)
  {
    ReachesRefl(x.code, x.subj, Run(a, s, c0, stk));
    DoneDelivers(x, opt, fl, Run(a, s, c0, stk), a, s, c0, stk);
  }

  lemma FalseDelivers(x: Ctx, opt: bool, fl: Charset, a: int, s: nat, c0: seq<CapEntry>, stk: seq<Frame>)
    requires s <= |x.subj| && Linked(x, a, I(IFail))
    ensures Delivers(x, opt, Run(a, s, c0, stk), a + 1, No, fl, c0, stk)
  {
    AtHead(x, a, I(IFail));
    StepFail(x, a, s, c0, stk);
  }

  lemma EvalTrue(g: Rules, subj: Subject, s: nat, fuel: nat)
    requires s <= |subj|
    ensures Eval(g, TTrue, subj, s, fuel) == Yes(s, [])
  {
  }

  lemma OptTestLength(f: First, off: int)
    ensures |OptTest(f, off)| == |OptTest(f, 0)|
  {
    hide TypeOf, TestHead;
  }

  // ---------------------------------------------------------------- layouts

  lemma ChoiceByTestLayout(x: Ctx, a: int, cs: Charset, g1: Code, empty2: bool, g2: Code, s: nat, c0: seq<CapEntry>,
                           stk: seq<Frame>)
    returns (m: int, e: int, l1: int, b: int)
    requires Linked(x, a, ChoiceByTestCode(cs, g1, empty2, g2)) && s <= |x.subj| && (empty2 ==> g2 == [])
    ensures Linked(x, m, g1) && e == m + |g1| && Linked(x, l1, g2) &&
            b == l1 + |g2| == a + |ChoiceByTestCode(cs, g1, empty2, g2)|
    ensures LeadsTo(x, e, b)
    ensures Goes(x, Run(a, s, c0, stk), Run(if InSet(x.subj, s, cs) then m else l1, s, c0, stk))
  {
    hide TypeOf, Linked, Goes, Target;
    var jmp := if empty2 then [] else Jump(IJmp, 2 + |g2|);
    var n := |Test(cs, 0)|;
    m, e, l1, b := a + n, a + n + |g1|, a + n + |g1| + |jmp|, a + n + |g1| + |jmp| + |g2|;
    LinkedAppend(x, a, Test(cs, n + |g1| + |jmp|) + g1 + jmp, g2);
    LinkedAppend3(x, a, Test(cs, n + |g1| + |jmp|), g1, jmp);
    if !empty2 { AtHead(x, e, jmp); }
    TestGoes(x, a, cs, n + |g1| + |jmp|, s, c0, stk);
  }

  /** Where the parts of a choice are, its optional test being of length `n`. */
  lemma ChoicePlaces(x: Ctx, a: int, f1: First, g1: Code, g2: Code, n: nat)
    requires n == |OptTest(f1, 0)| && Linked(x, a, ChoiceCode(f1, g1, g2))
    ensures Linked(x, a, OptTest(f1, n + 4 + |g1|)) && |OptTest(f1, n + 4 + |g1|)| == n
    ensures Linked(x, a + n, Jump(IChoice, 4 + |g1|)) && Linked(x, a + n + 2, g1)
    ensures Linked(x, a + n + 2 + |g1|, Jump(ICommit, 2 + |g2|)) && Linked(x, a + n + 4 + |g1|, g2)
    ensures |ChoiceCode(f1, g1, g2)| == n + 4 + |g1| + |g2|
  {
    hide OptTest, Linked;
    OptTestLength(f1, n + 4 + |g1|);
    LinkedAppend3(x, a, OptTest(f1, n + 4 + |g1|) + Jump(IChoice, 4 + |g1|) + g1, Jump(ICommit, 2 + |g2|), g2);
    LinkedAppend3(x, a, OptTest(f1, n + 4 + |g1|), Jump(IChoice, 4 + |g1|), g1);
  }

  lemma ChoiceLayout(x: Ctx, a: int, f1: First, g1: Code, g2: Code, s: nat, c0: seq<CapEntry>, stk: seq<Frame>)
    returns (m: int, e: int, l1: int, b: int)
    requires Linked(x, a, ChoiceCode(f1, g1, g2)) && s <= |x.subj|
    ensures Linked(x, m + 2, g1) && e == m + 2 + |g1| && Linked(x, l1, g2) &&
            b == l1 + |g2| == a + |ChoiceCode(f1, g1, g2)|
    ensures OpAt(x.code, m, IChoice) && Target(x.code, m) == l1
    ensures OpAt(x.code, e, ICommit) && Target(x.code, e) == b
    ensures Goes(x, Run(a, s, c0, stk), Run(if f1.empty || InSet(x.subj, s, f1.cs) then m else l1, s, c0, stk))
  {
    hide OptTest, ChoiceCode, Linked, Goes, Target;
    var n := |OptTest(f1, 0)|;
    m, e, l1, b := a + n, a + n + 2 + |g1|, a + n + 4 + |g1|, a + n + 4 + |g1| + |g2|;
    ChoicePlaces(x, a, f1, g1, g2, n);
    AtHead(x, m, Jump(IChoice, 4 + |g1|));
    AtHead(x, e, Jump(ICommit, 2 + |g2|));
    OptTestGoes(x, a, f1, n + 4 + |g1|, s, c0, stk);
  }

  lemma RepByTestLayout(x: Ctx, a: int, cs: Charset, c: Code, s: nat, c0: seq<CapEntry>, stk: seq<Frame>)
    returns (m: int, e: int, b: int)
    requires Linked(x, a, RepByTestCode(cs, c)) && s <= |x.subj|
    ensures Linked(x, m, c) && e == m + |c| && b == a + |RepByTestCode(cs, c)|
    ensures OpAt(x.code, e, IJmp) && Target(x.code, e) == a
    ensures Goes(x, Run(a, s, c0, stk), Run(if InSet(x.subj, s, cs) then m else b, s, c0, stk))
  {
    hide TypeOf, Linked, Goes, Target;
    var k := |Test(cs, 0)|;
    var n := k + |c|;
    m, e, b := a + k, a + n, a + n + 2;
    LinkedAppend3(x, a, Test(cs, n + 2), c, Jump(IJmp, -n));
    AtHead(x, e, Jump(IJmp, -n));
    TestGoes(x, a, cs, n + 2, s, c0, stk);
  }

  /** Where the parts of a loop are, its optional test being of length `n`. */
  lemma RepPlaces(x: Ctx, a: int, f: First, opt: bool, c: Code, n: nat)
    requires n == |OptTest(f, 0)| && Linked(x, a, RepCode(f, opt, c))
    ensures Linked(x, a, OptTest(f, n + 4 + |c|)) && |OptTest(f, n + 4 + |c|)| == n
    ensures Linked(x, a + n, RepHead(opt, c)) && Linked(x, a + n + 2, c)
    ensures Linked(x, a + n + 2 + |c|, Jump(IPartialCommit, -|c|)) && |RepCode(f, opt, c)| == n + 4 + |c|
  {
    hide OptTest, Linked;
    OptTestLength(f, n + 4 + |c|);
    LinkedAppend(x, a, OptTest(f, n + 4 + |c|) + RepHead(opt, c) + c, Jump(IPartialCommit, -|c|));
    LinkedAppend3(x, a, OptTest(f, n + 4 + |c|), RepHead(opt, c), c);
  }

  lemma RepLayout(x: Ctx, a: int, f: First, opt: bool, c: Code, s: nat, c0: seq<CapEntry>, stk: seq<Frame>)
    returns (m: int, l: int, e: int, b: int)
    requires Linked(x, a, RepCode(f, opt, c)) && s <= |x.subj|
    ensures Linked(x, l, c) && l == m + 2 && e == l + |c| && b == e + 2 == a + |RepCode(f, opt, c)|
    ensures if opt then OpAt(x.code, m, IPartialCommit) && Target(x.code, m) == l
            else OpAt(x.code, m, IChoice) && Target(x.code, m) == b
    ensures OpAt(x.code, e, IPartialCommit) && Target(x.code, e) == l
    ensures Goes(x, Run(a, s, c0, stk), Run(if f.empty || InSet(x.subj, s, f.cs) then m else b, s, c0, stk))
  {
    hide OptTest, RepCode, Linked, Goes, Target;
    var n := |OptTest(f, 0)|;
    m, l, e, b := a + n, a + n + 2, a + n + 2 + |c|, a + n + 4 + |c|;
    RepPlaces(x, a, f, opt, c, n);
    AtHead(x, m, RepHead(opt, c));
    AtHead(x, e, Jump(IPartialCommit, -|c|));
    OptTestGoes(x, a, f, n + 4 + |c|, s, c0, stk);
  }

  lemma NotByTestLayout(x: Ctx, a: int, f: First, s: nat, c0: seq<CapEntry>, stk: seq<Frame>) returns (m: int, b: int)
    requires Linked(x, a, NotByTestCode(f)) && s <= |x.subj|
    ensures OpAt(x.code, m, IFail) && b == a + |NotByTestCode(f)|
    ensures Goes(x, Run(a, s, c0, stk), Run(if f.empty || InSet(x.subj, s, f.cs) then m else b, s, c0, stk))
  {
    hide Test, Linked, Goes, Target;
    var n := |OptTest(f, 0)|;
    OptTestLength(f, n + 1);
    m, b := a + n, a + n + 1;
    LinkedAppend(x, a, OptTest(f, n + 1), I(IFail));
    AtHead(x, m, I(IFail));
    OptTestGoes(x, a, f, n + 1, s, c0, stk);
  }

  lemma NotLayout(x: Ctx, a: int, f: First, c: Code, s: nat, c0: seq<CapEntry>, stk: seq<Frame>)
      returns (m: int, e: int, b: int)
    requires Linked(x, a, NotCode(f, c)) && s <= |x.subj|
    ensures Linked(x, m + 2, c) && e == m + 2 + |c| && b == a + |NotCode(f, c)|
    ensures OpAt(x.code, m, IChoice) && Target(x.code, m) == b && OpAt(x.code, e, IFailTwice)
    ensures Goes(x, Run(a, s, c0, stk), Run(if f.empty || InSet(x.subj, s, f.cs) then m else b, s, c0, stk))
  {
    hide Test, Linked, Goes, Target;
    var n := |OptTest(f, 0)|;
    OptTestLength(f, n + 3 + |c|);
    m, e, b := a + n, a + n + 2 + |c|, a + n + 3 + |c|;
    LinkedAppend(x, a, OptTest(f, n + 3 + |c|) + Jump(IChoice, 3 + |c|) + c, I(IFailTwice));
    LinkedAppend3(x, a, OptTest(f, n + 3 + |c|), Jump(IChoice, 3 + |c|), c);
    AtHead(x, m, Jump(IChoice, 3 + |c|));
    AtHead(x, e, I(IFailTwice));
    OptTestGoes(x, a, f, n + 3 + |c|, s, c0, stk);
  }

  lemma AndLayout(x: Ctx, a: int, c: Code) returns (e: int, l1: int)
    requires Linked(x, a, AndCode(c))
    ensures Linked(x, a + 2, c) && e == a + 2 + |c| && l1 + 1 == a + |AndCode(c)|
    ensures OpAt(x.code, a, IChoice) && Target(x.code, a) == l1
    ensures OpAt(x.code, e, IBackCommit) && Target(x.code, e) == l1 + 1 && OpAt(x.code, l1, IFail)
  {
    hide Linked, Target;
    e, l1 := a + 2 + |c|, a + 4 + |c|;
    LinkedAppend(x, a, Jump(IChoice, 4 + |c|) + c + Jump(IBackCommit, 3), I(IFail));
    LinkedAppend3(x, a, Jump(IChoice, 4 + |c|), c, Jump(IBackCommit, 3));
    AtHead(x, a, Jump(IChoice, 4 + |c|));
    AtHead(x, e, Jump(IBackCommit, 3));
    AtHead(x, l1, I(IFail));
  }

  lemma CallLayout(x: Ctx, a: int, n: nat)
    requires Linked(x, a, [Inst(IOpenCall, 0, n), Open(n)]) && n < |x.calls|
    ensures OpAt(x.code, a, ICall) && Target(x.code, a) == x.calls[n]
  {
    SlotAt(x, a, [Inst(IOpenCall, 0, n), Open(n)], 0);
    SlotAt(x, a, [Inst(IOpenCall, 0, n), Open(n)], 1);
  }

  lemma GrammarLayout(x: Ctx, a: int, codes: seq<Code>) returns (b: int)
    requires Linked(x, a, GrammarCode(codes, false))
    ensures b == a + |GrammarCode(codes, false)|
    ensures OpAt(x.code, a, ICall) && Target(x.code, a) == a + 4 && LeadsTo(x, a + 2, b)
    ensures Linked(x, a + 4, Link(Flatten(codes), Starts(codes, 0), false))
  {
    hide Linked, Target;
    var body := Flatten(codes);
    b := a + 4 + |body|;
    LinkedAppend3(x, a, Jump(ICall, 4), Jump(IJmp, 2 + |body|), Link(body, Starts(codes, 0), false));
    AtHead(x, a, Jump(ICall, 4));
    AtHead(x, a + 2, Jump(IJmp, 2 + |body|));
  }

  /** The repetition that keeps a choice, once its loop is known to go to the exit. */
  lemma RepDelivers(x: Ctx, opt: bool, fl: Charset, a: int, m: int, l: int, b: int, s: nat, r: Result,
                    c0: seq<CapEntry>, stk: seq<Frame>)
    requires s <= |x.subj| && r.Yes? && (opt ==> HasChoice(stk)) && l == m + 2
    requires if opt then OpAt(x.code, m, IPartialCommit) && Target(x.code, m) == l
             else OpAt(x.code, m, IChoice) && Target(x.code, m) == b
    requires Goes(x, Run(a, s, c0, stk), Run(m, s, c0, stk))
    requires var rest, exit := if opt then stk[..|stk| - 1] else stk, if opt then stk[|stk| - 1].pc else b;
             Goes(x, Run(l, s, c0, rest + [Choice(s, exit, |c0|)]), Run(exit, r.pos, c0 + FlatAll(r.caps), rest))
    ensures Delivers(x, opt, Run(a, s, c0, stk), b, r, fl, c0, stk)
  {
    hide Goes, FlatAll;
    var rest, exit := if opt then stk[..|stk| - 1] else stk, if opt then stk[|stk| - 1].pc else b;
    var start, with := Run(a, s, c0, stk), rest + [Choice(s, exit, |c0|)];
    if opt { StepMoved(x, m, s, c0, stk); } else { StepChoice(x, m, s, c0, stk); }
    Via(x, start, Run(m, s, c0, stk), Run(l, s, c0, with));
    Via(x, start, Run(l, s, c0, with), Run(exit, r.pos, c0 + FlatAll(r.caps), rest));
    assert Arrives(x, opt, start, b, r.pos, c0 + FlatAll(r.caps), stk);
  }

  // ---------------------------------------------------------------- what the analyses say

  /** A pattern whose first set is checked fails when the test does. */
  lemma FirstFacts(x: Ctx, q: Tree, s: nat, fuel: nat)
    requires s <= |x.subj|
    ensures var f := FirstOf(x.g, q, x.d); !f.empty && !InSet(x.subj, s, f.cs) ==> !Eval(x.g, q, x.subj, s, fuel).Yes?
  {
    hide Eval, GetFirst;
    if Eval(x.g, q, x.subj, s, fuel).Yes? { FirstSound(x.g, q, FullSet(), x.d, x.subj, s, fuel); }
  }

  lemma HeadFailFacts(x: Ctx, q: Tree, s: nat, fuel: nat)
    requires s <= |x.subj| && HeadFail(x.g, q, x.d)
    ensures var f := FirstOf(x.g, q, x.d);
            !f.empty && (Eval(x.g, q, x.subj, s, fuel) != Out ==>
                         (Eval(x.g, q, x.subj, s, fuel).Yes? <==> InSet(x.subj, s, f.cs)))
  {
    hide Eval, GetFirst, HeadFail;
    HeadFailSound(x.g, q, x.d, x.subj, s, fuel);
  }

  /** When the test passes and the first part fails, the second part cannot help what follows. */
  lemma ChoiceByTestFacts(x: Ctx, p1: Tree, p2: Tree, fl: Charset, s: nat, fuel: nat)
    requires s <= |x.subj| && ChoiceByTest(x.g, p1, p2, fl, x.d)
    ensures var cs := FirstOf(x.g, p1, x.d).cs;
            var r1, r2 := Eval(x.g, p1, x.subj, s, fuel), Eval(x.g, p2, x.subj, s, fuel);
            && (!InSet(x.subj, s, cs) ==> !r1.Yes?)
            && (InSet(x.subj, s, cs) && r1.No? && r2.Yes? ==> r2.pos == s && s < |x.subj| && x.subj[s] !in fl)
  {
    hide Eval, GetFirst, HeadFail;
    FirstFacts(x, p1, s, fuel);
    if HeadFail(x.g, p1, x.d) { HeadFailFacts(x, p1, s, fuel); }
    if Eval(x.g, p2, x.subj, s, fuel).Yes? {
      FirstSound(x.g, p2, fl, x.d, x.subj, s, fuel);
      if InSet(x.subj, s, FirstOf(x.g, p1, x.d).cs) && !HeadFail(x.g, p1, x.d) {
        assert x.subj[s] in FirstOf(x.g, p1, x.d).cs &&
               x.subj[s] !in FirstOf(x.g, p1, x.d).cs * GetFirst(x.g, p2, fl, x.d).cs;
      }
    }
  }

  lemma RepByTestFacts(x: Ctx, q: Tree, fl: Charset, s: nat, fuel: nat)
    requires s <= |x.subj| && RepByTest(x.g, q, fl, x.d)
    ensures var cs := FirstOf(x.g, q, x.d).cs;
            var r1 := Eval(x.g, q, x.subj, s, fuel);
            && (!InSet(x.subj, s, cs) ==> !r1.Yes?)
            && (InSet(x.subj, s, cs) && r1.No? ==> s < |x.subj| && x.subj[s] !in fl)
  {
    hide Eval, GetFirst, HeadFail;
    FirstFacts(x, q, s, fuel);
    if HeadFail(x.g, q, x.d) { HeadFailFacts(x, q, s, fuel); }
    else if InSet(x.subj, s, FirstOf(x.g, q, x.d).cs) {
      assert x.subj[s] in FirstOf(x.g, q, x.d).cs && x.subj[s] !in FirstOf(x.g, q, x.d).cs * fl;
    }
  }

  lemma AndByLengthFacts(x: Ctx, q: Tree, s: nat, fuel: nat)
    requires s <= |x.subj| && AndByLength(x.g, q, x.d)
    ensures FixedLen(x.g, q, x.d) >= 0
    ensures var r1 := Eval(x.g, q, x.subj, s, fuel); r1.Yes? ==> r1.pos == s + FixedLen(x.g, q, x.d) && r1.caps == []
  {
    hide Eval, FixedLen, HasCaptures;
    FixedLenSound(x.g, q, x.d, x.subj, s, fuel);
    HasCapturesSound(x.g, q, x.d, x.subj, s, fuel);
  }

  lemma CaptureByLengthFacts(x: Ctx, q: Tree, s: nat, fuel: nat)
    requires s <= |x.subj| && CaptureByLength(x.g, q, x.d)
    ensures 0 <= FixedLen(x.g, q, x.d) <= MAXOFF
    ensures var r1 := Eval(x.g, q, x.subj, s, fuel);
            r1.Yes? ==> r1.pos == s + FixedLen(x.g, q, x.d) <= |x.subj| && r1.caps == []
  {
    hide Eval, FixedLen, HasCaptures;
    FixedLenSound(x.g, q, x.d, x.subj, s, fuel);
    HasCapturesSound(x.g, q, x.d, x.subj, s, fuel);
  }

  lemma FullCaptureLayout(x: Ctx, a: int, c: Code, kind: nat, key: int, n: nat)
    requires Linked(x, a, FullCaptureCode(kind, key, n, c))
    ensures Linked(x, a, c) && Linked(x, a + |c|, [Inst(IFullCapture, kind + 16 * n, key)])
    ensures |FullCaptureCode(kind, key, n, c)| == |c| + 1
  {
    hide Linked;
    LinkedAppend(x, a, c, [Inst(IFullCapture, kind + 16 * n, key)]);
  }

  lemma OpenCaptureLayout(x: Ctx, a: int, c: Code, kind: nat, key: int)
    requires Linked(x, a, OpenCaptureCode(kind, key, c))
    ensures Linked(x, a, [Inst(IOpenCapture, kind, key)]) && Linked(x, a + 1, c)
    ensures Linked(x, a + 1 + |c|, I(ICloseCapture))
    ensures |OpenCaptureCode(kind, key, c)| == |c| + 2
  {
    hide Linked;
    LinkedAppend3(x, a, [Inst(IOpenCapture, kind, key)], c, I(ICloseCapture));
  }
}
