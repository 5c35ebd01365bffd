/** The code generator of lpcode.c: it appends to a growing array, goes back to set labels, and
    finally optimizes the array in place. */
module LpegCompiler {
  import opened Basics
  import opened LpegTree
  import opened LpegAnalysis
  import opened LpegVm
  import opened LpegCodegen
  import opened LpegRuns
  import opened LpegAnswers
  import opened LpegCorrect
  import opened LpegLead
  import opened LpegShapes
  import opened LpegLabels
  import opened LpegWalk
  import opened LpegPeephole
  import opened LpegCharset
  import opened LpegLinker
  import opened LpegCompiles
  import LpegCompiled

  const NOINST := -1

  /** The instruction at `tt`, if any, tests for the set that protects what is being generated. */
  ghost predicate Tests(view: Code, tt: int, dom: Dominating) {
    if tt < 0 then dom == None
    else
      && dom.Some? && tt + |Test(dom.value, 0)| <= |view| && view[tt] == TestHead(dom.value)
      && (TypeOf(dom.value) == CsSet ==> tt + 2 < |view| && view[tt + 2] == Buff(dom.value))
  }

  lemma TestsNone(view: Code)
    ensures Tests(view, NOINST, None)
  {
  }

  lemma TestsGrow(view: Code, more: Code, tt: int, dom: Dominating)
    requires Tests(view, tt, dom)
    ensures Tests(view + more, tt, dom)
  {
    hide TypeOf, TestHead;
  }

  lemma TestsNew(view: Code, cs: Charset, off: int)
    ensures Tests(view + Test(cs, off), |view|, Some(cs))
  {
    hide TypeOf, TestHead;
  }

  lemma TypeOfSingle(c: Byte)
    ensures TypeOf({c}) == CsChar(c)
  {
    hide FullSet;
    var other: Byte := if c == 0 then 1 else 0;
    assert {c} != FullSet() by { InFullSet(other); }
    assert c in {c};
  }

  /** A single character is known to be there exactly if the test is for it. */
  lemma TestsChar(view: Code, tt: int, dom: Dominating, c: Byte)
    requires Tests(view, tt, dom)
    ensures dom == Some({c}) <==> tt >= 0 && tt < |view| && view[tt].Inst? && view[tt].op == ITestChar &&
                                  view[tt].aux == c
  {
    hide FullSet;
    TypeOfSingle(c);
    if dom.Some? && TypeOf(dom.value).CsChar? { assert dom.value == {TypeOf(dom.value).c}; }
  }

  lemma TestsSet(view: Code, tt: int, dom: Dominating, cs: Charset)
    requires Tests(view, tt, dom) && TypeOf(cs) == CsSet
    ensures dom == Some(cs) <==>
            tt >= 0 && tt + 2 < |view| && view[tt].Inst? && view[tt].op == ITestSet && view[tt + 2] == Buff(cs)
    ensures tt < |view| && (tt >= 0 && view[tt].Inst? && view[tt].op == ITestSet ==> tt + 2 < |view|)
  {
    hide TypeOf;
  }

  /** A test that has just been generated, and perhaps more after it, protects what comes next. */
  lemma TestsFront(view: Code, f: First, more: Code)
    ensures Tests(view + OptTest(f, 0) + more, if f.empty then NOINST else |view|, Protecting(f))
  {
    hide Test, Tests;
    if f.empty {
      TestsNone(view + OptTest(f, 0) + more);
    } else {
      TestsNew(view, f.cs, 0);
      TestsGrow(view + Test(f.cs, 0), more, |view|, Some(f.cs));
    }
  }

  /** Sets the label of the instruction at `i`, if there is one. */
  ghost function SetLabel(view: Code, i: int, off: int): (r: Code)
    requires NOINST <= i && i + 1 < |view|
    ensures |r| == |view|
  {
    if i < 0 then view else view[i + 1 := Offset(off)]
  }

  lemma SetNoLabel(view: Code, off: int)
    requires view != []
    ensures SetLabel(view, NOINST, off) == view
  {
  }

  /** Setting the label of an instruction at the start of a part. */
  lemma PatchJump(a: Code, op: Opcode, c: Code, off: int)
    ensures SetLabel(a + Jump(op, 0) + c, |a|, off) == a + Jump(op, off) + c
  {
  }

  lemma PatchOptTest(a: Code, f: First, c: Code, off: int)
    requires f.empty ==> a + c != []
    ensures |OptTest(f, 0)| == |OptTest(f, off)| && (f.empty || |OptTest(f, 0)| >= 2)
    ensures SetLabel(a + OptTest(f, 0) + c, if f.empty then NOINST else |a|, off) == a + OptTest(f, off) + c
  {
    hide TypeOf, TestHead;
  }

  lemma TestsFresh(view: Code, cs: Charset)
    ensures Tests(view + OptTest(First(cs, false), 0), |view|, Some(cs))
  {
    hide Test, Tests;
    TestsNew(view, cs, 0);
  }

  lemma PatchLast(a: Code, op: Opcode, off: int)
    ensures SetLabel(a + Jump(op, 0), |a|, off) == a + Jump(op, off)
  {
  }

  // ---------------------------------------------------------------- what a series of patches builds

  lemma ChoiceByTestBuilt(v0: Code, cs: Charset, c1: Code, empty2: bool, c2: Code, v3: Code, v4: Code, v5: Code,
                          v6: Code)
    requires v3 == v0 + OptTest(First(cs, false), 0) + c1 + (if empty2 then [] else Jump(IJmp, 0))
    requires |v0| + 1 < |v3| && v4 == SetLabel(v3, |v0|, |v3| - |v0|) && v5 == v4 + c2
    requires var jmp := if empty2 then NOINST else |v0 + OptTest(First(cs, false), 0) + c1|;
             v6 == SetLabel(v5, jmp, |v5| - jmp)
    ensures v6 == v0 + ChoiceByTestCode(cs, c1, empty2, c2)
  {
    hide Test, SetLabel;
    var jmp0, jmp := if empty2 then [] else Jump(IJmp, 0), if empty2 then [] else Jump(IJmp, 2 + |c2|);
    var l := |Test(cs, 0)| + |c1| + |jmp|;
    assert v3 == v0 + Test(cs, 0) + (c1 + jmp0);
    PatchOptTest(v0, First(cs, false), c1 + jmp0, l);
    if empty2 {
      SetNoLabel(v5, |v5| + 1);
      assert v0 + (Test(cs, l) + c1 + [] + c2) == v5;
    } else {
      var front := v0 + Test(cs, l) + c1;
      assert v5 == front + Jump(IJmp, 0) + c2;
      PatchJump(front, IJmp, c2, 2 + |c2|);
      assert front + jmp + c2 == v0 + (Test(cs, l) + c1 + jmp + c2);
    }
  }

  lemma FirstAlternativeBuilt(v0: Code, f1: First, c1: Code, v2: Code, v3: Code, v4: Code)
    requires v2 == v0 + OptTest(f1, 0) + Jump(IChoice, 0) + c1 + Jump(ICommit, 0)
    requires var choice := |v0 + OptTest(f1, 0)|; v3 == SetLabel(v2, choice, |v2| - choice)
    requires var test := if f1.empty then NOINST else |v0|; v4 == SetLabel(v3, test, |v3| - test)
    ensures v4 == v0 + OptTest(f1, |OptTest(f1, 0)| + 4 + |c1|) + Jump(IChoice, 4 + |c1|) + c1 + Jump(ICommit, 0)
  {
    hide Test, SetLabel;
    var l, tail := |OptTest(f1, 0)| + 4 + |c1|, c1 + Jump(ICommit, 0);
    assert v2 == (v0 + OptTest(f1, 0)) + Jump(IChoice, 0) + tail;
    PatchJump(v0 + OptTest(f1, 0), IChoice, tail, 4 + |c1|);
    var rest := Jump(IChoice, 4 + |c1|) + tail;
    assert v3 == v0 + OptTest(f1, 0) + rest;
    PatchOptTest(v0, f1, rest, if f1.empty then |v3| + 1 else l);
    assert v4 == v0 + OptTest(f1, l) + rest;
  }

  lemma ChoiceBuilt(v0: Code, f1: First, c1: Code, c2: Code, v5: Code, v6: Code)
    requires v5 == v0 + OptTest(f1, |OptTest(f1, 0)| + 4 + |c1|) + Jump(IChoice, 4 + |c1|) + c1 + Jump(ICommit, 0) + c2
    requires var commit := |v5| - |c2| - 2; v6 == SetLabel(v5, commit, |v5| - commit)
    ensures v6 == v0 + ChoiceCode(f1, c1, c2)
  {
    hide OptTest, SetLabel;
    var l := |OptTest(f1, 0)| + 4 + |c1|;
    var front := v0 + OptTest(f1, l) + Jump(IChoice, 4 + |c1|) + c1;
    PatchJump(front, ICommit, c2, 2 + |c2|);
    assert v6 == v0 + (OptTest(f1, l) + Jump(IChoice, 4 + |c1|) + c1 + Jump(ICommit, 2 + |c2|) + c2);
  }

  lemma RepByTestBuilt(v0: Code, cs: Charset, c: Code, v2: Code, v3: Code, v4: Code)
    requires v2 == v0 + OptTest(First(cs, false), 0) + c + Jump(IJmp, 0)
    requires |v0| + 1 < |v2| && v3 == SetLabel(v2, |v0|, |v2| - |v0|)
    requires v4 == SetLabel(v3, |v2| - 2, |v0| - (|v2| - 2))
    ensures v4 == v0 + RepByTestCode(cs, c)
  {
    hide Test, SetLabel;
    var n := |Test(cs, 0)| + |c|;
    assert v2 == v0 + Test(cs, 0) + (c + Jump(IJmp, 0));
    PatchOptTest(v0, First(cs, false), c + Jump(IJmp, 0), n + 2);
    assert v3 == (v0 + Test(cs, n + 2) + c) + Jump(IJmp, 0);
    PatchLast(v0 + Test(cs, n + 2) + c, IJmp, -n);
    assert v4 == v0 + (Test(cs, n + 2) + c + Jump(IJmp, -n));
  }

  lemma RepBuilt(v0: Code, f: First, opt: bool, c: Code, v2: Code, v3: Code, v4: Code, v5: Code)
    requires v2 == v0 + OptTest(f, 0) + (if opt then Jump(IPartialCommit, 2)
                                         else Jump(IChoice, 0)) + c + Jump(IPartialCommit, 0)
    requires v3 == SetLabel(v2, |v2| - 2, -|c|)
    requires var choice := if opt then NOINST else |v0 + OptTest(f, 0)|; v4 == SetLabel(v3, choice, |v3| - choice)
    requires var test := if f.empty then NOINST else |v0|; v5 == SetLabel(v4, test, |v4| - test)
    ensures v5 == v0 + RepCode(f, opt, c)
  {
    hide Test, SetLabel;
    var head0, back := if opt then Jump(IPartialCommit, 2) else Jump(IChoice, 0), Jump(IPartialCommit, -|c|);
    var l := |OptTest(f, 0)| + 4 + |c|;
    PatchLast(v0 + OptTest(f, 0) + head0 + c, IPartialCommit, -|c|);
    assert v3 == (v0 + OptTest(f, 0)) + head0 + (c + back);
    if opt { SetNoLabel(v3, |v3| + 1); } else { PatchJump(v0 + OptTest(f, 0), IChoice, c + back, 4 + |c|); }
    var rest := RepHead(opt, c) + (c + back);
    assert v4 == v0 + OptTest(f, 0) + rest;
    PatchOptTest(v0, f, rest, if f.empty then |v4| + 1 else l);
    Regroup(OptTest(f, l), RepHead(opt, c), c, back);
  }

  lemma FullBuilt(v0: Code, kind: nat, key: int, n: nat, c: Code)
    ensures v0 + c + [Inst(IFullCapture, kind + 16 * n, key)] == v0 + FullCaptureCode(kind, key, n, c)
  {
  }

  lemma OpenBuilt(v0: Code, kind: nat, key: int, c: Code)
    ensures v0 + [Inst(IOpenCapture, kind, key)] + c + [Inst(ICloseCapture, CCLOSE, 0)] ==
            v0 + OpenCaptureCode(kind, key, c)
  {
  }

  lemma Regroup(a: Code, b: Code, c: Code, d: Code)
    ensures a + (b + (c + d)) == a + b + c + d
  {
  }

  lemma NotByTestBuilt(v0: Code, f: First, v2: Code, v3: Code)
    requires v2 == v0 + OptTest(f, 0) + I(IFail)
    requires var test := if f.empty then NOINST else |v0|; v3 == SetLabel(v2, test, |v2| - test)
    ensures v3 == v0 + NotByTestCode(f)
  {
    hide Test, SetLabel;
    var l := |OptTest(f, 0)| + 1;
    PatchOptTest(v0, f, I(IFail), if f.empty then |v2| + 1 else l);
    assert v3 == v0 + (OptTest(f, l) + I(IFail));
  }

  lemma NotBuilt(v0: Code, f: First, c: Code, v2: Code, v3: Code, v4: Code)
    requires v2 == v0 + OptTest(f, 0) + Jump(IChoice, 0) + c + I(IFailTwice)
    requires var choice := |v0 + OptTest(f, 0)|; v3 == SetLabel(v2, choice, |v2| - choice)
    requires var test := if f.empty then NOINST else |v0|; v4 == SetLabel(v3, test, |v3| - test)
    ensures v4 == v0 + NotCode(f, c)
  {
    hide Test, SetLabel;
    var l := |OptTest(f, 0)| + 3 + |c|;
    assert v2 == (v0 + OptTest(f, 0)) + Jump(IChoice, 0) + (c + I(IFailTwice));
    PatchJump(v0 + OptTest(f, 0), IChoice, c + I(IFailTwice), 3 + |c|);
    var rest := Jump(IChoice, 3 + |c|) + (c + I(IFailTwice));
    assert v3 == v0 + OptTest(f, 0) + rest;
    PatchOptTest(v0, f, rest, if f.empty then |v3| + 1 else l);
    assert v4 == v0 + (OptTest(f, l) + Jump(IChoice, 3 + |c|) + c + I(IFailTwice));
  }

  lemma AndBuilt(v0: Code, c: Code, v2: Code, v3: Code, v4: Code)
    requires v2 == v0 + Jump(IChoice, 0) + c + Jump(IBackCommit, 0)
    requires v3 == SetLabel(v2, |v0|, |v2| - |v0|) + I(IFail)
    requires v4 == SetLabel(v3, |v2| - 2, 3)
    ensures v4 == v0 + AndCode(c)
  {
    hide SetLabel;
    assert v2 == v0 + Jump(IChoice, 0) + (c + Jump(IBackCommit, 0));
    PatchJump(v0, IChoice, c + Jump(IBackCommit, 0), 4 + |c|);
    var front := v0 + Jump(IChoice, 4 + |c|) + c;
    assert v3 == front + Jump(IBackCommit, 0) + I(IFail);
    PatchJump(front, IBackCommit, I(IFail), 3);
    assert v4 == v0 + (Jump(IChoice, 4 + |c|) + c + Jump(IBackCommit, 3) + I(IFail));
  }

  // ---------------------------------------------------------------- grammars

  lemma {:induction false} FlattenSnoc(codes: seq<Code>, k: nat)
    requires k < |codes|
    ensures Flatten(codes[..k + 1]) == Flatten(codes[..k]) + codes[k]
    decreases k
  {
    if k > 0 {
      FlattenSnoc(codes[1..], k - 1);
      assert codes[..k + 1][1..] == codes[1..][..k] && codes[..k][1..] == codes[1..][..k - 1];
    }
  }

  lemma {:induction false} StartsFlatten(codes: seq<Code>, from: nat, n: nat)
    requires n < |codes|
    ensures |Starts(codes, from)| == |codes| && Starts(codes, from)[n] == from + |Flatten(codes[..n])|
    decreases |codes|
  {
    StartsLength(codes, from);
    if n > 0 {
      StartsFlatten(codes[1..], from + |codes[0]|, n - 1);
      assert codes[..n][1..] == codes[1..][..n - 1];
    }
  }

  lemma FlattenNone(v: Code, codes: seq<Code>)
    ensures v == v + Flatten(codes[..0])
  {
  }

  lemma FlattenOneMore(v: Code, codes: seq<Code>, k: nat, rules: Rules, d: nat)
    requires k < |rules| && codes == GenRules(rules, rules, d, true)
    ensures v + Flatten(codes[..k]) + Gen(rules, rules[k], false, None, FullSet(), d, true) + [Inst(IRet, 0, 0)] == v +
            Flatten(codes[..k + 1])
  {
    hide Gen, Flatten;
    FlattenSnoc(codes, k);
    AppendTwo(v, Flatten(codes[..k]), Gen(rules, rules[k], false, None, FullSet(), d, true), [Inst(IRet, 0, 0)]);
    assert codes[k] == GenRule(rules, rules[k], d, true);
  }

  lemma AppendTwo(v: Code, f: Code, g: Code, r: Code)
    ensures v + f + g + r == v + (f + (g + r))
  {
  }

  lemma GrammarBuilt(v: Code, codes: seq<Code>)
    ensures v + Jump(ICall, 4) + Jump(IJmp, 2 + |Flatten(codes)|) + Link(Flatten(codes), Starts(codes, 0), true) == v +
            GrammarCode(codes, true)
  {
    hide Flatten, Starts, Link;
  }

  lemma LinkableWalks(body: Code, rules: nat)
    requires Linkable(body, rules)
    ensures Walk(body, 0)
  {
  }

  /** A chain of jumps that ends inside the code is inside all the way. */
  lemma StaysInside(c: Code, x: int, n: nat)
    requires 0 <= Follow(c, x, n) < |c|
    ensures 0 <= x < |c|
  {
  }

  lemma NextInside(c: Code, x: int, n: nat)
    requires 0 <= Follow(c, x, n) < |c| && !JmpAt(c, Follow(c, x, n)) && JmpAt(c, x)
    ensures n > 0 && x + 1 < |c| && c[x + 1].Offset? && Follow(c, x + c[x + 1].off, n - 1) == Follow(c, x, n)
  {
  }

  // ---------------------------------------------------------------- first sets

  /** Trees that lptree.c builds, for which the analyses have come back within `d` nested calls. */
  ghost predicate Codable(g: Rules, p: Tree, d: nat) {
    WellFormed(g, p, d) && GenBack(g, p, d)
  }

  lemma CodableParts(g: Rules, p: Tree, d: nat)
    requires Codable(g, p, d)
    ensures p.TSeq? ==> Codable(g, p.first, d) && Codable(g, p.second, d)
    ensures p.TChoice? ==> Codable(g, p.left, d) && Codable(g, p.right, d)
    ensures p.TRep? ==> IsCharset(p.body) || Codable(g, p.body, d)
    ensures p.TNot? ==> Back(g, p.body, AskFirst, d) && (HeadFail(g, p.body, d) || Codable(g, p.body, d))
    ensures p.TAnd? || p.TBehind? || p.TCapture? ==> Codable(g, p.body, d)
    ensures p.TCapture? ==> p.kind < 16
    ensures p.TCall? ==> p.rule < |g|
    ensures p.TGrammar? ==> p.rules != [] && forall k :: 0 <= k < |p.rules| ==>
              Codable(p.rules, p.rules[k], d) && WellFormed(p.rules, p.rules[k], d)
  {
    hide WellFormed, FirstRun, HeadRun, LenRun, CapRun, HeadFail, FullSet;
    WellFormedParts(g, p, d);
    if p.TNot? { HeadRunIs(g, p.body, d, d); }
  }

  /** getfirst, which goes through look-behinds and from rule to rule without a bound.  `n` is a number of
      nested calls in which it comes back. */
  method ComputeFirst(g: Rules, p: Tree, follow: Charset, d: nat, ghost n: nat) returns (f: First)
    requires FirstRun(g, p, follow, n).Some? && n <= d
    ensures FirstRun(g, p, follow, n) == Some(f)
    decreases n, p
  {
    hide CheckRun, FullSet, CheckAux;
    match p {
      case TTrue => f := First(follow, true);
      case TFalse => f := First({}, false);
      case TChoice(p1, p2) =>
        var f1 := ComputeFirst(g, p1, follow, d, n);
        var f2 := ComputeFirst(g, p2, follow, d, n);
        f := First(f1.cs + f2.cs, f1.empty || f2.empty);
      case TSeq(p1, p2) =>
        CheckRunIs(g, p1, PENullable, n, d);
        if !Nullable(g, p1, d) {
          f := ComputeFirst(g, p1, FullSet(), d, n);
        } else {
          var f2 := ComputeFirst(g, p2, follow, d, n);
          var f1 := ComputeFirst(g, p1, f2.cs, d, n);
          f := First(f1.cs, f1.empty && f2.empty);
        }
      case TRep(q) =>
        f := ComputeFirst(g, q, follow, d, n);
        f := First(f.cs + follow, true);
      case TCapture(_, _, q) => f := ComputeFirst(g, q, follow, d, n);
      case TGrammar(rules) => f := ComputeFirst(rules, rules[0], follow, d, n - 1);
      case TCall(m) => f := ComputeFirst(g, g[m], follow, d, n - 1);
      case TAnd(q) =>
        f := ComputeFirst(g, q, follow, d, n);
        f := First(f.cs * follow, f.empty);
      case TNot(q) =>
        if IsCharset(q) {
          f := First(FullSet() - ToCharset(q), true);
        } else {
          var _ := ComputeFirst(g, q, follow, d, n);
          f := First(follow, true);
        }
      case TBehind(_, q) =>
        var _ := ComputeFirst(g, q, follow, d, n);
        f := First(follow, true);
      case _ => f := First(ToCharset(p), false);
    }
  }

  method FirstSet(g: Rules, p: Tree, d: nat) returns (f: First)
    requires Back(g, p, AskFirst, d)
    ensures f == FirstOf(g, p, d)
  {
    hide FirstRun, GetFirst, FullSet;
    FirstBackIs(g, p, FullSet(), d, d);
    f := ComputeFirst(g, p, FullSet(), d, d);
  }

  /** What codechoice asks: the second first set only if the first one does not settle it. */
  method DecideChoice(g: Rules, p: Tree, fl: Charset, d: nat) returns (f1: First, byTest: bool)
    requires p.TChoice? && Codable(g, p, d)
    ensures f1 == FirstOf(g, p.left, d) && byTest == ChoiceByTest(g, p.left, p.right, fl, d)
  {
    hide WellFormed, FirstRun, HeadRun, GetFirst, HeadFail, FullSet;
    var p1, p2 := p.left, p.right;
    f1 := FirstSet(g, p1, d);
    FirstBackIs(g, p1, FullSet(), d, d);
    HeadRunIs(g, p1, d, d);
    byTest := HeadFail(g, p1, d);
    if !byTest && !f1.empty {
      FirstBackIs(g, p2, fl, d, d);
      var f2 := ComputeFirst(g, p2, fl, d, d);
      byTest := Disjoint(f1.cs, f2.cs);
    }
  }

  method DecideRep(g: Rules, p: Tree, fl: Charset, d: nat) returns (f: First, byTest: bool)
    requires p.TRep? && !IsCharset(p.body) && Codable(g, p, d)
    ensures f == FirstOf(g, p.body, d) && byTest == RepByTest(g, p.body, fl, d)
  {
    hide WellFormed, FirstRun, HeadRun, GetFirst, HeadFail, FullSet;
    f := FirstSet(g, p.body, d);
    byTest := HeadFail(g, p.body, d) || (!f.empty && Disjoint(f.cs, fl));
  }

  /** The follow set of the first part of a sequence, if it needs one. */
  method FollowFor(g: Rules, p: Tree, fl: Charset, d: nat) returns (fl1: Charset)
    requires p.TSeq? && Codable(g, p, d)
    ensures fl1 == SeqFollow(g, p.first, p.second, fl, d)
  {
    hide WellFormed, FirstRun, LenRun, GetFirst, FullSet;
    fl1 := FullSet();
    if NeedFollow(p.first) {
      FirstBackIs(g, p.second, fl, d, d);
      var f := ComputeFirst(g, p.second, fl, d, d);
      fl1 := f.cs;
    }
  }

  class CompileState {
    var code: array<Slot>
    var ncode: nat

    ghost predicate Valid()
      reads this
    {
      1 <= code.Length && ncode <= code.Length
    }

    ghost function View(): (v: Code)
      reads this, code
      requires Valid()
      ensures |v| == ncode
    {
      code[..ncode]
    }

    constructor ()
      ensures Valid() && fresh(code) && View() == []
    {
      code := new Slot[2];
      ncode := 0;
    }

    method ReallocCode(nsize: nat)
      requires Valid() && 1 <= nsize && ncode <= nsize
      modifies this
      ensures Valid() && fresh(code) && code.Length == nsize && View() == old(View())
    {
      var block := new Slot[nsize];
      var i := 0;
      while i < ncode
        invariant 0 <= i <= ncode == old(ncode) && code == old(code) && code[..] == old(code[..])
        invariant block[..i] == code[..i]
      {
        block[i] := code[i];
        i := i + 1;
      }
      code := block;
    }

    method NextInstruction() returns (i: nat)
      requires Valid()
      modifies this
      ensures Valid() && (code == old(code) || fresh(code))
      ensures i == old(ncode) && ncode == i + 1 && code[..i] == old(View())
    {
      if ncode >= code.Length { ReallocCode(code.Length * 2); }
      i := ncode;
      ncode := ncode + 1;
    }

    method AddSlot(slot: Slot) returns (i: nat)
      requires Valid()
      modifies this, code
      ensures Valid() && (code == old(code) || fresh(code))
      ensures i == old(ncode) && View() == old(View()) + [slot]
    {
      i := NextInstruction();
      code[i] := slot;
    }

    method AddInstruction(op: Opcode, aux: int) returns (i: nat)
      requires Valid()
      modifies this, code
      ensures Valid() && (code == old(code) || fresh(code))
      ensures i == old(ncode) && View() == old(View()) + [Inst(op, aux, 0)]
    {
      i := AddSlot(Inst(op, aux, 0));
    }

    /** An instruction and room for its label, which is still to be set. */
    method AddOffsetInst(op: Opcode) returns (i: nat)
      requires Valid()
      modifies this, code
      ensures Valid() && (code == old(code) || fresh(code))
      ensures i == old(ncode) && ncode == i + 2 && View() == old(View()) + Jump(op, 0)
    {
      i := AddInstruction(op, 0);
      var _ := AddSlot(Offset(0));
    }

    method AddInstCap(op: Opcode, cap: nat, key: int, aux: nat) returns (i: nat)
      requires Valid()
      modifies this, code
      ensures Valid() && (code == old(code) || fresh(code))
      ensures i == old(ncode) && View() == old(View()) + [Inst(op, cap + 16 * aux, key)]
    {
      i := AddSlot(Inst(op, cap + 16 * aux, key));
    }

    method AddCharset(cs: Charset)
      requires Valid()
      modifies this, code
      ensures Valid() && (code == old(code) || fresh(code))
      ensures View() == old(View()) + Buffer(cs)
    {
      var p := AddSlot(Buff(cs));
      var i := 1;
      while i < CHARSETINSTSIZE - 1
        invariant 1 <= i <= CHARSETINSTSIZE - 1
        invariant Valid() && (code == old(code) || fresh(code))
        invariant View() == old(View()) + Buffer(cs)[..i]
      {
        var _ := AddSlot(Pad);
        i := i + 1;
      }
    }

    method SetOffset(i: nat, off: int)
      requires Valid() && i + 1 < ncode
      modifies code
      ensures Valid() && View() == SetLabel(old(View()), i, off)
    {
      code[i + 1] := Offset(off);
    }

    method JumpToThere(i: int, target: int)
      requires Valid() && i + 1 < ncode && i >= NOINST
      modifies code
      ensures Valid() && View() == SetLabel(old(View()), i, target - i)
    {
      if i >= 0 { SetOffset(i, target - i); }
    }

    method JumpToHere(i: int)
      requires Valid() && i + 1 < ncode && i >= NOINST
      modifies code
      ensures Valid() && View() == SetLabel(old(View()), i, ncode - i)
    {
      JumpToThere(i, ncode);
    }

    /** An instruction and the charset that it needs. */
    method AddSetInst(op: Opcode, cs: Charset)
      requires Valid()
      modifies this, code
      ensures Valid() && (code == old(code) || fresh(code))
      ensures View() == old(View()) + (I(op) + Buffer(cs))
    {
      hide Buffer;
      var _ := AddInstruction(op, 0);
      AddCharset(cs);
    }

    method CodeChar(c: Byte, tt: int, ghost dom: Dominating)
      requires Valid() && Tests(View(), tt, dom)
      modifies this, code
      ensures Valid() && (code == old(code) || fresh(code))
      ensures View() == old(View()) + GenChar(c, dom)
    {
      TestsChar(View(), tt, dom, c);
      if tt >= 0 && code[tt].Inst? && code[tt].op == ITestChar && code[tt].aux == c {
        var _ := AddInstruction(IAny, 0);
      } else {
        var _ := AddInstruction(IChar, c);
      }
    }

    method CharsetType(cs: Charset) returns (t: CharsetType)
      ensures t == TypeOf(cs)
    {
      BitsRoundTrip(cs);
      t := CharsetTypeOf(BitsOf(cs));
    }

    method CodeCharset(cs: Charset, tt: int, ghost dom: Dominating)
      requires Valid() && Tests(View(), tt, dom)
      modifies this, code
      ensures Valid() && (code == old(code) || fresh(code))
      ensures View() == old(View()) + GenCharset(cs, dom)
    {
      hide TypeOf, Buffer, GenChar, Tests, Test;
      var t := CharsetType(cs);
      match t {
        case CsFail => var _ := AddInstruction(IFail, 0);
        case CsAny => var _ := AddInstruction(IAny, 0);
        case CsChar(c) => CodeChar(c, tt, dom);
        case CsSet =>
          TestsSet(View(), tt, dom, cs);
          if tt >= 0 && code[tt].Inst? && code[tt].op == ITestSet && code[tt + 2] == Buff(cs) {
            var _ := AddInstruction(IAny, 0);
          } else {
            AddSetInst(ISet, cs);
          }
      }
    }

    /** A test for `cs` whose label is still to be set, unless the empty string must pass. */
    method CodeTestSet(cs: Charset, e: bool) returns (test: int)
      requires Valid()
      modifies this, code
      ensures Valid() && (code == old(code) || fresh(code))
      ensures if e then test == NOINST else test == old(ncode) && test + 2 <= ncode
      ensures View() == old(View()) + OptTest(First(cs, e), 0)
    {
      hide TypeOf, Buffer;
      if e { return NOINST; }
      var t := CharsetType(cs);
      match t {
        case CsFail => test := AddOffsetInst(IJmp);
        case CsAny => test := AddOffsetInst(ITestAny);
        case CsChar(c) =>
          test := AddOffsetInst(ITestChar);
          code[test] := Inst(ITestChar, c, 0);
        case CsSet =>
          test := AddOffsetInst(ITestSet);
          AddCharset(cs);
      }
    }

    method CodeChoiceByTest(g: Rules, p: Tree, cs: Charset, opt: bool, fl: Charset, d: nat, ghost dom: Dominating)
      requires Valid() && p.TChoice? && Codable(g, p, d) && ChoiceByTest(g, p.left, p.right, fl, d)
      requires cs == FirstOf(g, p.left, d).cs
      modifies this, code
      ensures Valid() && (code == old(code) || fresh(code))
      ensures View() == old(View()) + Gen(g, p, opt, dom, fl, d, true)
      decreases p, 0
    {
      hide Gen, Codable, Tests, Test, OptTest, ChoiceByTest, FirstOf, ChoiceByTestCode, ChoiceCode, FullSet,
        SetLabel, View, Jump, Protecting, Valid;
      CodableParts(g, p, d);
      var p1, p2 := p.left, p.right;
      var emptyp2 := p2.TTrue?;
      ghost var c1, c2 := Gen(g, p1, false, Some(cs), fl, d, true), Gen(g, p2, opt, None, fl, d, true);
      ghost var v0 := View();
      var test := CodeTestSet(cs, false);
      TestsFresh(v0, cs);
      Codegen(g, p1, false, test, fl, d, Some(cs));
      var jmp := NOINST;
      if !emptyp2 { jmp := AddOffsetInst(IJmp); }
      ghost var v3 := View();
      JumpToHere(test);
      ghost var v4 := View();
      TestsNone(v4);
      Codegen(g, p2, opt, NOINST, fl, d, None);
      ghost var v5 := View();
      JumpToHere(jmp);
      GenChoiceByTest(g, p1, p2, opt, dom, fl, d, true);
      ChoiceByTestBuilt(v0, cs, c1, emptyp2, c2, v3, v4, v5, View());
    }

    method CodeChoiceReusing(g: Rules, p: Tree, fl: Charset, d: nat, ghost dom: Dominating)
      requires Valid() && p.TChoice? && Codable(g, p, d) && !ChoiceByTest(g, p.left, p.right, fl, d) &&
               p.right.TTrue?
      modifies this, code
      ensures Valid() && (code == old(code) || fresh(code))
      ensures View() == old(View()) + Gen(g, p, true, dom, fl, d, true)
      decreases p, 0
    {
      hide Gen, Codable, Tests, Test, OptTest, ChoiceByTest, FirstOf, ChoiceByTestCode, ChoiceCode, FullSet,
        SetLabel, View, Jump, Protecting, Valid;
      CodableParts(g, p, d);
      ghost var c1, v0 := Gen(g, p.left, true, None, FullSet(), d, true), View();
      var commit := AddOffsetInst(IPartialCommit);
      PatchLast(v0, IPartialCommit, 2);
      JumpToHere(commit);
      TestsNone(View());
      Codegen(g, p.left, true, NOINST, FullSet(), d, None);
      GenOptionReuse(g, p.left, dom, fl, d, true);
      assert v0 + Jump(IPartialCommit, 2) + c1 == v0 + (Jump(IPartialCommit, 2) + c1);
    }

    /** A choice up to its commit, the label of which is still to be set. */
    method CodeFirstAlternative(g: Rules, p: Tree, p1: Tree, f1: First, opt1: bool, d: nat) returns (pcommit: nat)
      requires Valid() && p.TChoice? && p1 == p.left && Codable(g, p1, d)
      modifies this, code
      ensures Valid() && (code == old(code) || fresh(code)) && pcommit + 2 == ncode
      ensures var c1 := Gen(g, p1, opt1, Protecting(f1), FullSet(), d, true);
              View() == old(View()) + OptTest(f1, |OptTest(f1, 0)| + 4 + |c1|) + Jump(IChoice, 4 + |c1|) + c1 +
                  Jump(ICommit, 0)
      decreases p, 0
    {
      hide Gen, Codable, Tests, Test, OptTest, ChoiceByTest, FirstOf, ChoiceByTestCode, ChoiceCode, FullSet,
        SetLabel, View, Jump, Protecting, Valid;
      ghost var v0, c1 := View(), Gen(g, p1, opt1, Protecting(f1), FullSet(), d, true);
      var test := CodeTestSet(f1.cs, f1.empty);
      var pchoice := AddOffsetInst(IChoice);
      TestsFront(v0, f1, Jump(IChoice, 0));
      Codegen(g, p1, opt1, test, FullSet(), d, Protecting(f1));
      pcommit := AddOffsetInst(ICommit);
      ghost var v2 := View();
      JumpToHere(pchoice);
      ghost var v3 := View();
      JumpToHere(test);
      FirstAlternativeBuilt(v0, f1, c1, v2, v3, View());
    }

    method CodeChoiceKeeping(g: Rules, p: Tree, f1: First, opt: bool, fl: Charset, d: nat, ghost dom: Dominating)
      requires Valid() && p.TChoice? && Codable(g, p, d) && !ChoiceByTest(g, p.left, p.right, fl, d) &&
               !(opt && p.right.TTrue?)
      requires f1 == FirstOf(g, p.left, d)
      modifies this, code
      ensures Valid() && (code == old(code) || fresh(code))
      ensures View() == old(View()) + Gen(g, p, opt, dom, fl, d, true)
      decreases p, 1
    {
      hide Gen, Codable, Tests, Test, OptTest, ChoiceByTest, FirstOf, ChoiceByTestCode, ChoiceCode, FullSet,
        SetLabel, View, Jump, Protecting, Valid;
      CodableParts(g, p, d);
      var p1, p2 := p.left, p.right;
      ghost var v0, c1, c2 := View(), Gen(g, p1, p2.TTrue?, Protecting(f1), FullSet(), d, true),
          Gen(g, p2, opt, None, fl, d, true);
      var pcommit := CodeFirstAlternative(g, p, p1, f1, p2.TTrue?, d);
      TestsNone(View());
      Codegen(g, p2, opt, NOINST, fl, d, None);
      ghost var v5 := View();
      JumpToHere(pcommit);
      GenChoice(g, p1, p2, opt, dom, fl, d, true);
      ChoiceBuilt(v0, f1, c1, c2, v5, View());
    }

    method CodeChoice(g: Rules, p: Tree, opt: bool, fl: Charset, d: nat, ghost dom: Dominating)
      requires Valid() && p.TChoice? && Codable(g, p, d)
      modifies this, code
      ensures Valid() && (code == old(code) || fresh(code))
      ensures View() == old(View()) + Gen(g, p, opt, dom, fl, d, true)
      decreases p, 2
    {
      hide Gen, Codable, ChoiceByTest, FirstOf, View;
      var f1, byTest := DecideChoice(g, p, fl, d);
      if byTest {
        CodeChoiceByTest(g, p, f1.cs, opt, fl, d, dom);
      } else if opt && p.right.TTrue? {
        CodeChoiceReusing(g, p, fl, d, dom);
      } else {
        CodeChoiceKeeping(g, p, f1, opt, fl, d, dom);
      }
    }

    method CodeRepByTest(g: Rules, p: Tree, cs: Charset, opt: bool, fl: Charset, d: nat, ghost dom: Dominating)
      requires Valid() && p.TRep? && Codable(g, p, d) && !IsCharset(p.body) && RepByTest(g, p.body, fl, d)
      requires cs == FirstOf(g, p.body, d).cs
      modifies this, code
      ensures Valid() && (code == old(code) || fresh(code))
      ensures View() == old(View()) + Gen(g, p, opt, dom, fl, d, true)
      decreases p, 0
    {
      hide Gen, Codable, Tests, Test, OptTest, RepByTest, FirstOf, RepByTestCode, RepCode, FullSet, SetLabel, View,
        Jump, Valid;
      CodableParts(g, p, d);
      var q := p.body;
      ghost var v0, c := View(), Gen(g, q, false, Some(cs), FullSet(), d, true);
      var test := CodeTestSet(cs, false);
      TestsFresh(v0, cs);
      Codegen(g, q, false, test, FullSet(), d, Some(cs));
      var jmp := AddOffsetInst(IJmp);
      ghost var v2 := View();
      JumpToHere(test);
      ghost var v3 := View();
      JumpToThere(jmp, test);
      GenRepByTest(g, q, opt, dom, fl, d, true);
      RepByTestBuilt(v0, cs, c, v2, v3, View());
    }

    /** Moves the choice that is already there or makes a new one, whose label is still to be set. */
    method CodeRepHead(opt: bool) returns (pchoice: int)
      requires Valid()
      modifies this, code
      ensures Valid() && (code == old(code) || fresh(code)) && ncode == old(ncode) + 2
      ensures pchoice == if opt then NOINST else old(ncode)
      ensures View() == old(View()) + if opt then Jump(IPartialCommit, 2) else Jump(IChoice, 0)
    {
      hide SetLabel, View, Jump;
      pchoice := NOINST;
      if opt {
        PatchLast(View(), IPartialCommit, 2);
        var again := AddOffsetInst(IPartialCommit);
        JumpToHere(again);
      } else {
        pchoice := AddOffsetInst(IChoice);
      }
    }

    method CodeRepKeeping(g: Rules, p: Tree, f: First, opt: bool, fl: Charset, d: nat, ghost dom: Dominating)
      requires Valid() && p.TRep? && Codable(g, p, d) && !IsCharset(p.body) && !RepByTest(g, p.body, fl, d)
      requires f == FirstOf(g, p.body, d)
      modifies this, code
      ensures Valid() && (code == old(code) || fresh(code))
      ensures View() == old(View()) + Gen(g, p, opt, dom, fl, d, true)
      decreases p, 0
    {
      hide Gen, Codable, Tests, Test, OptTest, RepByTest, FirstOf, RepByTestCode, RepCode, FullSet, SetLabel, View,
        Jump, Valid;
      CodableParts(g, p, d);
      var q := p.body;
      ghost var v0, c := View(), Gen(g, q, false, None, FullSet(), d, true);
      var test := CodeTestSet(f.cs, f.empty);
      var pchoice := CodeRepHead(opt);
      var l2 := ncode;
      TestsNone(View());
      Codegen(g, q, false, NOINST, FullSet(), d, None);
      var commit := AddOffsetInst(IPartialCommit);
      ghost var v2 := View();
      JumpToThere(commit, l2);
      ghost var v3 := View();
      JumpToHere(pchoice);
      ghost var v4 := View();
      JumpToHere(test);
      GenRep(g, q, opt, dom, fl, d, true);
      RepBuilt(v0, f, opt, c, v2, v3, v4, View());
    }

    method CodeRep(g: Rules, p: Tree, opt: bool, fl: Charset, d: nat, ghost dom: Dominating)
      requires Valid() && p.TRep? && Codable(g, p, d)
      modifies this, code
      ensures Valid() && (code == old(code) || fresh(code))
      ensures View() == old(View()) + Gen(g, p, opt, dom, fl, d, true)
      decreases p, 1
    {
      hide Gen, Codable, RepByTest, FirstOf, View, Buffer;
      if IsCharset(p.body) {
        GenLeaf(g, p, opt, dom, fl, d, true);
        AddSetInst(ISpan, ToCharset(p.body));
      } else {
        var f, byTest := DecideRep(g, p, fl, d);
        if byTest { CodeRepByTest(g, p, f.cs, opt, fl, d, dom); } else { CodeRepKeeping(g, p, f, opt, fl, d, dom); }
      }
    }

    method CodeNot(g: Rules, p: Tree, opt: bool, fl: Charset, d: nat, ghost dom: Dominating)
      requires Valid() && p.TNot? && Codable(g, p, d)
      modifies this, code
      ensures Valid() && (code == old(code) || fresh(code))
      ensures View() == old(View()) + Gen(g, p, opt, dom, fl, d, true)
      decreases p, 0
    {
      hide Gen, Codable, Tests, Test, OptTest, HeadFail, FirstOf, NotByTestCode, NotCode, FullSet, SetLabel, View,
        Jump, Valid;
      CodableParts(g, p, d);
      var q := p.body;
      var f := FirstSet(g, q, d);
      ghost var v0, c := View(), Gen(g, q, false, None, FullSet(), d, true);
      GenNot(g, q, opt, dom, fl, d, true);
      var test := CodeTestSet(f.cs, f.empty);
      if HeadFail(g, q, d) {
        var _ := AddInstruction(IFail, 0);
        ghost var v2 := View();
        JumpToHere(test);
        NotByTestBuilt(v0, f, v2, View());
      } else {
        var pchoice := AddOffsetInst(IChoice);
        TestsNone(View());
        Codegen(g, q, false, NOINST, FullSet(), d, None);
        var _ := AddInstruction(IFailTwice, 0);
        ghost var v2 := View();
        JumpToHere(pchoice);
        ghost var v3 := View();
        JumpToHere(test);
        NotBuilt(v0, f, c, v2, v3, View());
      }
    }

    method CodeAnd(g: Rules, p: Tree, opt: bool, tt: int, fl: Charset, d: nat, ghost dom: Dominating)
      requires Valid() && Tests(View(), tt, dom) && p.TAnd? && Codable(g, p, d)
      modifies this, code
      ensures Valid() && (code == old(code) || fresh(code))
      ensures View() == old(View()) + Gen(g, p, opt, dom, fl, d, true)
      decreases p, 0
    {
      hide Gen, Codable, Tests, AndByLength, FixedLen, AndCode, GoBack, FullSet, SetLabel, View, Jump, Valid;
      CodableParts(g, p, d);
      var q, n := p.body, FixedLen(g, p.body, d);
      ghost var v0, c := View(), Gen(g, q, false, dom, FullSet(), d, true);
      GenAnd(g, q, opt, dom, fl, d, true);
      if AndByLength(g, q, d) {
        Codegen(g, q, false, tt, FullSet(), d, dom);
        CodeGoBack(n);
        assert v0 + c + GoBack(n) == v0 + (c + GoBack(n));
      } else {
        var pchoice := AddOffsetInst(IChoice);
        TestsGrow(v0, Jump(IChoice, 0), tt, dom);
        Codegen(g, q, false, tt, FullSet(), d, dom);
        var pcommit := AddOffsetInst(IBackCommit);
        ghost var v2 := View();
        JumpToHere(pchoice);
        var _ := AddInstruction(IFail, 0);
        ghost var v3 := View();
        JumpToHere(pcommit);
        AndBuilt(v0, c, v2, v3, View());
      }
    }

    method CodeGoBack(n: int)
      requires Valid()
      modifies this, code
      ensures Valid() && (code == old(code) || fresh(code))
      ensures View() == old(View()) + GoBack(n)
    {
      if n > 0 { var _ := AddInstruction(IBehind, n); }
    }

    method CodeBehind(g: Rules, p: Tree, opt: bool, fl: Charset, d: nat, ghost dom: Dominating)
      requires Valid() && p.TBehind? && Codable(g, p, d)
      modifies this, code
      ensures Valid() && (code == old(code) || fresh(code))
      ensures View() == old(View()) + Gen(g, p, opt, dom, fl, d, true)
      decreases p, 0
    {
      hide Gen, Codable, Tests, GoBack, FullSet, View;
      CodableParts(g, p, d);
      GenLeaf(g, p, opt, dom, fl, d, true);
      ghost var v0, c := View(), Gen(g, p.body, false, None, FullSet(), d, true);
      CodeGoBack(p.n);
      TestsNone(View());
      Codegen(g, p.body, false, NOINST, FullSet(), d, None);
      assert v0 + GoBack(p.n) + c == v0 + (GoBack(p.n) + c);
    }

    method CodeSeq(g: Rules, p: Tree, opt: bool, tt: int, fl: Charset, d: nat, ghost dom: Dominating)
      requires Valid() && Tests(View(), tt, dom) && p.TSeq? && Codable(g, p, d)
      modifies this, code
      ensures Valid() && (code == old(code) || fresh(code))
      ensures View() == old(View()) + Gen(g, p, opt, dom, fl, d, true)
      decreases p, 0
    {
      hide Gen, Codable, Tests, FixedLen, FullSet, View, SeqFollow;
      CodableParts(g, p, d);
      var p1, p2 := p.first, p.second;
      GenSeq(g, p1, p2, opt, dom, fl, d, true);
      ghost var v0, dom2 := View(), SeqProtecting(g, p1, dom, d);
      var fl1 := FollowFor(g, p, fl, d);
      ghost var c1, c2 := Gen(g, p1, false, dom, fl1, d, true), Gen(g, p2, opt, dom2, fl, d, true);
      Codegen(g, p1, false, tt, fl1, d, dom);
      TestsGrow(v0, c1, tt, dom);
      TestsNone(View());
      Codegen(g, p2, opt, if FixedLen(g, p1, d) != 0 then NOINST else tt, fl, d, dom2);
      assert v0 + c1 + c2 == v0 + (c1 + c2);
    }

    method CodeCapture(g: Rules, p: Tree, opt: bool, tt: int, fl: Charset, d: nat, ghost dom: Dominating)
      requires Valid() && Tests(View(), tt, dom) && p.TCapture? && Codable(g, p, d)
      modifies this, code
      ensures Valid() && (code == old(code) || fresh(code))
      ensures View() == old(View()) + Gen(g, p, opt, dom, fl, d, true)
      decreases p, 0
    {
      hide Gen, Codable, Tests, FixedLen, HasCaptures, View, FullCaptureCode, OpenCaptureCode;
      CodableParts(g, p, d);
      var q, n := p.body, FixedLen(g, p.body, d);
      ghost var v0, c := View(), Gen(g, q, false, dom, fl, d, true);
      GenCapture(g, p.kind, p.key, q, opt, dom, fl, d, true);
      if CaptureByLength(g, q, d) {
        Codegen(g, q, false, tt, fl, d, dom);
        var _ := AddInstCap(IFullCapture, p.kind, p.key, n);
        FullBuilt(v0, p.kind, p.key, n, c);
      } else {
        var _ := AddInstCap(IOpenCapture, p.kind, p.key, 0);
        TestsGrow(v0, [Inst(IOpenCapture, p.kind, p.key)], tt, dom);
        Codegen(g, q, false, tt, fl, d, dom);
        var _ := AddInstCap(ICloseCapture, CCLOSE, 0, 0);
        OpenBuilt(v0, p.kind, p.key, c);
      }
    }

    /** A call, to be closed when the rules of the grammar have been generated. */
    method CodeCall(n: nat)
      requires Valid()
      modifies this, code
      ensures Valid() && (code == old(code) || fresh(code))
      ensures View() == old(View()) + [Inst(IOpenCall, 0, n), Open(n)]
    {
      var c := AddOffsetInst(IOpenCall);
      code[c] := Inst(IOpenCall, 0, n);
      code[c + 1] := Open(n);
    }

    /** Follows the jumps from `i`, `n` of them at most. */
    method FindFinalTarget(i: int, ghost n: nat) returns (t: nat)
      requires Valid() && 0 <= Follow(View(), i, n) < ncode && !JmpAt(View(), Follow(View(), i, n))
      ensures t == Follow(View(), i, n)
    {
      var at := i;
      ghost var k, view := n, View();
      StaysInside(view, i, n);
      while code[at].Inst? && code[at].op == IJmp
        invariant 0 <= at < ncode && view == View() && Follow(view, at, k) == Follow(view, i, n)
        decreases k
      {
        NextInside(view, at, k);
        at := at + code[at + 1].off;
        k := k - 1;
        StaysInside(view, at, k);
      }
      t := at;
    }

    method CorrectCalls(positions: seq<nat>, from: nat, to: nat, ghost pre: Code, ghost body: Code,
                        ghost starts: seq<nat>)
      requires Valid() && View() == pre + body && from == |pre| && to == ncode
      requires Linkable(body, |positions|) && |starts| == |positions|
      requires forall n :: 0 <= n < |positions| ==> positions[n] == from + starts[n]
      modifies code
      ensures Valid() && View() == pre + Link(body, starts, true)
    {
      hide Linkable, Link, PartLink, TailCall, View, LinkSlot, Walk;
      PartLinkEnds(body, starts);
      LinkableWalks(body, |positions|);
      var i := from;
      while i < to
        invariant from <= i <= to && Valid() && Walk(body, i - from) && View() == pre + PartLink(body, starts, i - from)
      {
        i := CorrectCall(i, positions, pre, body, starts);
      }
    }

    /** Closes the call at `i`, if there is one, and goes to the next instruction. */
    method CorrectCall(i: nat, positions: seq<nat>, ghost pre: Code, ghost body: Code, ghost starts: seq<nat>)
        returns (next: nat)
      requires Valid() && |pre| <= i < |pre| + |body| == ncode && Walk(body, i - |pre|) &&
               View() == pre + PartLink(body, starts, i - |pre|)
      requires Linkable(body, |positions|) && |starts| == |positions|
      requires forall n :: 0 <= n < |positions| ==> positions[n] == |pre| + starts[n]
      modifies code
      ensures Valid() && i < next <= ncode && Walk(body, next - |pre|) &&
              View() == pre + PartLink(body, starts, next - |pre|)
    {
      hide Linkable, Link, PartLink, TailCall, LinkSlot;
      ghost var k := i - |pre|;
      if OpAt(body, k, IOpenCall) {
        PartLinkCall(pre, body, starts, |positions|, k);
      } else {
        PartLinkOther(body, starts, |positions|, k);
        assert View()[i] == PartLink(body, starts, k)[k];
      }
      if code[i].op == IOpenCall {
        CloseCall(i, positions, pre, body, starts);
        next := i + 2;
      } else {
        next := i + Size(code[i].op);
      }
    }

    method CloseCall(i: nat, positions: seq<nat>, ghost pre: Code, ghost body: Code, ghost starts: seq<nat>)
      requires Valid() && |pre| <= i < |pre| + |body| == ncode && OpAt(body, i - |pre|, IOpenCall)
      requires View() == pre + PartLink(body, starts, i - |pre|)
      requires Linkable(body, |positions|) && |starts| == |positions|
      requires forall n :: 0 <= n < |positions| ==> positions[n] == |pre| + starts[n]
      modifies code
      ensures Valid() && View() == pre + PartLink(body, starts, i - |pre| + 2)
    {
      hide Linkable, Link, PartLink, TailCall, LinkSlot, Walk;
      PartLinkCall(pre, body, starts, |positions|, i - |pre|);
      assert View()[i] == body[i - |pre|];
      var slot := code[i];
      var rule := positions[slot.key];
      ghost var n := TailCallSeen(pre, body, starts, |positions|, i - |pre|);
      var ft := FindFinalTarget(i + 2, n);
      if code[ft].Inst? && code[ft].op == IRet {
        code[i] := Inst(IJmp, slot.aux, slot.key);
      } else {
        code[i] := Inst(ICall, slot.aux, slot.key);
      }
      JumpToThere(i, rule);
    }

    method CodeGrammar(g: Rules, p: Tree, opt: bool, fl: Charset, d: nat, ghost dom: Dominating)
      requires Valid() && p.TGrammar? && Codable(g, p, d)
      modifies this, code
      ensures Valid() && (code == old(code) || fresh(code))
      ensures View() == old(View()) + Gen(g, p, opt, dom, fl, d, true)
      decreases p, 1
    {
      hide Gen, GenRules, Codable, Link, View, Linkable, SetLabel, Flatten, Starts, Jump, Valid, GrammarCode;
      CodableParts(g, p, d);
      var rules := p.rules;
      ghost var v0, codes := View(), GenRules(rules, rules, d, true);
      var firstcall := AddOffsetInst(ICall);
      var jumptoend := AddOffsetInst(IJmp);
      var start := ncode;
      PatchJump(v0, ICall, Jump(IJmp, 0), 4);
      JumpToHere(firstcall);
      ghost var v1 := View();
      var positions := CodeRules(p, rules, d);
      JumpToHere(jumptoend);
      PatchJump(v0 + Jump(ICall, 4), IJmp, Flatten(codes), 2 + |Flatten(codes)|);
      BodyLinkable(rules, d);
      CorrectCalls(positions, start, ncode, v0 + Jump(ICall, 4) + Jump(IJmp, 2 + |Flatten(codes)|), Flatten(codes),
                   Starts(codes, 0));
      GenLeaf(g, p, opt, dom, fl, d, true);
      GrammarBuilt(v0, codes);
    }

    /** The rules of a grammar one after the other, and where each of them starts. */
    method CodeRules(p: Tree, rules: Rules, d: nat) returns (positions: seq<nat>)
      requires Valid() && p == TGrammar(rules) && forall k :: 0 <= k < |rules| ==> Codable(rules, rules[k], d)
      modifies this, code
      ensures Valid() && (code == old(code) || fresh(code))
      ensures var codes := GenRules(rules, rules, d, true);
              && View() == old(View()) + Flatten(codes)
              && |positions| == |rules| == |Starts(codes, 0)|
              && forall n :: 0 <= n < |positions| ==> positions[n] == old(ncode) + Starts(codes, 0)[n]
      decreases p, 0
    {
      hide Gen, Codable, View, Flatten, Starts, GenRule;
      ghost var v0, codes := View(), GenRules(rules, rules, d, true);
      positions := [];
      var k := 0;
      FlattenNone(v0, codes);
      while k < |rules|
        invariant 0 <= k <= |rules| && Valid() && (code == old(code) || fresh(code))
        invariant View() == v0 + Flatten(codes[..k])
        invariant |positions| == k && forall n :: 0 <= n < k ==> positions[n] == |v0| + |Flatten(codes[..n])|
      {
        positions := positions + [ncode];
        TestsNone(View());
        Codegen(rules, rules[k], false, NOINST, FullSet(), d, None);
        var _ := AddInstruction(IRet, 0);
        FlattenOneMore(v0, codes, k, rules, d);
        k := k + 1;
      }
      assert codes[..k] == codes;
      forall n | 0 <= n < |codes| ensures |Starts(codes, 0)| == |codes| &&
          Starts(codes, 0)[n] == |Flatten(codes[..n])| {
        StartsFlatten(codes, 0, n);
      }
      StartsLength(codes, 0);
    }

    /** Generates the code of a tree.  `tt` is the position of the test that protects it, if any. */
    method Codegen(g: Rules, p: Tree, opt: bool, tt: int, fl: Charset, d: nat, ghost dom: Dominating)
      requires Valid() && Tests(View(), tt, dom) && Codable(g, p, d)
      modifies this, code
      ensures Valid() && (code == old(code) || fresh(code))
      ensures View() == old(View()) + Gen(g, p, opt, dom, fl, d, true)
      decreases p, 3
    {
      hide Gen, Codable, Tests, FullSet, View, GenChar, GenCharset, GoBack;
      CodableParts(g, p, d);
      match p {
        case TChar(c) => GenLeaf(g, p, opt, dom, fl, d, true); CodeChar(c, tt, dom);
        case TAny => GenLeaf(g, p, opt, dom, fl, d, true); var _ := AddInstruction(IAny, 0);
        case TSet(cs) => GenLeaf(g, p, opt, dom, fl, d, true); CodeCharset(cs, tt, dom);
        case TTrue => GenLeaf(g, p, opt, dom, fl, d, true); assert View() + [] == View();
        case TFalse => GenLeaf(g, p, opt, dom, fl, d, true); var _ := AddInstruction(IFail, 0);
        case TChoice(_, _) => CodeChoice(g, p, opt, fl, d, dom);
        case TRep(_) => CodeRep(g, p, opt, fl, d, dom);
        case TBehind(n, q) => CodeBehind(g, p, opt, fl, d, dom);
        case TNot(_) => CodeNot(g, p, opt, fl, d, dom);
        case TAnd(_) => CodeAnd(g, p, opt, tt, fl, d, dom);
        case TCapture(_, _, _) => CodeCapture(g, p, opt, tt, fl, d, dom);
        case TGrammar(_) => CodeGrammar(g, p, opt, fl, d, dom);
        case TCall(n) => GenLeaf(g, p, opt, dom, fl, d, true); CodeCall(n);
        case TSeq(_, _) => CodeSeq(g, p, opt, tt, fl, d, dom);
      }
    }

    /** The label of the instruction at `i` goes to where its chain of jumps ends. */
    method OptimizeLabel(i: nat)
      requires Valid() && Whole(View()) && InstAt(View(), i) && Labelled(View()[i].op)
      modifies code
      ensures Valid() && View() == Retarget(old(View()), i, FinalLabel(old(View()), i))
    {
      hide Whole, FinalTarget, View;
      ghost var view := View();
      LabelFacts(view, i);
      ViewIs();
      var y := i + code[i + 1].off;
      ghost var n := FinalTargetStops(view, y);
      var t := FindFinalTarget(y, n);
      JumpToThere(i, t);
      RetargetIs(view, i, t);
    }

    lemma ViewIs()
      requires Valid()
      ensures |View()| == ncode && forall k :: 0 <= k < ncode ==> View()[k] == code[k]
    {
    }

    /** A jump that leads to an instruction that leaves unconditionally becomes that instruction. */
    method OptimizeJump(i: nat)
      requires Valid() && Whole(View()) && InstAt(View(), i) && View()[i].op == IJmp
      modifies code
      ensures Valid() && View() == PeepAt(old(View()), i)
    {
      hide Whole, FinalTarget;
      ghost var view := View();
      JumpFacts(view, i);
      ghost var n := FinalTargetStops(view, i);
      var ft := FindFinalTarget(i, n);
      var slot := code[ft];
      if slot.op in {IRet, IFail, IFailTwice, IEnd} {
        code[i] := slot;
        code[i + 1] := Inst(IAny, 0, 0);
      } else if slot.op in {ICommit, IPartialCommit, IBackCommit} {
        ghost var m := CopiedFacts(view, i, ft);
        var fft := FindFinalTarget(ft + code[ft + 1].off, m);
        code[i] := slot;
        JumpToThere(i, fft);
        assert View() == PeepAt(view, i);
        PeepAtTwice(view, i);
        OptimizeLabel(i);
      } else {
        JumpToThere(i, ft);
      }
    }

    method Peephole()
      requires Valid() && Whole(View()) && ncode > 0 && code[0].Inst?
      modifies code
      ensures Valid() && View() == Optimized(old(View()))
    {
      hide Whole, PeepAt, PeepFrom;
      var i := 0;
      while i < ncode
        invariant i <= ncode && Valid() && Whole(View()) && (i < ncode ==> code[i].Inst?)
        invariant PeepFrom(View(), i) == Optimized(old(View()))
      {
        ghost var view := View();
        PeepFromNext(view, i);
        if Labelled(code[i].op) {
          if code[i].op == IJmp { OptimizeJump(i); } else { OptimizeLabel(i); PeepAtLabel(view, i); }
        } else {
          PeepAtSame(view, i);
        }
        i := i + Size(code[i].op);
      }
      PeepFromEnd(View(), i);
    }
  }

  lemma RetargetIs(view: Code, i: nat, t: int)
    requires i + 1 < |view|
    ensures SetLabel(view, i, t - i) == Retarget(view, i, t)
  {
  }

  lemma LabelFacts(view: Code, i: nat)
    requires Whole(view) && InstAt(view, i) && Labelled(view[i].op)
    ensures i + 1 < |view| && view[i + 1].Offset?
    ensures var y := i + view[i + 1].off;
            y == Target(view, i) && InstAt(view, y) && Settles(view, y) && InstAt(view, FinalTarget(view, y))
  {
    hide Whole, FinalTarget, Settles;
    WholeAt(view, i);
    FinalTargetInst(view, Target(view, i));
  }

  lemma JumpFacts(view: Code, i: nat)
    requires Whole(view) && InstAt(view, i) && view[i].op == IJmp
    ensures i + 1 < |view| && Settles(view, i) && InstAt(view, FinalTarget(view, i))
  {
    hide Whole, FinalTarget, Settles;
    WholeAt(view, i);
    FinalTargetInst(view, i);
  }

  lemma CopiedFacts(view: Code, i: nat, ft: int) returns (m: nat)
    requires Whole(view) && InstAt(view, ft) && view[ft].op in {ICommit, IPartialCommit, IBackCommit}
    ensures ft + 1 < |view| && view[ft + 1].Offset?
    ensures var y := ft + view[ft + 1].off;
            Follow(view, y, m) == FinalLabel(view, ft) && InstAt(view, FinalLabel(view, ft)) &&
                !JmpAt(view, FinalLabel(view, ft))
  {
    hide Whole, FinalTarget, Settles;
    LabelFacts(view, ft);
    FinalTargetInst(view, Target(view, ft));
    m := FinalTargetStops(view, Target(view, ft));
  }

  lemma PeepAtLabel(view: Code, i: nat)
    requires Whole(view) && InstAt(view, i) && Labelled(view[i].op) && view[i].op != IJmp
    ensures i + 1 < |view| && PeepAt(view, i) == Retarget(view, i, FinalLabel(view, i))
  {
    hide Whole, FinalTarget;
    LabelFacts(view, i);
  }

  /** Going back to the label of an instruction that has been copied changes nothing more. */
  lemma PeepAtTwice(view: Code, i: nat)
    requires Whole(view) && InstAt(view, i) && view[i].op == IJmp
    requires InstAt(view, FinalTarget(view, i)) && view[FinalTarget(view, i)].op in {ICommit, IPartialCommit,
             IBackCommit}
    ensures var c := PeepAt(view, i);
            Whole(c) && InstAt(c, i) && Labelled(c[i].op) && i + 1 < |c| && Retarget(c, i, FinalLabel(c, i)) == c
  {
    hide Whole, FinalTarget;
    var c := PeepAt(view, i);
    var ft := FinalTarget(view, i);
    PeepAtWhole(view, i);
    JumpFacts(view, i);
    FinalTargetInst(view, i);
    var m := CopiedFacts(view, i, ft);
    var fft := FinalLabel(view, ft);
    assert Target(c, i) == fft;
    FinalTargetHere(c, fft);
  }

  lemma PeepFromNext(view: Code, i: nat)
    requires Whole(view) && InstAt(view, i)
    ensures var c := PeepAt(view, i);
            && Whole(c) && InstAt(c, i) && PeepFrom(view, i) == PeepFrom(c, i + Size(c[i].op))
            && i + Size(c[i].op) <= |c| && (i + Size(c[i].op) < |c| ==> c[i + Size(c[i].op)].Inst?)
  {
    hide Whole, PeepAt;
    PeepAtWhole(view, i);
    WholeAt(PeepAt(view, i), i);
  }

  lemma PeepFromEnd(view: Code, i: nat)
    requires i >= |view|
    ensures PeepFrom(view, i) == view
  {
  }

  /** Compiles a pattern, provided that this comes to an end. */
  method Compile(p: Tree, d: nat) returns (code: array<Slot>)
    requires WellFormed([], p, d) && CompileRun(p, d).Some?
    ensures fresh(code) && code[..] == CompileRun(p, d).value
  {
    hide WellFormed, AnalysesEnd, JumpsEnd, Gen, GenBack, PeepRun, Optimized, Whole, CompileTree;
    RunCompilable(p, d);
    var compst := new CompileState();
    TestsNone(compst.View());
    compst.Codegen([], p, false, NOINST, FullSet(), d, None);
    var _ := compst.AddInstruction(IEnd, 0);
    compst.ReallocCode(compst.ncode);
    CompiledView(p, d, compst.View());
    compst.Peephole();
    code := compst.code;
    assert code[..] == code[..compst.ncode];
  }

  lemma CompiledView(p: Tree, d: nat, view: Code)
    requires Compilable([], p, d) && view == [] + Gen([], p, false, None, FullSet(), d, true) + [Inst(IEnd, 0, 0)]
    ensures view == CompileTree(p, d, true) && Whole(view) && view[0].Inst?
  {
    hide Compilable, Gen, Whole;
    assert view == CompileTree(p, d, true);
    LpegCompiled.CompiledWhole(p, d);
  }
}
