/** What the code generator of lpcode.c emits for a tree, as a value.

    All labels are relative, so a fragment does not depend on where it is put.  The imperative
    generator (LpegCompiler.dfy) is proved to append exactly these fragments. */
module LpegCodegen {
  import opened Basics
  import opened LpegTree
  import opened LpegAnalysis
  import opened LpegVm

  datatype CharsetType = CsFail | CsAny | CsChar(c: Byte) | CsSet

  /** Empty, full, singleton, or none of those. */
  ghost function TypeOf(cs: Charset): CharsetType {
    if cs == {} then CsFail
    else if cs == FullSet() then CsAny
    else if exists c :: c in cs && cs == {c} then var c :| c in cs && cs == {c}; CsChar(c)
    else CsSet
  }

  ghost function I(op: Opcode): Code { [Inst(op, 0, 0)] }

  ghost function Jump(op: Opcode, off: int): Code { [Inst(op, 0, 0), Offset(off)] }

  ghost function Buffer(cs: Charset): Code { [Buff(cs), Pad, Pad, Pad, Pad, Pad, Pad, Pad] }

  ghost function TestHead(cs: Charset): Slot {
    match TypeOf(cs)
    case CsFail => Inst(IJmp, 0, 0)
    case CsAny => Inst(ITestAny, 0, 0)
    case CsChar(c) => Inst(ITestChar, c, 0)
    case CsSet => Inst(ITestSet, 0, 0)
  }

  /** A test that goes on when the next character is in `cs` and jumps by `off` otherwise. */
  ghost function Test(cs: Charset, off: int): Code {
    [TestHead(cs), Offset(off)] + (if TypeOf(cs) == CsSet then Buffer(cs) else [])
  }

  ghost function OptTest(f: First, off: int): Code {
    if f.empty then [] else Test(f.cs, off)
  }

  /** The charset a test has checked just before the code being generated. */
  type Dominating = Option<Charset>

  ghost function GenChar(c: Byte, tt: Dominating): Code {
    if tt == Some({c}) then I(IAny) else [Inst(IChar, c, 0)]
  }

  ghost function GenCharset(cs: Charset, tt: Dominating): Code {
    match TypeOf(cs)
    case CsFail => I(IFail)
    case CsAny => I(IAny)
    case CsChar(c) => GenChar(c, tt)
    case CsSet => if tt == Some(cs) then I(IAny) else I(ISet) + Buffer(cs)
  }

  predicate Disjoint(a: Charset, b: Charset) { a * b == {} }

  /** Where following `n` jumps from `i` leads, stopping at the first other instruction. */
  function Follow(code: Code, i: int, n: nat): int
    decreases n
  {
    if n > 0 && JmpAt(code, i) then Follow(code, Target(code, i), n - 1) else i
  }

  predicate OpAt(code: Code, i: int, op: Opcode) {
    0 <= i < |code| && code[i].Inst? && code[i].op == op
  }

  predicate JmpAt(code: Code, i: int) { OpAt(code, i, IJmp) }

  ghost predicate Settles(code: Code, i: int) {
    exists n: nat :: !JmpAt(code, Follow(code, i, n))
  }

  /** Where a chain of jumps leads, if it ends. */
  ghost function FinalTarget(code: Code, i: int): int {
    if Settles(code, i) then (var n: nat :| !JmpAt(code, Follow(code, i, n)); Follow(code, i, n)) else i
  }

  /** A call that is followed by a return, perhaps after some jumps, need not come back. */
  ghost predicate TailCall(code: Code, i: int) {
    OpAt(code, FinalTarget(code, i + 2), IRet)
  }

  /** Closes the open calls of `body`, whose rules start at `starts`. */
  ghost function LinkSlot(body: Code, starts: seq<nat>, tail: bool, i: nat): Slot
    requires i < |body|
  {
    match body[i]
    case Inst(IOpenCall, aux, key) => Inst(if tail && TailCall(body, i) then IJmp else ICall, aux, key)
    case Open(n) => Offset(if n < |starts| then starts[n] - (i - 1) else 0)
    case slot => slot
  }

  ghost function Link(body: Code, starts: seq<nat>, tail: bool): Code {
    seq(|body|, i requires 0 <= i < |body| => LinkSlot(body, starts, tail, i))
  }

  function Starts(rules: seq<Code>, from: nat): seq<nat> {
    if rules == [] then [] else [from] + Starts(rules[1..], from + |rules[0]|)
  }

  lemma {:induction false} StartsLength(rules: seq<Code>, from: nat)
    ensures |Starts(rules, from)| == |rules|
    decreases |rules|
  {
    if rules != [] { StartsLength(rules[1..], from + |rules[0]|); }
  }

  function Flatten(rules: seq<Code>): Code {
    if rules == [] then [] else rules[0] + Flatten(rules[1..])
  }

  // ---------------------------------------------------------------- the pieces around the parts

  /** A choice decided by one test: when it fails, the first part is left out; when it passes, the second. */
  ghost function ChoiceByTestCode(cs: Charset, c1: Code, empty2: bool, c2: Code): Code {
    var jmp := if empty2 then [] else Jump(IJmp, 2 + |c2|);
    Test(cs, |Test(cs, 0)| + |c1| + |jmp|) + c1 + jmp + c2
  }

  /** A choice with a choice point, which leads to the second part and is removed after the first one. */
  ghost function ChoiceCode(f1: First, c1: Code, c2: Code): Code {
    OptTest(f1, |OptTest(f1, 0)| + 4 + |c1|) + Jump(IChoice, 4 + |c1|) + c1 + Jump(ICommit, 2 + |c2|) + c2
  }

  /** A loop decided by a test in front of each turn. */
  ghost function RepByTestCode(cs: Charset, c: Code): Code {
    var n := |Test(cs, 0)| + |c|;
    Test(cs, n + 2) + c + Jump(IJmp, -n)
  }

  /** A loop that keeps one choice point, its own or the one of the option around it, and brings it up
      to date after each turn. */
  ghost function RepCode(f: First, opt: bool, c: Code): Code {
    OptTest(f, |OptTest(f, 0)| + 4 + |c|) + RepHead(opt, c) + c + Jump(IPartialCommit, -|c|)
  }

  ghost function RepHead(opt: bool, c: Code): Code {
    if opt then Jump(IPartialCommit, 2) else Jump(IChoice, 4 + |c|)
  }

  /** A negation decided by a test: passing it means failing. */
  ghost function NotByTestCode(f: First): Code {
    OptTest(f, |OptTest(f, 0)| + 1) + I(IFail)
  }

  /** A negation with a choice point, taken when the part fails; otherwise it is removed by a double failure. */
  ghost function NotCode(f: First, c: Code): Code {
    OptTest(f, |OptTest(f, 0)| + 3 + |c|) + Jump(IChoice, 3 + |c|) + c + I(IFailTwice)
  }

  ghost function GoBack(n: int): Code {
    if n > 0 then [Inst(IBehind, n, 0)] else []
  }

  /** A predicate: its choice point restores the position when the part matches, and leads to a failure otherwise. */
  ghost function AndCode(c: Code): Code {
    Jump(IChoice, 4 + |c|) + c + Jump(IBackCommit, 3) + I(IFail)
  }

  ghost function FullCaptureCode(kind: nat, key: int, n: int, c: Code): Code {
    c + [Inst(IFullCapture, kind + 16 * n, key)]
  }

  ghost function OpenCaptureCode(kind: nat, key: int, c: Code): Code {
    [Inst(IOpenCapture, kind, key)] + c + I(ICloseCapture)
  }

  /** A grammar calls its first rule and jumps over all of them. */
  ghost function GrammarCode(codes: seq<Code>, tail: bool): Code {
    var body := Flatten(codes);
    Jump(ICall, 4) + Jump(IJmp, 2 + |body|) + Link(body, Starts(codes, 0), tail)
  }

  // ---------------------------------------------------------------- the choices made

  function FirstOf(g: Rules, p: Tree, d: nat): First {
    GetFirst(g, p, FullSet(), d)
  }

  predicate ChoiceByTest(g: Rules, p1: Tree, p2: Tree, fl: Charset, d: nat) {
    var f1 := FirstOf(g, p1, d);
    HeadFail(g, p1, d) || (!f1.empty && Disjoint(f1.cs, GetFirst(g, p2, fl, d).cs))
  }

  predicate RepByTest(g: Rules, q: Tree, fl: Charset, d: nat) {
    var f := FirstOf(g, q, d);
    HeadFail(g, q, d) || (!f.empty && Disjoint(f.cs, fl))
  }

  predicate AndByLength(g: Rules, q: Tree, d: nat) {
    0 <= FixedLen(g, q, d) <= MAXBEHIND && !HasCaptures(g, q, {}, d)
  }

  predicate CaptureByLength(g: Rules, q: Tree, d: nat) {
    0 <= FixedLen(g, q, d) <= MAXOFF && !HasCaptures(g, q, {}, d)
  }

  /** The test in front of a choice dominates its first part, if there is one. */
  function Protecting(f: First): Dominating {
    if f.empty then None else Some(f.cs)
  }

  function SeqFollow(g: Rules, p1: Tree, p2: Tree, fl: Charset, d: nat): Charset {
    if NeedFollow(p1) then GetFirst(g, p2, fl, d).cs else FullSet()
  }

  /** A test protects the second part of a sequence only if the first part cannot move. */
  function SeqProtecting(g: Rules, p1: Tree, tt: Dominating, d: nat): Dominating {
    if FixedLen(g, p1, d) != 0 then None else tt
  }

  /** The code for `p`, whose calls refer to `g`.  `opt` says that an option ends with `p`, so that
      its choice can be used, `tt` is the test that protects it, and `fl` the first set of what follows.
      With `tail` off, no call becomes a jump. */
  ghost function Gen(g: Rules, p: Tree, opt: bool, tt: Dominating, fl: Charset, d: nat, tail: bool): Code
    decreases p, 0
  {
    match p
    case TChar(c) => GenChar(c, tt)
    case TAny => I(IAny)
    case TSet(cs) => GenCharset(cs, tt)
    case TTrue => []
    case TFalse => I(IFail)
    case TChoice(p1, p2) =>
      var f1 := FirstOf(g, p1, d);
      if ChoiceByTest(g, p1, p2, fl, d) then
        ChoiceByTestCode(f1.cs, Gen(g, p1, false, Some(f1.cs), fl, d, tail), p2.TTrue?,
                         Gen(g, p2, opt, None, fl, d, tail))
      else if opt && p2.TTrue? then
        Jump(IPartialCommit, 2) + Gen(g, p1, true, None, FullSet(), d, tail)
      else
        ChoiceCode(f1, Gen(g, p1, p2.TTrue?, Protecting(f1), FullSet(), d, tail), Gen(g, p2, opt, None, fl, d, tail))
    case TRep(q) =>
      var f := FirstOf(g, q, d);
      if IsCharset(q) then I(ISpan) + Buffer(ToCharset(q))
      else if RepByTest(g, q, fl, d) then RepByTestCode(f.cs, Gen(g, q, false, Some(f.cs), FullSet(), d, tail))
      else RepCode(f, opt, Gen(g, q, false, None, FullSet(), d, tail))
    case TNot(q) =>
      var f := FirstOf(g, q, d);
      if HeadFail(g, q, d) then NotByTestCode(f)
      else NotCode(f, Gen(g, q, false, None, FullSet(), d, tail))
    case TAnd(q) =>
      var c := Gen(g, q, false, tt, FullSet(), d, tail);
      if AndByLength(g, q, d) then c + GoBack(FixedLen(g, q, d)) else AndCode(c)
    case TBehind(n, q) => GoBack(n) + Gen(g, q, false, None, FullSet(), d, tail)
    case TCapture(kind, key, q) =>
      var c := Gen(g, q, false, tt, fl, d, tail);
      if CaptureByLength(g, q, d) then FullCaptureCode(kind, key, FixedLen(g, q, d), c)
      else OpenCaptureCode(kind, key, c)
    case TSeq(p1, p2) =>
      Gen(g, p1, false, tt, SeqFollow(g, p1, p2, fl, d), d, tail) +
      Gen(g, p2, opt, SeqProtecting(g, p1, tt, d), fl, d, tail)
    case TCall(n) => [Inst(IOpenCall, 0, n), Open(n)]
    case TGrammar(rules) => GrammarCode(GenRules(rules, rules, d, tail), tail)
  }

  ghost function GenRule(g: Rules, p: Tree, d: nat, tail: bool): Code
    decreases p, 1
  {
    Gen(g, p, false, None, FullSet(), d, tail) + I(IRet)
  }

  ghost function GenRules(g: Rules, ps: seq<Tree>, d: nat, tail: bool): (codes: seq<Code>)
    ensures |codes| == |ps|
    ensures forall k :: 0 <= k < |ps| ==> codes[k] == GenRule(g, ps[k], d, tail)
    decreases ps
  {
    if ps == [] then [] else [GenRule(g, ps[0], d, tail)] + GenRules(g, ps[1..], d, tail)
  }

  /** The code `compile` hands to the peephole optimizer. */
  ghost function CompileTree(p: Tree, d: nat, tail: bool): Code {
    Gen([], p, false, None, FullSet(), d, tail) + I(IEnd)
  }
}
