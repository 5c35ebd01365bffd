/** Where the chain of jumps from the start of a fragment leads: past it, to an instruction, or to a
    tail call.  Whether the rules of a grammar can be linked without making an endless chain can
    be read off their trees. */
module LpegLead {
  import opened Basics
  import opened LpegTree
  import opened LpegAnalysis
  import opened LpegVm
  import opened LpegCodegen
  import opened LpegAnswers
  import opened LpegCorrect
  import opened LpegShapes
  import opened LpegLabels

  /** A chain ends at a return, at a call that is to become a jump to a rule, or at another instruction. */
  datatype Lead = Stops | Returns | Jumps(rule: nat)

  /** Nothing passes the test in front of `q`: the test is a jump past it. */
  predicate Barred(g: Rules, q: Tree, d: nat) {
    var f := FirstOf(g, q, d);
    !f.empty && f.cs == {}
  }

  /** Where the chain from the start of `p` leads when the one from what follows it leads to `next`.
      A call becomes a jump if a return comes next. */
  function LeadOf(g: Rules, p: Tree, d: nat, next: Lead): Lead
    decreases p
  {
    match p
    case TTrue => next
    case TSeq(p1, p2) => LeadOf(g, p1, d, LeadOf(g, p2, d, next))
    case TChoice(p1, p2) => if Barred(g, p1, d) then LeadOf(g, p2, d, next) else Stops
    case TRep(q) => if !IsCharset(q) && Barred(g, q, d) then next else Stops
    case TNot(q) => if Barred(g, q, d) then next else Stops
    case TAnd(q) =>
      if AndByLength(g, q, d) then LeadOf(g, q, d, if FixedLen(g, q, d) > 0 then Stops else next) else Stops
    case TBehind(n, q) => if n > 0 then Stops else LeadOf(g, q, d, next)
    case TCapture(_, _, q) => if CaptureByLength(g, q, d) then LeadOf(g, q, d, Stops) else Stops
    case TCall(n) => if next == Returns then Jumps(n) else Stops
    case _ => Stops
  }

  /** Where the chains from the rules of a grammar lead. */
  function RuleLeads(rules: Rules, d: nat): (leads: seq<Lead>)
    ensures |leads| == |rules|
    ensures forall k :: 0 <= k < |rules| ==> leads[k] == LeadOf(rules, rules[k], d, Returns)
  {
    seq(|rules|, k requires 0 <= k < |rules| => LeadOf(rules, rules[k], d, Returns))
  }

  /** Going from rule to rule by tail calls at their starts comes to an end. */
  ghost predicate LeadsEnd(leads: seq<Lead>) {
    exists rank: seq<nat> :: Decreasing(leads, rank)
  }

  ghost predicate Decreasing(leads: seq<Lead>, rank: seq<nat>) {
    |rank| == |leads| &&
    forall k :: 0 <= k < |leads| && leads[k].Jumps? ==> leads[k].rule < |rank| && rank[leads[k].rule] < rank[k]
  }

  /** All grammars inside `p` that code is generated for can be linked without making an endless chain.
      There is no code for the body of a negation that is decided by a test. */
  ghost predicate JumpsEnd(g: Rules, p: Tree, d: nat)
    decreases p
  {
    match p
    case TSeq(p1, p2) => JumpsEnd(g, p1, d) && JumpsEnd(g, p2, d)
    case TChoice(p1, p2) => JumpsEnd(g, p1, d) && JumpsEnd(g, p2, d)
    case TRep(q) => JumpsEnd(g, q, d)
    case TNot(q) => HeadFail(g, q, d) || JumpsEnd(g, q, d)
    case TAnd(q) => JumpsEnd(g, q, d)
    case TBehind(_, q) => JumpsEnd(g, q, d)
    case TCapture(_, _, q) => JumpsEnd(g, q, d)
    case TGrammar(rules) =>
      LeadsEnd(RuleLeads(rules, d)) && forall k :: 0 <= k < |rules| ==> JumpsEnd(rules, rules[k], d)
    case _ => true
  }

  /** Trees for which the compiler comes to an end: the analyses come back, and chains of jumps end. */
  ghost predicate Compilable(g: Rules, p: Tree, d: nat) {
    WellFormed(g, p, d) && AnalysesEnd(g, p, d) && JumpsEnd(g, p, d)
  }

  /** Well-formed trees; all chains of jumps in their code are to end if `deep` holds. */
  ghost predicate Suitable(g: Rules, p: Tree, d: nat, deep: bool) {
    WellFormed(g, p, d) && (deep ==> JumpsEnd(g, p, d))
  }

  lemma SuitableParts(g: Rules, p: Tree, d: nat, deep: bool)
    requires Suitable(g, p, d, deep)
    ensures p.TSeq? ==> Suitable(g, p.first, d, deep) && Suitable(g, p.second, d, deep)
    ensures p.TChoice? ==> Suitable(g, p.left, d, deep) && Suitable(g, p.right, d, deep)
    ensures p.TRep? || p.TAnd? || p.TBehind? || p.TCapture? ==> Suitable(g, p.body, d, deep)
    ensures p.TNot? && !HeadFail(g, p.body, d) ==> Suitable(g, p.body, d, deep)
    ensures p.TCall? ==> p.rule < |g|
    ensures p.TGrammar? ==> p.rules != [] && (deep ==> LeadsEnd(RuleLeads(p.rules, d)))
    ensures p.TGrammar? ==> forall k :: 0 <= k < |p.rules| ==> Suitable(p.rules, p.rules[k], d, deep)
  {
    hide FixedLen, HasCaptures, HeadFail, LeadsEnd;
  }

  // ---------------------------------------------------------------- in the code

  /** What the instruction at `y` means for a chain that ends there. */
  ghost predicate LeadAt(c: Code, y: int, lead: Lead) {
    && 0 <= y < |c| && c[y].Inst? && c[y].op != IJmp
    && match lead
       case Returns => c[y].op == IRet
       case Jumps(n) => c[y].op == IOpenCall && c[y].key == n && TailCall(c, y)
       case Stops => c[y].op != IRet && (c[y].op == IOpenCall ==> !TailCall(c, y))
  }

  /** The chain from `x` ends as `lead` says. */
  ghost predicate Leads(c: Code, x: int, lead: Lead) {
    exists y :: Lands(c, x, y) && LeadAt(c, y, lead)
  }

  /** The fragment `f` is in `c` from `a` on. */
  predicate Within(c: Code, a: int, f: Code) {
    0 <= a && a + |f| <= |c| && c[a..a + |f|] == f
  }

  lemma WithinParts(c: Code, a: int, f1: Code, f2: Code)
    requires Within(c, a, f1 + f2)
    ensures Within(c, a, f1) && Within(c, a + |f1|, f2)
  {
    assert c[a..a + |f1|] == c[a..a + |f1 + f2|][..|f1|];
    assert c[a + |f1|..a + |f1| + |f2|] == c[a..a + |f1 + f2|][|f1|..];
  }

  lemma LeadHere(c: Code, a: int, lead: Lead)
    requires LeadAt(c, a, lead)
    ensures Leads(c, a, lead)
  {
    assert Follow(c, a, 0) == a;
    assert Lands(c, a, a);
  }

  lemma LeadThrough(c: Code, a: int, b: int, lead: Lead)
    requires JmpAt(c, a) && Target(c, a) == b && Leads(c, b, lead)
    ensures Leads(c, a, lead)
  {
    var y :| Lands(c, b, y) && LeadAt(c, y, lead);
    assert Follow(c, a, 1) == Follow(c, b, 0);
    assert Lands(c, a, b);
    LandsTrans(c, a, b, y);
  }

  /** A fragment that begins with an instruction other than a jump, a return or an open call. */
  lemma LeadHead(c: Code, a: int, f: Code)
    requires Within(c, a, f) && f != [] && f[0].Inst? && f[0].op != IJmp && f[0].op != IRet && f[0].op != IOpenCall
    ensures Leads(c, a, Stops)
  {
    hide TailCall;
    Slice(c, a, f, 0);
    LeadHere(c, a, Stops);
  }

  lemma LeadTest(c: Code, a: int, cs: Charset, off: int, lead: Lead)
    requires Within(c, a, Test(cs, off)) && (cs == {} ==> Leads(c, a + off, lead))
    ensures Leads(c, a, if cs == {} then lead else Stops)
  {
    hide Leads, TailCall;
    Slice(c, a, Test(cs, off), 0);
    Slice(c, a, Test(cs, off), 1);
    if cs == {} { LeadThrough(c, a, a + off, lead); } else { LeadHead(c, a, Test(cs, off)); }
  }

  /** A fragment that begins with an optional test to its end. */
  lemma LeadOptTest(g: Rules, q: Tree, d: nat, c: Code, a: int, rest: Code, next: Lead)
    requires rest != [] && rest[0].Inst? && rest[0].op != IJmp && rest[0].op != IRet && rest[0].op != IOpenCall
    requires var f := FirstOf(g, q, d);
             var code := OptTest(f, |OptTest(f, 0)| + |rest|) + rest; Within(c, a, code) && Leads(c, a + |code|, next)
    ensures Leads(c, a, if Barred(g, q, d) then next else Stops)
  {
    hide Leads, Test, FirstOf, Within, TestTops, OptTestTops;
    var f := FirstOf(g, q, d);
    var l := |OptTest(f, 0)| + |rest|;
    OptTestSize(f, l);
    WithinParts(c, a, OptTest(f, l), rest);
    if f.empty { LeadHead(c, a, rest); } else { LeadTest(c, a, f.cs, l, next); }
  }

  /** A call is a tail call if and only if the chain after it ends at a return. */
  lemma LeadCall(c: Code, a: int, n: nat, next: Lead)
    requires Within(c, a, [Inst(IOpenCall, 0, n), Open(n)]) && Leads(c, a + 2, next)
    ensures Leads(c, a, if next == Returns then Jumps(n) else Stops)
  {
    Slice(c, a, [Inst(IOpenCall, 0, n), Open(n)], 0);
    var y :| Lands(c, a + 2, y) && LeadAt(c, y, next);
    var m: nat :| Follow(c, a + 2, m) == y;
    FinalTargetIs(c, a + 2, m);
    LeadHere(c, a, if next == Returns then Jumps(n) else Stops);
  }

  // ---------------------------------------------------------------- the code of a tree

  lemma HeadFailNotEmpty(g: Rules, q: Tree, d: nat)
    requires HeadFail(g, q, d)
    ensures !FirstOf(g, q, d).empty
  {
    hide HeadFail, GetFirst;
    HeadFailSound(g, q, d, [], 0, 0);
  }

  /** A barred first part never needs a choice. */
  lemma BarredByTest(g: Rules, p1: Tree, p2: Tree, fl: Charset, d: nat)
    ensures Barred(g, p1, d) ==> ChoiceByTest(g, p1, p2, fl, d)
    ensures ChoiceByTest(g, p1, p2, fl, d) ==> !FirstOf(g, p1, d).empty
  {
    hide HeadFail, FirstOf, GetFirst;
    if HeadFail(g, p1, d) { HeadFailNotEmpty(g, p1, d); }
  }

  lemma RepByTestNotEmpty(g: Rules, q: Tree, fl: Charset, d: nat)
    requires RepByTest(g, q, fl, d)
    ensures !FirstOf(g, q, d).empty
  {
    hide HeadFail, FirstOf;
    if HeadFail(g, q, d) { HeadFailNotEmpty(g, q, d); }
  }

  /** The chain from the start of a fragment leads where `LeadOf` says, wherever the fragment is. */
  lemma {:induction false} GenLeads(g: Rules, p: Tree, opt: bool, tt: Dominating, fl: Charset, d: nat, c: Code, a: int,
                                    next: Lead)
    requires Within(c, a, Gen(g, p, opt, tt, fl, d, true)) && Leads(c, a + |Gen(g, p, opt, tt, fl, d, true)|, next)
    ensures Leads(c, a, LeadOf(g, p, d, next))
    decreases p, 1
  {
    hide *;
    match p
    case TSeq(_, _) => SeqLeads(g, p, opt, tt, fl, d, c, a, next);
    case TChoice(_, _) => ChoiceLeads(g, p, opt, tt, fl, d, c, a, next);
    case TRep(_) => RepLeads(g, p, opt, tt, fl, d, c, a, next);
    case TNot(_) => NotLeads(g, p, opt, tt, fl, d, c, a, next);
    case TAnd(_) => AndLeads(g, p, opt, tt, fl, d, c, a, next);
    case TBehind(_, _) => BehindLeads(g, p, opt, tt, fl, d, c, a, next);
    case TCapture(_, _, _) => CaptureLeads(g, p, opt, tt, fl, d, c, a, next);
    case _ => LeafLeads(g, p, opt, tt, fl, d, c, a, next);
  }

  lemma LeafLeads(g: Rules, p: Tree, opt: bool, tt: Dominating, fl: Charset, d: nat, c: Code, a: int, next: Lead)
    requires Within(c, a, Gen(g, p, opt, tt, fl, d, true)) && Leads(c, a + |Gen(g, p, opt, tt, fl, d, true)|, next)
    requires p.TChar? || p.TSet? || p.TAny? || p.TTrue? || p.TFalse? || p.TCall? || p.TGrammar?
    ensures Leads(c, a, LeadOf(g, p, d, next))
  {
    hide Gen, Leads, Within;
    match p
    case TTrue => GenLeaf(g, p, opt, tt, fl, d, true);
    case TCall(n) =>
      GenLeaf(g, p, opt, tt, fl, d, true);
      LeadCall(c, a, n, next);
    case _ =>
      LeafHead(g, p, opt, tt, fl, d);
      LeadHead(c, a, Gen(g, p, opt, tt, fl, d, true));
  }

  lemma LeafHead(g: Rules, p: Tree, opt: bool, tt: Dominating, fl: Charset, d: nat)
    requires p.TChar? || p.TSet? || p.TAny? || p.TFalse? || p.TGrammar?
    ensures var f := Gen(g, p, opt, tt, fl, d, true);
            f != [] && f[0].Inst? && f[0].op != IJmp && f[0].op != IRet && f[0].op != IOpenCall
  {
    hide Gen, GenRules, Link, TypeOf, Buffer;
    GenLeaf(g, p, opt, tt, fl, d, true);
  }

  lemma SeqLeads(g: Rules, p: Tree, opt: bool, tt: Dominating, fl: Charset, d: nat, c: Code, a: int, next: Lead)
    requires Within(c, a, Gen(g, p, opt, tt, fl, d, true)) && Leads(c, a + |Gen(g, p, opt, tt, fl, d, true)|, next) &&
             p.TSeq?
    ensures Leads(c, a, LeadOf(g, p, d, next))
    decreases p, 0
  {
    hide Gen, SeqFollow, SeqProtecting, Leads, Within;
    var p1, p2 := p.first, p.second;
    GenSeq(g, p1, p2, opt, tt, fl, d, true);
    var fl1, tt2 := SeqFollow(g, p1, p2, fl, d), SeqProtecting(g, p1, tt, d);
    var f1, f2 := Gen(g, p1, false, tt, fl1, d, true), Gen(g, p2, opt, tt2, fl, d, true);
    WithinParts(c, a, f1, f2);
    GenLeads(g, p2, opt, tt2, fl, d, c, a + |f1|, next);
    GenLeads(g, p1, false, tt, fl1, d, c, a, LeadOf(g, p2, d, next));
  }

  lemma ChoiceLeads(g: Rules, p: Tree, opt: bool, tt: Dominating, fl: Charset, d: nat, c: Code, a: int, next: Lead)
    requires Within(c, a, Gen(g, p, opt, tt, fl, d, true)) && Leads(c, a + |Gen(g, p, opt, tt, fl, d, true)|, next) &&
             p.TChoice?
    ensures Leads(c, a, LeadOf(g, p, d, next))
    decreases p, 0
  {
    hide Gen, FirstOf, ChoiceByTest, ChoiceByTestCode, ChoiceCode, Leads, Within;
    var p1, p2 := p.left, p.right;
    var f := FirstOf(g, p1, d);
    BarredByTest(g, p1, p2, fl, d);
    if ChoiceByTest(g, p1, p2, fl, d) {
      GenChoiceByTest(g, p1, p2, opt, tt, fl, d, true);
      var c1, c2 := Gen(g, p1, false, Some(f.cs), fl, d, true), Gen(g, p2, opt, None, fl, d, true);
      var l := ChoiceByTestWithin(f.cs, c1, p2.TTrue?, c2, c, a);
      GenLeads(g, p2, opt, None, fl, d, c, a + l, next);
      LeadTest(c, a, f.cs, l, LeadOf(g, p2, d, next));
    } else if opt && p2.TTrue? {
      GenOptionReuse(g, p1, tt, fl, d, true);
      LeadHead(c, a, Gen(g, p, opt, tt, fl, d, true));
    } else {
      GenChoice(g, p1, p2, opt, tt, fl, d, true);
      var c1, c2 := Gen(g, p1, p2.TTrue?, Protecting(f), FullSet(), d, true), Gen(g, p2, opt, None, fl, d, true);
      ChoiceCodeStops(f, c1, c2, c, a);
    }
  }

  lemma ChoiceByTestWithin(cs: Charset, c1: Code, empty2: bool, c2: Code, c: Code, a: int) returns (l: nat)
    requires Within(c, a, ChoiceByTestCode(cs, c1, empty2, c2))
    ensures Within(c, a, Test(cs, l)) && Within(c, a + l, c2) && l + |c2| == |ChoiceByTestCode(cs, c1, empty2, c2)|
  {
    hide Test, Within;
    var jmp := if empty2 then [] else Jump(IJmp, 2 + |c2|);
    l := |Test(cs, 0)| + |c1| + |jmp|;
    TestSize(cs, l);
    WithinParts(c, a, Test(cs, l) + c1 + jmp, c2);
    WithinParts(c, a, Test(cs, l) + c1, jmp);
    WithinParts(c, a, Test(cs, l), c1);
  }

  lemma ChoiceCodeStops(f: First, c1: Code, c2: Code, c: Code, a: int)
    requires Within(c, a, ChoiceCode(f, c1, c2)) && !(!f.empty && f.cs == {})
    ensures Leads(c, a, Stops)
  {
    hide Test, Leads, Within;
    var l := |OptTest(f, 0)| + 4 + |c1|;
    if f.empty {
      LeadHead(c, a, ChoiceCode(f, c1, c2));
    } else {
      WithinParts(c, a, OptTest(f, l) + Jump(IChoice, 4 + |c1|) + c1 + Jump(ICommit, 2 + |c2|), c2);
      WithinParts(c, a, OptTest(f, l) + Jump(IChoice, 4 + |c1|) + c1, Jump(ICommit, 2 + |c2|));
      WithinParts(c, a, OptTest(f, l) + Jump(IChoice, 4 + |c1|), c1);
      WithinParts(c, a, OptTest(f, l), Jump(IChoice, 4 + |c1|));
      LeadTest(c, a, f.cs, l, Stops);
    }
  }

  lemma RepLeads(g: Rules, p: Tree, opt: bool, tt: Dominating, fl: Charset, d: nat, c: Code, a: int, next: Lead)
    requires Within(c, a, Gen(g, p, opt, tt, fl, d, true)) && Leads(c, a + |Gen(g, p, opt, tt, fl, d, true)|, next) &&
             p.TRep?
    ensures Leads(c, a, LeadOf(g, p, d, next))
  {
    hide Gen, FirstOf, RepByTest, RepByTestCode, RepCode, Buffer, Leads, Within;
    var q, f := p.body, FirstOf(g, p.body, d);
    if IsCharset(q) {
      GenLeaf(g, p, opt, tt, fl, d, true);
      LeadHead(c, a, Gen(g, p, opt, tt, fl, d, true));
    } else if RepByTest(g, q, fl, d) {
      GenRepByTest(g, q, opt, tt, fl, d, true);
      RepByTestNotEmpty(g, q, fl, d);
      LoopByTestLeads(f.cs, Gen(g, q, false, Some(f.cs), FullSet(), d, true), c, a, next);
    } else {
      GenRep(g, q, opt, tt, fl, d, true);
      LoopLeads(g, q, d, opt, Gen(g, q, false, None, FullSet(), d, true), c, a, next);
    }
  }

  lemma LoopByTestLeads(cs: Charset, c1: Code, c: Code, a: int, next: Lead)
    requires Within(c, a, RepByTestCode(cs, c1)) && Leads(c, a + |RepByTestCode(cs, c1)|, next)
    ensures Leads(c, a, if cs == {} then next else Stops)
  {
    hide Test, Leads, Within;
    var n := |Test(cs, 0)| + |c1|;
    TestSize(cs, n + 2);
    WithinParts(c, a, Test(cs, n + 2) + c1, Jump(IJmp, -n));
    WithinParts(c, a, Test(cs, n + 2), c1);
    LeadTest(c, a, cs, n + 2, next);
  }

  lemma LoopLeads(g: Rules, q: Tree, d: nat, opt: bool, c1: Code, c: Code, a: int, next: Lead)
    requires var f := FirstOf(g, q, d); Within(c, a, RepCode(f, opt, c1)) && Leads(c, a + |RepCode(f, opt, c1)|, next)
    ensures Leads(c, a, if Barred(g, q, d) then next else Stops)
  {
    hide FirstOf, OptTest, Leads, Within, Barred;
    var f := FirstOf(g, q, d);
    var rest := RepHead(opt, c1) + c1 + Jump(IPartialCommit, -|c1|);
    assert RepCode(f, opt, c1) == OptTest(f, |OptTest(f, 0)| + |rest|) + rest;
    LeadOptTest(g, q, d, c, a, rest, next);
  }

  lemma NotLeads(g: Rules, p: Tree, opt: bool, tt: Dominating, fl: Charset, d: nat, c: Code, a: int, next: Lead)
    requires Within(c, a, Gen(g, p, opt, tt, fl, d, true)) && Leads(c, a + |Gen(g, p, opt, tt, fl, d, true)|, next) &&
             p.TNot?
    ensures Leads(c, a, LeadOf(g, p, d, next))
  {
    hide Gen, FirstOf, HeadFail, NotByTestCode, NotCode, Leads, Within, Barred;
    var q := p.body;
    GenNot(g, q, opt, tt, fl, d, true);
    NotCodeLeads(g, q, d, Gen(g, q, false, None, FullSet(), d, true), c, a, next);
  }

  lemma NotCodeLeads(g: Rules, q: Tree, d: nat, c1: Code, c: Code, a: int, next: Lead)
    ensures var code := NotByTestCode(FirstOf(g, q, d));
            Within(c, a, code) && Leads(c, a + |code|, next) ==> Leads(c, a, if Barred(g, q, d) then next else Stops)
    ensures var code := NotCode(FirstOf(g, q, d), c1);
            Within(c, a, code) && Leads(c, a + |code|, next) ==> Leads(c, a, if Barred(g, q, d) then next else Stops)
  {
    hide FirstOf, OptTest, Leads, Within, Barred;
    var f, rest := FirstOf(g, q, d), Jump(IChoice, 3 + |c1|) + c1 + I(IFailTwice);
    assert NotByTestCode(f) == OptTest(f, |OptTest(f, 0)| + |I(IFail)|) + I(IFail);
    assert NotCode(f, c1) == OptTest(f, |OptTest(f, 0)| + |rest|) + rest;
    if Within(c, a, NotByTestCode(f)) && Leads(c, a + |NotByTestCode(f)|,
                                               next) { LeadOptTest(g, q, d, c, a, I(IFail), next); }
    if Within(c, a, NotCode(f, c1)) && Leads(c, a + |NotCode(f, c1)|, next) { LeadOptTest(g, q, d, c, a, rest, next); }
  }

  lemma AndLeads(g: Rules, p: Tree, opt: bool, tt: Dominating, fl: Charset, d: nat, c: Code, a: int, next: Lead)
    requires Within(c, a, Gen(g, p, opt, tt, fl, d, true)) && Leads(c, a + |Gen(g, p, opt, tt, fl, d, true)|, next) &&
             p.TAnd?
    ensures Leads(c, a, LeadOf(g, p, d, next))
    decreases p, 0
  {
    hide Gen, AndByLength, FixedLen, Leads, Within;
    var q, n := p.body, FixedLen(g, p.body, d);
    GenAnd(g, q, opt, tt, fl, d, true);
    var c1 := Gen(g, q, false, tt, FullSet(), d, true);
    if AndByLength(g, q, d) {
      WithinParts(c, a, c1, GoBack(n));
      if n > 0 { LeadHead(c, a + |c1|, GoBack(n)); }
      GenLeads(g, q, false, tt, FullSet(), d, c, a, if n > 0 then Stops else next);
    } else {
      LeadHead(c, a, AndCode(c1));
    }
  }

  lemma BehindLeads(g: Rules, p: Tree, opt: bool, tt: Dominating, fl: Charset, d: nat, c: Code, a: int, next: Lead)
    requires Within(c, a, Gen(g, p, opt, tt, fl, d, true)) && Leads(c, a + |Gen(g, p, opt, tt, fl, d, true)|, next) &&
             p.TBehind?
    ensures Leads(c, a, LeadOf(g, p, d, next))
    decreases p, 0
  {
    hide Gen, Leads, Within;
    var n, q := p.n, p.body;
    GenLeaf(g, p, opt, tt, fl, d, true);
    var c1 := Gen(g, q, false, None, FullSet(), d, true);
    WithinParts(c, a, GoBack(n), c1);
    if n > 0 { LeadHead(c, a, GoBack(n)); } else { GenLeads(g, q, false, None, FullSet(), d, c, a, next); }
  }

  lemma CaptureLeads(g: Rules, p: Tree, opt: bool, tt: Dominating, fl: Charset, d: nat, c: Code, a: int, next: Lead)
    requires Within(c, a, Gen(g, p, opt, tt, fl, d, true)) && Leads(c, a + |Gen(g, p, opt, tt, fl, d, true)|, next) &&
             p.TCapture?
    ensures Leads(c, a, LeadOf(g, p, d, next))
    decreases p, 0
  {
    hide Gen, CaptureByLength, FixedLen, Leads, Within;
    var kind, key, q := p.kind, p.key, p.body;
    GenCapture(g, kind, key, q, opt, tt, fl, d, true);
    var c1 := Gen(g, q, false, tt, fl, d, true);
    if CaptureByLength(g, q, d) {
      var i := [Inst(IFullCapture, kind + 16 * FixedLen(g, q, d), key)];
      WithinParts(c, a, c1, i);
      LeadHead(c, a + |c1|, i);
      GenLeads(g, q, false, tt, fl, d, c, a, Stops);
    } else {
      LeadHead(c, a, OpenCaptureCode(kind, key, c1));
    }
  }
}
