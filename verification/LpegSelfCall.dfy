/** What the checks of lptree.c let through: rules that call themselves inside a look-behind of length 0. */
module LpegSelfCall {
  import opened Basics
  import opened LpegTree
  import opened LpegAnalysis
  import opened LpegVm
  import opened LpegCodegen
  import opened LpegAnswers
  import opened LpegNest
  import opened LpegCorrect
  import opened LpegShapes
  import opened LpegLabels
  import opened LpegLead
  import opened LpegChecks
  import opened LpegTotal
  import opened LpegCompiles
  import opened LpegEnds

  /** A rule that passes all checks of lptree.c */
  ghost predicate RulePasses(g: Rules, rule: Tree, d: nat) {
    && WellFormed(g, rule, d) && Checked(rule, d)
    && LoopRun(g, rule, d) == Some(false) && VerifyRun(g, rule, false, MAXRULES, d).Some?
  }

  lemma RulesAccepted(rules: Rules, d: nat)
    requires 0 < |rules| <= MAXRULES && forall k :: 0 <= k < |rules| ==> RulePasses(rules, rules[k], d)
    ensures Accepted(TGrammar(rules), d)
  {
    hide LoopRun, VerifyRun, Used, FixedLen, HasCaptures;
  }

  lemma RulesNotLeft(rules: Rules, rank: seq<nat>, d: nat)
    requires Ranked(rules, rank, d) && forall k :: 0 <= k < |rules| ==> NoLeftRecursion(rules[k], d)
    ensures NoLeftRecursion(TGrammar(rules), d)
  {
    hide LeftOk;
  }

  /** A <- B(#A), where B is `lpeg.B` */
  function SelfBehind(): Tree { TBehind(0, TAnd(TCall(0))) }

  function SelfRules(): Rules { [SelfBehind()] }

  /** A look-behind like that passes the checks that are made when it is built. */
  lemma BehindFormed(g: Rules, q: Tree, d: nat)
    requires q == TBehind(0, TAnd(TCall(0))) || q == TBehind(0, TAnd(TCall(1)))
    requires |g| > q.body.body.rule
    ensures WellFormed(g, q, d)
  {
    var body := q.body;
    assert FixedLen([], body, d) == 0;
    assert !HasCaptures([], body.body, {}, d);
    assert !HasCaptures([], body, {}, d);
    assert WellFormed(g, body, d);
  }

  /** And it is no obstacle for the checks of the grammar. */
  lemma BehindChecked(g: Rules, q: Tree, nb: bool, left: nat, d: nat)
    requires q == TBehind(0, TAnd(TCall(0))) || q == TBehind(0, TAnd(TCall(1)))
    ensures Checked(q, d) && LoopRun(g, q, d) == Some(false) && VerifyRun(g, q, nb, left, d) == Some(true)
    ensures NoLeftRecursion(q, d)
  {
    var body := q.body;
    assert Checked(body, d) && LoopRun(g, body, d) == Some(false) && NoLeftRecursion(body, d);
  }

  /** The grammar passes all checks of lptree.c, and is not left recursive. */
  lemma SelfAccepted(d: nat)
    ensures Accepted(TGrammar(SelfRules()), d) && NoLeftRecursion(TGrammar(SelfRules()), d)
  {
    hide WellFormed, Checked, VerifyRun, LoopRun, NoLeftRecursion;
    BehindFormed(SelfRules(), SelfBehind(), d);
    BehindChecked(SelfRules(), SelfBehind(), false, MAXRULES, d);
    RulesAccepted(SelfRules(), d);
    RulesNotLeft(SelfRules(), [0], d);
  }

  /** Its rule leads to itself, which the condition on leads excludes. */
  lemma SelfLead(d: nat)
    requires d > 0
    ensures RuleLeads(SelfRules(), d) == [Jumps(0)] && !LeadsEnd(RuleLeads(SelfRules(), d))
  {
    SelfLength(d);
    assert LeadOf(SelfRules(), TAnd(TCall(0)), d, Returns) == Jumps(0);
  }

  lemma SelfLength(d: nat)
    requires d > 0
    ensures AndByLength(SelfRules(), TCall(0), d) && FixedLen(SelfRules(), TCall(0), d) == 0
  {
    var g := SelfRules();
    assert FixedLen(g, g[0], d - 1) == 0;
    var visited: set<nat> := {};
    assert visited + {0} == {0};
    assert !HasCaptures(g, TCall(0), {0}, d);
    assert !HasCaptures(g, TAnd(TCall(0)), {0}, d);
    assert !HasCaptures(g, g[0], {0}, d);
  }

  function SelfBody(): Code { [Inst(IOpenCall, 0, 0), Open(0), Inst(IRet, 0, 0)] }

  lemma SelfFragment(d: nat)
    requires d > 0
    ensures GenRule(SelfRules(), SelfBehind(), d, true) == SelfBody()
  {
    hide Gen, AndByLength, FixedLen;
    var g := SelfRules();
    SelfLength(d);
    GenLeaf(g, TCall(0), false, None, FullSet(), d, true);
    GenAnd(g, TCall(0), false, None, FullSet(), d, true);
    GenLeaf(g, SelfBehind(), false, None, FullSet(), d, true);
  }

  /** The code of the rule is a jump to itself. */
  lemma SelfCode(d: nat)
    requires d > 0
    ensures var codes := GenRules(SelfRules(), SelfRules(), d, true);
            Starts(codes, 0) == [0] && Link(Flatten(codes), Starts(codes, 0), true) ==
                [Inst(IJmp, 0, 0), Offset(0), Inst(IRet, 0, 0)]
  {
    hide Gen, GenRule;
    SelfFragment(d);
    assert GenRules(SelfRules(), SelfRules(), d, true) == [SelfBody()];
    SelfLinked();
  }

  lemma SelfLinked()
    ensures Flatten([SelfBody()]) == SelfBody() && Starts([SelfBody()], 0) == [0]
    ensures Link(SelfBody(), [0], true) == [Inst(IJmp, 0, 0), Offset(0), Inst(IRet, 0, 0)]
  {
    hide FinalTarget;
    FinalTargetIs(SelfBody(), 2, 0);
  }

  /** From there `finaltarget` never comes back. */
  lemma SelfNeverSettles(d: nat)
    requires d > 0
    ensures var codes := GenRules(SelfRules(), SelfRules(), d, true);
            !Settles(Link(Flatten(codes), Starts(codes, 0), true), Starts(codes, 0)[0])
  {
    hide Gen, GenRules, Link;
    var codes := GenRules(SelfRules(), SelfRules(), d, true);
    SelfCode(d);
    var linked := Link(Flatten(codes), Starts(codes, 0), true);
    forall n: nat ensures Follow(linked, 0, n) == 0 { Stays(linked, n); }
  }

  lemma {:induction false} Stays(c: Code, n: nat)
    requires JmpAt(c, 0) && Target(c, 0) == 0
    ensures Follow(c, 0, n) == 0
  {
    if n > 0 { Stays(c, n - 1); }
  }

  lemma SelfTurn(subj: Subject, s: nat, fuel: nat)
    requires s <= |subj| && (fuel > 0 ==> Eval(SelfRules(), SelfBehind(), subj, s, fuel - 1) == Out)
    ensures Eval(SelfRules(), SelfBehind(), subj, s, fuel) == Out
  {
    var g := SelfRules();
    assert Eval(g, TCall(0), subj, s, fuel) == Out;
    assert Eval(g, TAnd(TCall(0)), subj, s, fuel) == Out;
  }

  /** Nor does matching it come to an answer. */
  lemma {:induction false} SelfNoAnswer(subj: Subject, s: nat, fuel: nat)
    requires s <= |subj|
    ensures Eval(SelfRules(), SelfBehind(), subj, s, fuel) == Out
    decreases fuel
  {
    hide Eval;
    if fuel > 0 { SelfNoAnswer(subj, s, fuel - 1); }
    SelfTurn(subj, s, fuel);
  }

  /** So the compiler never comes to an end. */
  lemma SelfNeverCompiles()
    ensures !CompileEnds(TGrammar(SelfRules()))
  {
    hide Accepted, NoLeftRecursion, AnalysesEnd, RuleLeads, LeadsEnd, CompileEnds, Nest;
    var p := TGrammar(SelfRules());
    var e := Nest(p) + 1;
    SelfAccepted(e);
    AcceptedFormed(p, e);
    SelfLead(e);
    CompileEndsExactly(p, e);
  }

  lemma AcceptedFormed(p: Tree, d: nat)
    requires Accepted(p, d)
    ensures WellFormed([], p, d)
  {
  }

  // ---------------------------------------------------------------- a first set that is never found

  /** A <- 'y' / (B(#A) / 'x') */
  function LateRules(): Rules { [TChoice(TChar(121), LateChoice())] }

  function LateChoice(): Tree { TChoice(SelfBehind(), TChar(120)) }

  lemma LateAccepted(d: nat)
    ensures Accepted(TGrammar(LateRules()), d) && NoLeftRecursion(TGrammar(LateRules()), d)
  {
    hide WellFormed, Checked, VerifyRun, LoopRun, NoLeftRecursion, LeftOk;
    LateFormed(d);
    LateChecked(d);
    RulesAccepted(LateRules(), d);
    RulesNotLeft(LateRules(), [0], d);
  }

  lemma LateFormed(d: nat)
    ensures WellFormed(LateRules(), LateRules()[0], d)
  {
    hide FixedLen, HasCaptures;
    BehindFormed(LateRules(), SelfBehind(), d);
    assert WellFormed(LateRules(), LateChoice(), d);
  }

  lemma LateChecked(d: nat)
    ensures var rules := LateRules();
            && Checked(rules[0], d) && LoopRun(rules, rules[0], d) == Some(false)
            && VerifyRun(rules, rules[0], false, MAXRULES, d) == Some(true)
            && NoLeftRecursion(rules[0], d) && LeftOk(rules, rules[0], [0], 0, d)
  {
    var rules := LateRules();
    BehindChecked(rules, SelfBehind(), false, MAXRULES, d);
    assert Checked(LateChoice(), d) && LoopRun(rules, LateChoice(), d) == Some(false);
    assert VerifyRun(rules, LateChoice(), false, MAXRULES, d) == Some(true);
    assert NoLeftRecursion(LateChoice(), d);
    LateLeft(d);
  }

  lemma LateLeft(d: nat)
    ensures LeftOk(LateRules(), LateRules()[0], [0], 0, d)
  {
    assert LeftOk(LateRules(), SelfBehind(), [0], 0, d);
    assert LeftOk(LateRules(), LateChoice(), [0], 0, d);
  }

  /** All chains of jumps would end: its rule begins with a test. */
  lemma LateJumps(d: nat)
    ensures JumpsEnd([], TGrammar(LateRules()), d)
  {
    hide LeadOf, HeadFail, LeadsEnd;
    var rules := LateRules();
    LateLeads(d);
    assert JumpsEnd(rules, TAnd(TCall(0)), d);
    assert JumpsEnd(rules, SelfBehind(), d);
    assert JumpsEnd(rules, LateChoice(), d);
  }

  lemma LateLeads(d: nat)
    ensures LeadsEnd(RuleLeads(LateRules(), d))
  {
    var rules := LateRules();
    assert 121 in FirstOf(rules, TChar(121), d).cs;
    assert LeadOf(rules, rules[0], d, Returns) == Stops;
    assert Decreasing(RuleLeads(rules, d), [0]);
  }

  /** But to compile the inner choice, `getfirst` goes through the look-behind back to the rule it is in. */
  lemma LateFirst(d: nat)
    ensures !WayEnds(LateRules(), SelfBehind(), AskFirst, d) && !AnalysesEnd([], TGrammar(LateRules()), d)
  {
    var rules := LateRules();
    forall rank: seq<nat>, top: nat | RanksDown(rules, AskFirst, rank, top, d)
        ensures !Follows(rules, SelfBehind(), AskFirst, rank, top, d) {
      LateLoop(rank, top, d);
    }
    assert AnalysesEnd(rules, rules[0], d) ==> AnalysesEnd(rules, LateChoice(), d);
  }

  lemma LateLoop(rank: seq<nat>, top: nat, d: nat)
    requires RanksDown(LateRules(), AskFirst, rank, top, d)
    ensures !Follows(LateRules(), SelfBehind(), AskFirst, rank, top, d)
  {
    hide Follows;
    LateWay(rank, top, d);
    LateWay(rank, rank[0], d);
  }

  lemma LateWay(rank: seq<nat>, k: nat, d: nat)
    ensures Follows(LateRules(), SelfBehind(), AskFirst, rank, k, d) <==> |rank| > 0 && rank[0] < k
    ensures Follows(LateRules(), LateRules()[0], AskFirst, rank, k, d) ==> |rank| > 0 && rank[0] < k
  {
    hide WayEnds, CheckAux, HeadFail;
    var rules := LateRules();
    assert Follows(rules, TAnd(TCall(0)), AskFirst, rank, k, d) <==> |rank| > 0 && rank[0] < k;
    assert Follows(rules, LateChoice(), AskFirst, rank, k, d) ==> Follows(rules, SelfBehind(), AskFirst, rank, k, d);
  }

  /** So the compiler never comes to an end, */
  lemma LateNeverCompiles()
    ensures !CompileEnds(TGrammar(LateRules()))
  {
    hide AnalysesEnd, GenBack, PeepRun, CompileTree;
    if n: nat :| CompileRun(TGrammar(LateRules()), n).Some? {
      GenBackEnds([], TGrammar(LateRules()), n, n);
      LateFirst(n);
    }
  }

  /** although the pattern has an answer on the subject 'y'. */
  lemma LateAnswer()
    ensures Eval([], TGrammar(LateRules()), [121], 0, 1) == Yes(1, [])
  {
    assert Eval(LateRules(), LateRules()[0], [121], 0, 0) == Yes(1, []);
  }

  // ---------------------------------------------------------------- a look-behind that does no harm

  /** A look-behind may call rules, as long as it does not come back: A <- B(#C) 'x', C <- 'y'. */
  function OtherRules(): Rules { [TSeq(TBehind(0, TAnd(TCall(1))), TChar(120)), TChar(121)] }

  lemma OtherAccepted(d: nat)
    ensures Accepted(TGrammar(OtherRules()), d) && NoLeftRecursion(TGrammar(OtherRules()), d)
  {
    hide RulePasses, LeftOk, Accepted, NoLeftRecursion;
    OtherPasses(d);
    RulesAccepted(OtherRules(), d);
    OtherRanked(d);
    RulesNotLeft(OtherRules(), [0, 0], d);
  }

  lemma OtherPasses(d: nat)
    ensures RulePasses(OtherRules(), OtherRules()[0], d) && RulePasses(OtherRules(), OtherRules()[1], d)
  {
    hide FixedLen, HasCaptures, Checked, LoopRun, VerifyRun;
    BehindFormed(OtherRules(), TBehind(0, TAnd(TCall(1))), d);
    OtherChecked(d);
  }

  lemma OtherChecked(d: nat)
    ensures var rules := OtherRules();
            && Checked(rules[0], d) && LoopRun(rules, rules[0], d) == Some(false)
            && VerifyRun(rules, rules[0], false, MAXRULES, d) == Some(false)
            && Checked(rules[1], d) && LoopRun(rules, rules[1], d) == Some(false)
            && VerifyRun(rules, rules[1], false, MAXRULES, d) == Some(false)
  {
    BehindChecked(OtherRules(), TBehind(0, TAnd(TCall(1))), false, MAXRULES, d);
  }

  lemma OtherRanked(d: nat)
    ensures Ranked(OtherRules(), [0, 0], d)
    ensures NoLeftRecursion(OtherRules()[0], d) && NoLeftRecursion(OtherRules()[1], d)
  {
    BehindChecked(OtherRules(), TBehind(0, TAnd(TCall(1))), false, MAXRULES, d);
  }

  lemma OtherStratified()
    ensures Stratified(TGrammar(OtherRules()))
  {
    var q := TAnd(TCall(1));
    assert Below(TAnd(TCall(1)), [1, 0], 0);
    assert Below(TBehind(0, q), [1, 0], 1) && Below(TChar(120), [1, 0], 1) && Below(TChar(121), [1, 0], 0);
    assert Below(OtherRules()[0], [1, 0], 1);
    assert Leveled(OtherRules(), [1, 0]);
    assert Stratified(q) && Stratified(TBehind(0, q));
  }
}
