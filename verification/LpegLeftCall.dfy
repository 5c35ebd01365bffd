/** What the check of lptree.c for left recursion lets through: rules that call themselves behind a loop, or behind a
    negation, whose body is a grammar. */
module LpegLeftCall {
  import opened Basics
  import opened LpegTree
  import opened LpegAnalysis
  import opened LpegRuns
  import opened LpegCodegen
  import opened LpegAnswers
  import opened LpegNest
  import opened LpegCorrect
  import opened LpegLead
  import opened LpegChecks
  import opened LpegTotal
  import opened LpegVerify
  import opened LpegCompiles
  import opened LpegEnds
  import opened LpegSelfCall

  /** G <- 'x' */
  function Inner(): Tree { TGrammar([TChar(120)]) }

  lemma InnerFacts(g: Rules, d: nat)
    requires d > 0
    ensures CheckRun(g, Inner(), PENullable, d) == Some(false) && !Nullable(g, Inner(), d)
  {
    assert CheckRun([TChar(120)], TChar(120), PENullable, d - 1) == Some(false);
    CheckRunIs(g, Inner(), PENullable, d, d);
  }

  lemma InnerPasses(g: Rules, d: nat)
    requires d > 0
    ensures WellFormed(g, Inner(), d) && Checked(Inner(), d) && LoopRun(g, Inner(), d) == Some(false)
  {
    hide Used;
    assert RulePasses([TChar(120)], TChar(120), d);
    RulesAccepted([TChar(120)], d);
    assert Accepted(Inner(), d);
  }

  // ---------------------------------------------------------------- behind a loop

  /** A <- G* A */
  function StarRules(): Rules { [TSeq(TRep(Inner()), TCall(0))] }

  /** The grammar passes all checks of lptree.c: a loop over `G` is taken for something that consumes. */
  lemma StarAccepted(d: nat)
    requires d > 0
    ensures Accepted(TGrammar(StarRules()), d)
  {
    hide Inner, WellFormed, Checked, LoopRun, VerifyRun;
    StarPasses(d);
    RulesAccepted(StarRules(), d);
  }

  lemma StarPasses(d: nat)
    requires d > 0
    ensures RulePasses(StarRules(), StarRules()[0], d)
  {
    var rules := StarRules();
    InnerFacts(rules, d);
    InnerFacts([], d);
    InnerPasses(rules, d);
    assert WellFormed(rules, TRep(Inner()), d) && Checked(TRep(Inner()), d);
    assert LoopRun(rules, TRep(Inner()), d) == Some(false);
    assert VerifyRun(rules, Inner(), true, MAXRULES, d) == Some(false);
    assert VerifyRun(rules, TRep(Inner()), false, MAXRULES, d) == Some(false);
  }

  /** But it is left recursive, */
  lemma StarLeftRecursive(d: nat)
    ensures !NoLeftRecursion(TGrammar(StarRules()), d)
  {
    var rules := StarRules();
    forall rank: seq<nat> ensures !Ranked(rules, rank, d) {
      assert Nullable(rules, TRep(Inner()), d);
      assert |rank| == 1 ==> !LeftOk(rules, TCall(0), rank, rank[0], d);
    }
  }

  lemma StarStratified()
    ensures Stratified(TGrammar(StarRules()))
  {
    assert Leveled([TChar(120)], [0]) && Stratified(Inner());
    assert Below(TRep(Inner()), [0], 0) && Leveled(StarRules(), [0]);
    assert Stratified(TRep(Inner()));
  }

  /** and verifyrule forgets `nb` in it. */
  lemma StarNotKept(d: nat)
    requires d > 0
    ensures !KeptAll(TGrammar(StarRules()), d)
  {
    var rules := StarRules();
    InnerFacts(rules, d);
    assert !Kept(rules, TRep(Inner()), false, d);
    assert Used(rules, 0);
  }

  /** To compile the sequence, `getfirst` is asked about the call, and never comes back. */
  lemma StarNeverCompiles()
    ensures !CompileEnds(TGrammar(StarRules()))
  {
    hide AnalysesEnd, GenBack, PeepRun, CompileTree;
    if n: nat :| CompileRun(TGrammar(StarRules()), n).Some? {
      GenBackEnds([], TGrammar(StarRules()), n, n);
      StarFirst(n);
    }
  }

  lemma StarFirst(d: nat)
    ensures !WayEnds(StarRules(), TCall(0), AskFirst, d) && !AnalysesEnd([], TGrammar(StarRules()), d)
  {
    var rules := StarRules();
    forall rank: seq<nat>, top: nat | RanksDown(rules, AskFirst, rank, top, d)
        ensures !Follows(rules, TCall(0), AskFirst, rank, top, d) {
      StarWay(rank, rank[0], d);
    }
    assert NeedFollow(TRep(Inner()));
    assert !AnalysesEnd(rules, rules[0], d);
  }

  lemma StarWay(rank: seq<nat>, k: nat, d: nat)
    ensures Follows(StarRules(), StarRules()[0], AskFirst, rank, k, d) ==> |rank| > 0 && rank[0] < k
  {
    hide WayEnds;
    assert Nullable(StarRules(), TRep(Inner()), d);
  }

  /** Nor does matching it come to an answer, on any subject, from any position. */
  lemma {:induction false} StarNoAnswer(subj: Subject, s: nat, fuel: nat)
    requires s <= |subj|
    ensures Eval(StarRules(), StarRules()[0], subj, s, fuel) == Out
    decreases fuel
  {
    var rules := StarRules();
    RepNeverFails(rules, Inner(), subj, s, fuel);
    var r := Eval(rules, TRep(Inner()), subj, s, fuel);
    if r.Yes? {
      if fuel > 0 { StarNoAnswer(subj, r.pos, fuel - 1); }
      assert Eval(rules, TCall(0), subj, r.pos, fuel) == Out;
    }
  }

  // ---------------------------------------------------------------- behind a negation

  /** A <- 'y' / !G A */
  function GuardRules(): Rules { [TChoice(TChar(121), GuardSeq())] }

  function GuardSeq(): Tree { TSeq(TNot(Inner()), TCall(0)) }

  lemma GuardAccepted(d: nat)
    requires d > 0
    ensures Accepted(TGrammar(GuardRules()), d)
  {
    hide Inner, WellFormed, Checked, LoopRun, VerifyRun;
    GuardPasses(d);
    RulesAccepted(GuardRules(), d);
  }

  lemma GuardPasses(d: nat)
    requires d > 0
    ensures RulePasses(GuardRules(), GuardRules()[0], d)
  {
    hide CheckRun, VerifyRun, Inner;
    var rules := GuardRules();
    InnerPasses(rules, d);
    GuardVerified(d);
    assert LoopRun(rules, TNot(Inner()), d) == Some(false);
    assert WellFormed(rules, GuardSeq(), d) && Checked(GuardSeq(), d) && LoopRun(rules, GuardSeq(), d) == Some(false);
    assert WellFormed(rules, rules[0], d);
    assert Checked(rules[0], d);
    assert LoopRun(rules, rules[0], d) == Some(false);
    assert VerifyRun(rules, rules[0], false, MAXRULES, d).Some?;
  }

  lemma GuardVerified(d: nat)
    requires d > 0
    ensures VerifyRun(GuardRules(), GuardRules()[0], false, MAXRULES, d) == Some(false)
  {
    hide CheckRun;
    var rules, q := GuardRules(), TNot(Inner());
    InnerFacts(rules, d);
    assert VerifyRun(rules, Inner(), true, MAXRULES, d) == Some(false);
    assert VerifyRun(rules, q, false, MAXRULES, d) == Some(false);
    assert VerifyRun(rules, GuardSeq(), false, MAXRULES, d) == Some(false);
  }

  lemma GuardLeftRecursive(d: nat)
    ensures !NoLeftRecursion(TGrammar(GuardRules()), d)
  {
    var rules := GuardRules();
    forall rank: seq<nat> ensures !Ranked(rules, rank, d) {
      assert |rank| == 1 ==> !LeftOk(rules, GuardSeq(), rank, rank[0], d);
    }
  }

  lemma GuardNotKept(d: nat)
    requires d > 0
    ensures !KeptAll(TGrammar(GuardRules()), d)
  {
    var rules := GuardRules();
    InnerFacts(rules, d);
    assert !Kept(rules, TNot(Inner()), false, d);
    assert !Kept(rules, GuardSeq(), false, d);
    assert Used(rules, 0);
  }

  /** This one can be compiled: nothing has to be asked about the call. */
  lemma GuardCompiles()
    ensures CompileEnds(TGrammar(GuardRules()))
  {
    hide Accepted, AnalysesEnd, JumpsEnd, CompileEnds, GenBack;
    var p := TGrammar(GuardRules());
    var e := Nest(p) + 1;
    GuardAccepted(e);
    AcceptedFormed(p, e);
    GuardBack();
    GenBackEnds([], p, 1, e);
    GuardJumps(e);
    CompileEndsExactly(p, e);
  }

  lemma GuardBack()
    ensures GenBack([], TGrammar(GuardRules()), 1)
  {
    hide HeadBack, HeadRun, FirstRun, GuardSeq;
    CharBack(GuardRules());
    GuardSeqBack();
  }

  lemma GuardSeqBack()
    ensures GenBack(GuardRules(), GuardSeq(), 1)
  {
    hide HeadBack, HeadRun, FirstRun;
    InnerBack(GuardRules());
    assert GenBack(GuardRules(), TNot(Inner()), 1);
  }

  lemma CharBack(g: Rules)
    ensures HeadBack(g, TChar(121), 1) && HeadRun(g, TChar(121), 1) == Some(true)
  {
    hide FullSet;
  }

  lemma InnerBack(g: Rules)
    ensures HeadBack(g, Inner(), 1) && HeadRun(g, Inner(), 1) == Some(true) && GenBack(g, Inner(), 1)
  {
    hide FullSet;
    assert HeadRun([TChar(120)], TChar(120), 0) == Some(true);
    assert FirstRun([TChar(120)], TChar(120), FullSet(), 0).Some?;
    assert GenBack([TChar(120)], TChar(120), 1);
  }

  lemma GuardJumps(d: nat)
    ensures JumpsEnd([], TGrammar(GuardRules()), d)
  {
    hide LeadsEnd, LeadOf;
    var rules := GuardRules();
    InnerJumps(rules, d);
    GuardLeads(d);
    assert JumpsEnd(rules, GuardSeq(), d);
  }

  lemma InnerJumps(g: Rules, d: nat)
    ensures JumpsEnd(g, Inner(), d)
  {
    assert Decreasing(RuleLeads([TChar(120)], d), [0]);
  }

  lemma GuardLeads(d: nat)
    ensures LeadsEnd(RuleLeads(GuardRules(), d))
  {
    var rules := GuardRules();
    assert 121 in FirstOf(rules, TChar(121), d).cs;
    assert LeadOf(rules, rules[0], d, Returns) == Stops;
    assert Decreasing(RuleLeads(rules, d), [0]);
  }

  /** But on the subject 'z' it has no answer. */
  lemma {:induction false} GuardNoAnswer(fuel: nat)
    ensures Eval(GuardRules(), GuardRules()[0], [122], 0, fuel) == Out
    decreases fuel
  {
    var rules := GuardRules();
    if fuel > 0 {
      GuardNoAnswer(fuel - 1);
      assert Eval([TChar(120)], TChar(120), [122], 0, fuel - 1) == No;
      assert Eval(rules, Inner(), [122], 0, fuel) == No;
    }
    assert Eval(rules, GuardSeq(), [122], 0, fuel) == Out;
  }
}
