/** When compiling comes to an end, and with what program. */
module LpegEnds {
  import opened Basics
  import opened LpegTree
  import opened LpegVm
  import opened LpegCodegen
  import opened LpegRuns
  import opened LpegAnswers
  import opened LpegNest
  import opened LpegCorrect
  import opened LpegLead
  import opened LpegTail
  import opened LpegTotal
  import opened LpegPeephole
  import opened LpegDepth
  import opened LpegCompiled
  import opened LpegCompiles

  /** Where there is no left recursion, `checkaux` and `headfail` always come back, and within so many nested calls. */
  lemma AlwaysBack(g: Rules, p: Tree, ask: Ask, rank: seq<nat>, top: nat, m: nat, d: nat)
    requires !ask.AskFirst? && Upstanding(g, rank, top, d) && Upright(g, p, d)
    requires Fits(g, p, m) && 2 * |g| + m <= d
    ensures Back(g, p, ask, 2 * |g| + m)
  {
    hide Upstanding, Upright, Fits, Back, WayEnds;
    LeftEnds(g, p, ask, rank, top, d);
    BackAt(g, p, ask, m, d);
    BackWithin(g, p, ask, d, m);
  }

  /** A run of the compiler that comes to an end shows, at every greater depth, that the tree can be
      compiled, and returns its program. */
  lemma RunShows(p: Tree, n: nat, e: nat)
    requires CompileRun(p, n).Some? && n <= e && WellFormed([], p, e)
    ensures Compilable([], p, e) && CompileRun(p, n) == Some(Compiled(p, e))
  {
    hide Gen, WellFormed, Compilable, GenBack, PeepRun, Compiled, SameLeads;
    GenBackMore([], p, n, e);
    BackAgrees([], p, n, e);
    SameProgram(p, e, n);
    PeepMore(CompileTree(p, n, true), 0, n, e);
    RunCompilable(p, e);
  }

  lemma SameProgram(p: Tree, d: nat, m: nat)
    requires Agree([], p, d, m)
    ensures CompileTree(p, d, true) == CompileTree(p, m, true) && Compiled(p, d) == Compiled(p, m)
    ensures JumpsEnd([], p, d) <==> JumpsEnd([], p, m)
  {
    hide Gen, JumpsEnd, Optimized;
  }

  /** Whatever program the compiler returns is right: it halts in one way only, with the answer of the
      pattern, whenever there is one. */
  lemma ReturnedCorrect(p: Tree, d: nat, n: nat, subj: Subject, s: nat, fuel: nat)
    requires WellFormed([], p, d) && CompileRun(p, n).Some?
    requires s <= |subj| && Eval([], p, subj, s, fuel) != Out
    ensures forall h: Config :: !h.Run? ==>
              (Reaches(CompileRun(p, n).value, subj, Run(0, s, [], []), h) <==> h == Answer(Eval([], p, subj, s, fuel)))
  {
    hide WellFormed, Compilable, CompileRun, Eval, Compiled, FlatAll, Reaches;
    var e := Max(d, n);
    WellFormedSharper([], p, d, e);
    RunShows(p, n, e);
    CompilerCorrect(p, e, subj, s, fuel);
  }

  lemma CompilableRuns(p: Tree, e: nat)
    requires Compilable([], p, e) && e >= Nest(p)
    ensures CompileEnds(p)
  {
    hide Gen, WellFormed, AnalysesEnd, JumpsEnd, GenBack, PeepRun, Whole, SameLeads, Optimized;
    AnalysesBack([], p, Nest(p), e);
    CompiledWhole(p, e);
    var k := PeepBack(CompileTree(p, e, true), 0);
    var n := Max(e, k);
    GenBackMore([], p, e, n);
    BackAgrees([], p, e, n);
    SameProgram(p, n, e);
    assert CompileRun(p, n).Some?;
  }

  lemma RunsCompilable(p: Tree, n: nat, e: nat)
    requires CompileRun(p, n).Some? && WellFormed([], p, e) && e >= Nest(p)
    ensures Compilable([], p, e) && CompileRun(p, n) == Some(Compiled(p, e))
  {
    hide WellFormed, AnalysesEnd, JumpsEnd, GenBack, PeepRun, Compiled, CompileTree, SameCode, SameLeads;
    var last := Max(n, e);
    WellFormedSharper([], p, e, last);
    RunShows(p, n, last);
    GenBackMore([], p, n, last);
    GenBackSoon([], p, last, Nest(p), e);
    GenBackEnds([], p, e, e);
    BackAgrees([], p, e, last);
    SameProgram(p, last, e);
  }

  /** For every well-formed pattern: the compiler comes to an end if and only if the pattern can be compiled, which is
      read off its trees at any depth from `Nest(p)` on; and the program that it then returns is the one at that
      depth. */
  lemma CompileEndsExactly(p: Tree, e: nat)
    requires WellFormed([], p, e) && e >= Nest(p)
    ensures Compilable([], p, e) <==> CompileEnds(p)
    ensures forall n: nat :: CompileRun(p, n).Some? ==> CompileRun(p, n) == Some(Compiled(p, e))
  {
    hide Compilable, CompileRun, Compiled, WellFormed;
    if Compilable([], p, e) { CompilableRuns(p, e); }
    forall n: nat | CompileRun(p, n).Some? ensures Compilable([], p, e) && CompileRun(p, n) == Some(Compiled(p, e)) {
      RunsCompilable(p, n, e);
    }
  }
}
