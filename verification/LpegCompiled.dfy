/** The compiler as a whole: what `compile` produces makes the machine compute the answer of the pattern. */
module LpegCompiled {
  import opened Basics
  import opened LpegTree
  import opened LpegVm
  import opened LpegCodegen
  import opened LpegCorrect
  import opened LpegAnswers
  import opened LpegLead
  import opened LpegLabels
  import opened LpegTail
  import opened LpegPeephole
  import opened LpegChecks
  import opened LpegTotal

  /** The finished program for `p`. */
  ghost function Compiled(p: Tree, d: nat): Code {
    Optimized(CompileTree(p, d, true))
  }

  lemma CompiledWhole(p: Tree, d: nat)
    requires Compilable([], p, d)
    ensures Whole(CompileTree(p, d, true))
    ensures CompileTree(p, d, true) != [] && CompileTree(p, d, true)[0].Inst?
  {
    hide WellFormed, AnalysesEnd, JumpsEnd, Gen, Whole, SettledBut, Settles, Paired, Complete, ShapedBut;
    var tops := CompiledGood(p, d, true);
    var g, c := Gen([], p, false, None, FullSet(), d, true), CompileTree(p, d, true);
    GoodStart(g, tops);
    forall x | InstAt(c, x) ensures Complete(c, x) && Settles(c, x) {
      SettlesWhole(c, tops + [true], x);
      if x < |g| { CompleteWhole(g, tops, x); } else { EndWhole(g); }
    }
    WholeIntro(c);
  }

  lemma EndWhole(g: Code)
    ensures Complete(g + I(IEnd), |g|)
  {
  }

  lemma GoodStart(g: Code, tops: Tops)
    requires ShapedBut(g, tops, 0, {})
    ensures (g + I(IEnd))[0].Inst?
  {
  }

  lemma SettlesWhole(c: Code, tops: Tops, x: int)
    requires SettledBut(c, tops, true, {}) && InstAt(c, x)
    ensures Settles(c, x)
  {
    var n: nat :| EndsAt(c, {}, x, n);
  }

  lemma CompleteWhole(g: Code, tops: Tops, x: int)
    requires ShapedBut(g, tops, 0, {}) && 0 <= x < |g| && g[x].Inst?
    ensures Complete(g + I(IEnd), x)
  {
    var c := g + I(IEnd);
    assert PointOk(g, tops, 0, {}, x);
    if x + 1 < |g| { assert c[x + 1] == g[x + 1]; }
  }

  /** A machine halts in one way only. */
  lemma HaltsOnce(c: Code, subj: Subject, k: Config, h1: Config, h2: Config)
    requires Reaches(c, subj, k, h1) && Reaches(c, subj, k, h2) && !h1.Run? && !h2.Run?
    ensures h1 == h2
  {
    hide Step;
    var m: nat :| Steps(c, subj, k, m) == h1;
    var n: nat :| Steps(c, subj, k, n) == h2;
    if m <= n {
      StepsAdd(c, subj, k, m, n - m);
      StepsStay(c, subj, h1, n - m);
    } else {
      StepsAdd(c, subj, k, n, m - n);
      StepsStay(c, subj, h2, m - n);
    }
  }

  lemma CompiledReaches(p: Tree, d: nat, subj: Subject, s: nat, fuel: nat)
    requires Compilable([], p, d) && s <= |subj| && Eval([], p, subj, s, fuel) != Out
    ensures Reaches(Compiled(p, d), subj, Run(0, s, [], []), Answer(Eval([], p, subj, s, fuel)))
  {
    hide WellFormed, AnalysesEnd, JumpsEnd, Eval, CompileTree, FlatAll, Optimized, Reaches, Whole;
    var c, start := CompileTree(p, d, true), Run(0, s, [], []);
    CompiledWhole(p, d);
    TailCorrect(p, d, subj, s, fuel);
    OptimizedOutcome(c, subj, start, Answer(Eval([], p, subj, s, fuel)));
  }

  /** The compiler is correct: whenever a pattern has an answer, a run of the finished program halts in
      exactly one way: it gives up if the pattern fails, and otherwise ends where the match ends,
      with the captures of the match on its list.  In particular it never gets stuck. */
  lemma CompilerCorrect(p: Tree, d: nat, subj: Subject, s: nat, fuel: nat)
    requires Compilable([], p, d) && s <= |subj| && Eval([], p, subj, s, fuel) != Out
    ensures forall h: Config :: !h.Run? ==>
              (Reaches(Compiled(p, d), subj, Run(0, s, [], []), h) <==> h == Answer(Eval([], p, subj, s, fuel)))
  {
    hide Compilable, Eval, Compiled, FlatAll, Reaches;
    CompiledReaches(p, d, subj, s, fuel);
    var answer := Answer(Eval([], p, subj, s, fuel));
    forall h: Config | !h.Run? && Reaches(Compiled(p, d), subj, Run(0, s, [], []), h) ensures h == answer {
      HaltsOnce(Compiled(p, d), subj, Run(0, s, [], []), h, answer);
    }
  }

  /** A pattern that lptree.c accepts, that is not left recursive, and whose look-behinds do not come back to the
      rules they are in, can be compiled, has an answer for every subject and every starting position, and its
      program gives it. */
  lemma CompilerTotal(p: Tree, d: nat, subj: Subject, s: nat) returns (fuel: nat)
    requires Accepted(p, d) && NoLeftRecursion(p, d) && Stratified(p) && s <= |subj|
    ensures Compilable([], p, d)
    ensures var r := Eval([], p, subj, s, fuel);
            r != Out && forall h: Config :: !h.Run? ==>
                (Reaches(Compiled(p, d), subj, Run(0, s, [], []), h) <==> h == Answer(r))
  {
    hide WellFormed, NoLeftRecursion, Checked, Stratified, AnalysesEnd, JumpsEnd, Eval, Compiled, FlatAll, Reaches;
    StratifiedCompiles(p, d);
    fuel := Terminates(p, d, subj, s);
    CompilerCorrect(p, d, subj, s, fuel);
  }

  /** The answer depends neither on the fuel nor on how deep the analyses look. */
  lemma AnswerUnique(p: Tree, subj: Subject, s: nat, f1: nat, f2: nat)
    requires s <= |subj| && Eval([], p, subj, s, f1) != Out && Eval([], p, subj, s, f2) != Out
    ensures Eval([], p, subj, s, f1) == Eval([], p, subj, s, f2)
  {
    hide Eval;
    if f1 <= f2 { EvalMonotone([], p, subj, s, f1, f2); } else { EvalMonotone([], p, subj, s, f2, f1); }
  }

  /** Nothing the optimizer looks for is left in the finished program. */
  lemma CompiledShort(p: Tree, d: nat)
    requires Compilable([], p, d)
    ensures ShortFrom(Compiled(p, d), 0)
  {
    hide Compilable, CompileTree, Whole, Optimized;
    CompiledWhole(p, d);
    OptimizedShort(CompileTree(p, d, true));
  }
}
