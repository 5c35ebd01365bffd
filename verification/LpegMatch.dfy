/** From a pattern and a subject to the answer: compiling, matching and reading the captures. */
module LpegMatch {
  import opened Basics
  import opened LpegTree
  import opened LpegVm
  import opened LpegCodegen
  import opened LpegCorrect
  import opened LpegLead
  import opened LpegPeephole
  import opened LpegTail
  import opened LpegCompiled
  import opened LpegCompiles
  import opened LpegCaptures
  import opened LpegMachine
  import opened LpegStack
  import C = LpegCompiler

  lemma CompiledStaysWhole(p: Tree, d: nat)
    requires Compilable([], p, d)
    ensures Whole(Compiled(p, d))
  {
    hide Compilable, CompileTree, Whole, PeepFrom;
    CompiledWhole(p, d);
    PeepFromOutcome(CompileTree(p, d, true), 0, [], GaveUp, GaveUp);
  }

  lemma StepsToAnswer(p: Tree, d: nat, subj: Subject, start: nat, fuel: nat) returns (n: nat)
    requires Compilable([], p, d) && start <= |subj| && Eval([], p, subj, start, fuel) != Out
    ensures Steps(Compiled(p, d), subj, Run(0, start, [], []), n) == Answer(Eval([], p, subj, start, fuel))
  {
    hide Compilable, Eval, Compiled, FlatAll, Steps;
    CompiledReaches(p, d, subj, start, fuel);
    n :| Steps(Compiled(p, d), subj, Run(0, start, [], []), n) == Answer(Eval([], p, subj, start, fuel));
  }

  /** The list of captures of an answer can be read back. */
  lemma AnswerReads(p: Tree, d: nat, subj: Subject, start: nat, fuel: nat)
    requires WellFormed([], p, d) && start <= |subj|
    ensures var answer := Eval([], p, subj, start, fuel); answer.Yes? ==>
            Read(FlatAll(answer.caps)) == Some(Reading(answer.caps, []))
  {
    hide WellFormed, Eval, FlatAll, Read, Proper;
    var answer := Eval([], p, subj, start, fuel);
    if answer.Yes? {
      EvalProper([], p, d, subj, start, fuel);
      ReadsBack(answer.caps, start, answer.pos, []);
      assert FlatAll(answer.caps) + [] == FlatAll(answer.caps);
    }
  }

  /** What compiling and matching report is the answer of the pattern. */
  ghost predicate Reports(p: Tree, subj: Subject, start: nat, fuel: nat, r: Outcome, capture: seq<CapEntry>)
    requires start <= |subj|
  {
    match Eval([], p, subj, start, fuel)
    case Out => true
    case No => r == NoMatch
    case Yes(pos, caps) => r == EndsAt(pos) && Read(capture) == Some(Reading(caps, []))
  }

  /** Compiling a pattern, if that comes to an end, and running the code on a subject on which the pattern
      has an answer tells whether it matches, where the match ends, and which captures it makes -- unless the
      run needs more frames than the stack may hold, and then that is what is reported. */
  method CompileAndMatch(p: Tree, d: nat, subj: Subject, start: nat, max: nat)
      returns (r: Outcome, capture: seq<CapEntry>)
    requires WellFormed([], p, d) && CompileRun(p, d).Some? && start <= |subj|
    requires exists fuel: nat :: Eval([], p, subj, start, fuel) != Out
    ensures r == StackOverflow <==> Overruns(CompileRun(p, d).value, subj, start, Limit(max))
    ensures r != StackOverflow ==> forall fuel: nat :: Reports(p, subj, start, fuel, r, capture)
  {
    hide WellFormed, Compilable, CompileRun, Eval, Compiled, FlatAll, Whole, Steps, Read, Overruns;
    RunCompilable(p, d);
    var code := C.Compile(p, d);
    ghost var enough: nat :| Eval([], p, subj, start, enough) != Out;
    CompiledStaysWhole(p, d);
    ghost var n := StepsToAnswer(p, d, subj, start, enough);
    r, capture := Match(code, subj, start, max, n);
    AnswerReads(p, d, subj, start, enough);
    if r != StackOverflow {
      forall fuel: nat ensures Reports(p, subj, start, fuel, r, capture) {
        if Eval([], p, subj, start, fuel) != Out { AnswerUnique(p, subj, start, enough, fuel); }
      }
    }
  }

  /** If the stack may grow large enough, there is room for every pattern on every subject on which it has an
      answer. */
  lemma NoOverflow(p: Tree, d: nat, subj: Subject, start: nat, fuel: nat) returns (max: nat)
    requires WellFormed([], p, d) && CompileRun(p, d).Some?
    requires start <= |subj| && Eval([], p, subj, start, fuel) != Out
    ensures forall m :: max <= m ==> !Overruns(CompileRun(p, d).value, subj, start, Limit(m))
  {
    hide WellFormed, Compilable, CompileRun, Eval, Compiled, FlatAll, Steps, Overruns;
    RunCompilable(p, d);
    var n := StepsToAnswer(p, d, subj, start, fuel);
    max := n + 1;
    forall m | max <= m ensures !Overruns(CompileRun(p, d).value, subj, start, Limit(m)) {
      RoomEnough(Compiled(p, d), subj, start, n, Limit(m));
    }
  }
}
