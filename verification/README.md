# Verified kernels of skynet and pysproto

Four parts of this repository hide intricate invariants behind a few hundred lines of C:

* **The LPeg compiler and its virtual machine** (`skynet/3rd/lpeg/lpcode.c`, `lpvm.c`). A pattern tree becomes jump code.
  The generator drops choice points wherever an analysis (nullable, nofail, first sets, follow sets, headfail, fixed
  length) lets it, reuses the choice of an enclosing option, replaces calls by jumps, and hands the code to a peephole
  optimizer.
* **The timing wheel** (`skynet/skynet-src/skynet_timer.c`). 256 near lists and four levels of 64 lists over a 32-bit
  clock that wraps around.
* **The actor scheduler** (`skynet_mq.c`, `skynet_server.c`, `skynet_handle.c`). Two flags and a reference count decide who
  owns a message queue, when a context is deleted and who frees what is left.
* **The zero-packing of sproto** (`3rd/pysproto/pysproto/sproto.c`).

For each of them there is a plain description of what it is for, the algorithm as the C code has it -- step by step, on
mutable arrays and objects where the C code changes things in place -- and a proof that the second does what the first says.

## Main results

* `LpegCompiled.CompilerCorrect`: for every pattern (captures, grammars and look-behinds that call rules included), every
  subject and start position, whenever the pattern has an answer the compiled, optimized program halts in exactly one
  way: it gives up if the pattern fails, and otherwise ends where the match ends with the captures of the match on its
  list. `LpegMatch.CompileAndMatch` says the same of the imperative compiler followed by the interpreter loop, that the
  list of captures can be read back, and when exactly the loop reports that its stack is full. `LpegCompiled.CompilerTotal`
  says when there always is an answer.
* `LpegEnds.CompileEndsExactly`: for every pattern that lptree.c can build, compiling -- each analysis following calls
  without a bound, and the optimizer chains of jumps -- comes to an end if and only if a condition holds that is read off
  the rules, and then returns the program that the other results are about. `LpegNest.BackWithin` bounds the nested calls
  that an analysis needs, if it comes back at all, by the sizes of the grammars.
* `LpegWays`: the analyses are exact. A match goes along a way through its tree, and nullable, nofail, fixed lengths, first
  sets and captures are neither more nor less than what can be read off the ways.
* `LpegVerify.AcceptedExactly`: the checks of lptree.c let a pattern pass if and only if its grammars can be ranked as
  `verifyrule` goes through them and its loops consume; `VerifiedAgrees`: such a ranking is the absence of left
  recursion as long as no inner grammar that consumes is the body of a loop or a predicate there. The checks of lptree.c
  imply neither that matching comes to an answer nor that compiling comes to an end: `LpegLeftCall` has `A <- G* A` and
  `A <- 'y' / !G A`, which are left recursive and pass them, the first of which never compiles; `LpegSelfCall` has two
  grammars that are not left recursive and never compile, because look-behinds lead back to the rules they are in.
* `TimerWheel.Timers.TimerUpdate` refines `TimerQueue.Queue.Tick`, a list of timers with their times; and
  `TimerQueue.FiresExactly` says that over any number of ticks, what is fired in each of them is what has been asked for, at
  any time, and is due then, in the order in which it was asked for, and nothing else.
* `SchedulerRuns.OneOwner`, `NeverStranded`, `OneWorker`, `Conservation`, `DeletedLast` and `NoLateSend` hold in every
  interleaving of any number of threads. `NeverUnsafe` says that a step touches nothing that is freed or not set up,
  unless it is one of two, and when exactly those go wrong: `skynet_context_new` registers a service before it has a
  queue, and uses it once more after giving back its reference. `SchedulerLaunch` has a run for each and shows that
  `PatientSafe` runs, in which nobody interferes with a launch, have neither. `SchedulerTraffic.Delivered` follows every
  message that a run sends, `SchedulerTurns.TurnDispatches` counts what one turn of a worker dispatches, and
  `SchedulerProgress.WaitingDispatched` says that one idle worker, all by itself, gets to every waiting message.
* `SprotoPacking.RoundTrip` says exactly when unpacking undoes packing, and `SizeBound` that the buffer pysproto
  allocates always suffices.

## How it is organised

| files | contents |
|---|---|
| `LpegTree`, `LpegVm` | patterns and what matching them means; instructions and the machine, one step at a time |
| `LpegAnalysis`, `LpegWays`, `LpegRuns`, `LpegDepth` | the static analyses, their soundness and their exactness; how they run, and that looking deeper ends up changing nothing |
| `LpegCodegen`, `LpegCorrect`, `LpegCases`, `LpegShapes`, `LpegLayout`, `LpegTheorem` | the generated code as a value, and the proof that each fragment delivers the answer of its tree |
| `LpegLabels`, `LpegLead`, `LpegGrammars`, `LpegGood`, `LpegTail` | labels lead to instructions, where chains of jumps lead and when they end; tail calls change nothing |
| `LpegPeephole`, `LpegChecks`, `LpegTotal`, `LpegCompiled` | the optimizer, the checks of lptree.c, termination of matching, the compiler as a whole |
| `LpegAnswers`, `LpegNest`, `LpegCompiles`, `LpegEnds` | when the analyses come back and after how many nested calls, and when compiling comes to an end |
| `LpegVerify`, `LpegLeftCall`, `LpegSelfCall` | what the checks of lptree.c let pass, and grammars that get through |
| `LpegCharset`, `LpegWalk`, `LpegLinker`, `LpegCompiler`, `LpegStack`, `LpegMachine`, `LpegCaptures`, `LpegMatch` | the imperative compiler and interpreter against those values |
| `TimerQueue`, `TimerPlaces`, `TimerWheel` | what timers are for; the arithmetic of the wheel; the wheel |
| `SchedulerModel`, `SchedulerProof`, `SchedulerRuns`, `SchedulerLaunch` | the state machine, its invariant, what it promises, and when launching a service is safe |
| `SchedulerTraffic`, `SchedulerTurns`, `SchedulerProgress` | what becomes of each message, what a worker does in one turn, and that workers get to every message |
| `SchedulerQueues`, `SchedulerHandles` | the ring buffer, the linked global list and the handle table behind its steps |
| `SprotoPacking`, `SprotoTruncated`, `SprotoPacker` | packing as a function of the bytes; input that has been cut off; the loops over buffers |
| `Basics` | what several parts share |

A pattern is `WellFormed` if it is what the constructors of lptree.c build; that is all the proof of its code asks for.
`Accepted` adds what lptree.c checks of loops and of grammars, with `verifyrule` and `checkloops` as they are written. These
checks find out less than what they are for, so that is stated apart. `NoLeftRecursion` ranks the rules so that a call that can
be reached without consuming goes to a rule of smaller rank. The check for it takes the return value of `verifyrule` for "can
match without consuming", which is wrong where an inner grammar is the body of a loop or a predicate (`LpegVerify`). Nor does
it enter look-behinds: `Stratified` patterns have levels, which look-behinds go down. If a pattern is `Accepted`, has
`NoLeftRecursion` and is `Stratified`, matching always comes to an answer. `AnalysesEnd` and `JumpsEnd` make a pattern
`Compilable`: `checkaux`, `headfail` and `getfirst`, which does enter look-behinds, come back whenever the generator asks them,
and all chains of jumps end. `NoLeftRecursion` implies that the first two come back, and with `Stratified` it implies all of
it. Analyses are functions with a bound `d` on nested calls; `LpegRuns` has them with "not come back yet" as an outcome, and
whatever comes back is what those functions say.

The compiler proof goes in stages. `LpegTheorem.GenDelivers` is the induction on trees: a fragment run in any context
reaches its end with the right position and captures -- or fails early, but then on a character outside the follow set it
was generated with, so that what comes next would have failed anyway; or, inside an optional pattern, it has taken the
exit that the option would take. It speaks of code in which calls stay calls. `LpegTail.TailCorrect` relates that code to
the one with tail calls by a simulation that erases the frames which only return, and `LpegPeephole.OptimizedOutcome` takes
the optimizer into account. The imperative generator is proved to append exactly those fragments, back-patched labels
included.

The scheduler's invariant counts, for each handle, what the threads hold: references, ownership of the queue, deletions in
progress. It is local to one handle, so a step is checked against the one or two handles that it touches.

## Model

| member | source | states |
|---|---|---|
| LpegTree.EvalMonotone | skynet/3rd/lpeg/lpeg.html:211-510 | an answer of a match, once there is one, does not depend on how long the matching semantics is allowed to run |
| LpegAnalysis.NullableSound | skynet/3rd/lpeg/lpcode.c:196-230 | a tree that is not nullable never matches without consuming |
| LpegAnalysis.NoFailSound | skynet/3rd/lpeg/lpcode.c:196-230 | a nofail tree never fails |
| LpegAnalysis.FixedLenSound | skynet/3rd/lpeg/lpcode.c:236-273 | every match of a tree with a fixed length consumes exactly that length |
| LpegAnalysis.FirstSound | skynet/3rd/lpeg/lpcode.c:294-370 | a match at the end of the subject needs the empty flag; a character on which the tree matches, consuming it or leaving it to a follower that accepts it, is in the first set |
| LpegAnalysis.NoFailFirst | skynet/3rd/lpeg/lpcode.c:294-370 | under a full follow set the first set of a nofail tree is full, and nofail implies nullable |
| LpegAnalysis.HeadFailSound | skynet/3rd/lpeg/lpcode.c:377-399 | a headfail tree has first-set result 0 and, with full follow, matches exactly when the next character is in its first set |
| LpegAnalysis.HasCapturesSound | skynet/3rd/lpeg/lpcode.c:133-175 | a tree in which the search, which visits each rule once, finds no capture makes none |
| LpegWays.MatchWay | skynet/3rd/lpeg/lpeg.html:211-510 | every match goes along a way through its tree, the parts of which match one after the other |
| LpegWays.CheckExactly | skynet/3rd/lpeg/lpcode.c:196-230 | a tree is nullable, or nofail, if and only if it has a way all parts of which are |
| LpegWays.FixedExactly | skynet/3rd/lpeg/lpcode.c:236-273 | a tree has a fixed length if and only if no way through it has a repetition or a call that is not followed and on all ways that many characters are consumed; otherwise the answer is -1 |
| LpegWays.FirstExactly | skynet/3rd/lpeg/lpcode.c:294-370 | a character is in the first set if and only if some way lets it come next |
| LpegWays.EmptyExactly | skynet/3rd/lpeg/lpcode.c:294-370 | the result of getfirst is not 0 if and only if some way may be gone at the end of the subject |
| LpegWays.HeadExactly | skynet/3rd/lpeg/lpcode.c:377-399 | a tree is headfail if and only if all parts that can come first are characters or sets, or fail, and everything behind them is nofail |
| LpegWays.CapturesExactly | skynet/3rd/lpeg/lpcode.c:133-175 | the search for captures, which visits each rule once, finds one if and only if there is one to be found by following calls any number of times |
| LpegDepth.CheckSharper | skynet/3rd/lpeg/lpcode.c:196-230 | following more calls can only remove nullable answers and add nofail answers |
| LpegDepth.FirstSettles | skynet/3rd/lpeg/lpcode.c:294-370 | in a grammar without left recursion there is for every tree a depth of calls from which on first sets stay the same, whatever the follow set |
| LpegDepth.AcceptedSharper | skynet/3rd/lpeg/lptree.c:952-1062 | a pattern whose checks have all passed within some number of nested calls passes them with every greater number |
| LpegDepth.NoLeftRecursionSharper | skynet/3rd/lpeg/lptree.c:992-1042 | a pattern that is not left recursive when calls are followed to some depth is not at any greater depth |
| LpegDepth.BackAgrees | skynet/3rd/lpeg/lpcode.c:919-944 | from the depth on at which the analyses made for the code of a tree have come back, the same code is generated, and chains of jumps lead to the same places |
| LpegRuns.CheckRunIs | skynet/3rd/lpeg/lpcode.c:196-230 | a run of checkaux that comes back gives the answer that the analysis has at every greater depth |
| LpegRuns.LenRunIs | skynet/3rd/lpeg/lpcode.c:236-273 | fixedlen, which gives up on calls that it is following already, gives the answer of the analysis, which LpegWays.FixedExactly pins down |
| LpegRuns.CapRunIs | skynet/3rd/lpeg/lpcode.c:133-175 | a run of hascaptures that comes back gives the answer of the analysis |
| LpegRuns.FirstRunIs | skynet/3rd/lpeg/lpcode.c:294-370 | a run of getfirst that comes back, look-behinds and negations entered, gives the answer of the analysis |
| LpegRuns.HeadRunIs | skynet/3rd/lpeg/lpcode.c:377-399 | a run of headfail that comes back gives the answer of the analysis |
| LpegAnswers.BackEnds | skynet/3rd/lpeg/lpcode.c:196-399 | if checkaux, headfail or getfirst comes back, the rules that it goes through can be ranked, and so can those of the questions that it puts to checkaux |
| LpegAnswers.GenBackEnds | skynet/3rd/lpeg/lpcode.c:677-944 | if all analyses made for the code of a tree come back, AnalysesEnd holds of it |
| LpegNest.EndsBack | skynet/3rd/lpeg/lpcode.c:196-399 | if the rules that checkaux, headfail or getfirst goes through can be ranked, it comes back, within a number of nested calls that depends on the sizes of the grammars only |
| LpegNest.BackWithin | skynet/3rd/lpeg/lpcode.c:196-399 | if one of them comes back at all, it does so within that number of nested calls |
| LpegNest.AnalysesBack | skynet/3rd/lpeg/lpcode.c:677-944 | if AnalysesEnd holds of a tree at such a depth, all analyses made for its code have come back there |
| LpegNest.GenBackSoon | skynet/3rd/lpeg/lpcode.c:677-944 | if all analyses made for the code of a tree come back at all, they have come back at such a depth |
| LpegTotal.LeftEnds | skynet/3rd/lpeg/lpcode.c:196-230 | without left recursion the rules that checkaux or headfail goes through can be ranked, from every tree |
| LpegEnds.AlwaysBack | skynet/3rd/lpeg/lpcode.c:377-399 | so checkaux and headfail always come back there, within that many nested calls |
| LpegNest.LengthAlwaysBack | skynet/3rd/lpeg/lpcode.c:133-146 | in every well-formed tree fixedlen and hascaptures come back, because they mark the calls that they follow |
| LpegCompiles.EndlessPeep | skynet/3rd/lpeg/lpcode.c:956-995 | if some chain of jumps has no end, peephole does not come to an end |
| LpegCompiles.PeepBack | skynet/3rd/lpeg/lpcode.c:956-995 | if all chains of jumps end, peephole comes to an end, with the optimized program |
| LpegCompiles.EndlessCode | skynet/3rd/lpeg/lpcode.c:919-944 | the code of a tree that does not meet JumpsEnd has a chain of jumps without end |
| LpegEnds.CompileEndsExactly | skynet/3rd/lpeg/lpcode.c:1001-1010 | for every well-formed pattern, left recursive or not, compiling comes to an end if and only if the pattern is Compilable, which is read off its trees at any depth from the size of its grammars on, and then returns the program at that depth |
| LpegEnds.ReturnedCorrect | skynet/3rd/lpeg/lpcode.c:1001-1010 | whatever program compiling returns halts in exactly one way, with the answer of the pattern, whenever there is one |
| LpegChecks.BehindExactly | skynet/3rd/lpeg/lptree.c:675-691 | a look-behind can be built if and only if on all ways through its body the same number of characters is consumed, 255 at most, and no capture can be found in it, its calls being open |
| LpegCorrect.BehindFixed | skynet/3rd/lpeg/lptree.c:675-691 | the length of a look-behind, recorded while its calls are open, is right when they are closed |
| LpegCorrect.BehindQuiet | skynet/3rd/lpeg/lptree.c:675-691 | a look-behind in which no capture was found while its calls were open makes none, whatever the rules it calls capture |
| LpegCases.SeqDelivers | skynet/3rd/lpeg/lpcode.c:899-911 | two fragments that deliver, one after the other, deliver the sequence; an early failure of the first is one of the second |
| LpegCases.ChoiceByTestDelivers | skynet/3rd/lpeg/lpcode.c:677-693 | a choice without a choice point, when the first sets exclude each other or the first part can only fail on its first character |
| LpegCases.OptionReuseDelivers | skynet/3rd/lpeg/lpcode.c:694-698 | an optional part at the end of an optional pattern needs no choice of its own |
| LpegCases.ChoiceDelivers | skynet/3rd/lpeg/lpcode.c:699-711 | the ordinary choice |
| LpegCases.SpanDelivers | skynet/3rd/lpeg/lpcode.c:777-783 | one span instruction does what repeating a charset does |
| LpegCases.RepByTestDelivers | skynet/3rd/lpeg/lpcode.c:784-793 | a loop without a choice point |
| LpegTheorem.RepCase | skynet/3rd/lpeg/lpcode.c:794-812 | a loop that keeps one choice point, or the one of the option around it, up to date by partial commits |
| LpegCases.NotDelivers | skynet/3rd/lpeg/lpcode.c:823-837 | a failing body goes on after the predicate, a matching one fails twice; neither leaves captures |
| LpegTheorem.NotCase | skynet/3rd/lpeg/lpcode.c:823-837 | a predicate whose body can only fail on its first character needs a test only |
| LpegCases.AndDelivers | skynet/3rd/lpeg/lpcode.c:720-736 | a predicate goes back to where it started and drops its captures |
| LpegCases.AndByLengthDelivers | skynet/3rd/lpeg/lpcode.c:720-726 | a predicate of fixed length without captures steps back instead |
| LpegCases.BehindDelivers | skynet/3rd/lpeg/lpcode.c:659-663 | a look-behind matches its body that many characters back, or fails at the start of the subject |
| LpegCases.FullCaptureDelivers | skynet/3rd/lpeg/lpcode.c:745-757 | a short capture of fixed length is one entry, made afterwards |
| LpegCases.OpenCaptureDelivers | skynet/3rd/lpeg/lpcode.c:745-757 | any other capture is opened and closed; closing merges the two entries if nothing came between and the length fits in a byte |
| LpegCases.CallDelivers | skynet/3rd/lpeg/lpcode.c:887-891 | a call delivers what the rule does |
| LpegTheorem.RulesInScope | skynet/3rd/lpeg/lpcode.c:868-884 | inside the code of a grammar every open call, once linked, leads to the code of its rule |
| LpegTheorem.GenDelivers | skynet/3rd/lpeg/lpcode.c:677-944 | every fragment, in every context -- any stack, any position, any protecting test that has passed, any follow set, optional or not -- delivers the answer of its tree, or fails early on a character that the follow set excludes |
| LpegLead.GenLeads | skynet/3rd/lpeg/lpcode.c:641-645 | the chain of jumps from the start of a fragment leads where its tree says: past it, to an instruction, or to a tail call |
| LpegLead.LeadCall | skynet/3rd/lpeg/lpcode.c:844-861 | a call is a tail call if and only if the chain of jumps after it leads to a return |
| LpegGrammars.LinkSettles | skynet/3rd/lpeg/lpcode.c:844-861 | in the linked body of a grammar every chain of jumps comes to an end if and only if going from rule to rule by the tail calls at their starts does |
| LpegGrammars.LinkPaired | skynet/3rd/lpeg/lpcode.c:844-861 | linking turns into jumps only calls that are followed by a return |
| LpegGood.GenGood | skynet/3rd/lpeg/lpcode.c:919-944 | in all generated code instructions are complete and followed by others, labels lead to instructions, chains of jumps end -- those outside inner grammars always, all of them if the pattern meets JumpsEnd -- and the code with tail calls differs from the plain one only in calls followed by a return |
| LpegGood.GrammarSettles | skynet/3rd/lpeg/lpcode.c:641-645 | linking the rules of a grammar leaves no endless chain of jumps if and only if the leads of its rules, read off their trees, end |
| LpegTail.PlainCorrect | skynet/3rd/lpeg/lpcode.c:919-944 | the unoptimized program without tail calls computes the answer of the pattern |
| LpegTail.StepSimulated | skynet/3rd/lpeg/lpcode.c:844-861 | from states that differ only in frames which just return, one step of the code that calls is matched by some steps of the code that jumps |
| LpegTail.TailCorrect | skynet/3rd/lpeg/lpcode.c:844-861 | the program with tail calls computes the answer of the pattern |
| LpegLabels.FinalTargetStops | skynet/3rd/lpeg/lpcode.c:641-653 | the final target is where the chain of jumps stops |
| LpegPeephole.PeepedOutcome | skynet/3rd/lpeg/lpcode.c:956-995 | redirecting one label, or replacing one jump by the instruction it leads to, changes no outcome in either direction |
| LpegPeephole.OptimizedOutcome | skynet/3rd/lpeg/lpcode.c:956-995 | from every instruction boundary, with every stack of boundaries, the optimized program halts in a state if and only if the original does |
| LpegPeephole.OptimizedShort | skynet/3rd/lpeg/lpcode.c:956-995 | after one pass every label leads past all jumps and no jump is left that could be replaced |
| LpegChecks.LoopRunExactly | skynet/3rd/lpeg/lptree.c:952-969 | a checkloops that has come back returns 1 if and only if some loop outside inner grammars has a nullable body |
| LpegChecks.StarRunExactly | skynet/3rd/lpeg/lptree.c:572-603 | when a loop is built, its body counts as nullable if and only if it is with its calls failing |
| LpegChecks.AcceptedLoops | skynet/3rd/lpeg/lptree.c:572-603 | in a pattern that passes the checks no loop has a nullable body, outside grammars because lp_star has asked, in the used rules of grammars because checkloops has |
| LpegVerify.VerifyRunIs | skynet/3rd/lpeg/lptree.c:1002-1042 | a run of verifyrule that comes back without an error returns what following calls to every greater depth gives |
| LpegVerify.PassesNullable | skynet/3rd/lpeg/lptree.c:1002-1042 | verifyrule returns 1 only if nb is set or the pattern is nullable |
| LpegVerify.KeptPasses | skynet/3rd/lpeg/lptree.c:1002-1042 | and in all these cases, if every grammar that it meets with nb set is nullable |
| LpegVerify.VerifiedExactly | skynet/3rd/lpeg/lptree.c:1045-1052 | for every grammar: the check for left recursion passes it, within however many nested calls, if and only if it has at most MAXRULES rules and its used rules can be ranked as verifyrule goes through them, by its own return value |
| LpegVerify.NotLeftRecursiveVerified | skynet/3rd/lpeg/lptree.c:1045-1052 | a grammar that is not left recursive, outside and inside, passes the check |
| LpegVerify.VerifiedAgrees | skynet/3rd/lpeg/lptree.c:1038-1039 | if every grammar that verifyrule meets with nb set is nullable, a grammar passes the check if and only if it is not left recursive |
| LpegVerify.AcceptedKept | skynet/3rd/lpeg/lptree.c:952-1062 | a pattern that passes all checks of lptree.c is not left recursive, if every grammar that verifyrule meets with nb set is nullable |
| LpegVerify.AcceptedExactly | skynet/3rd/lpeg/lptree.c:952-1062 | for every well-formed pattern: it passes all checks of lptree.c, within however many nested calls, if and only if each grammar in it has at most MAXRULES rules, ranked as verifyrule goes through them, and all loops consume, those of used rules also when calls are closed |
| LpegVerify.ProperAccepted | skynet/3rd/lpeg/lptree.c:952-1062 | a well-formed pattern that is not left recursive, without loops that need not consume and without grammars that are too large, passes all checks |
| LpegTotal.UnusedRanked | skynet/3rd/lpeg/lptree.c:1045-1052 | rules that are not used, which the check skips, can be ranked above all others: a grammar whose used rules are not left recursive is not left recursive |
| LpegTotal.Terminates | skynet/3rd/lpeg/lptree.c:952-1062 | a pattern that passes the checks of lptree.c has an answer on every subject, if it is not left recursive and look-behinds lead to rules of lower levels only; rules that are not used may have empty loops |
| LpegTotal.StratifiedCompiles | skynet/3rd/lpeg/lptree.c:1002-1042 | a well-formed pattern that is not left recursive and whose look-behinds lead to lower levels only can be compiled: all analyses come back wherever they are called, and no grammar makes an endless chain of jumps |
| LpegLeftCall.StarAccepted | skynet/3rd/lpeg/lptree.c:1010-1039 | the grammar A <- G* A with G <- 'x', an inner grammar, passes all checks of lptree.c |
| LpegLeftCall.StarLeftRecursive | skynet/3rd/lpeg/lptree.c:992-1000 | although it is left recursive |
| LpegLeftCall.StarNotKept | skynet/3rd/lpeg/lptree.c:1038-1039 | verifyrule meets G with nb set, and G is not nullable |
| LpegLeftCall.StarStratified | skynet/3rd/lpeg/lptree.c:1010-1011 | and it has levels, having no look-behinds |
| LpegLeftCall.StarNeverCompiles | skynet/3rd/lpeg/lpcode.c:899-911 | compiling it never comes to an end: codeseq1 asks getfirst about the call |
| LpegLeftCall.StarNoAnswer | skynet/3rd/lpeg/lpeg.html:211-510 | matching it never comes to an answer, on any subject, from any position |
| LpegLeftCall.GuardAccepted | skynet/3rd/lpeg/lptree.c:1010-1039 | the grammar A <- 'y' / !G A passes all checks of lptree.c |
| LpegLeftCall.GuardLeftRecursive | skynet/3rd/lpeg/lptree.c:992-1000 | although it is left recursive, too |
| LpegLeftCall.GuardNotKept | skynet/3rd/lpeg/lptree.c:1038-1039 | verifyrule goes into !G, where it meets G with nb set |
| LpegLeftCall.GuardCompiles | skynet/3rd/lpeg/lpcode.c:823-837 | compiling this one comes to an end |
| LpegLeftCall.GuardNoAnswer | skynet/3rd/lpeg/lpeg.html:211-510 | but on 'z' matching it never comes to an answer |
| LpegSelfCall.SelfAccepted | skynet/3rd/lpeg/lptree.c:1010-1011 | a rule that calls itself inside a look-behind of length 0 passes all checks of lptree.c, and is not left recursive |
| LpegSelfCall.SelfNeverSettles | skynet/3rd/lpeg/lpcode.c:641-645 | its linked code is a jump to itself, from which finaltarget never comes back |
| LpegSelfCall.SelfLead | skynet/3rd/lpeg/lpcode.c:844-861 | the lead of that rule is the rule itself, which the condition excludes |
| LpegSelfCall.SelfNeverCompiles | skynet/3rd/lpeg/lpcode.c:1001-1010 | so compiling that rule never comes to an end |
| LpegSelfCall.SelfNoAnswer | skynet/3rd/lpeg/lpeg.html:211-510 | matching that rule never comes to an answer either |
| LpegSelfCall.LateAccepted | skynet/3rd/lpeg/lptree.c:1010-1011 | the grammar A <- 'y' / (B(#A) / 'x') passes all checks of lptree.c, and is not left recursive |
| LpegSelfCall.LateJumps | skynet/3rd/lpeg/lpcode.c:641-645 | all chains of jumps in its code would end |
| LpegSelfCall.LateFirst | skynet/3rd/lpeg/lpcode.c:362-366 | but getfirst, asked about its inner choice, goes through the look-behind back to the rule that it is in |
| LpegSelfCall.LateNeverCompiles | skynet/3rd/lpeg/lpcode.c:681-683 | so compiling it never comes to an end |
| LpegSelfCall.LateAnswer | skynet/3rd/lpeg/lpeg.html:211-510 | although it matches 'y' |
| LpegSelfCall.OtherAccepted | skynet/3rd/lpeg/lptree.c:675-691 | a look-behind that calls another rule is accepted, in a grammar that is not left recursive |
| LpegSelfCall.OtherStratified | skynet/3rd/lpeg/lptree.c:675-691 | and is stratified |
| LpegCompiled.HaltsOnce | skynet/3rd/lpeg/lpvm.c:149-360 | a machine halts in one way only |
| LpegCompiled.AnswerUnique | skynet/3rd/lpeg/lpvm.c:149-360 | a pattern has one answer only |
| LpegCompiled.CompilerCorrect | skynet/3rd/lpeg/lpcode.c:1001-1010 | for every pattern that can be compiled -- the analyses come back and chains of jumps end -- and every subject and position for which it has an answer, the compiled program halts in exactly one way: gives up if the pattern fails, otherwise ends at the end of the match with its captures |
| LpegCompiled.CompilerTotal | skynet/3rd/lpeg/lpcode.c:1001-1010 | a pattern that passes the checks of lptree.c, is not left recursive and has stratified look-behinds can be compiled, has an answer for every subject and position, and its program gives it |
| LpegCompiled.CompiledShort | skynet/3rd/lpeg/lpcode.c:1001-1010 | nothing the optimizer looks for is left in a compiled program |
| LpegCharset.BitsRoundTrip | skynet/3rd/lpeg/lptypes.h:87-143 | nothing is lost by keeping a charset as 32 bytes of bits |
| LpegCharset.CharsetTypeOf | skynet/3rd/lpeg/lpcode.c:41-82 | the loop over the 32 bytes tells empty, full, singleton (and which character) and other sets apart |
| LpegWalk.GenWalks | skynet/3rd/lpeg/lpcode.c:438-447 | going through generated code by instruction sizes meets instructions only |
| LpegWalk.WalkMeets | skynet/3rd/lpeg/lpcode.c:438-447 | and misses none of them |
| LpegLinker.TailCallSeen | skynet/3rd/lpeg/lpcode.c:844-861 | while calls are being closed one by one, whether the next one is a tail call can be read off the half-linked code |
| LpegLinker.BodyLinkable | skynet/3rd/lpeg/lpcode.c:868-884 | the rules of every well-formed grammar have what closing their calls needs |
| LpegCompiler.CompileState.ReallocCode | skynet/3rd/lpeg/lpcode.c:471-480 | growing the code array keeps the code |
| LpegCompiler.CompileState.NextInstruction | skynet/3rd/lpeg/lpcode.c:483-488 | one more element, the code so far unchanged |
| LpegCompiler.CompileState.AddOffsetInst | skynet/3rd/lpeg/lpcode.c:505-510 | appends an instruction and room for its label |
| LpegCompiler.CompileState.JumpToThere | skynet/3rd/lpeg/lpcode.c:543-546 | sets the label of an earlier instruction and nothing else; does nothing for NOINST |
| LpegCompiler.CompileState.CodeChar | skynet/3rd/lpeg/lpcode.c:561-567 | a character that the protecting test has checked becomes any |
| LpegCompiler.CompileState.CodeCharset | skynet/3rd/lpeg/lpcode.c:588-605 | the instruction for the type of the set, or any behind a test for the same set |
| LpegCompiler.CompileState.CodeTestSet | skynet/3rd/lpeg/lpcode.c:614-635 | a test whose label is still open, or none if the empty string must pass |
| LpegCompiler.CompileState.CodeChoice | skynet/3rd/lpeg/lpcode.c:677-712 | appends the fragment for a choice |
| LpegCompiler.CompileState.CodeAnd | skynet/3rd/lpeg/lpcode.c:720-736 | appends the fragment for an and-predicate |
| LpegCompiler.CompileState.CodeCapture | skynet/3rd/lpeg/lpcode.c:745-757 | appends the fragment for a capture |
| LpegCompiler.CompileState.CodeRep | skynet/3rd/lpeg/lpcode.c:777-813 | appends the fragment for a repetition |
| LpegCompiler.CompileState.CodeNot | skynet/3rd/lpeg/lpcode.c:823-837 | appends the fragment for a not-predicate |
| LpegCompiler.CompileState.FindFinalTarget | skynet/3rd/lpeg/lpcode.c:641-645 | the loop over jumps stops at the final target |
| LpegCompiler.CompileState.CorrectCalls | skynet/3rd/lpeg/lpcode.c:844-861 | closes all open calls in place, tail calls becoming jumps |
| LpegCompiler.CompileState.CodeGrammar | skynet/3rd/lpeg/lpcode.c:868-884 | appends the fragment for a grammar |
| LpegCompiler.CompileState.CodeSeq | skynet/3rd/lpeg/lpcode.c:899-911 | appends the fragment for a sequence, follow set and protection passed on |
| LpegCompiler.ComputeFirst | skynet/3rd/lpeg/lpcode.c:294-370 | the recursion of getfirst through look-behinds and rules returns the first set, for every tree for which it comes back |
| LpegCompiler.DecideChoice | skynet/3rd/lpeg/lpcode.c:677-683 | asks for the second first set only if the first set and headfail have not settled the choice, and decides it right |
| LpegCompiler.CompileState.Codegen | skynet/3rd/lpeg/lpcode.c:919-944 | for every tree that lptree.c builds and for which the analyses come back, appends exactly the fragment that the correctness proof is about |
| LpegCompiler.CompileState.Peephole | skynet/3rd/lpeg/lpcode.c:956-995 | the pass over the code array leaves the optimized program |
| LpegCompiler.Compile | skynet/3rd/lpeg/lpcode.c:1001-1010 | returns the program of every run of the compiler that comes to an end |
| LpegStack.BackStack.DoubleStack | skynet/3rd/lpeg/lpvm.c:66-83 | the stack grows up to the maximum, keeping its frames, and not beyond |
| LpegStack.BackStack.Push | skynet/3rd/lpeg/lpvm.c:236-253 | one frame more, unless the stack has as many as it was given at first and as many as the maximum |
| LpegStack.CaptureList.Push | skynet/3rd/lpeg/lpvm.c:345-354 | one entry more, and still room for another one |
| LpegStack.CaptureList.Close | skynet/3rd/lpeg/lpvm.c:323-354 | turns the open entry into a full one in place, or adds a closing entry |
| LpegMachine.Backtrack | skynet/3rd/lpeg/lpvm.c:280-294 | a failure removes pending calls and restores position, instruction and captures of the last choice |
| LpegMachine.ExecutePush | skynet/3rd/lpeg/lpvm.c:236-253 | a choice or a call does to the stack what a step of the machine does, or finds no room exactly when the step needs more frames than the limit |
| LpegMachine.ExecuteOnTop | skynet/3rd/lpeg/lpvm.c:184-279 | return, the commits and failtwice do to the frame on top, in place, what a step of the machine does |
| LpegMachine.ExecuteCapture | skynet/3rd/lpeg/lpvm.c:323-354 | the entries are made, or closed in place, as a step of the machine says |
| LpegMachine.Execute | skynet/3rd/lpeg/lpvm.c:149-360 | one turn of the switch does to position, captures and stack, both of them arrays that grow, what one step of the machine does |
| LpegMachine.Turn | skynet/3rd/lpeg/lpvm.c:149-360 | one turn of the loop, failure included, takes the arrays from one state of the machine to the next |
| LpegMachine.Match | skynet/3rd/lpeg/lpvm.c:149-360 | the loop returns what the machine's run ends with, unless the run needs more frames than the limit at some time, and reports that if and only if it does, also for runs that would never end |
| LpegMachine.RoomEnough | skynet/3rd/lpeg/lpvm.c:66-83 | a run of n steps never needs more than n frames and the one at the bottom |
| LpegCaptures.EvalProper | skynet/3rd/lpeg/lpvm.c:323-354 | the captures of a match lie in what it consumed, in order and nested |
| LpegCaptures.ReadsBack | skynet/3rd/lpeg/lpcap.c:17-21 | reading a list of entries -- full ones, and open ones up to their closing entry -- gives back the captures and their nesting |
| LpegCaptures.ListDetermines | skynet/3rd/lpeg/lpvm.c:323-354 | different captures are listed differently, although closing may merge entries |
| LpegCaptures.NextCap | skynet/3rd/lpeg/lpcap.c:63-76 | the loop that counts open entries skips exactly one capture |
| LpegMatch.CompileAndMatch | skynet/3rd/lpeg/lptree.c:1156-1174 | if compiling comes to an end, then on every subject on which the pattern has an answer, compiling in place and running the interpreter tells whether the pattern matches, where the match ends, and leaves a list from which its captures are read; a stack overflow is reported if and only if the run needs more frames than the limit |
| LpegMatch.NoOverflow | skynet/3rd/lpeg/lpvm.c:66-83 | for every pattern and subject with an answer there is a limit from which on no overflow is reported |
| TimerQueue.DueAndRest | skynet/skynet-src/skynet_timer.c:159-169 | what is fired and what is kept: nothing lost, nothing made up, order kept |
| TimerQueue.FiresOnTime | skynet/skynet-src/skynet_timer.c:95-184 | every pending timer fires exactly in the tick that is its time, whatever is added meanwhile, and is pending until then |
| TimerQueue.StaysGone | skynet/skynet-src/skynet_timer.c:159-169 | a timer that has fired never fires again |
| TimerQueue.FiresInOrder | skynet/skynet-src/skynet_timer.c:67-71 | timers of the same tick fire in the order in which they were added, each once |
| TimerQueue.FiresAfterDelay | skynet/skynet-src/skynet_timer.c:95-105 | a timer with delay d fires in the d-th tick after it was added and in no other |
| TimerQueue.FiresExactly | skynet/skynet-src/skynet_timer.c:159-184 | over any number of ticks, what is fired in one of them is exactly what was pending at the start or has been asked for before or during any tick, and is due then, in the order in which it was asked for |
| TimerQueue.PendingExactly | skynet/skynet-src/skynet_timer.c:159-184 | and what is pending in the end is exactly what is due later |
| TimerQueue.BeforeFires | skynet/skynet-src/skynet_timer.c:95-105 | each timer asked for between two ticks, d ticks ahead, is fired in the d-th tick from then, and in no other |
| TimerQueue.DuringFires | skynet/skynet-src/skynet_timer.c:159-169 | each timer asked for while others are dispatched is fired in the d-th tick after that, and in no other |
| TimerPlaces.WrapHarmless | skynet/skynet-src/skynet_timer.c:74-92 | comparing 32-bit times under masks chooses the list that the true times call for, across the wrap of the clock |
| TimerPlaces.PlaceStays | skynet/skynet-src/skynet_timer.c:118-138 | when the clock advances, timers outside the list whose turn it is stay in the right list |
| TimerPlaces.PlaceDescends | skynet/skynet-src/skynet_timer.c:108-138 | timers in that list belong to lists of lower levels |
| TimerPlaces.PlaceAbove | skynet/skynet-src/skynet_timer.c:118-138 | and the lists of lower levels are empty at that moment |
| TimerPlaces.PlaceDue | skynet/skynet-src/skynet_timer.c:159-169 | the near list at the hand of the clock holds a timer if and only if it is due |
| TimerWheel.Timers.AddNode | skynet/skynet-src/skynet_timer.c:74-92 | appends the node to one list, all others unchanged |
| TimerWheel.Timers.TimerAdd | skynet/skynet-src/skynet_timer.c:95-105 | the wheel then stands for the old timers and the new one |
| TimerWheel.Timers.MoveList | skynet/skynet-src/skynet_timer.c:108-115 | empties one list and distributes its nodes, in order, over the lists that add_node chooses |
| TimerWheel.Timers.TimerShift | skynet/skynet-src/skynet_timer.c:118-138 | advances the clock and cascades at most one list; every list again holds exactly the timers that add_node would put there, in order |
| TimerWheel.Timers.TimerExecute | skynet/skynet-src/skynet_timer.c:159-169 | dispatches exactly the due timers in order, with others being added while the lock is released |
| TimerWheel.Timers.TimerUpdate | skynet/skynet-src/skynet_timer.c:172-184 | one update of the wheel is one tick of the list of timers |
| TimerWheel.Timers.Timeout | skynet/skynet-src/skynet_timer.c:211-230 | a delay of zero or less is a message at once, and -1 if it is not accepted; anything else a timer |
| TimerWheel.Timers.Ticks | skynet/skynet-src/skynet_timer.c:276-279 | several updates in a row fire what several ticks fire |
| TimerWheel.Timers.UpdateTime | skynet/skynet-src/skynet_timer.c:266-280 | as many ticks as the system clock has moved on, none if it stands still or has been set back |
| SchedulerProof.StepSafe | skynet/skynet-src/skynet_server.c:196-239 | a step from a good state touches nothing that is freed or not set up -- contexts in the table of handles and queues at both ends of the global list included -- if and only if it is not a send to a service without a queue, nor a use of a new service by its creator when nothing refers to it any more |
| SchedulerProof.StepGood | skynet/skynet-src/skynet_server.c:297-351 | the counting invariant of each handle survives every step of every thread |
| SchedulerProof.StepKeeps | skynet/skynet-src/skynet_server.c:297-351 | all of the invariant survives every step |
| SchedulerRuns.NeverUnsafe | skynet/skynet-src/skynet_server.c:196-239 | in every interleaving, no thread touches a context or queue that is freed or not set up, returns a reference it does not have, or runs the callback of an uninitialized service, if and only if its step is not one of the two |
| SchedulerLaunch.EarlySend | skynet/skynet-src/skynet_server.c:155-156 | a run in which a message is sent between registering a service and creating its queue |
| SchedulerLaunch.LateStore | skynet/skynet-src/skynet_server.c:163-171 | a run in which a service is deleted before its creator, whose reference has been given back, stores `init` |
| SchedulerLaunch.PatientSafe | skynet/skynet-src/skynet_server.c:125-182 | every run in which nobody grabs a service before it has a queue, or retires it before its launch is over, is safe |
| SchedulerRuns.OneOwner | skynet/skynet-src/skynet_mq.c:44-75 | each queue has one owner at most: one entry of the global list, or one worker, or its creator |
| SchedulerRuns.NeverStranded | skynet/skynet-src/skynet_mq.c:190-228 | a queue that is not empty, or marked for release, has an owner |
| SchedulerRuns.OneWorker | skynet/skynet-src/skynet_server.c:297-351 | no two workers run the callback of the same service |
| SchedulerRuns.NextIsNull | skynet/skynet-src/skynet_mq.c:44-75 | a step leaves the global list alone, takes its first queue out, or puts at its end one queue that is not in it; GlobalQueue.Push proves that its next is then null |
| SchedulerRuns.ListedFlagged | skynet/skynet-src/skynet_mq.c:190-228 | while its context is there, a queue in the global list is flagged, so that neither a send nor a deletion puts it there twice |
| SchedulerRuns.Conservation | skynet/skynet-src/skynet_mq.c:138-209 | in every interleaving, the messages accepted for a service are those consumed, in order, then the one in hand, then those waiting; all have been consumed when the queue is gone |
| SchedulerTraffic.RunLogs | skynet/skynet-src/skynet_mq.c:190-209 | what counts as accepted is what the sends of a run send, all of it, and what counts as consumed is what its dispatches and drops take, and nothing else |
| SchedulerTraffic.Delivered | skynet/skynet-src/skynet_mq.c:138-209 | so in every run the messages sent to a service are those dispatched or dropped, in order, then the one in hand, then those waiting |
| SchedulerTurns.QueueKept | skynet/skynet-src/skynet_mq.c:138-209 | a thread that does not own a queue changes it only by putting messages at its end |
| SchedulerTurns.TurnDispatches | skynet/skynet-src/skynet_server.c:297-351 | a worker that comes to the end of its loop has dispatched one message, or as many as were left behind the first one, divided by two to the power of the weight, if these are more and the weight is not negative |
| SchedulerTurns.TurnFinds | skynet/skynet-src/skynet_server.c:297-351 | it finds all messages that it sets out to dispatch: only the first pop of a turn can find the queue empty |
| SchedulerProgress.WaitingDispatched | skynet/skynet-src/skynet_server.c:297-351 | from every reachable state: if a message waits for a registered service whose queue is in the global list, an idle worker, without any other thread moving, gets to dispatch it |
| SchedulerProgress.DeletedDrained | skynet/skynet-src/skynet_mq.c:231-250 | and a listed queue whose context is gone it drains and frees, all messages being dropped |
| SchedulerRuns.DeletedLast | skynet/skynet-src/skynet_server.c:209-227 | a context is deleted only when its handle is retired and no reference is left, by one thread |
| SchedulerRuns.NoLateSend | skynet/skynet-src/skynet_server.c:230-239 | a message is never put into a queue that is marked for release or being drained |
| SchedulerQueues.MessageQueue.Expand | skynet/skynet-src/skynet_mq.c:175-187 | doubling a full ring keeps the messages in order |
| SchedulerQueues.MessageQueue.Append | skynet/skynet-src/skynet_mq.c:190-209 | the message comes last, the others stay |
| SchedulerQueues.MessageQueue.Pop | skynet/skynet-src/skynet_mq.c:138-172 | takes the oldest message, or leaves the global list when there is none; the overload warning is due when the threshold, which is doubled then, is exceeded |
| SchedulerQueues.MessageQueue.Length | skynet/skynet-src/skynet_mq.c:112-125 | the number of messages that wait, across the end of the buffer |
| SchedulerQueues.GlobalQueue.Push | skynet/skynet-src/skynet_mq.c:44-56 | the next field of a queue that is not in the list is null, as asserted; then the list has one more queue at its end, and other next fields are unchanged |
| SchedulerQueues.GlobalQueue.Pop | skynet/skynet-src/skynet_mq.c:59-75 | unlinks the first queue, whose next is null again |
| SchedulerQueues.MqCreate | skynet/skynet-src/skynet_mq.c:78-98 | a new queue is empty, counts as being in the global list without being there, and its next is null |
| SchedulerQueues.MqPush | skynet/skynet-src/skynet_mq.c:190-209 | does to queue and list what a send of the state machine does |
| SchedulerQueues.MqMarkRelease | skynet/skynet-src/skynet_mq.c:220-228 | does to queue and list what a deletion of the state machine does |
| SchedulerQueues.MqRelease | skynet/skynet-src/skynet_mq.c:231-250 | a marked queue is drained, all its messages passed to the drop function in order, and its next is null when it is freed, as asserted; any other goes back to the global list |
| SchedulerHandles.HashMeets | skynet/skynet-src/skynet_handle.c:42-45 | probing consecutive handles meets every slot |
| SchedulerHandles.CompareTransitive | skynet/skynet-src/skynet_handle.c:152-179 | the order of names is transitive, as binary search needs |
| SchedulerHandles.HandleStorage.Grab | skynet/skynet-src/skynet_handle.c:133-149 | returns a context if and only if it is registered under that very handle |
| SchedulerHandles.HandleStorage.Grow | skynet/skynet-src/skynet_handle.c:55-65 | in the doubled table no two contexts collide, the same handles are registered, and there is room |
| SchedulerHandles.HandleStorage.FindSlot | skynet/skynet-src/skynet_handle.c:42-54 | finds the first handle from the index on, going round at the end, whose slot is free, and none if and only if the table is full |
| SchedulerHandles.HandleStorage.Register | skynet/skynet-src/skynet_handle.c:35-67 | gives out that handle, which was not in use, in a table of twice the size if the present one is full; the next search starts behind it, and no other handle changes |
| SchedulerHandles.NotGivenTwice | skynet/skynet-src/skynet_handle.c:42-54 | however registrations and retirements follow one another, between two times at which the same handle is given out the search has gone once around all 2^24 handles |
| SchedulerHandles.HandleStorage.Retire | skynet/skynet-src/skynet_handle.c:70-106 | removes exactly that handle and exactly its names, and hands over its context |
| SchedulerHandles.HandleStorage.Compact | skynet/skynet-src/skynet_handle.c:82-93 | the loop that moves names together removes those of one handle and keeps the rest sorted |
| SchedulerHandles.HandleStorage.FindName | skynet/skynet-src/skynet_handle.c:152-179 | binary search finds a name if and only if it is there |
| SchedulerHandles.HandleStorage.InsertName | skynet/skynet-src/skynet_handle.c:182-205 | the name is at its place, all others before and after it, also when the array grows |
| SchedulerHandles.HandleStorage.NameHandle | skynet/skynet-src/skynet_handle.c:208-240 | a free name is given, a taken one refused, no other changes |
| SprotoPacking.SpreadPacked | 3rd/pysproto/pysproto/sproto.c:1223-1258 | the header and the non-zero bytes of a segment give back the segment |
| SprotoPacking.EmitUnpacks | 3rd/pysproto/pysproto/sproto.c:1274-1382 | unpacking what was packed gives back the open run and all segments, runs split at 256 segments included |
| SprotoPacking.RoundTrip | 3rd/pysproto/pysproto/sproto.c:1261-1382 | unpacking undoes packing up to the zero padding if and only if the last, incomplete segment does not fill a run, or the bytes behind it in memory are zero |
| SprotoPacking.RoundTripFails | 3rd/pysproto/pysproto/sproto.c:1261-1271 | a concrete input whose round trip fails: write_ff then copies bytes from behind the input |
| SprotoPacking.EmitSize | 3rd/pysproto/pysproto/sproto.c:1274-1328 | the amortised bound: a segment that ends a run saves the two bytes that the run cost |
| SprotoPacking.SizeBound | 3rd/pysproto/pysproto/core.pyx:296-304 | packing never needs more than the buffer that pysproto allocates, for every input |
| SprotoPacker.PackSeg | 3rd/pysproto/pysproto/sproto.c:1223-1258 | writes header and non-zero bytes if there is room, and nothing before its place |
| SprotoPacker.WriteFf | 3rd/pysproto/pysproto/sproto.c:1261-1271 | writes mark, count, the bytes of the run and zeros, and nothing else |
| SprotoPacker.SprotoPack | 3rd/pysproto/pysproto/sproto.c:1274-1328 | returns the size needed, and the buffer holds the packed bytes whenever they fit |
| SprotoPacker.UnpackSeg | 3rd/pysproto/pysproto/sproto.c:1331-1382 | the inner loop spreads the bytes of one header, or runs out of input |
| SprotoTruncated.RejectedExactly | 3rd/pysproto/pysproto/sproto.c:1331-1382 | unpacking fails if and only if the last run lacks bytes, or the last header lacks more than one |
| SprotoTruncated.ForeignExactly | 3rd/pysproto/pysproto/sproto.c:1360-1371 | the result depends on the byte behind the input if and only if the last header lacks exactly one byte |
| SprotoTruncated.ForeignByte | 3rd/pysproto/pysproto/sproto.c:1360-1371 | the input of one byte, 1, is unpacked to the byte behind it and seven zeros |
| SprotoPacker.SprotoUnpack | 3rd/pysproto/pysproto/sproto.c:1331-1382 | returns -1 exactly when the last run lacks bytes or the last header more than one, otherwise the size needed, and the buffer holds the unpacked bytes whenever they fit |

## Left out

### LPeg

* Match-time captures (`TRunTime`, `ICloseRunTime`) and what lpcap.c makes of captures once they have been read.
* The widths of the `aux` and `key` fields: the model's are unbounded.
* The entry that marks the end of the list of captures, and the error when the list has reached the range of an `int`.
- LpegTotal.Terminates: does not say which patterns whose look-behinds are not stratified have answers on some subjects.
- LpegMachine.Match: is about runs that halt or need too many frames; other runs never return.
* `callrecursive` marks calls; the model marks the rules that they call. That linking a grammar comes to an end has no outcome
  "not come back" in the model: `LpegCompiler.CompileState.CorrectCalls` proves that it always does.
* Charsets are sets; their 32 bytes appear in `LpegCharset` and nowhere else.
* Trees are values, so `TCall` refers to a rule by its number, and the tree builder of lptree.c is not modelled, except for
  what it checks: not what it simplifies, nor that `lp_choice`, which asks `nofail` for that, need not come back. Patterns
  that call rules outside of grammars are not compiled.
* A pattern without an answer: whether its program runs forever is not said. It need not, since a test may fail before the
  part that has no answer is tried.
* Where the C code asserts, or takes for granted, that something cannot happen -- a commit without a choice, a capture
  closed that was not opened -- the machine is stuck. The theorems show that compiled programs never are.

### Timer

* The lists are sequences instead of linked nodes, and masks of ones are quotients.
* Delays of 2^31 ticks and more. The system clock is a parameter, and its difference is not cut to 32 bits.
* Times are unbounded in the description of what timers are for; the wheel itself keeps only the 32-bit clock.

### Scheduler

* Each section under a lock, and each atomic operation on a reference count, is one step; weak memory effects are not modelled.
* Registering a handle and storing it in the context are one step; in between, no other thread finds the service under its handle.
- SchedulerHandles.HandleStorage.Grab: the reference that a grab takes is counted by the state machine.
* What a callback sends while it runs is sent by other threads of the model, in any order.
* Handles are never used again: the wrap of the 24-bit counter is left out of the state machine, but not of
  `SchedulerHandles`, where `NotGivenTwice` says how far apart two uses are.
* The `endless` flag, profiling, the log file, `skynet_handle_retireall` and the monitor.

### sproto

* Encoding and decoding of structures; only the packing layer is modelled.
* The bytes behind the input in memory are parameters: packing may copy up to seven of them, unpacking may take one.
- SprotoPacker.PackSeg: does not say what a segment inside a run leaves behind the place where it is tried; all of that is written over, or lies beyond the size that is returned.

### Elsewhere

* Packet reassembly, the write lists of sockets, shared tables, the serializer, the reader/writer lock and the ciphers of
  lua-crypt.c, and everything that is Lua, sockets or I/O.
