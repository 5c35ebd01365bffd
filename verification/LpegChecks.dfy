/** What lptree.c checks of a pattern, as its functions do it.

    The checks follow calls and ask `nullable`, which need not come back.  As in LpegRuns.dfy they are given `n`
    nested calls; `None` means that they have not come back by then, or that they have raised an error. */
module LpegChecks {
  import opened Basics
  import opened LpegTree
  import opened LpegAnalysis
  import opened LpegRuns
  import opened LpegVm
  import opened LpegCorrect
  import opened LpegWays

  /** The most rules a grammar may have. */
  const MAXRULES: nat := 250

  /** `p` contains a call of rule `n` of the grammar around it. */
  predicate Calls(p: Tree, n: nat) {
    match p
    case TCall(m) => m == n
    case TSeq(p1, p2) => Calls(p1, n) || Calls(p2, n)
    case TChoice(p1, p2) => Calls(p1, n) || Calls(p2, n)
    case TRep(q) => Calls(q, n)
    case TNot(q) => Calls(q, n)
    case TAnd(q) => Calls(q, n)
    case TBehind(_, q) => Calls(q, n)
    case TCapture(_, _, q) => Calls(q, n)
    case _ => false
  }

  /** The first rule is used, and so is every rule that some rule calls. */
  ghost predicate Used(rules: Rules, n: nat) {
    n == 0 || exists k :: 0 <= k < |rules| && Calls(rules[k], n)
  }

  // ---------------------------------------------------------------- the check for left recursion

  /** verifyrule, with `left` more calls before it gives up.  It returns `nb`, or whether `p` can match without
      consuming.  A negation, a predicate or a loop always can, so `nb` is set for its body; but at a
      grammar inside `p` the function forgets about `nb`. */
  function VerifyRun(g: Rules, p: Tree, nb: bool, left: nat, n: nat): Option<bool>
    decreases left, p
  {
    match p
    case TTrue => Some(true)
    case TBehind(_, _) => Some(true)
    case TNot(q) => VerifyRun(g, q, true, left, n)
    case TAnd(q) => VerifyRun(g, q, true, left, n)
    case TRep(q) => VerifyRun(g, q, true, left, n)
    case TCapture(_, _, q) => VerifyRun(g, q, nb, left, n)
    case TCall(m) => if left == 0 || n == 0 || m >= |g| then None else VerifyRun(g, g[m], nb, left - 1, n - 1)
    case TSeq(p1, p2) =>
      (match VerifyRun(g, p1, false, left, n)
       case None => None
       case Some(passes) => if passes then VerifyRun(g, p2, nb, left, n) else Some(nb))
    case TChoice(p1, p2) =>
      (match VerifyRun(g, p1, nb, left, n)
       case None => None
       case Some(passes) => VerifyRun(g, p2, passes, left, n))
    case TGrammar(_) => CheckRun(g, p, PENullable, n)
    case _ => Some(nb)
  }

  /** A grammar has not too many rules, and the first loop of verifygrammar raises no error.  Rules that are not used
      are not checked. */
  ghost predicate Verified(rules: Rules, n: nat) {
    |rules| <= MAXRULES &&
    forall k :: 0 <= k < |rules| && Used(rules, k) ==> VerifyRun(rules, rules[k], false, MAXRULES, n).Some?
  }

  // ---------------------------------------------------------------- the checks for loops

  /** checkloops: whether a loop in `p` has a nullable body.  Grammars inside `p` have been checked before. */
  function LoopRun(g: Rules, p: Tree, n: nat): Option<bool> {
    match p
    case TRep(q) =>
      var r := CheckRun(g, q, PENullable, n);
      if r == Some(false) then LoopRun(g, q, n) else r
    case TNot(q) => LoopRun(g, q, n)
    case TAnd(q) => LoopRun(g, q, n)
    case TBehind(_, q) => LoopRun(g, q, n)
    case TCapture(_, _, q) => LoopRun(g, q, n)
    case TSeq(p1, p2) =>
      var r := LoopRun(g, p1, n);
      if r == Some(false) then LoopRun(g, p2, n) else r
    case TChoice(p1, p2) =>
      var r := LoopRun(g, p1, n);
      if r == Some(false) then LoopRun(g, p2, n) else r
    case _ => Some(false)
  }

  /** The second loop of verifygrammar raises no error. */
  ghost predicate LoopsVerified(rules: Rules, n: nat) {
    forall k :: 0 <= k < |rules| && Used(rules, k) ==> LoopRun(rules, rules[k], n) == Some(false)
  }

  /** What lp_star asks about the body of a loop when it builds it: whether it is nullable.  A call is still open
      then, and open calls are not. */
  function StarRun(p: Tree, n: nat): Option<bool> {
    match p
    case TCall(_) => Some(false)
    case TSeq(p1, p2) =>
      var r := StarRun(p1, n);
      if r == Some(true) then StarRun(p2, n) else r
    case TChoice(p1, p2) =>
      var r := StarRun(p2, n);
      if r == Some(false) then StarRun(p1, n) else r
    case TCapture(_, _, q) => StarRun(q, n)
    case _ => CheckRun([], p, PENullable, n)
  }

  // ---------------------------------------------------------------- all checks

  /** All checks made for the loops and grammars in `p` have come back without an error. */
  ghost predicate Checked(p: Tree, n: nat)
    decreases p
  {
    match p
    case TSeq(p1, p2) => Checked(p1, n) && Checked(p2, n)
    case TChoice(p1, p2) => Checked(p1, n) && Checked(p2, n)
    case TRep(q) => StarRun(q, n) == Some(false) && Checked(q, n)
    case TNot(q) => Checked(q, n)
    case TAnd(q) => Checked(q, n)
    case TBehind(_, q) => Checked(q, n)
    case TCapture(_, _, q) => Checked(q, n)
    case TGrammar(rules) =>
      Verified(rules, n) && LoopsVerified(rules, n) && forall k :: 0 <= k < |rules| ==> Checked(rules[k], n)
    case _ => true
  }

  /** Everything that lptree.c checks. */
  ghost predicate Accepted(p: Tree, n: nat) {
    WellFormed([], p, n) && Checked(p, n)
  }

  // ---------------------------------------------------------------- what has been checked stays

  lemma {:induction false} VerifyMore(g: Rules, p: Tree, nb: bool, left: nat, n: nat, more: nat, m: nat)
    requires VerifyRun(g, p, nb, left, n).Some? && left <= more && n <= m
    ensures VerifyRun(g, p, nb, more, m) == VerifyRun(g, p, nb, left, n)
    decreases left, p
  {
    hide CheckRun;
    match p
    case TNot(q) => VerifyMore(g, q, true, left, n, more, m);
    case TAnd(q) => VerifyMore(g, q, true, left, n, more, m);
    case TRep(q) => VerifyMore(g, q, true, left, n, more, m);
    case TCapture(_, _, q) => VerifyMore(g, q, nb, left, n, more, m);
    case TCall(k) => VerifyMore(g, g[k], nb, left - 1, n - 1, more - 1, m - 1);
    case TSeq(p1, p2) =>
      VerifyMore(g, p1, false, left, n, more, m);
      if VerifyRun(g, p1, false, left, n) == Some(true) { VerifyMore(g, p2, nb, left, n, more, m); }
    case TChoice(p1, p2) =>
      VerifyMore(g, p1, nb, left, n, more, m);
      VerifyMore(g, p2, VerifyRun(g, p1, nb, left, n).value, left, n, more, m);
    case TGrammar(_) => CheckRunMore(g, p, PENullable, n, m);
    case _ =>
  }

  lemma {:induction false} LoopMore(g: Rules, p: Tree, n: nat, m: nat)
    requires LoopRun(g, p, n).Some? && n <= m
    ensures LoopRun(g, p, m) == LoopRun(g, p, n)
    decreases p
  {
    hide CheckRun;
    match p
    case TRep(q) =>
      CheckRunMore(g, q, PENullable, n, m);
      if CheckRun(g, q, PENullable, n) == Some(false) { LoopMore(g, q, n, m); }
    case TNot(q) => LoopMore(g, q, n, m);
    case TAnd(q) => LoopMore(g, q, n, m);
    case TBehind(_, q) => LoopMore(g, q, n, m);
    case TCapture(_, _, q) => LoopMore(g, q, n, m);
    case TSeq(p1, p2) => LoopMore(g, p1, n, m); if LoopRun(g, p1, n) == Some(false) { LoopMore(g, p2, n, m); }
    case TChoice(p1, p2) => LoopMore(g, p1, n, m); if LoopRun(g, p1, n) == Some(false) { LoopMore(g, p2, n, m); }
    case _ =>
  }

  lemma {:induction false} StarMore(p: Tree, n: nat, m: nat)
    requires StarRun(p, n).Some? && n <= m
    ensures StarRun(p, m) == StarRun(p, n)
    decreases p
  {
    hide CheckRun;
    match p
    case TCall(_) =>
    case TSeq(p1, p2) => StarMore(p1, n, m); if StarRun(p1, n) == Some(true) { StarMore(p2, n, m); }
    case TChoice(p1, p2) => StarMore(p2, n, m); if StarRun(p2, n) == Some(false) { StarMore(p1, n, m); }
    case TCapture(_, _, q) => StarMore(q, n, m);
    case _ => CheckRunMore([], p, PENullable, n, m);
  }

  lemma {:induction false} CheckedMore(p: Tree, n: nat, m: nat)
    requires Checked(p, n) && n <= m
    ensures Checked(p, m)
    decreases p
  {
    hide StarRun, VerifyRun, LoopRun, Used;
    match p
    case TSeq(p1, p2) => CheckedMore(p1, n, m); CheckedMore(p2, n, m);
    case TChoice(p1, p2) => CheckedMore(p1, n, m); CheckedMore(p2, n, m);
    case TRep(q) => StarMore(q, n, m); CheckedMore(q, n, m);
    case TNot(q) => CheckedMore(q, n, m);
    case TAnd(q) => CheckedMore(q, n, m);
    case TBehind(_, q) => CheckedMore(q, n, m);
    case TCapture(_, _, q) => CheckedMore(q, n, m);
    case TGrammar(rules) => VerifiedMore(rules, n, m);
      forall k | 0 <= k < |rules| ensures Checked(rules[k], m) { CheckedMore(rules[k], n, m); }
    case _ =>
  }

  lemma VerifiedMore(rules: Rules, n: nat, m: nat)
    requires Verified(rules, n) && LoopsVerified(rules, n) && n <= m
    ensures Verified(rules, m) && LoopsVerified(rules, m)
  {
    hide VerifyRun, LoopRun, Used;
    forall k | 0 <= k < |rules| && Used(rules, k)
      ensures VerifyRun(rules, rules[k], false, MAXRULES, m).Some? && LoopRun(rules, rules[k], m) == Some(false) {
      VerifyMore(rules, rules[k], false, MAXRULES, n, MAXRULES, m);
      LoopMore(rules, rules[k], n, m);
    }
  }

  // ---------------------------------------------------------------- what the checks find

  /** A look-behind can be built if and only if on all ways through its body the same number of characters is consumed,
      no more than the field has room for, and no capture can be found in it. */
  lemma BehindExactly(g: Rules, n: nat, q: Tree, d: nat)
    ensures WellFormed(g, TBehind(n, q), d) <==>
            && WellFormed(g, q, d) && n <= MAXBEHIND && SameOnAll([], q, n, d)
            && forall m: nat :: !CaptureWithin([], q, m, d)
  {
    hide FixedLen, HasCaptures, SameOnAll, CaptureWithin;
    FixedExactly([], q, d);
    CapturesExactly([], q, d);
  }

  /** The bodies of the loops in `p`, outside inner grammars */
  function LoopBodies(p: Tree): seq<Tree> {
    match p
    case TRep(q) => [q] + LoopBodies(q)
    case TNot(q) => LoopBodies(q)
    case TAnd(q) => LoopBodies(q)
    case TBehind(_, q) => LoopBodies(q)
    case TCapture(_, _, q) => LoopBodies(q)
    case TSeq(p1, p2) => LoopBodies(p1) + LoopBodies(p2)
    case TChoice(p1, p2) => LoopBodies(p1) + LoopBodies(p2)
    case _ => []
  }

  /** checkloops passes a tree if nullable comes back from all bodies, and with the answer no. */
  ghost predicate AllConsume(g: Rules, bodies: seq<Tree>, n: nat) {
    forall k :: 0 <= k < |bodies| ==> CheckRun(g, bodies[k], PENullable, n) == Some(false)
  }

  ghost predicate OneNullable(g: Rules, bodies: seq<Tree>, n: nat) {
    exists k :: 0 <= k < |bodies| && CheckRun(g, bodies[k], PENullable, n) == Some(true)
  }

  lemma BodiesJoin(g: Rules, a: seq<Tree>, b: seq<Tree>, n: nat)
    ensures AllConsume(g, a + b, n) <==> AllConsume(g, a, n) && AllConsume(g, b, n)
    ensures OneNullable(g, a, n) || OneNullable(g, b, n) ==> OneNullable(g, a + b, n)
  {
    hide CheckRun;
    var c := a + b;
    assert forall k :: 0 <= k < |a| ==> c[k] == a[k];
    assert forall k :: 0 <= k < |b| ==> c[|a| + k] == b[k];
  }

  lemma BodyOnly(g: Rules, q: Tree, n: nat)
    ensures AllConsume(g, [q], n) <==> CheckRun(g, q, PENullable, n) == Some(false)
    ensures OneNullable(g, [q], n) <==> CheckRun(g, q, PENullable, n) == Some(true)
  {
    hide CheckRun;
    assert [q][0] == q;
  }

  lemma {:induction false} LoopRunFinds(g: Rules, p: Tree, n: nat)
    ensures LoopRun(g, p, n) == Some(false) <==> AllConsume(g, LoopBodies(p), n)
    ensures LoopRun(g, p, n) == Some(true) ==> OneNullable(g, LoopBodies(p), n)
    decreases p
  {
    hide CheckRun, AllConsume, OneNullable;
    match p
    case TRep(q) => BodyOnly(g, q, n); LoopRunFinds(g, q, n); BodiesJoin(g, [q], LoopBodies(q), n);
    case TNot(q) => LoopRunFinds(g, q, n);
    case TAnd(q) => LoopRunFinds(g, q, n);
    case TBehind(_, q) => LoopRunFinds(g, q, n);
    case TCapture(_, _, q) => LoopRunFinds(g, q, n);
    case TSeq(p1, p2) =>
      LoopRunFinds(g, p1, n);
      LoopRunFinds(g, p2, n);
      BodiesJoin(g, LoopBodies(p1), LoopBodies(p2), n);
    case TChoice(p1, p2) =>
      LoopRunFinds(g, p1, n);
      LoopRunFinds(g, p2, n);
      BodiesJoin(g, LoopBodies(p1), LoopBodies(p2), n);
    case _ => assert AllConsume(g, [], n) by { NoBodies(g, n); }
  }

  lemma NoBodies(g: Rules, n: nat)
    ensures AllConsume(g, [], n)
  {
  }

  /** A checkloops that has come back has found a loop that need not consume if and only if there is one: some
      body of a loop outside inner grammars is nullable. */
  lemma LoopRunExactly(g: Rules, p: Tree, n: nat)
    requires LoopRun(g, p, n).Some?
    ensures LoopRun(g, p, n).value <==> exists k :: 0 <= k < |LoopBodies(p)| && Nullable(g, LoopBodies(p)[k], n)
  {
    hide LoopRun, CheckRun, CheckAux, LoopBodies;
    LoopRunFinds(g, p, n);
    var bodies := LoopBodies(p);
    if LoopRun(g, p, n).value {
      var k :| 0 <= k < |bodies| && CheckRun(g, bodies[k], PENullable, n) == Some(true);
      CheckRunIs(g, bodies[k], PENullable, n, n);
    } else {
      forall k | 0 <= k < |bodies| ensures !Nullable(g, bodies[k], n) { CheckRunIs(g, bodies[k], PENullable, n, n); }
    }
  }

  /** A tree as nullable sees it while its calls are open: they fail. */
  function Opened(p: Tree): Tree {
    match p
    case TCall(_) => TFalse
    case TSeq(p1, p2) => TSeq(Opened(p1), Opened(p2))
    case TChoice(p1, p2) => TChoice(Opened(p1), Opened(p2))
    case TCapture(kind, key, q) => TCapture(kind, key, Opened(q))
    case _ => p
  }

  /** When a loop is built, its body counts as nullable if and only if it is without its calls. */
  lemma {:induction false} StarRunExactly(p: Tree, n: nat)
    ensures StarRun(p, n) == CheckRun([], Opened(p), PENullable, n)
    decreases p
  {
    match p
    case TSeq(p1, p2) => StarRunExactly(p1, n); StarRunExactly(p2, n);
    case TChoice(p1, p2) => StarRunExactly(p1, n); StarRunExactly(p2, n);
    case TCapture(_, _, q) => StarRunExactly(q, n);
    case _ =>
  }

  // ---------------------------------------------------------------- loops consume

  /** Loops consume: their bodies are not nullable.  Rules that are not used need not. */
  ghost predicate LoopsConsume(g: Rules, p: Tree, d: nat)
    decreases p
  {
    match p
    case TSeq(p1, p2) => LoopsConsume(g, p1, d) && LoopsConsume(g, p2, d)
    case TChoice(p1, p2) => LoopsConsume(g, p1, d) && LoopsConsume(g, p2, d)
    case TRep(q) => LoopsConsume(g, q, d) && !Nullable(g, q, d)
    case TNot(q) => LoopsConsume(g, q, d)
    case TAnd(q) => LoopsConsume(g, q, d)
    case TBehind(_, q) => LoopsConsume(g, q, d)
    case TCapture(_, _, q) => LoopsConsume(g, q, d)
    case TGrammar(rules) => forall k :: 0 <= k < |rules| && Used(rules, k) ==> LoopsConsume(rules, rules[k], d)
    case _ => true
  }

  /** In a used rule, checkloops has looked at the loops outside inner grammars. */
  lemma {:induction false} VerifiedLoops(g: Rules, p: Tree, d: nat)
    requires LoopRun(g, p, d) == Some(false) && Checked(p, d)
    ensures LoopsConsume(g, p, d)
    decreases p
  {
    hide CheckRun, CheckAux, StarRun, VerifyRun, Used;
    match p
    case TRep(q) => CheckRunIs(g, q, PENullable, d, d); VerifiedLoops(g, q, d);
    case TNot(q) => VerifiedLoops(g, q, d);
    case TAnd(q) => VerifiedLoops(g, q, d);
    case TBehind(_, q) => VerifiedLoops(g, q, d);
    case TCapture(_, _, q) => VerifiedLoops(g, q, d);
    case TSeq(p1, p2) => VerifiedLoops(g, p1, d); VerifiedLoops(g, p2, d);
    case TChoice(p1, p2) => VerifiedLoops(g, p1, d); VerifiedLoops(g, p2, d);
    case TGrammar(rules) =>
      forall k | 0 <= k < |rules| && Used(rules, k) ensures LoopsConsume(rules, rules[k], d) {
        VerifiedLoops(rules, rules[k], d);
      }
    case _ =>
  }

  /** Outside grammars there are no calls, so what lp_star has found holds of the finished pattern. */
  lemma {:induction false} StarClosed(p: Tree, d: nat)
    requires WellFormed([], p, d)
    ensures CheckRun([], p, PENullable, d) == StarRun(p, d)
    decreases p
  {
    hide FixedLen, HasCaptures;
    match p
    case TSeq(p1, p2) => StarClosed(p1, d); StarClosed(p2, d);
    case TChoice(p1, p2) => StarClosed(p1, d); StarClosed(p2, d);
    case TCapture(_, _, q) => StarClosed(q, d);
    case _ =>
  }

  lemma {:induction false} CheckedLoops(p: Tree, d: nat)
    requires WellFormed([], p, d) && Checked(p, d)
    ensures LoopRun([], p, d) == Some(false)
    decreases p
  {
    hide CheckRun, FixedLen, HasCaptures, StarRun, Verified, LoopsVerified;
    match p
    case TSeq(p1, p2) => CheckedLoops(p1, d); CheckedLoops(p2, d);
    case TChoice(p1, p2) => CheckedLoops(p1, d); CheckedLoops(p2, d);
    case TRep(q) => StarClosed(q, d); CheckedLoops(q, d);
    case TNot(q) => CheckedLoops(q, d);
    case TAnd(q) => CheckedLoops(q, d);
    case TBehind(_, q) => CheckedLoops(q, d);
    case TCapture(_, _, q) => CheckedLoops(q, d);
    case _ =>
  }

  /** The loops of a pattern that lptree.c accepts consume. */
  lemma AcceptedLoops(p: Tree, d: nat)
    requires Accepted(p, d)
    ensures LoopsConsume([], p, d)
  {
    hide WellFormed, Checked, LoopRun;
    CheckedLoops(p, d);
    VerifiedLoops([], p, d);
  }
}
