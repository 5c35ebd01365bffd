/** Which grammars pass the check of lptree.c for left recursion.

    `verifyrule` goes on behind a part that can match without consuming, and takes its own return value for that.
    At a grammar inside a rule it returns whether that grammar is nullable, even if the grammar is the
    body of a loop, of a negation or of a predicate: then what comes behind is not looked at. */
module LpegVerify {
  import opened Basics
  import opened LpegTree
  import opened LpegAnalysis
  import opened LpegRuns
  import opened LpegAnswers
  import opened LpegNest
  import opened LpegCorrect
  import opened LpegChecks
  import opened LpegTotal

  // ---------------------------------------------------------------- what verifyrule returns

  /** The return value of verifyrule.  As in LpegAnalysis.dfy, a call is followed at most `d` times. */
  function Passes(g: Rules, p: Tree, nb: bool, d: nat): bool
    decreases d, p
  {
    match p
    case TTrue => true
    case TBehind(_, _) => true
    case TNot(q) => Passes(g, q, true, d)
    case TAnd(q) => Passes(g, q, true, d)
    case TRep(q) => Passes(g, q, true, d)
    case TCapture(_, _, q) => Passes(g, q, nb, d)
    case TCall(n) => d == 0 || n >= |g| || Passes(g, g[n], nb, d - 1)
    case TSeq(p1, p2) => if Passes(g, p1, false, d) then Passes(g, p2, nb, d) else nb
    case TChoice(p1, p2) => Passes(g, p2, Passes(g, p1, nb, d), d)
    case TGrammar(_) => Nullable(g, p, d)
    case _ => nb
  }

  lemma {:induction false} VerifyRunIs(g: Rules, p: Tree, nb: bool, left: nat, n: nat, d: nat)
    requires VerifyRun(g, p, nb, left, n).Some? && n <= d
    ensures VerifyRun(g, p, nb, left, n) == Some(Passes(g, p, nb, d))
    decreases left, p
  {
    hide CheckRun, CheckAux;
    match p
    case TNot(q) => VerifyRunIs(g, q, true, left, n, d);
    case TAnd(q) => VerifyRunIs(g, q, true, left, n, d);
    case TRep(q) => VerifyRunIs(g, q, true, left, n, d);
    case TCapture(_, _, q) => VerifyRunIs(g, q, nb, left, n, d);
    case TCall(k) => VerifyRunIs(g, g[k], nb, left - 1, n - 1, d - 1);
    case TSeq(p1, p2) =>
      VerifyRunIs(g, p1, false, left, n, d);
      if VerifyRun(g, p1, false, left, n) == Some(true) { VerifyRunIs(g, p2, nb, left, n, d); }
    case TChoice(p1, p2) =>
      VerifyRunIs(g, p1, nb, left, n, d);
      VerifyRunIs(g, p2, VerifyRun(g, p1, nb, left, n).value, left, n, d);
    case TGrammar(_) => CheckRunIs(g, p, PENullable, n, d);
    case _ =>
  }

  /** Whether verifyrule comes back without an error does not depend on `nb`. */
  lemma {:induction false} AnyFlag(g: Rules, p: Tree, nb1: bool, nb2: bool, left: nat, n: nat)
    requires VerifyRun(g, p, nb1, left, n).Some?
    ensures VerifyRun(g, p, nb2, left, n).Some?
    decreases left, p
  {
    hide CheckRun;
    match p
    case TCapture(_, _, q) => AnyFlag(g, q, nb1, nb2, left, n);
    case TCall(k) => AnyFlag(g, g[k], nb1, nb2, left - 1, n - 1);
    case TSeq(p1, p2) =>
      if VerifyRun(g, p1, false, left, n) == Some(true) { AnyFlag(g, p2, nb1, nb2, left, n); }
    case TChoice(p1, p2) =>
      AnyFlag(g, p1, nb1, nb2, left, n);
      AnyFlag(g, p2, VerifyRun(g, p1, nb1, left, n).value, VerifyRun(g, p1, nb2, left, n).value, left, n);
    case _ =>
  }

  // ---------------------------------------------------------------- a ranking of the rules

  /** Every call that verifyrule follows in `p` is of a rule ranked below `k`, and nullable comes back from every
      grammar that it meets. */
  ghost predicate SeenOk(g: Rules, p: Tree, rank: seq<nat>, k: nat, d: nat)
    decreases p
  {
    match p
    case TCall(n) => n < |rank| && rank[n] < k
    case TSeq(p1, p2) => SeenOk(g, p1, rank, k, d) && (Passes(g, p1, false, d) ==> SeenOk(g, p2, rank, k, d))
    case TChoice(p1, p2) => SeenOk(g, p1, rank, k, d) && SeenOk(g, p2, rank, k, d)
    case TRep(q) => SeenOk(g, q, rank, k, d)
    case TNot(q) => SeenOk(g, q, rank, k, d)
    case TAnd(q) => SeenOk(g, q, rank, k, d)
    case TCapture(_, _, q) => SeenOk(g, q, rank, k, d)
    case TGrammar(_) => WayEnds(g, p, AskCheck(PENullable), d)
    case _ => true
  }

  /** Going from rule to rule as verifyrule does comes to an end. */
  ghost predicate Seen(rules: Rules, rank: seq<nat>, d: nat) {
    |rank| == |rules| && forall k :: 0 <= k < |rules| && Used(rules, k) ==> SeenOk(rules, rules[k], rank, rank[k], d)
  }

  /** The least number of nested calls, from `j` on, in which verifyrule comes back, or `n`. */
  function VerifyTime(g: Rules, p: Tree, j: nat, n: nat): (r: nat)
    requires j <= n
    ensures j <= r <= n && (r < n ==> VerifyRun(g, p, false, MAXRULES, r).Some?)
    ensures forall i :: j <= i < r ==> VerifyRun(g, p, false, MAXRULES, i).None?
    decreases n - j
  {
    if j == n || VerifyRun(g, p, false, MAXRULES, j).Some? then j else VerifyTime(g, p, j + 1, n)
  }

  function VerifyTimes(g: Rules, n: nat): (rank: seq<nat>)
    ensures |rank| == |g| && forall m :: 0 <= m < |g| ==> rank[m] == VerifyTime(g, g[m], 0, n)
  {
    seq(|g|, m requires 0 <= m < |g| => VerifyTime(g, g[m], 0, n))
  }

  lemma {:induction false} VerifySeen(g: Rules, p: Tree, nb: bool, left: nat, i: nat, d: nat)
    requires VerifyRun(g, p, nb, left, i).Some? && left <= MAXRULES && i <= d
    ensures SeenOk(g, p, VerifyTimes(g, d), i, d)
    decreases p
  {
    hide CheckRun, CheckAux, WayEnds;
    match p
    case TNot(q) => VerifySeen(g, q, true, left, i, d);
    case TAnd(q) => VerifySeen(g, q, true, left, i, d);
    case TRep(q) => VerifySeen(g, q, true, left, i, d);
    case TCapture(_, _, q) => VerifySeen(g, q, nb, left, i, d);
    case TCall(k) =>
      AnyFlag(g, g[k], nb, false, left - 1, i - 1);
      VerifyMore(g, g[k], false, left - 1, i - 1, MAXRULES, i - 1);
    case TSeq(p1, p2) =>
      VerifySeen(g, p1, false, left, i, d);
      VerifyRunIs(g, p1, false, left, i, d);
      if Passes(g, p1, false, d) { VerifySeen(g, p2, nb, left, i, d); }
    case TChoice(p1, p2) =>
      VerifySeen(g, p1, nb, left, i, d);
      VerifySeen(g, p2, VerifyRun(g, p1, nb, left, i).value, left, i, d);
    case TGrammar(_) => BackEnds(g, p, AskCheck(PENullable), i, d);
    case _ =>
  }

  /** A grammar that passes the check is ranked. */
  lemma VerifiedSeen(rules: Rules, d: nat)
    requires Verified(rules, d)
    ensures exists rank: seq<nat> :: Seen(rules, rank, d)
  {
    hide VerifyRun, SeenOk, Used;
    var rank := VerifyTimes(rules, d);
    forall k | 0 <= k < |rules| && Used(rules, k) ensures SeenOk(rules, rules[k], rank, rank[k], d) {
      VerifySeen(rules, rules[k], false, MAXRULES, rank[k], d);
    }
    assert Seen(rules, rank, d);
  }

  lemma {:induction false} PackedSeen(g: Rules, p: Tree, rank: seq<nat>, k: nat, d: nat)
    requires SeenOk(g, p, rank, k, d)
    ensures SeenOk(g, p, Packed(rank), Count(rank, k), d)
    decreases p
  {
    hide Passes, WayEnds, Packed, Count;
    match p
    case TCall(n) => CountLess(rank, n, k);
    case TSeq(p1, p2) =>
      PackedSeen(g, p1, rank, k, d);
      if Passes(g, p1, false, d) { PackedSeen(g, p2, rank, k, d); }
    case TChoice(p1, p2) => PackedSeen(g, p1, rank, k, d); PackedSeen(g, p2, rank, k, d);
    case TRep(q) => PackedSeen(g, q, rank, k, d);
    case TNot(q) => PackedSeen(g, q, rank, k, d);
    case TAnd(q) => PackedSeen(g, q, rank, k, d);
    case TCapture(_, _, q) => PackedSeen(g, q, rank, k, d);
    case _ =>
  }

  /** `m` nested calls are enough for the grammars inside the rules. */
  ghost predicate Room(rules: Rules, m: nat) { forall k :: 0 <= k < |rules| ==> Nest(rules[k]) <= m }

  /** A grammar inside a rule needs no more than what it is measured by. */
  lemma NullableBack(g: Rules, p: Tree, n: nat, d: nat)
    requires p.TGrammar? && WayEnds(g, p, AskCheck(PENullable), d) && Nest(p) <= n <= d
    ensures CheckRun(g, p, PENullable, n).Some?
  {
    hide CheckRun, Follows, RanksDown, Widest, WayEnds;
    var ask := AskCheck(PENullable);
    EndsInside(g, p, ask, d);
    FitsParts([], p, Nest(p));
    var m := Widest(p, |p.rules|);
    EndsBack(p.rules, p.rules[0], ask, m, d);
    BackMore(p.rules, p.rules[0], ask, |p.rules| + m, n - 1);
    RuleBack(g, p, p.rules, p.rules[0], ask, n);
  }

  lemma EndsInside(g: Rules, p: Tree, ask: Ask, d: nat)
    requires p.TGrammar? && WayEnds(g, p, ask, d)
    ensures p.rules != [] && WayEnds(p.rules, p.rules[0], ask, d)
  {
    hide Follows, RanksDown;
    var rank: seq<nat>, top: nat :| RanksDown(g, ask, rank, top, d) && Follows(g, p, ask, rank, top, d);
    GrammarEnds(g, p, ask, rank, top, d);
  }

  lemma {:induction false} SeenVerifies(g: Rules, p: Tree, nb: bool, rank: seq<nat>, k: nat, m: nat, n: nat, d: nat)
    requires Seen(g, rank, d) && Room(g, m) && forall i: nat :: Calls(p, i) ==> Used(g, i)
    requires SeenOk(g, p, rank, k, d) && Nest(p) <= m && k + m <= n <= d
    ensures VerifyRun(g, p, nb, k, n).Some?
    decreases k, p
  {
    hide CheckRun, CheckAux, WayEnds, Seen, Room, Widest;
    match p
    case TNot(q) => SeenVerifies(g, q, true, rank, k, m, n, d);
    case TAnd(q) => SeenVerifies(g, q, true, rank, k, m, n, d);
    case TRep(q) => SeenVerifies(g, q, true, rank, k, m, n, d);
    case TCapture(_, _, q) => SeenVerifies(g, q, nb, rank, k, m, n, d);
    case TCall(i) =>
      RuleSeen(g, rank, m, i, d);
      SeenVerifies(g, g[i], nb, rank, rank[i], m, n - 1, d);
      VerifyMore(g, g[i], nb, rank[i], n - 1, k - 1, n - 1);
    case TSeq(p1, p2) =>
      SeenVerifies(g, p1, false, rank, k, m, n, d);
      VerifyRunIs(g, p1, false, k, n, d);
      if Passes(g, p1, false, d) { SeenVerifies(g, p2, nb, rank, k, m, n, d); }
    case TChoice(p1, p2) =>
      SeenVerifies(g, p1, nb, rank, k, m, n, d);
      SeenVerifies(g, p2, VerifyRun(g, p1, nb, k, n).value, rank, k, m, n, d);
    case TGrammar(_) => NullableBack(g, p, n, d);
    case _ =>
  }

  lemma RuleSeen(g: Rules, rank: seq<nat>, m: nat, i: nat, d: nat)
    requires Seen(g, rank, d) && Room(g, m) && Used(g, i) && i < |rank|
    ensures i < |g| && SeenOk(g, g[i], rank, rank[i], d) && Nest(g[i]) <= m
    ensures forall j: nat :: Calls(g[i], j) ==> Used(g, j)
  {
    hide SeenOk, Used, Calls;
    forall j: nat | Calls(g[i], j) ensures Used(g, j) { CallUsed(g, i, j); }
  }

  /** A grammar whose rules can be ranked passes the check. */
  lemma SeenVerified(rules: Rules, rank: seq<nat>, m: nat, d: nat)
    requires Seen(rules, rank, d) && Room(rules, m) && |rules| <= MAXRULES && |rules| + m <= d
    ensures Verified(rules, d)
  {
    hide SeenOk, VerifyRun, Used, Calls, Count;
    var packed := Packed(rank);
    forall k | 0 <= k < |rules| && Used(rules, k) ensures SeenOk(rules, rules[k], packed, packed[k], d) {
      PackedSeen(rules, rules[k], rank, rank[k], d);
    }
    assert Seen(rules, packed, d);
    forall k | 0 <= k < |rules| && Used(rules, k) ensures VerifyRun(rules, rules[k], false, MAXRULES, d).Some? {
      RuleSeen(rules, packed, m, k, d);
      SeenVerifies(rules, rules[k], false, packed, packed[k], m, d, d);
      VerifyMore(rules, rules[k], false, packed[k], d, MAXRULES, d);
    }
  }

  lemma {:induction false} VerifySoon(g: Rules, p: Tree, nb: bool, left: nat, n: nat, m: nat, e: nat)
    requires VerifyRun(g, p, nb, left, n).Some? && Room(g, m) && Nest(p) <= m && left + m <= e <= n
    ensures VerifyRun(g, p, nb, left, e) == VerifyRun(g, p, nb, left, n)
    decreases left, p
  {
    hide CheckRun, Widest;
    match p
    case TNot(q) => VerifySoon(g, q, true, left, n, m, e);
    case TAnd(q) => VerifySoon(g, q, true, left, n, m, e);
    case TRep(q) => VerifySoon(g, q, true, left, n, m, e);
    case TCapture(_, _, q) => VerifySoon(g, q, nb, left, n, m, e);
    case TCall(k) => VerifySoon(g, g[k], nb, left - 1, n - 1, m, e - 1);
    case TSeq(p1, p2) =>
      VerifySoon(g, p1, false, left, n, m, e);
      if VerifyRun(g, p1, false, left, n) == Some(true) { VerifySoon(g, p2, nb, left, n, m, e); }
    case TChoice(p1, p2) =>
      VerifySoon(g, p1, nb, left, n, m, e);
      VerifySoon(g, p2, VerifyRun(g, p1, nb, left, n).value, left, n, m, e);
    case TGrammar(_) => NullableSoon(g, p, n, e);
    case _ =>
  }

  lemma NullableSoon(g: Rules, p: Tree, n: nat, e: nat)
    requires p.TGrammar? && CheckRun(g, p, PENullable, n).Some? && Nest(p) <= e <= n
    ensures CheckRun(g, p, PENullable, e) == CheckRun(g, p, PENullable, n)
  {
    hide CheckRun, WayEnds, Widest;
    BackEnds(g, p, AskCheck(PENullable), n, n);
    NullableBack(g, p, e, n);
    CheckRunMore(g, p, PENullable, e, n);
  }

  /** For every grammar: the check for left recursion passes it, after however many nested calls, if and only if it
      has not too many rules and they can be ranked as verifyrule goes through them, which takes its own
      return value for whether a part can match without consuming. */
  lemma VerifiedExactly(rules: Rules, m: nat, d: nat)
    requires Room(rules, m) && MAXRULES + m <= d
    ensures (exists n: nat :: Verified(rules, n)) <==>
            (|rules| <= MAXRULES && exists rank: seq<nat> :: Seen(rules, rank, d))
  {
    hide VerifyRun, Used, Seen, Room;
    if n: nat :| Verified(rules, n) {
      VerifiedSoon(rules, n, m, d);
      VerifiedSeen(rules, d);
    }
    if rank: seq<nat> :| |rules| <= MAXRULES && Seen(rules, rank, d) { SeenVerified(rules, rank, m, d); }
  }

  lemma VerifiedSoon(rules: Rules, n: nat, m: nat, d: nat)
    requires Verified(rules, n) && Room(rules, m) && MAXRULES + m <= d
    ensures Verified(rules, d)
  {
    hide VerifyRun, Used;
    forall k | 0 <= k < |rules| && Used(rules, k) ensures VerifyRun(rules, rules[k], false, MAXRULES, d).Some? {
      if n <= d { VerifyMore(rules, rules[k], false, MAXRULES, n, MAXRULES, d); }
      else { VerifySoon(rules, rules[k], false, MAXRULES, n, m, d); }
    }
  }

  // ---------------------------------------------------------------- when that is left recursion

  /** No grammar that is not nullable is met while `nb` is set, so that verifyrule never forgets it. */
  predicate Kept(g: Rules, p: Tree, nb: bool, d: nat)
    decreases d, p
  {
    match p
    case TNot(q) => Kept(g, q, true, d)
    case TAnd(q) => Kept(g, q, true, d)
    case TRep(q) => Kept(g, q, true, d)
    case TCapture(_, _, q) => Kept(g, q, nb, d)
    case TCall(n) => d == 0 || n >= |g| || Kept(g, g[n], nb, d - 1)
    case TSeq(p1, p2) => Kept(g, p1, false, d) && (Passes(g, p1, false, d) ==> Kept(g, p2, nb, d))
    case TChoice(p1, p2) => Kept(g, p1, nb, d) && Kept(g, p2, Passes(g, p1, nb, d), d)
    case TGrammar(_) => nb ==> Nullable(g, p, d)
    case _ => true
  }

  /** verifyrule never takes for passable what is not nullable, */
  lemma {:induction false} PassesNullable(g: Rules, p: Tree, nb: bool, d: nat)
    requires Passes(g, p, nb, d)
    ensures nb || Nullable(g, p, d)
    decreases d, p
  {
    match p
    case TCapture(_, _, q) => PassesNullable(g, q, nb, d);
    case TCall(n) => if d > 0 && n < |g| { PassesNullable(g, g[n], nb, d - 1); }
    case TSeq(p1, p2) =>
      if Passes(g, p1, false, d) { PassesNullable(g, p1, false, d); PassesNullable(g, p2, nb, d); }
    case TChoice(p1, p2) =>
      PassesNullable(g, p2, Passes(g, p1, nb, d), d);
      if Passes(g, p1, nb, d) { PassesNullable(g, p1, nb, d); }
    case _ =>
  }

  /** and as long as it does not forget `nb`, it is right. */
  lemma {:induction false} KeptPasses(g: Rules, p: Tree, nb: bool, d: nat)
    requires Kept(g, p, nb, d)
    ensures Passes(g, p, nb, d) <==> nb || Nullable(g, p, d)
    decreases d, p
  {
    match p
    case TNot(q) => KeptPasses(g, q, true, d);
    case TAnd(q) => KeptPasses(g, q, true, d);
    case TRep(q) => KeptPasses(g, q, true, d);
    case TCapture(_, _, q) => KeptPasses(g, q, nb, d);
    case TCall(n) => if d > 0 && n < |g| { KeptPasses(g, g[n], nb, d - 1); }
    case TSeq(p1, p2) =>
      KeptPasses(g, p1, false, d);
      if Passes(g, p1, false, d) { KeptPasses(g, p2, nb, d); }
    case TChoice(p1, p2) =>
      KeptPasses(g, p1, nb, d);
      KeptPasses(g, p2, Passes(g, p1, nb, d), d);
    case _ =>
  }

  lemma {:induction false} SeenLeft(g: Rules, p: Tree, nb: bool, rank: seq<nat>, k: nat, d: nat)
    requires SeenOk(g, p, rank, k, d) && Kept(g, p, nb, d)
    ensures LeftOk(g, p, rank, k, d)
    decreases p
  {
    hide CheckAux, WayEnds;
    match p
    case TRep(q) => SeenLeft(g, q, true, rank, k, d);
    case TNot(q) => SeenLeft(g, q, true, rank, k, d);
    case TAnd(q) => SeenLeft(g, q, true, rank, k, d);
    case TCapture(_, _, q) => SeenLeft(g, q, nb, rank, k, d);
    case TSeq(p1, p2) =>
      SeenLeft(g, p1, false, rank, k, d);
      KeptPasses(g, p1, false, d);
      if Passes(g, p1, false, d) { SeenLeft(g, p2, nb, rank, k, d); }
    case TChoice(p1, p2) =>
      SeenLeft(g, p1, nb, rank, k, d);
      SeenLeft(g, p2, Passes(g, p1, nb, d), rank, k, d);
    case _ =>
  }

  lemma {:induction false} LeftSeen(g: Rules, p: Tree, rank: seq<nat>, k: nat, top: nat, d: nat)
    requires Upstanding(g, rank, top, d) && Upright(g, p, d) && LeftOk(g, p, rank, k, d)
    ensures SeenOk(g, p, rank, k, d)
    decreases p
  {
    hide Upstanding, Upright, CheckAux, Passes, WayEnds;
    UprightParts(g, p, d);
    match p
    case TRep(q) => LeftSeen(g, q, rank, k, top, d);
    case TNot(q) => LeftSeen(g, q, rank, k, top, d);
    case TAnd(q) => LeftSeen(g, q, rank, k, top, d);
    case TCapture(_, _, q) => LeftSeen(g, q, rank, k, top, d);
    case TSeq(p1, p2) =>
      LeftSeen(g, p1, rank, k, top, d);
      if Passes(g, p1, false, d) { PassesNullable(g, p1, false, d); LeftSeen(g, p2, rank, k, top, d); }
    case TChoice(p1, p2) => LeftSeen(g, p1, rank, k, top, d); LeftSeen(g, p2, rank, k, top, d);
    case TGrammar(_) => LeftEnds(g, p, AskCheck(PENullable), rank, top, d);
    case _ =>
  }

  /** That holds of all rules that the check looks at. */
  ghost predicate KeptRules(rules: Rules, d: nat) {
    forall k :: 0 <= k < |rules| && Used(rules, k) ==> Kept(rules, rules[k], false, d)
  }

  /** A grammar that passes the check is not left recursive, as long as verifyrule does not forget `nb`. */
  lemma VerifiedNotLeftRecursive(rules: Rules, d: nat)
    requires Verified(rules, d) && KeptRules(rules, d) && RulesFormed(rules, d)
    ensures NotLeftRecursive(rules, d)
  {
    hide VerifyRun, Used, SeenOk, Kept, LeftOk, WellFormed;
    VerifiedSeen(rules, d);
    var rank: seq<nat> :| Seen(rules, rank, d);
    forall k | 0 <= k < |rules| && Used(rules, k) ensures LeftOk(rules, rules[k], rank, rank[k], d) {
      SeenLeft(rules, rules[k], false, rank, rank[k], d);
    }
    UnusedRanked(rules, rank, d);
  }

  /** A grammar that is not left recursive, outside and inside, passes the check. */
  lemma NotLeftRecursiveVerified(rules: Rules, m: nat, d: nat)
    requires NotLeftRecursive(rules, d) && forall k :: 0 <= k < |rules| ==> Upright(rules, rules[k], d)
    requires Room(rules, m) && |rules| <= MAXRULES && |rules| + m <= d
    ensures Verified(rules, d)
  {
    hide VerifyRun, Used, SeenOk, LeftOk, Upright, Room;
    var rank: seq<nat> :| Ranked(rules, rank, d);
    var top := RankBound(rank);
    assert Upstanding(rules, rank, top, d);
    forall k | 0 <= k < |rules| ensures SeenOk(rules, rules[k], rank, rank[k], d) {
      LeftSeen(rules, rules[k], rank, rank[k], top, d);
    }
    assert Seen(rules, rank, d);
    SeenVerified(rules, rank, m, d);
  }

  /** So as long as verifyrule does not forget `nb`, the check finds out exactly what it is for. */
  lemma VerifiedAgrees(rules: Rules, m: nat, d: nat)
    requires KeptRules(rules, d) && forall k :: 0 <= k < |rules| ==> Upright(rules, rules[k], d)
    requires Room(rules, m) && |rules| <= MAXRULES && MAXRULES + m <= d
    ensures (exists n: nat :: Verified(rules, n)) <==> NotLeftRecursive(rules, d)
  {
    hide Verified, KeptRules, WellFormed, NoLeftRecursion, Room, NotLeftRecursive;
    if n: nat :| Verified(rules, n) {
      VerifiedSoon(rules, n, m, d);
      VerifiedNotLeftRecursive(rules, d);
    }
    if NotLeftRecursive(rules, d) { NotLeftRecursiveVerified(rules, m, d); }
  }

  /** In no grammar of `p` verifyrule forgets `nb`. */
  ghost predicate KeptAll(p: Tree, d: nat)
    decreases p
  {
    match p
    case TSeq(p1, p2) => KeptAll(p1, d) && KeptAll(p2, d)
    case TChoice(p1, p2) => KeptAll(p1, d) && KeptAll(p2, d)
    case TRep(q) => KeptAll(q, d)
    case TNot(q) => KeptAll(q, d)
    case TAnd(q) => KeptAll(q, d)
    case TBehind(_, q) => KeptAll(q, d)
    case TCapture(_, _, q) => KeptAll(q, d)
    case TGrammar(rules) => KeptRules(rules, d) && forall k :: 0 <= k < |rules| ==> KeptAll(rules[k], d)
    case _ => true
  }

  lemma {:induction false} KeptNoLeftRecursion(g: Rules, p: Tree, d: nat)
    requires WellFormed(g, p, d) && Checked(p, d) && KeptAll(p, d)
    ensures NoLeftRecursion(p, d)
    decreases p
  {
    hide FixedLen, HasCaptures, StarRun, Verified, LoopsVerified, KeptRules, NotLeftRecursive;
    match p
    case TSeq(p1, p2) => KeptNoLeftRecursion(g, p1, d); KeptNoLeftRecursion(g, p2, d);
    case TChoice(p1, p2) => KeptNoLeftRecursion(g, p1, d); KeptNoLeftRecursion(g, p2, d);
    case TRep(q) => KeptNoLeftRecursion(g, q, d);
    case TNot(q) => KeptNoLeftRecursion(g, q, d);
    case TAnd(q) => KeptNoLeftRecursion(g, q, d);
    case TBehind(_, q) => KeptNoLeftRecursion(g, q, d);
    case TCapture(_, _, q) => KeptNoLeftRecursion(g, q, d);
    case TGrammar(rules) =>
      VerifiedNotLeftRecursive(rules, d);
      forall k | 0 <= k < |rules| ensures NoLeftRecursion(rules[k], d) { KeptNoLeftRecursion(rules, rules[k], d); }
    case _ =>
  }

  /** A pattern that lptree.c accepts is not left recursive, as long as verifyrule does not forget `nb`. */
  lemma AcceptedKept(p: Tree, d: nat)
    requires Accepted(p, d) && KeptAll(p, d)
    ensures NoLeftRecursion(p, d)
  {
    hide WellFormed, Checked, KeptAll, NoLeftRecursion;
    KeptNoLeftRecursion([], p, d);
  }

  // ---------------------------------------------------------------- what lptree.c accepts

  /** nullable comes back from `q`, and with the answer no. */
  ghost predicate Consumes(g: Rules, q: Tree, d: nat) { WayEnds(g, q, AskCheck(PENullable), d) && !Nullable(g, q, d) }

  ghost predicate BodiesConsume(g: Rules, p: Tree, d: nat) {
    forall k :: 0 <= k < |LoopBodies(p)| ==> Consumes(g, LoopBodies(p)[k], d)
  }

  /** A grammar has not too many rules, the used ones can be ranked as verifyrule goes through them, and their loops
      consume. */
  ghost predicate RulesAcceptable(rules: Rules, d: nat) {
    && |rules| <= MAXRULES && (exists rank: seq<nat> :: Seen(rules, rank, d))
    && forall k :: 0 <= k < |rules| && Used(rules, k) ==> BodiesConsume(rules, rules[k], d)
  }

  /** That holds of all grammars in `p`, and all loops in it consume while calls are open. */
  ghost predicate Acceptable(p: Tree, d: nat)
    decreases p
  {
    match p
    case TSeq(p1, p2) => Acceptable(p1, d) && Acceptable(p2, d)
    case TChoice(p1, p2) => Acceptable(p1, d) && Acceptable(p2, d)
    case TRep(q) => Consumes([], Opened(q), d) && Acceptable(q, d)
    case TNot(q) => Acceptable(q, d)
    case TAnd(q) => Acceptable(q, d)
    case TBehind(_, q) => Acceptable(q, d)
    case TCapture(_, _, q) => Acceptable(q, d)
    case TGrammar(rules) => RulesAcceptable(rules, d) && forall k :: 0 <= k < |rules| ==> Acceptable(rules[k], d)
    case _ => true
  }

  lemma ConsumesExactly(g: Rules, q: Tree, m: nat, d: nat)
    requires Fits(g, q, m) && d >= 2 * |g| + m
    ensures CheckRun(g, q, PENullable, d) == Some(false) <==> Consumes(g, q, d)
  {
    hide CheckRun, CheckAux, WayEnds, Fits;
    if CheckRun(g, q, PENullable, d).Some? {
      BackEnds(g, q, AskCheck(PENullable), d, d);
      CheckRunIs(g, q, PENullable, d, d);
    }
    if Consumes(g, q, d) { BackAt(g, q, AskCheck(PENullable), m, d); }
  }

  lemma {:induction false} OpenedNest(p: Tree)
    ensures Nest(Opened(p)) <= Nest(p)
  {
    hide Widest;
    match p
    case TSeq(p1, p2) => OpenedNest(p1); OpenedNest(p2);
    case TChoice(p1, p2) => OpenedNest(p1); OpenedNest(p2);
    case TCapture(_, _, q) => OpenedNest(q);
    case _ =>
  }

  lemma {:induction false} BodiesNest(p: Tree)
    ensures forall k :: 0 <= k < |LoopBodies(p)| ==> Nest(LoopBodies(p)[k]) <= Nest(p)
  {
    hide Widest;
    match p
    case TRep(q) => BodiesNest(q);
    case TNot(q) => BodiesNest(q);
    case TAnd(q) => BodiesNest(q);
    case TBehind(_, q) => BodiesNest(q);
    case TCapture(_, _, q) => BodiesNest(q);
    case TSeq(p1, p2) => BodiesNest(p1); BodiesNest(p2);
    case TChoice(p1, p2) => BodiesNest(p1); BodiesNest(p2);
    case _ =>
  }

  lemma BodiesExactly(rules: Rules, k: nat, m: nat, d: nat)
    requires k < |rules| && Room(rules, m) && d >= 2 * |rules| + m
    ensures LoopRun(rules, rules[k], d) == Some(false) <==> BodiesConsume(rules, rules[k], d)
  {
    hide CheckRun, Consumes, LoopRun, LoopBodies, Nest;
    LoopRunFinds(rules, rules[k], d);
    BodiesNest(rules[k]);
    var bodies := LoopBodies(rules[k]);
    forall j | 0 <= j < |bodies|
        ensures CheckRun(rules, bodies[j], PENullable, d) == Some(false) <==> Consumes(rules, bodies[j], d) {
      ConsumesExactly(rules, bodies[j], m, d);
    }
  }

  lemma RulesExactly(rules: Rules, m: nat, d: nat)
    requires Room(rules, m) && d >= 2 * |rules| + m
    ensures Verified(rules, d) && LoopsVerified(rules, d) <==> RulesAcceptable(rules, d)
  {
    hide VerifyRun, LoopRun, Used, Seen, BodiesConsume, Room;
    if Verified(rules, d) { VerifiedSeen(rules, d); }
    if |rules| <= MAXRULES {
      if rank: seq<nat> :| Seen(rules, rank, d) { SeenVerified(rules, rank, m, d); }
    }
    forall k | 0 <= k < |rules|
        ensures LoopRun(rules, rules[k], d) == Some(false) <==> BodiesConsume(rules, rules[k], d) {
      BodiesExactly(rules, k, m, d);
    }
  }

  lemma {:induction false} CheckedExactly(p: Tree, d: nat)
    requires d >= Nest(p)
    ensures Checked(p, d) <==> Acceptable(p, d)
    decreases p
  {
    hide StarRun, CheckRun, Verified, LoopsVerified, RulesAcceptable, Consumes, Opened;
    match p
    case TSeq(p1, p2) => CheckedExactly(p1, d); CheckedExactly(p2, d);
    case TChoice(p1, p2) => CheckedExactly(p1, d); CheckedExactly(p2, d);
    case TRep(q) =>
      CheckedExactly(q, d);
      StarRunExactly(q, d);
      OpenedNest(q);
      ConsumesExactly([], Opened(q), Nest(q), d);
    case TNot(q) => CheckedExactly(q, d);
    case TAnd(q) => CheckedExactly(q, d);
    case TBehind(_, q) => CheckedExactly(q, d);
    case TCapture(_, _, q) => CheckedExactly(q, d);
    case TGrammar(rules) =>
      var m := Widest(p, |rules|);
      RulesExactly(rules, m, d);
      forall k | 0 <= k < |rules| ensures Checked(rules[k], d) <==> Acceptable(rules[k], d) {
        CheckedExactly(rules[k], d);
      }
    case _ =>
  }

  lemma CheckSoon(g: Rules, q: Tree, m: nat, n: nat, d: nat)
    requires CheckRun(g, q, PENullable, n).Some? && Fits(g, q, m) && n >= d >= 2 * |g| + m
    ensures CheckRun(g, q, PENullable, d) == CheckRun(g, q, PENullable, n)
  {
    hide CheckRun, Fits;
    BackSoon(g, q, AskCheck(PENullable), n, m, d);
    CheckRunMore(g, q, PENullable, d, n);
  }

  lemma RulesSoon(rules: Rules, m: nat, n: nat, d: nat)
    requires Verified(rules, n) && LoopsVerified(rules, n) && Room(rules, m)
    requires n >= d >= 2 * |rules| + m && d >= MAXRULES + m
    ensures Verified(rules, d) && LoopsVerified(rules, d)
  {
    hide VerifyRun, LoopRun, Used, LoopBodies, Nest, CheckRun;
    VerifiedSoon(rules, n, m, d);
    forall k | 0 <= k < |rules| && Used(rules, k) ensures LoopRun(rules, rules[k], d) == Some(false) {
      LoopRunFinds(rules, rules[k], n);
      LoopRunFinds(rules, rules[k], d);
      BodiesNest(rules[k]);
      var bodies := LoopBodies(rules[k]);
      forall j | 0 <= j < |bodies| ensures CheckRun(rules, bodies[j], PENullable, d) == Some(false) {
        CheckSoon(rules, bodies[j], m, n, d);
      }
    }
  }

  /** Whether the checks come back, and without an error, is decided within so many nested calls. */
  lemma {:induction false} CheckedSoon(p: Tree, n: nat, d: nat)
    requires Checked(p, n) && n >= d >= MAXRULES + Nest(p)
    ensures Checked(p, d)
    decreases p
  {
    hide StarRun, CheckRun, Verified, LoopsVerified, Opened, Fits;
    match p
    case TSeq(p1, p2) => CheckedSoon(p1, n, d); CheckedSoon(p2, n, d);
    case TChoice(p1, p2) => CheckedSoon(p1, n, d); CheckedSoon(p2, n, d);
    case TRep(q) =>
      CheckedSoon(q, n, d);
      StarRunExactly(q, n);
      StarRunExactly(q, d);
      OpenedNest(q);
      assert Fits([], Opened(q), Nest(q)) by { FitsAlone(Opened(q), Nest(q)); }
      CheckSoon([], Opened(q), Nest(q), n, d);
    case TNot(q) => CheckedSoon(q, n, d);
    case TAnd(q) => CheckedSoon(q, n, d);
    case TBehind(_, q) => CheckedSoon(q, n, d);
    case TCapture(_, _, q) => CheckedSoon(q, n, d);
    case TGrammar(rules) =>
      RulesSoon(rules, Widest(p, |rules|), n, d);
      forall k | 0 <= k < |rules| ensures Checked(rules[k], d) { CheckedSoon(rules[k], n, d); }
    case _ =>
  }

  lemma FitsAlone(p: Tree, m: nat)
    requires Nest(p) <= m
    ensures Fits([], p, m)
  {
  }

  /** For every well-formed pattern: the checks of lptree.c come back without an error, within however many nested
      calls, if and only if all grammars in it have at most MAXRULES rules that can be ranked as verifyrule goes
      through them, and its loops consume. */
  lemma AcceptedExactly(p: Tree, d: nat)
    requires WellFormed([], p, d) && d >= MAXRULES + Nest(p)
    ensures Accepted(p, d) <==> Acceptable(p, d)
    ensures (exists n: nat :: Checked(p, n)) <==> Acceptable(p, d)
  {
    hide WellFormed, Checked, Acceptable, Nest;
    CheckedExactly(p, d);
    if n: nat :| Checked(p, n) {
      if n <= d { CheckedMore(p, n, d); } else { CheckedSoon(p, n, d); }
    }
  }

  // ---------------------------------------------------------------- what they are for

  /** Grammars are not too large, and no loop has a nullable body, neither when it is built nor in a used rule. */
  ghost predicate Proper(p: Tree, d: nat)
    decreases p
  {
    match p
    case TSeq(p1, p2) => Proper(p1, d) && Proper(p2, d)
    case TChoice(p1, p2) => Proper(p1, d) && Proper(p2, d)
    case TRep(q) => !Nullable([], Opened(q), d) && Proper(q, d)
    case TNot(q) => Proper(q, d)
    case TAnd(q) => Proper(q, d)
    case TBehind(_, q) => Proper(q, d)
    case TCapture(_, _, q) => Proper(q, d)
    case TGrammar(rules) => RulesProper(rules, d) && forall k :: 0 <= k < |rules| ==> Proper(rules[k], d)
    case _ => true
  }

  ghost predicate RulesProper(rules: Rules, d: nat) {
    && |rules| <= MAXRULES
    && forall k, j :: 0 <= k < |rules| && Used(rules, k) && 0 <= j < |LoopBodies(rules[k])| ==>
         !Nullable(rules, LoopBodies(rules[k])[j], d)
  }

  lemma {:induction false} BodiesUpright(g: Rules, p: Tree, d: nat)
    requires Upright(g, p, d)
    ensures forall k :: 0 <= k < |LoopBodies(p)| ==> Upright(g, LoopBodies(p)[k], d)
    decreases p
  {
    hide Upright;
    UprightParts(g, p, d);
    match p
    case TRep(q) => BodiesUpright(g, q, d);
    case TNot(q) => BodiesUpright(g, q, d);
    case TAnd(q) => BodiesUpright(g, q, d);
    case TBehind(_, q) => BodiesUpright(g, q, d);
    case TCapture(_, _, q) => BodiesUpright(g, q, d);
    case TSeq(p1, p2) => BodiesUpright(g, p1, d); BodiesUpright(g, p2, d);
    case TChoice(p1, p2) => BodiesUpright(g, p1, d); BodiesUpright(g, p2, d);
    case _ =>
  }

  /** nullable comes back from a tree without its calls. */
  lemma {:induction false} OpenedFollows(g: Rules, p: Tree, d: nat)
    requires Upright(g, p, d)
    ensures Follows([], Opened(p), AskCheck(PENullable), [], 0, d)
    decreases p
  {
    hide Upright, CheckAux, WayEnds;
    UprightParts(g, p, d);
    match p
    case TSeq(p1, p2) => OpenedFollows(g, p1, d); OpenedFollows(g, p2, d);
    case TChoice(p1, p2) => OpenedFollows(g, p1, d); OpenedFollows(g, p2, d);
    case TCapture(_, _, q) => OpenedFollows(g, q, d);
    case TGrammar(rules) =>
      GrammarUpright(g, p, d);
      assert Upstanding([], [], 0, d);
      LeftFollows([], p, AskCheck(PENullable), [], 0, 0, d);
    case _ =>
  }

  lemma GrammarUpright(g: Rules, p: Tree, d: nat)
    requires p.TGrammar? && Upright(g, p, d)
    ensures Upright([], p, d)
  {
    hide NotLeftRecursive;
  }

  lemma OpenedEnds(g: Rules, p: Tree, d: nat)
    requires Upright(g, p, d)
    ensures WayEnds([], Opened(p), AskCheck(PENullable), d)
  {
    hide Upright, Follows;
    OpenedFollows(g, p, d);
    assert RanksDown([], AskCheck(PENullable), [], 0, d);
  }

  lemma RulesUpright(rules: Rules, d: nat)
    requires NotLeftRecursive(rules, d) && RulesProper(rules, d)
    requires forall k :: 0 <= k < |rules| ==> Upright(rules, rules[k], d)
    ensures RulesAcceptable(rules, d)
  {
    hide LeftOk, SeenOk, Upright, Used, CheckAux, WayEnds, LoopBodies;
    var rank: seq<nat> :| Ranked(rules, rank, d);
    var top := RankBound(rank);
    assert Upstanding(rules, rank, top, d);
    forall k | 0 <= k < |rules| ensures SeenOk(rules, rules[k], rank, rank[k], d) {
      LeftSeen(rules, rules[k], rank, rank[k], top, d);
    }
    assert Seen(rules, rank, d);
    forall k, j | 0 <= k < |rules| && Used(rules, k) && 0 <= j < |LoopBodies(rules[k])|
        ensures Consumes(rules, LoopBodies(rules[k])[j], d) {
      BodiesUpright(rules, rules[k], d);
      LeftEnds(rules, LoopBodies(rules[k])[j], AskCheck(PENullable), rank, top, d);
    }
  }

  lemma {:induction false} ProperAcceptable(g: Rules, p: Tree, d: nat)
    requires Upright(g, p, d) && Proper(p, d)
    ensures Acceptable(p, d)
    decreases p
  {
    hide CheckAux, WayEnds, RulesAcceptable, RulesProper, Upright, Opened;
    UprightParts(g, p, d);
    match p
    case TSeq(p1, p2) => ProperAcceptable(g, p1, d); ProperAcceptable(g, p2, d);
    case TChoice(p1, p2) => ProperAcceptable(g, p1, d); ProperAcceptable(g, p2, d);
    case TRep(q) => OpenedEnds(g, q, d); ProperAcceptable(g, q, d);
    case TNot(q) => ProperAcceptable(g, q, d);
    case TAnd(q) => ProperAcceptable(g, q, d);
    case TBehind(_, q) => ProperAcceptable(g, q, d);
    case TCapture(_, _, q) => ProperAcceptable(g, q, d);
    case TGrammar(rules) =>
      RulesUpright(rules, d);
      forall k | 0 <= k < |rules| ensures Acceptable(rules[k], d) { ProperAcceptable(rules, rules[k], d); }
    case _ =>
  }

  /** A well-formed pattern that is not left recursive, has no loops with nullable bodies and no grammars that are too
      large passes all checks of lptree.c. */
  lemma ProperAccepted(p: Tree, d: nat)
    requires WellFormed([], p, d) && NoLeftRecursion(p, d) && Proper(p, d) && d >= MAXRULES + Nest(p)
    ensures Accepted(p, d)
  {
    hide WellFormed, NoLeftRecursion, Proper, Acceptable, Checked, Nest;
    ProperAcceptable([], p, d);
    AcceptedExactly(p, d);
  }
}
