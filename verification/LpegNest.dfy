/** How many nested calls the analyses need.

    If an analysis comes back at all, it does so within a number of nested calls that is read off the tree: in
    each grammar it goes through rules of smaller and smaller rank, so at most once through each of them. */
module LpegNest {
  import opened Basics
  import opened LpegTree
  import opened LpegAnalysis
  import opened LpegVm
  import opened LpegCodegen
  import opened LpegRuns
  import opened LpegAnswers
  import opened LpegCorrect

  /** Nested calls that are enough for the grammars in `p`, one inside the other: for each of them the call of its
      first rule, and two ways through all its rules, one of `headfail` or `getfirst` and one of `checkaux`. */
  function Nest(p: Tree): nat {
    match p
    case TSeq(p1, p2) => Max(Nest(p1), Nest(p2))
    case TChoice(p1, p2) => Max(Nest(p1), Nest(p2))
    case TRep(q) => Nest(q)
    case TNot(q) => Nest(q)
    case TAnd(q) => Nest(q)
    case TBehind(_, q) => Nest(q)
    case TCapture(_, _, q) => Nest(q)
    case TGrammar(rules) => 1 + 2 * |rules| + Widest(p, |rules|)
    case _ => 0
  }

  /** The same for the first `n` rules of a grammar. */
  function Widest(p: Tree, n: nat): (m: nat)
    requires p.TGrammar? && n <= |p.rules|
    ensures forall k :: 0 <= k < n ==> Nest(p.rules[k]) <= m
    decreases p, n
  {
    if n == 0 then 0 else Max(Nest(p.rules[n - 1]), Widest(p, n - 1))
  }

  /** `m` nested calls are enough for the grammars in `p` and in the rules around it. */
  predicate Fits(g: Rules, p: Tree, m: nat) {
    Nest(p) <= m && forall n :: 0 <= n < |g| ==> Nest(g[n]) <= m
  }

  lemma FitsParts(g: Rules, p: Tree, m: nat)
    requires Fits(g, p, m)
    ensures p.TSeq? ==> Fits(g, p.first, m) && Fits(g, p.second, m)
    ensures p.TChoice? ==> Fits(g, p.left, m) && Fits(g, p.right, m)
    ensures p.TRep? || p.TNot? || p.TAnd? || p.TBehind? || p.TCapture? ==> Fits(g, p.body, m)
    ensures p.TCall? && p.rule < |g| ==> Fits(g, g[p.rule], m)
    ensures p.TGrammar? ==> forall k :: 0 <= k < |p.rules| ==> Fits(p.rules, p.rules[k], Widest(p, |p.rules|))
    ensures p.TGrammar? ==> 1 + 2 * |p.rules| + Widest(p, |p.rules|) <= m
  {
  }

  // ---------------------------------------------------------------- ranks without gaps

  /** How many of the ranks are below `k`. */
  function Count(rank: seq<nat>, k: nat): (n: nat)
    ensures n <= |rank|
  {
    if rank == [] then 0 else (if rank[0] < k then 1 else 0) + Count(rank[1..], k)
  }

  lemma {:induction false} CountMonotone(rank: seq<nat>, j: nat, k: nat)
    requires j <= k
    ensures Count(rank, j) <= Count(rank, k)
  {
    if rank != [] { CountMonotone(rank[1..], j, k); }
  }

  lemma {:induction false} CountLess(rank: seq<nat>, i: nat, k: nat)
    requires i < |rank| && rank[i] < k
    ensures Count(rank, rank[i]) < Count(rank, k)
  {
    CountMonotone(rank[1..], rank[i], k);
    if i > 0 { CountLess(rank[1..], i - 1, k); }
  }

  /** The same order, with ranks below the number of the rules. */
  function Packed(rank: seq<nat>): (packed: seq<nat>)
    ensures |packed| == |rank| && forall i :: 0 <= i < |rank| ==> packed[i] == Count(rank, rank[i])
  {
    seq(|rank|, i requires 0 <= i < |rank| => Count(rank, rank[i]))
  }

  lemma {:induction false} PackedFollows(g: Rules, p: Tree, ask: Ask, rank: seq<nat>, k: nat, d: nat)
    requires Follows(g, p, ask, rank, k, d)
    ensures Follows(g, p, ask, Packed(rank), Count(rank, k), d)
    decreases p
  {
    hide CheckAux, HeadFail, WayEnds, Packed, Count;
    match p
    case TCall(n) => CountLess(rank, n, k);
    case TSeq(p1, p2) =>
      if Follows(g, p1, ask, rank, k, d) { PackedFollows(g, p1, ask, rank, k, d); }
      if Follows(g, p2, ask, rank, k, d) { PackedFollows(g, p2, ask, rank, k, d); }
    case TChoice(p1, p2) =>
      if Follows(g, p1, ask, rank, k, d) { PackedFollows(g, p1, ask, rank, k, d); }
      if Follows(g, p2, ask, rank, k, d) { PackedFollows(g, p2, ask, rank, k, d); }
    case TRep(q) => if ask.AskFirst? { PackedFollows(g, q, ask, rank, k, d); }
    case TNot(q) => if ask.AskFirst? && !IsCharset(q) { PackedFollows(g, q, ask, rank, k, d); }
    case TAnd(q) => if ask != AskCheck(PENullable) { PackedFollows(g, q, ask, rank, k, d); }
    case TBehind(_, q) => if ask.AskFirst? { PackedFollows(g, q, ask, rank, k, d); }
    case TCapture(_, _, q) => PackedFollows(g, q, ask, rank, k, d);
    case _ =>
  }

  lemma PackedDown(g: Rules, ask: Ask, rank: seq<nat>, top: nat, d: nat)
    requires RanksDown(g, ask, rank, top, d)
    ensures RanksDown(g, ask, Packed(rank), Count(rank, top), d)
  {
    hide Follows, Count;
    var packed := Packed(rank);
    forall n | 0 <= n < |g| && packed[n] < Count(rank, top) ensures Follows(g, g[n], ask, packed, packed[n], d) {
      if rank[n] >= top { CountMonotone(rank, top, rank[n]); }
      PackedFollows(g, g[n], ask, rank, rank[n], d);
    }
  }

  // ---------------------------------------------------------------- a way that ends is short

  /** What `headfail` and `getfirst` need for the questions they put to `checkaux`. */
  function Reserve(g: Rules, ask: Ask): nat { if ask.AskCheck? then 0 else |g| }

  lemma {:induction false} FollowsBack(g: Rules, p: Tree, ask: Ask, rank: seq<nat>, k: nat, top: nat, m: nat, d: nat)
    requires RanksDown(g, ask, rank, top, d) && k <= top && Follows(g, p, ask, rank, k, d)
    requires Fits(g, p, m) && k + Reserve(g, ask) + m <= d
    ensures Back(g, p, ask, k + Reserve(g, ask) + m)
    decreases Order(ask), k + Reserve(g, ask) + m, 0, p
  {
    hide CheckRun, HeadRun, FirstRun, CheckAux, HeadFail, FullSet, Fits, Widest, WayEnds, RanksDown;
    FitsParts(g, p, m);
    var n := k + Reserve(g, ask) + m;
    match p
    case TSeq(p1, p2) =>
      if ask.AskHead? {
        EndsBack(g, p2, AskCheck(PENoFail), m, d);
        BackMore(g, p2, AskCheck(PENoFail), |g| + m, n);
      }
      if ask.AskFirst? {
        EndsBack(g, p1, AskCheck(PENullable), m, d);
        BackMore(g, p1, AskCheck(PENullable), |g| + m, n);
      }
      if Follows(g, p1, ask, rank, k, d) { FollowsBack(g, p1, ask, rank, k, top, m, d); }
      if Follows(g, p2, ask, rank, k, d) { FollowsBack(g, p2, ask, rank, k, top, m, d); }
      SeqBack(g, p1, p2, ask, n, d);
    case TChoice(p1, p2) =>
      if Follows(g, p1, ask, rank, k, d) { FollowsBack(g, p1, ask, rank, k, top, m, d); }
      if Follows(g, p2, ask, rank, k, d) { FollowsBack(g, p2, ask, rank, k, top, m, d); }
      ChoiceBack(g, p1, p2, ask, n, d);
    case TRep(q) => if ask.AskFirst? { FollowsBack(g, q, ask, rank, k, top, m, d); } BodyBack(g, p, q, ask, n);
    case TNot(q) =>
      if ask.AskFirst? && !IsCharset(q) { FollowsBack(g, q, ask, rank, k, top, m, d); }
      BodyBack(g, p, q, ask, n);
    case TAnd(q) =>
      if ask != AskCheck(PENullable) { FollowsBack(g, q, ask, rank, k, top, m, d); }
      BodyBack(g, p, q, ask, n);
    case TBehind(_, q) => if ask.AskFirst? { FollowsBack(g, q, ask, rank, k, top, m, d); } BodyBack(g, p, q, ask, n);
    case TCapture(_, _, q) => FollowsBack(g, q, ask, rank, k, top, m, d); BodyBack(g, p, q, ask, n);
    case TCall(i) =>
      RuleFollows(g, i, ask, rank, top, d);
      FollowsBack(g, g[i], ask, rank, rank[i], top, m, d);
      BackMore(g, g[i], ask, rank[i] + Reserve(g, ask) + m, n - 1);
      RuleBack(g, p, g, g[i], ask, n);
    case TGrammar(rules) =>
      var inside := Widest(p, |rules|);
      GrammarEnds(g, p, ask, rank, k, d);
      EndsBack(rules, rules[0], ask, inside, d);
      BackMore(rules, rules[0], ask, |rules| + Reserve(rules, ask) + inside, n - 1);
      RuleBack(g, p, rules, rules[0], ask, n);
    case _ => LeafBack(g, p, ask, n);
  }

  lemma SeqBack(g: Rules, p1: Tree, p2: Tree, ask: Ask, n: nat, d: nat)
    requires n <= d
    requires ask.AskCheck? ==> Back(g, p1, ask, n) && (CheckAux(g, p1, ask.pred, d) ==> Back(g, p2, ask, n))
    requires ask.AskHead? ==> Back(g, p2, AskCheck(PENoFail), n) && (NoFail(g, p2, d) ==> Back(g, p1, ask, n))
    requires ask.AskFirst? ==> Back(g, p1, AskCheck(PENullable), n) && Back(g, p1, ask, n) &&
                               (Nullable(g, p1, d) ==> Back(g, p2, ask, n))
    ensures Back(g, TSeq(p1, p2), ask, n)
  {
    hide CheckAux, FullSet;
    match ask
    case AskCheck(pred) => CheckRunIs(g, p1, pred, n, d);
    case AskHead => CheckRunIs(g, p2, PENoFail, n, d);
    case AskFirst =>
      CheckRunIs(g, p1, PENullable, n, d);
      if Nullable(g, p1, d) { AnyFollow(g, p1, FullSet(), FirstRun(g, p2, FullSet(), n).value.cs, n); }
  }

  lemma ChoiceBack(g: Rules, p1: Tree, p2: Tree, ask: Ask, n: nat, d: nat)
    requires n <= d
    requires ask.AskCheck? ==> Back(g, p2, ask, n) && (!CheckAux(g, p2, ask.pred, d) ==> Back(g, p1, ask, n))
    requires ask.AskHead? ==> Back(g, p1, ask, n) && (HeadFail(g, p1, d) ==> Back(g, p2, ask, n))
    requires ask.AskFirst? ==> Back(g, p1, ask, n) && Back(g, p2, ask, n)
    ensures Back(g, TChoice(p1, p2), ask, n)
  {
    hide CheckAux, HeadFail, FullSet;
    match ask
    case AskCheck(pred) => CheckRunIs(g, p2, pred, n, d);
    case AskHead => HeadRunIs(g, p1, n, d);
    case AskFirst =>
  }

  lemma BodyBack(g: Rules, p: Tree, q: Tree, ask: Ask, n: nat)
    requires (p.TRep? || p.TNot? || p.TAnd? || p.TBehind? || p.TCapture?) && p.body == q
    requires Back(g, q, ask, n) || ((p.TRep? || p.TBehind?) && !ask.AskFirst?) ||
             (p.TNot? && (!ask.AskFirst? || IsCharset(q))) || (p.TAnd? && ask == AskCheck(PENullable))
    ensures Back(g, p, ask, n)
  {
    hide FullSet;
  }

  lemma RuleBack(g: Rules, p: Tree, rules: Rules, rule: Tree, ask: Ask, n: nat)
    requires (p.TCall? && p.rule < |g| && rules == g && rule == g[p.rule]) ||
             (p.TGrammar? && rules == p.rules != [] && rule == rules[0])
    requires n > 0 && Back(rules, rule, ask, n - 1)
    ensures Back(g, p, ask, n)
  {
    hide FullSet;
  }

  lemma LeafBack(g: Rules, p: Tree, ask: Ask, n: nat)
    requires p.TChar? || p.TSet? || p.TAny? || p.TTrue? || p.TFalse?
    ensures Back(g, p, ask, n)
  {
    hide FullSet;
  }

  lemma RuleFollows(g: Rules, i: nat, ask: Ask, rank: seq<nat>, top: nat, d: nat)
    requires RanksDown(g, ask, rank, top, d) && i < |rank| && rank[i] < top
    ensures i < |g| && Follows(g, g[i], ask, rank, rank[i], d)
  {
    hide Follows;
  }

  lemma GrammarEnds(g: Rules, p: Tree, ask: Ask, rank: seq<nat>, k: nat, d: nat)
    requires p.TGrammar? && Follows(g, p, ask, rank, k, d)
    ensures p.rules != [] && WayEnds(p.rules, p.rules[0], ask, d)
  {
    var rules := p.rules;
    var inner: seq<nat>, top: nat :|
      && |inner| == |rules| && Follows(rules, rules[0], ask, inner, top, d)
      && forall n :: 0 <= n < |rules| && inner[n] < top ==> Follows(rules, rules[n], ask, inner, inner[n], d);
    assert RanksDown(rules, ask, inner, top, d);
  }

  /** If the way of an analysis ends, the analysis comes back, and within so many nested calls. */
  lemma {:induction false} EndsBack(g: Rules, p: Tree, ask: Ask, m: nat, d: nat)
    requires WayEnds(g, p, ask, d) && Fits(g, p, m) && |g| + Reserve(g, ask) + m <= d
    ensures Back(g, p, ask, |g| + Reserve(g, ask) + m)
    decreases Order(ask), |g| + Reserve(g, ask) + m, 1
  {
    hide Back, Follows, RanksDown, Fits;
    var rank: seq<nat>, top: nat :| RanksDown(g, ask, rank, top, d) && Follows(g, p, ask, rank, top, d);
    assert |rank| == |g| by { RanksLength(g, ask, rank, top, d); }
    var k := Count(rank, top);
    PackedDown(g, ask, rank, top, d);
    PackedFollows(g, p, ask, rank, top, d);
    FollowsBack(g, p, ask, Packed(rank), k, k, m, d);
    BackMore(g, p, ask, k + Reserve(g, ask) + m, |g| + Reserve(g, ask) + m);
  }

  lemma RanksLength(g: Rules, ask: Ask, rank: seq<nat>, top: nat, d: nat)
    requires RanksDown(g, ask, rank, top, d)
    ensures |rank| == |g|
  {
    hide Follows;
  }

  /** An analysis that comes back does so within a number of nested calls that depends on the sizes of the grammars
      only. */
  lemma BackWithin(g: Rules, p: Tree, ask: Ask, n: nat, m: nat)
    requires Back(g, p, ask, n) && Fits(g, p, m)
    ensures Back(g, p, ask, 2 * |g| + m)
  {
    hide Back, WayEnds, Fits;
    var d := Max(n, 2 * |g| + m);
    BackEnds(g, p, ask, n, d);
    EndsBack(g, p, ask, m, d);
    BackMore(g, p, ask, |g| + Reserve(g, ask) + m, 2 * |g| + m);
  }

  // ---------------------------------------------------------------- fixedlen and hascaptures always come back

  /** The rules in scope are as lptree.c builds them. */
  ghost predicate RulesFormed(g: Rules, d: nat) { forall n :: 0 <= n < |g| ==> WellFormed(g, g[n], d) }

  lemma {:induction false} NatsCount(n: nat)
    ensures |NatsBelow(n)| == n
  {
    if n > 0 { NatsCount(n - 1); }
  }

  /** Marking one more call leaves fewer to follow. */
  lemma VisitLess(g: Rules, visited: set<nat>, n: nat)
    requires n < |g| && n !in visited
    ensures |Unvisited(g, visited + {n})| < |Unvisited(g, visited)|
  {
    assert n in Unvisited(g, visited);
    assert Unvisited(g, visited + {n}) == Unvisited(g, visited) - {n};
  }

  lemma {:induction false} LengthComesBack(g: Rules, p: Tree, visited: set<nat>, m: nat, d: nat, n: nat)
    requires WellFormed(g, p, d) && RulesFormed(g, d) && Fits(g, p, m) && n >= |Unvisited(g, visited)| + m
    ensures LenRun(g, p, visited, n).Some?
    decreases n, p
  {
    hide FixedLen, HasCaptures, Fits, Widest, Unvisited;
    FitsParts(g, p, m);
    match p
    case TCapture(_, _, q) => LengthComesBack(g, q, visited, m, d, n);
    case TSeq(p1, p2) => LengthComesBack(g, p1, visited, m, d, n); LengthComesBack(g, p2, visited, m, d, n);
    case TChoice(p1, p2) => LengthComesBack(g, p1, visited, m, d, n); LengthComesBack(g, p2, visited, m, d, n);
    case TCall(k) =>
      if k !in visited {
        VisitLess(g, visited, k);
        LengthComesBack(g, g[k], visited + {k}, m, d, n - 1);
      }
    case TGrammar(rules) =>
      AllUnvisited(rules);
      LengthComesBack(rules, rules[0], {}, Widest(p, |rules|), d, n - 1);
    case _ =>
  }

  lemma AllUnvisited(g: Rules)
    ensures |Unvisited(g, {})| == |g|
  {
    NatsCount(|g|);
    assert Unvisited(g, {}) == NatsBelow(|g|);
  }

  lemma {:induction false} CapturesComeBack(g: Rules, p: Tree, visited: set<nat>, m: nat, d: nat, n: nat)
    requires WellFormed(g, p, d) && RulesFormed(g, d) && Fits(g, p, m) && n >= |Unvisited(g, visited)| + m
    ensures CapRun(g, p, visited, n).Some?
    decreases n, p
  {
    hide FixedLen, HasCaptures, Fits, Widest, Unvisited;
    FitsParts(g, p, m);
    match p
    case TRep(q) => CapturesComeBack(g, q, visited, m, d, n);
    case TNot(q) => CapturesComeBack(g, q, visited, m, d, n);
    case TAnd(q) => CapturesComeBack(g, q, visited, m, d, n);
    case TBehind(_, q) => CapturesComeBack(g, q, visited, m, d, n);
    case TSeq(p1, p2) => CapturesComeBack(g, p1, visited, m, d, n); CapturesComeBack(g, p2, visited, m, d, n);
    case TChoice(p1, p2) => CapturesComeBack(g, p1, visited, m, d, n); CapturesComeBack(g, p2, visited, m, d, n);
    case TCall(k) =>
      if k !in visited {
        VisitLess(g, visited, k);
        CapturesComeBack(g, g[k], visited + {k}, m, d, n - 1);
      }
    case TGrammar(rules) =>
      AllUnvisited(rules);
      CapturesComeBack(rules, rules[0], {}, Widest(p, |rules|), d, n - 1);
    case _ =>
  }

  /** `fixedlen` and `hascaptures` mark the rules that they are following, and always come back. */
  lemma LengthAlwaysBack(g: Rules, p: Tree, limit: nat, m: nat, d: nat, n: nat)
    requires WellFormed(g, p, d) && RulesFormed(g, d) && Fits(g, p, m) && n >= |g| + m
    ensures LengthBack(g, p, limit, n)
  {
    hide WellFormed, RulesFormed, Fits, LenRun, CapRun;
    AllUnvisited(g);
    LengthComesBack(g, p, {}, m, d, n);
    CapturesComeBack(g, p, {}, m, d, n);
  }

  lemma LengthFound(g: Rules, p: Tree, m: nat, e: nat)
    requires WellFormed(g, p, e) && RulesFormed(g, e) && Fits(g, p, m) && e >= |g| + m
    ensures LenRun(g, p, {}, e).Some?
  {
    hide WellFormed, RulesFormed, Fits, LenRun, CapRun;
    LengthAlwaysBack(g, p, 0, m, e, e);
  }

  // ---------------------------------------------------------------- the generator

  /** If an analysis ends its way, it has come back at depth `e`. */
  lemma BackAt(g: Rules, p: Tree, ask: Ask, m: nat, e: nat)
    requires WayEnds(g, p, ask, e) && Fits(g, p, m) && e >= 2 * |g| + m
    ensures Back(g, p, ask, e)
  {
    hide WayEnds, Fits, Back;
    EndsBack(g, p, ask, m, e);
    BackMore(g, p, ask, |g| + Reserve(g, ask) + m, e);
  }

  lemma HeadBackAt(g: Rules, p: Tree, m: nat, e: nat)
    requires WayEnds(g, p, AskFirst, e) && WayEnds(g, p, AskHead, e) && Fits(g, p, m) && e >= 2 * |g| + m
    ensures HeadBack(g, p, e)
    ensures HeadRun(g, p, e) == Some(HeadFail(g, p, e)) && FirstRun(g, p, FullSet(), e) == Some(FirstOf(g, p, e))
  {
    hide WayEnds, Fits, Back, HeadRun, HeadFail, FirstRun, FirstOf, FullSet;
    BackAt(g, p, AskFirst, m, e);
    BackAt(g, p, AskHead, m, e);
    HeadBackIs(g, p, e, e);
  }

  /** If all the ways end that the analyses of the generator take, they have come back at depth `e`. */
  lemma {:induction false} AnalysesBack(g: Rules, p: Tree, m: nat, e: nat)
    requires WellFormed(g, p, e) && RulesFormed(g, e) && AnalysesEnd(g, p, e)
    requires Fits(g, p, m) && e >= 2 * |g| + m
    ensures GenBack(g, p, e)
    decreases p
  {
    hide WellFormed, Fits, Widest, WayEnds, Back, HeadBack, HeadRun, FirstRun, HeadFail, FirstOf, LenRun, CapRun,
      LengthBack, FixedLen, HasCaptures, FullSet;
    FitsParts(g, p, m);
    WellFormedParts(g, p, e);
    match p
    case TChoice(p1, p2) =>
      HeadBackAt(g, p1, m, e);
      if WayEnds(g, p2, AskFirst, e) { BackAt(g, p2, AskFirst, m, e); }
      AnalysesBack(g, p1, m, e);
      AnalysesBack(g, p2, m, e);
    case TRep(q) => if !IsCharset(q) { HeadBackAt(g, q, m, e); AnalysesBack(g, q, m, e); }
    case TNot(q) =>
      HeadBackAt(g, q, m, e);
      if AnalysesEnd(g, q, e) { AnalysesBack(g, q, m, e); }
    case TAnd(q) => LengthAlwaysBack(g, q, MAXBEHIND, m, e, e); AnalysesBack(g, q, m, e);
    case TBehind(_, q) => AnalysesBack(g, q, m, e);
    case TCapture(_, _, q) => LengthAlwaysBack(g, q, MAXOFF, m, e, e); AnalysesBack(g, q, m, e);
    case TSeq(p1, p2) =>
      if NeedFollow(p1) { BackAt(g, p2, AskFirst, m, e); }
      LengthFound(g, p1, m, e);
      AnalysesBack(g, p1, m, e);
      AnalysesBack(g, p2, m, e);
    case TGrammar(rules) =>
      forall k | 0 <= k < |rules| ensures GenBack(rules, rules[k], e) {
        AnalysesBack(rules, rules[k], Widest(p, |rules|), e);
      }
    case _ =>
  }

  /** An analysis that comes back has come back at depth `e`. */
  lemma BackSoon(g: Rules, p: Tree, ask: Ask, n: nat, m: nat, e: nat)
    requires Back(g, p, ask, n) && Fits(g, p, m) && e >= 2 * |g| + m
    ensures Back(g, p, ask, e)
  {
    hide Back, Fits;
    BackWithin(g, p, ask, n, m);
    BackMore(g, p, ask, 2 * |g| + m, e);
  }

  lemma HeadBackSoon(g: Rules, p: Tree, n: nat, m: nat, e: nat)
    requires HeadBack(g, p, n) && Fits(g, p, m) && n >= e >= 2 * |g| + m
    ensures HeadBack(g, p, e)
    ensures HeadRun(g, p, e) == HeadRun(g, p, n) && FirstRun(g, p, FullSet(), e) == FirstRun(g, p, FullSet(), n)
  {
    hide Back, Fits, HeadRun, FirstRun, FullSet;
    BackSoon(g, p, AskFirst, n, m, e);
    BackSoon(g, p, AskHead, n, m, e);
    HeadBackMore(g, p, e, n);
  }

  /** If all analyses of the generator come back, they do so within a number of nested calls that depends on the
      sizes of the grammars only. */
  lemma {:induction false} GenBackSoon(g: Rules, p: Tree, n: nat, m: nat, e: nat)
    requires WellFormed(g, p, e) && RulesFormed(g, e) && GenBack(g, p, n)
    requires Fits(g, p, m) && n >= e >= 2 * |g| + m
    ensures GenBack(g, p, e)
    decreases p
  {
    hide WellFormed, Fits, Widest, Back, HeadBack, LengthBack, HeadRun, FirstRun, LenRun, FixedLen,
      HasCaptures, FullSet;
    FitsParts(g, p, m);
    WellFormedParts(g, p, e);
    match p
    case TChoice(p1, p2) =>
      HeadBackSoon(g, p1, n, m, e);
      if Back(g, p2, AskFirst, n) { BackSoon(g, p2, AskFirst, n, m, e); }
      GenBackSoon(g, p1, n, m, e);
      GenBackSoon(g, p2, n, m, e);
    case TRep(q) => if !IsCharset(q) { HeadBackSoon(g, q, n, m, e); GenBackSoon(g, q, n, m, e); }
    case TNot(q) =>
      HeadBackSoon(g, q, n, m, e);
      if GenBack(g, q, n) { GenBackSoon(g, q, n, m, e); }
    case TAnd(q) => LengthAlwaysBack(g, q, MAXBEHIND, m, e, e); GenBackSoon(g, q, n, m, e);
    case TBehind(_, q) => GenBackSoon(g, q, n, m, e);
    case TCapture(_, _, q) => LengthAlwaysBack(g, q, MAXOFF, m, e, e); GenBackSoon(g, q, n, m, e);
    case TSeq(p1, p2) =>
      if NeedFollow(p1) { BackSoon(g, p2, AskFirst, n, m, e); }
      LengthFound(g, p1, m, e);
      GenBackSoon(g, p1, n, m, e);
      GenBackSoon(g, p2, n, m, e);
    case TGrammar(rules) =>
      forall k | 0 <= k < |rules| ensures GenBack(rules, rules[k], e) {
        GenBackSoon(rules, rules[k], n, Widest(p, |rules|), e);
      }
    case _ =>
  }
}
