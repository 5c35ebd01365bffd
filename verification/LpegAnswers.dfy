/** When the code generator gets its answers.

    `checkaux`, `headfail` and `getfirst` follow calls without marking them, so none of them need come back.
    Whether one does can be read off the rules: it goes from rule to rule, and that must end. */
module LpegAnswers {
  import opened Basics
  import opened LpegTree
  import opened LpegAnalysis
  import opened LpegVm
  import opened LpegCodegen
  import opened LpegRuns

  /** The analyses that do not mark the calls they follow. */
  datatype Ask = AskCheck(pred: Pred) | AskHead | AskFirst

  /** Within `n` nested calls, the analysis has come back. */
  predicate Back(g: Rules, p: Tree, ask: Ask, n: nat) {
    match ask
    case AskCheck(pred) => CheckRun(g, p, pred, n).Some?
    case AskHead => HeadRun(g, p, n).Some?
    case AskFirst => FirstRun(g, p, FullSet(), n).Some?
  }

  // ---------------------------------------------------------------- a condition on the trees

  /** `headfail` and `getfirst` ask `checkaux`, which asks no other. */
  function Order(ask: Ask): nat { if ask.AskCheck? then 0 else 1 }

  /** Every call that the analysis follows in `p` is of a rule ranked below `k`. */
  ghost predicate Follows(g: Rules, p: Tree, ask: Ask, rank: seq<nat>, k: nat, d: nat)
    decreases Order(ask), 0, p
  {
    match p
    case TCall(n) => n < |rank| && rank[n] < k
    case TSeq(p1, p2) =>
      (match ask
       case AskCheck(pred) =>
         Follows(g, p1, ask, rank, k, d) && (CheckAux(g, p1, pred, d) ==> Follows(g, p2, ask, rank, k, d))
       case AskHead =>
         WayEnds(g, p2, AskCheck(PENoFail), d) && (NoFail(g, p2, d) ==> Follows(g, p1, ask, rank, k, d))
       case AskFirst =>
         && WayEnds(g, p1, AskCheck(PENullable), d)
         && Follows(g, p1, ask, rank, k, d) && (Nullable(g, p1, d) ==> Follows(g, p2, ask, rank, k, d)))
    case TChoice(p1, p2) =>
      (match ask
       case AskCheck(pred) =>
         Follows(g, p2, ask, rank, k, d) && (!CheckAux(g, p2, pred, d) ==> Follows(g, p1, ask, rank, k, d))
       case AskHead => Follows(g, p1, ask, rank, k, d) && (HeadFail(g, p1, d) ==> Follows(g, p2, ask, rank, k, d))
       case AskFirst => Follows(g, p1, ask, rank, k, d) && Follows(g, p2, ask, rank, k, d))
    case TRep(q) => ask.AskFirst? ==> Follows(g, q, ask, rank, k, d)
    case TNot(q) => ask.AskFirst? && !IsCharset(q) ==> Follows(g, q, ask, rank, k, d)
    case TAnd(q) => ask != AskCheck(PENullable) ==> Follows(g, q, ask, rank, k, d)
    case TBehind(_, q) => ask.AskFirst? ==> Follows(g, q, ask, rank, k, d)
    case TCapture(_, _, q) => Follows(g, q, ask, rank, k, d)
    case TGrammar(rules) =>
      rules != [] &&
      exists inner: seq<nat>, top: nat ::
        && |inner| == |rules| && Follows(rules, rules[0], ask, inner, top, d)
        && forall n :: 0 <= n < |rules| && inner[n] < top ==> Follows(rules, rules[n], ask, inner, inner[n], d)
    case _ => true
  }

  /** The rules ranked below `top` lead to rules of smaller rank only. */
  ghost predicate RanksDown(g: Rules, ask: Ask, rank: seq<nat>, top: nat, d: nat)
    decreases Order(ask), 1
  {
    |rank| == |g| && forall n :: 0 <= n < |g| && rank[n] < top ==> Follows(g, g[n], ask, rank, rank[n], d)
  }

  /** Going from `p` to the rules that the analysis follows comes to an end. */
  ghost predicate WayEnds(g: Rules, p: Tree, ask: Ask, d: nat)
    decreases Order(ask), 2
  {
    exists rank: seq<nat>, top: nat :: RanksDown(g, ask, rank, top, d) && Follows(g, p, ask, rank, top, d)
  }

  /** That holds of everything that the generator asks. */
  ghost predicate AnalysesEnd(g: Rules, p: Tree, d: nat)
    decreases p
  {
    match p
    case TChoice(p1, p2) =>
      && WayEnds(g, p1, AskFirst, d) && WayEnds(g, p1, AskHead, d)
      && (!HeadFail(g, p1, d) && !FirstOf(g, p1, d).empty ==> WayEnds(g, p2, AskFirst, d))
      && AnalysesEnd(g, p1, d) && AnalysesEnd(g, p2, d)
    case TRep(q) => IsCharset(q) || (WayEnds(g, q, AskFirst, d) && WayEnds(g, q, AskHead, d) && AnalysesEnd(g, q, d))
    case TNot(q) =>
      WayEnds(g, q, AskFirst, d) && WayEnds(g, q, AskHead, d) && (HeadFail(g, q, d) || AnalysesEnd(g, q, d))
    case TAnd(q) => AnalysesEnd(g, q, d)
    case TBehind(_, q) => AnalysesEnd(g, q, d)
    case TCapture(_, _, q) => AnalysesEnd(g, q, d)
    case TSeq(p1, p2) =>
      (NeedFollow(p1) ==> WayEnds(g, p2, AskFirst, d)) && AnalysesEnd(g, p1, d) && AnalysesEnd(g, p2, d)
    case TGrammar(rules) => forall n :: 0 <= n < |rules| ==> AnalysesEnd(rules, rules[n], d)
    case _ => true
  }

  // ---------------------------------------------------------------- the generator as it runs

  lemma BackMore(g: Rules, p: Tree, ask: Ask, n: nat, m: nat)
    requires Back(g, p, ask, n) && n <= m
    ensures Back(g, p, ask, m)
  {
    hide CheckRun, HeadRun, FirstRun, FullSet;
    match ask
    case AskCheck(pred) => CheckRunMore(g, p, pred, n, m);
    case AskHead => HeadRunMore(g, p, n, m);
    case AskFirst => FirstRunMore(g, p, FullSet(), n, m);
  }

  /** Whether `getfirst` comes back does not depend on the follow set. */
  lemma {:induction false} AnyFollow(g: Rules, p: Tree, f1: Charset, f2: Charset, n: nat)
    requires FirstRun(g, p, f1, n).Some?
    ensures FirstRun(g, p, f2, n).Some?
    decreases n, p
  {
    hide CheckRun, FullSet;
    match p
    case TSeq(p1, p2) =>
      if CheckRun(g, p1, PENullable, n) == Some(true) {
        AnyFollow(g, p2, f1, f2, n);
        AnyFollow(g, p1, FirstRun(g, p2, f1, n).value.cs, FirstRun(g, p2, f2, n).value.cs, n);
      }
    case TChoice(p1, p2) => AnyFollow(g, p1, f1, f2, n); AnyFollow(g, p2, f1, f2, n);
    case TRep(q) => AnyFollow(g, q, f1, f2, n);
    case TCapture(_, _, q) => AnyFollow(g, q, f1, f2, n);
    case TAnd(q) => AnyFollow(g, q, f1, f2, n);
    case TNot(q) => if !IsCharset(q) { AnyFollow(g, q, f1, f2, n); }
    case TBehind(_, q) => AnyFollow(g, q, f1, f2, n);
    case TCall(m) => AnyFollow(g, g[m], f1, f2, n - 1);
    case TGrammar(rules) => AnyFollow(rules, rules[0], f1, f2, n - 1);
    case _ =>
  }

  /** The answer of a run that has come back, for any follow set. */
  lemma FirstBackIs(g: Rules, p: Tree, follow: Charset, n: nat, d: nat)
    requires Back(g, p, AskFirst, n) && n <= d
    ensures FirstRun(g, p, follow, n) == Some(GetFirst(g, p, follow, d))
  {
    hide FirstRun, GetFirst;
    AnyFollow(g, p, FullSet(), follow, n);
    FirstRunIs(g, p, follow, n, d);
  }

  /** Within `n` nested calls, fixedlen has come back, and so has hascaptures if it is called. */
  predicate LengthBack(g: Rules, p: Tree, limit: nat, n: nat) {
    var r := LenRun(g, p, {}, n);
    r.Some? && (0 <= r.value <= limit ==> CapRun(g, p, {}, n).Some?)
  }

  /** Within `n` nested calls, getfirst has come back, and so has headfail. */
  predicate HeadBack(g: Rules, p: Tree, n: nat) { Back(g, p, AskFirst, n) && Back(g, p, AskHead, n) }

  /** Within `n` nested calls, all analyses that `codegen` makes for `p` have come back. */
  predicate GenBack(g: Rules, p: Tree, n: nat)
    decreases p
  {
    match p
    case TChoice(p1, p2) =>
      && HeadBack(g, p1, n)
      && (HeadRun(g, p1, n) == Some(false) && !FirstRun(g, p1, FullSet(), n).value.empty ==> Back(g, p2, AskFirst, n))
      && GenBack(g, p1, n) && GenBack(g, p2, n)
    case TRep(q) => IsCharset(q) || (HeadBack(g, q, n) && GenBack(g, q, n))
    case TNot(q) => HeadBack(g, q, n) && (HeadRun(g, q, n) == Some(true) || GenBack(g, q, n))
    case TAnd(q) => LengthBack(g, q, MAXBEHIND, n) && GenBack(g, q, n)
    case TBehind(_, q) => GenBack(g, q, n)
    case TCapture(_, _, q) => LengthBack(g, q, MAXOFF, n) && GenBack(g, q, n)
    case TSeq(p1, p2) =>
      && (NeedFollow(p1) ==> Back(g, p2, AskFirst, n)) && LenRun(g, p1, {}, n).Some?
      && GenBack(g, p1, n) && GenBack(g, p2, n)
    case TGrammar(rules) => forall k :: 0 <= k < |rules| ==> GenBack(rules, rules[k], n)
    case _ => true
  }

  /** The answers of headfail and getfirst that have come back are those at every greater depth. */
  lemma HeadBackIs(g: Rules, p: Tree, n: nat, d: nat)
    requires HeadBack(g, p, n) && n <= d
    ensures HeadRun(g, p, n) == Some(HeadFail(g, p, d)) && FirstRun(g, p, FullSet(), n) == Some(FirstOf(g, p, d))
  {
    hide HeadRun, HeadFail, FirstRun, GetFirst, FullSet;
    HeadRunIs(g, p, n, d);
    FirstBackIs(g, p, FullSet(), n, d);
  }

  lemma HeadBackMore(g: Rules, p: Tree, n: nat, m: nat)
    requires HeadBack(g, p, n) && n <= m
    ensures HeadBack(g, p, m) && HeadRun(g, p, m) == HeadRun(g, p, n) &&
            FirstRun(g, p, FullSet(), m) == FirstRun(g, p, FullSet(), n)
  {
    hide HeadRun, FirstRun, FullSet;
    HeadRunMore(g, p, n, m);
    FirstRunMore(g, p, FullSet(), n, m);
  }

  lemma LengthBackMore(g: Rules, p: Tree, limit: nat, n: nat, m: nat)
    requires LengthBack(g, p, limit, n) && n <= m
    ensures LengthBack(g, p, limit, m)
  {
    hide LenRun, CapRun;
    LenRunMore(g, p, {}, n, m);
    if CapRun(g, p, {}, n).Some? { CapRunMore(g, p, {}, n, m); }
  }

  lemma {:induction false} GenBackMore(g: Rules, p: Tree, n: nat, m: nat)
    requires GenBack(g, p, n) && n <= m
    ensures GenBack(g, p, m)
    decreases p
  {
    hide Back, HeadBack, LengthBack, HeadRun, FirstRun, LenRun, FullSet;
    match p
    case TChoice(p1, p2) =>
      HeadBackMore(g, p1, n, m);
      if Back(g, p2, AskFirst, n) { BackMore(g, p2, AskFirst, n, m); }
      GenBackMore(g, p1, n, m);
      GenBackMore(g, p2, n, m);
    case TRep(q) => if !IsCharset(q) { HeadBackMore(g, q, n, m); GenBackMore(g, q, n, m); }
    case TNot(q) =>
      HeadBackMore(g, q, n, m);
      if GenBack(g, q, n) { GenBackMore(g, q, n, m); }
    case TAnd(q) => LengthBackMore(g, q, MAXBEHIND, n, m); GenBackMore(g, q, n, m);
    case TBehind(_, q) => GenBackMore(g, q, n, m);
    case TCapture(_, _, q) => LengthBackMore(g, q, MAXOFF, n, m); GenBackMore(g, q, n, m);
    case TSeq(p1, p2) =>
      if NeedFollow(p1) { BackMore(g, p2, AskFirst, n, m); }
      LenRunMore(g, p1, {}, n, m);
      GenBackMore(g, p1, n, m);
      GenBackMore(g, p2, n, m);
    case TGrammar(rules) =>
      forall k | 0 <= k < |rules| ensures GenBack(rules, rules[k], m) { GenBackMore(rules, rules[k], n, m); }
    case _ =>
  }

  // ---------------------------------------------------------------- a run that comes back ranks the rules

  /** The least number of nested calls, from `j` on, in which the analysis comes back, or `n`. */
  function FirstTime(g: Rules, p: Tree, ask: Ask, j: nat, n: nat): (r: nat)
    requires j <= n
    ensures j <= r <= n && (r < n ==> Back(g, p, ask, r)) && forall i :: j <= i < r ==> !Back(g, p, ask, i)
    decreases n - j
  {
    if j == n || Back(g, p, ask, j) then j else FirstTime(g, p, ask, j + 1, n)
  }

  function FirstTimes(g: Rules, ask: Ask, n: nat): (rank: seq<nat>)
    ensures |rank| == |g| && forall m :: 0 <= m < |g| ==> rank[m] == FirstTime(g, g[m], ask, 0, n)
  {
    seq(|g|, m requires 0 <= m < |g| => FirstTime(g, g[m], ask, 0, n))
  }

  lemma {:induction false} BackFollows(g: Rules, p: Tree, ask: Ask, i: nat, n: nat, d: nat)
    requires Back(g, p, ask, i) && i <= n <= d
    ensures Follows(g, p, ask, FirstTimes(g, ask, n), i, d)
    decreases Order(ask), n, 0, p
  {
    hide CheckRun, HeadRun, FirstRun, CheckAux, HeadFail, FullSet, WayEnds;
    BackParts(g, p, ask, i, d);
    match p
    case TSeq(p1, p2) =>
      match ask {
        case AskCheck(pred) =>
          BackFollows(g, p1, ask, i, n, d);
          if CheckAux(g, p1, pred, d) { BackFollows(g, p2, ask, i, n, d); }
        case AskHead =>
          BackEnds(g, p2, AskCheck(PENoFail), i, d);
          if NoFail(g, p2, d) { BackFollows(g, p1, ask, i, n, d); }
        case AskFirst =>
          BackEnds(g, p1, AskCheck(PENullable), i, d);
          BackFollows(g, p1, ask, i, n, d);
          if Nullable(g, p1, d) { BackFollows(g, p2, ask, i, n, d); }
      }
    case TChoice(p1, p2) =>
      match ask {
        case AskCheck(pred) =>
          BackFollows(g, p2, ask, i, n, d);
          if !CheckAux(g, p2, pred, d) { BackFollows(g, p1, ask, i, n, d); }
        case AskHead =>
          BackFollows(g, p1, ask, i, n, d);
          if HeadFail(g, p1, d) { BackFollows(g, p2, ask, i, n, d); }
        case AskFirst => BackFollows(g, p1, ask, i, n, d); BackFollows(g, p2, ask, i, n, d);
      }
    case TRep(q) => if ask.AskFirst? { BackFollows(g, q, ask, i, n, d); }
    case TNot(q) => if ask.AskFirst? && !IsCharset(q) { BackFollows(g, q, ask, i, n, d); }
    case TAnd(q) => if ask != AskCheck(PENullable) { BackFollows(g, q, ask, i, n, d); }
    case TBehind(_, q) => if ask.AskFirst? { BackFollows(g, q, ask, i, n, d); }
    case TCapture(_, _, q) => BackFollows(g, q, ask, i, n, d);
    case TGrammar(rules) => BackRanks(rules, rules[0], ask, i - 1, d);
    case _ =>
  }

  /** What an analysis asks on its way has come back when it has. */
  lemma BackParts(g: Rules, p: Tree, ask: Ask, i: nat, d: nat)
    requires Back(g, p, ask, i) && i <= d
    ensures p.TSeq? && ask.AskCheck? ==>
              Back(g, p.first, ask, i) && (CheckAux(g, p.first, ask.pred, d) ==> Back(g, p.second, ask, i))
    ensures p.TSeq? && ask.AskHead? ==>
              Back(g, p.second, AskCheck(PENoFail), i) && (NoFail(g, p.second, d) ==> Back(g, p.first, ask, i))
    ensures p.TSeq? && ask.AskFirst? ==>
              && Back(g, p.first, AskCheck(PENullable), i) && Back(g, p.first, ask, i)
              && (Nullable(g, p.first, d) ==> Back(g, p.second, ask, i))
    ensures p.TChoice? && ask.AskCheck? ==>
              Back(g, p.right, ask, i) && (!CheckAux(g, p.right, ask.pred, d) ==> Back(g, p.left, ask, i))
    ensures p.TChoice? && ask.AskHead? ==>
              Back(g, p.left, ask, i) && (HeadFail(g, p.left, d) ==> Back(g, p.right, ask, i))
    ensures p.TChoice? && ask.AskFirst? ==> Back(g, p.left, ask, i) && Back(g, p.right, ask, i)
    ensures p.TRep? || p.TBehind? ==> (ask.AskFirst? ==> Back(g, p.body, ask, i))
    ensures p.TNot? ==> (ask.AskFirst? && !IsCharset(p.body) ==> Back(g, p.body, ask, i))
    ensures p.TAnd? ==> (ask != AskCheck(PENullable) ==> Back(g, p.body, ask, i))
    ensures p.TCapture? ==> Back(g, p.body, ask, i)
    ensures p.TCall? ==> i > 0 && p.rule < |g| && Back(g, g[p.rule], ask, i - 1)
    ensures p.TGrammar? ==> i > 0 && p.rules != [] && Back(p.rules, p.rules[0], ask, i - 1)
  {
    hide CheckAux, HeadFail, FullSet;
    match ask
    case AskCheck(pred) =>
      if p.TSeq? { CheckRunIs(g, p.first, pred, i, d); }
      if p.TChoice? { CheckRunIs(g, p.right, pred, i, d); }
    case AskHead =>
      if p.TSeq? { CheckRunIs(g, p.second, PENoFail, i, d); }
      if p.TChoice? { HeadRunIs(g, p.left, i, d); }
    case AskFirst =>
      if p.TSeq? {
        CheckRunIs(g, p.first, PENullable, i, d);
        if Nullable(g, p.first, d) {
          AnyFollow(g, p.first, FirstRun(g, p.second, FullSet(), i).value.cs, FullSet(), i);
        }
      }
  }

  lemma {:induction false} BackRanks(g: Rules, p: Tree, ask: Ask, n: nat, d: nat)
    requires Back(g, p, ask, n) && n <= d
    ensures var rank := FirstTimes(g, ask, n); RanksDown(g, ask, rank, n, d) && Follows(g, p, ask, rank, n, d)
    decreases Order(ask), n, 1
  {
    hide Back, Follows;
    var rank := FirstTimes(g, ask, n);
    BackFollows(g, p, ask, n, n, d);
    forall m | 0 <= m < |g| && rank[m] < n ensures Follows(g, g[m], ask, rank, rank[m], d) {
      BackFollows(g, g[m], ask, rank[m], n, d);
    }
  }

  /** If an analysis comes back, its way from rule to rule ends. */
  lemma BackEnds(g: Rules, p: Tree, ask: Ask, n: nat, d: nat)
    requires Back(g, p, ask, n) && n <= d
    ensures WayEnds(g, p, ask, d)
    decreases Order(ask), n, 2
  {
    hide Back, Follows, RanksDown;
    BackRanks(g, p, ask, n, d);
  }

  /** If the analyses of the generator come back, all the ways that they take end. */
  lemma {:induction false} GenBackEnds(g: Rules, p: Tree, n: nat, d: nat)
    requires GenBack(g, p, n) && n <= d
    ensures AnalysesEnd(g, p, d)
    decreases p
  {
    hide Back, HeadRun, FirstRun, LenRun, LengthBack, FirstOf, HeadFail, WayEnds, FullSet;
    match p
    case TChoice(p1, p2) =>
      HeadBackEnds(g, p1, n, d);
      if Back(g, p2, AskFirst, n) { BackEnds(g, p2, AskFirst, n, d); }
      GenBackEnds(g, p1, n, d);
      GenBackEnds(g, p2, n, d);
    case TRep(q) => if !IsCharset(q) { HeadBackEnds(g, q, n, d); GenBackEnds(g, q, n, d); }
    case TNot(q) =>
      HeadBackEnds(g, q, n, d);
      if GenBack(g, q, n) { GenBackEnds(g, q, n, d); }
    case TAnd(q) => GenBackEnds(g, q, n, d);
    case TBehind(_, q) => GenBackEnds(g, q, n, d);
    case TCapture(_, _, q) => GenBackEnds(g, q, n, d);
    case TSeq(p1, p2) =>
      if NeedFollow(p1) { BackEnds(g, p2, AskFirst, n, d); }
      GenBackEnds(g, p1, n, d);
      GenBackEnds(g, p2, n, d);
    case TGrammar(rules) =>
      forall k | 0 <= k < |rules| ensures AnalysesEnd(rules, rules[k], d) { GenBackEnds(rules, rules[k], n, d); }
    case _ =>
  }

  lemma HeadBackEnds(g: Rules, p: Tree, n: nat, d: nat)
    requires HeadBack(g, p, n) && n <= d
    ensures WayEnds(g, p, AskFirst, d) && WayEnds(g, p, AskHead, d)
    ensures HeadRun(g, p, n) == Some(HeadFail(g, p, d)) && FirstRun(g, p, FullSet(), n) == Some(FirstOf(g, p, d))
  {
    hide Back, HeadRun, FirstRun, FirstOf, HeadFail, WayEnds, FullSet;
    BackEnds(g, p, AskFirst, n, d);
    BackEnds(g, p, AskHead, n, d);
    HeadBackIs(g, p, n, d);
  }
}
