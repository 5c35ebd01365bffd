/** How deep the analyses follow calls makes no difference once it is deep enough.

    The analyses of lpcode.c follow calls for as long as there are any; those of LpegAnalysis.dfy stop
    after `d` of them.  From the depth on at which the analyses of the generator have come back, the code stays
    the same: that code is the one the C functions produce. */
module LpegDepth {
  import opened Basics
  import opened LpegTree
  import opened LpegAnalysis
  import opened LpegCodegen
  import opened LpegRuns
  import opened LpegAnswers
  import opened LpegCorrect
  import opened LpegLead
  import opened LpegShapes
  import opened LpegChecks
  import opened LpegTotal
  import opened LpegVm

  // ---------------------------------------------------------------- looking deeper only makes answers sharper

  lemma {:induction false} CheckSharper(g: Rules, p: Tree, d: nat, e: nat)
    requires d <= e
    ensures Nullable(g, p, e) ==> Nullable(g, p, d)
    ensures NoFail(g, p, d) ==> NoFail(g, p, e)
    decreases d, p
  {
    match p
    case TAnd(q) => CheckSharper(g, q, d, e);
    case TSeq(p1, p2) => CheckSharper(g, p1, d, e); CheckSharper(g, p2, d, e);
    case TChoice(p1, p2) => CheckSharper(g, p1, d, e); CheckSharper(g, p2, d, e);
    case TCapture(_, _, q) => CheckSharper(g, q, d, e);
    case TCall(n) => if d > 0 && n < |g| { CheckSharper(g, g[n], d - 1, e - 1); }
    case TGrammar(rules) => if d > 0 && rules != [] { CheckSharper(rules, rules[0], d - 1, e - 1); }
    case _ =>
  }

  lemma {:induction false} HasCapturesSharper(g: Rules, p: Tree, visited: set<nat>, d: nat, e: nat)
    requires d <= e && HasCaptures(g, p, visited, e)
    ensures HasCaptures(g, p, visited, d)
    decreases d, Unvisited(g, visited), p
  {
    match p
    case TCall(n) => HasCapturesSharper(g, g[n], visited + {n}, d, e);
    case TGrammar(rules) => if d > 0 { HasCapturesSharper(rules, rules[0], {}, d - 1, e - 1); }
    case TRep(q) => HasCapturesSharper(g, q, visited, d, e);
    case TNot(q) => HasCapturesSharper(g, q, visited, d, e);
    case TAnd(q) => HasCapturesSharper(g, q, visited, d, e);
    case TBehind(_, q) => HasCapturesSharper(g, q, visited, d, e);
    case TSeq(p1, p2) =>
      if HasCaptures(g, p1, visited, e) { HasCapturesSharper(g, p1, visited, d, e); }
          else { HasCapturesSharper(g, p2, visited, d, e); }
    case TChoice(p1, p2) =>
      if HasCaptures(g, p1, visited, e) { HasCapturesSharper(g, p1, visited, d, e); }
          else { HasCapturesSharper(g, p2, visited, d, e); }
    case _ =>
  }

  /** What is well formed at some depth is well formed at every greater depth. */
  lemma {:induction false} WellFormedSharper(g: Rules, p: Tree, d: nat, e: nat)
    requires d <= e && WellFormed(g, p, d)
    ensures WellFormed(g, p, e)
    decreases p
  {
    hide FixedLen, HasCaptures;
    match p
    case TRep(q) => WellFormedSharper(g, q, d, e);
    case TSeq(p1, p2) => WellFormedSharper(g, p1, d, e); WellFormedSharper(g, p2, d, e);
    case TChoice(p1, p2) => WellFormedSharper(g, p1, d, e); WellFormedSharper(g, p2, d, e);
    case TNot(q) => WellFormedSharper(g, q, d, e);
    case TAnd(q) => WellFormedSharper(g, q, d, e);
    case TBehind(_, q) =>
      WellFormedSharper(g, q, d, e);
      FixedLenSharper([], q, d, e);
      if HasCaptures([], q, {}, e) { HasCapturesSharper([], q, {}, d, e); }
    case TCapture(_, _, q) => WellFormedSharper(g, q, d, e);
    case TGrammar(rules) =>
      forall k | 0 <= k < |rules| ensures WellFormed(rules, rules[k], e) { WellFormedSharper(rules, rules[k], d, e); }
    case _ =>
  }

  lemma {:induction false} LeftOkSharper(g: Rules, p: Tree, rank: seq<nat>, k: nat, d: nat, e: nat)
    requires d <= e && LeftOk(g, p, rank, k, d)
    ensures LeftOk(g, p, rank, k, e)
    decreases p
  {
    hide CheckAux;
    match p
    case TSeq(p1, p2) =>
      LeftOkSharper(g, p1, rank, k, d, e);
      CheckSharper(g, p1, d, e);
      if Nullable(g, p1, e) { LeftOkSharper(g, p2, rank, k, d, e); }
    case TChoice(p1, p2) => LeftOkSharper(g, p1, rank, k, d, e); LeftOkSharper(g, p2, rank, k, d, e);
    case TRep(q) => LeftOkSharper(g, q, rank, k, d, e);
    case TNot(q) => LeftOkSharper(g, q, rank, k, d, e);
    case TAnd(q) => LeftOkSharper(g, q, rank, k, d, e);
    case TCapture(_, _, q) => LeftOkSharper(g, q, rank, k, d, e);
    case _ =>
  }

  lemma RankedSharper(rules: Rules, d: nat, e: nat)
    requires d <= e && NotLeftRecursive(rules, d)
    ensures NotLeftRecursive(rules, e)
  {
    hide LeftOk;
    var rank: seq<nat> :| Ranked(rules, rank, d);
    forall k | 0 <= k < |rules| ensures LeftOk(rules, rules[k], rank, rank[k], e) {
      LeftOkSharper(rules, rules[k], rank, rank[k], d, e);
    }
    assert Ranked(rules, rank, e);
  }

  lemma {:induction false} NoLeftRecursionSharper(p: Tree, d: nat, e: nat)
    requires d <= e && NoLeftRecursion(p, d)
    ensures NoLeftRecursion(p, e)
    decreases p
  {
    hide NotLeftRecursive;
    match p
    case TRep(q) => NoLeftRecursionSharper(q, d, e);
    case TSeq(p1, p2) => NoLeftRecursionSharper(p1, d, e); NoLeftRecursionSharper(p2, d, e);
    case TChoice(p1, p2) => NoLeftRecursionSharper(p1, d, e); NoLeftRecursionSharper(p2, d, e);
    case TNot(q) => NoLeftRecursionSharper(q, d, e);
    case TAnd(q) => NoLeftRecursionSharper(q, d, e);
    case TBehind(_, q) => NoLeftRecursionSharper(q, d, e);
    case TCapture(_, _, q) => NoLeftRecursionSharper(q, d, e);
    case TGrammar(rules) =>
      RankedSharper(rules, d, e);
      forall k | 0 <= k < |rules| ensures NoLeftRecursion(rules[k], e) { NoLeftRecursionSharper(rules[k], d, e); }
    case _ =>
  }

  /** What passes the checks of lptree.c at some depth passes them at every greater depth. */
  lemma AcceptedSharper(p: Tree, d: nat, e: nat)
    requires d <= e && Accepted(p, d)
    ensures Accepted(p, e)
  {
    hide WellFormed, Checked;
    WellFormedSharper([], p, d, e);
    CheckedMore(p, d, e);
  }

  // ---------------------------------------------------------------- from some depth on first sets stay

  ghost predicate CheckSettled(g: Rules, p: Tree, m: nat) {
    forall d: nat :: d >= m ==> Nullable(g, p, d) == Nullable(g, p, m) && NoFail(g, p, d) == NoFail(g, p, m)
  }

  ghost predicate FirstSettled(g: Rules, p: Tree, m: nat) {
    forall d: nat, follow: Charset :: d >= m ==> GetFirst(g, p, follow, d) == GetFirst(g, p, follow, m)
  }

  lemma CheckSettles(g: Rules, p: Tree) returns (m: nat)
    ensures CheckSettled(g, p, m)
  {
    hide CheckAux;
    var m1: nat, m2: nat := 0, 0;
    if n: nat :| !Nullable(g, p, n) { m1 := n; }
    if n: nat :| NoFail(g, p, n) { m2 := n; }
    m := Max(m1, m2);
    CheckSharper(g, p, m1, m);
    CheckSharper(g, p, m2, m);
    forall d: nat | d >= m ensures Nullable(g, p, d) == Nullable(g, p, m) && NoFail(g, p, d) == NoFail(g, p, m) {
      CheckSharper(g, p, m, d);
    }
  }

  /** The rules around a tree, all of them parts of `root`, are ranked below `top`. */
  ghost predicate InRanks(g: Rules, rank: seq<nat>, top: nat, root: Tree, d: nat) {
    Upstanding(g, rank, top, d) && forall n :: 0 <= n < |g| ==> g[n] < root
  }

  lemma FirstLater(g: Rules, p: Tree, m: nat, n: nat)
    requires FirstSettled(g, p, m) && m <= n
    ensures FirstSettled(g, p, n)
  {
    hide GetFirst;
    forall d: nat, follow: Charset | d >= n ensures GetFirst(g, p, follow, d) == GetFirst(g, p, follow, n) {
      assert GetFirst(g, p, follow, d) == GetFirst(g, p, follow, m) == GetFirst(g, p, follow, n);
    }
  }

  /** The second part counts only if the first one can match without consuming. */
  lemma FirstOfSeq(g: Rules, p1: Tree, p2: Tree, d: nat, m1: nat, m2: nat, m3: nat, m: nat)
    requires FirstSettled(g, p1, m1) && CheckSettled(g, p1, m3) && m >= d && m >= m1 && m >= m2 && m >= m3
    requires Nullable(g, p1, d) ==> FirstSettled(g, p2, m2)
    ensures FirstSettled(g, TSeq(p1, p2), m)
  {
    hide CheckAux;
    FirstLater(g, p1, m1, m);
    CheckSharper(g, p1, d, m);
    if Nullable(g, p1, d) { FirstLater(g, p2, m2, m); }
    forall e: nat, follow: Charset | e >= m ensures GetFirst(g, TSeq(p1, p2), follow, e) ==
        GetFirst(g, TSeq(p1, p2), follow, m) {
      assert Nullable(g, p1, e) == Nullable(g, p1, m3) == Nullable(g, p1, m);
    }
  }

  lemma FirstOfParts(g: Rules, p: Tree, p1: Tree, p2: Tree, m: nat)
    requires FirstSettled(g, p1, m) && FirstSettled(g, p2, m)
    requires p == TChoice(p1, p2) || ((p.TRep? || p.TAnd? || p.TCapture?) && p.body == p1)
    ensures FirstSettled(g, p, m)
  {
    forall d: nat, follow: Charset | d >= m ensures GetFirst(g, p, follow, d) == GetFirst(g, p, follow, m) {
      assert GetFirst(g, p1, follow, d) == GetFirst(g, p1, follow, m);
    }
  }

  lemma FirstOfCall(g: Rules, p: Tree, rules: Rules, rule: Tree, m: nat)
    requires FirstSettled(rules, rule, m)
    requires (p.TCall? && p.rule < |g| && rules == g && rule == g[p.rule]) ||
             (p.TGrammar? && rules == p.rules != [] && rule == rules[0])
    ensures FirstSettled(g, p, m + 1)
  {
    forall d: nat, follow: Charset | d >= m + 1 ensures GetFirst(g, p, follow, d) == GetFirst(g, p, follow, m + 1) {
      assert GetFirst(g, p, follow, d) == GetFirst(rules, rule, follow, d - 1) == GetFirst(rules, rule, follow, m);
    }
  }

  /** First sets do not shrink steadily, but without left recursion they settle: inside a grammar they follow
      calls to rules of smaller rank only. */
  lemma {:induction false} FirstSettles(g: Rules, p: Tree, rank: seq<nat>, k: nat, top: nat, root: Tree, d: nat)
      returns (m: nat)
    requires InRanks(g, rank, top, root, d) && p < root && Upright(g, p, d) && LeftOk(g, p, rank, k, d)
    ensures m >= d && FirstSettled(g, p, m)
    decreases root, k, p
  {
    hide InRanks, Upright, CheckAux;
    UprightParts(g, p, d);
    match p
    case TSeq(p1, p2) =>
      var m1 := FirstSettles(g, p1, rank, k, top, root, d);
      var m2 := m1;
      var m3 := CheckSettles(g, p1);
      if Nullable(g, p1, d) { m2 := FirstSettles(g, p2, rank, k, top, root, d); }
      m := Max(m1, Max(m2, m3));
      FirstOfSeq(g, p1, p2, d, m1, m2, m3, m);
    case TChoice(p1, p2) =>
      var m1 := FirstSettles(g, p1, rank, k, top, root, d);
      var m2 := FirstSettles(g, p2, rank, k, top, root, d);
      m := Max(m1, m2);
      FirstLater(g, p1, m1, m);
      FirstLater(g, p2, m2, m);
      FirstOfParts(g, p, p1, p2, m);
    case TRep(q) => m := FirstSettles(g, q, rank, k, top, root, d); FirstOfParts(g, p, q, q, m);
    case TAnd(q) => m := FirstSettles(g, q, rank, k, top, root, d); FirstOfParts(g, p, q, q, m);
    case TCapture(_, _, q) => m := FirstSettles(g, q, rank, k, top, root, d); FirstOfParts(g, p, q, q, m);
    case TCall(n) =>
      RuleInRanks(g, n, rank, top, root, d);
      var m1 := FirstSettles(g, g[n], rank, rank[n], top, root, d);
      m := m1 + 1;
      FirstOfCall(g, p, g, g[n], m1);
    case TGrammar(rules) =>
      var inner, bound := GrammarUpstanding(g, p, d);
      assert InRanks(rules, inner, bound, p, d) by { RulesInRanks(p, inner, bound, d); }
      RuleInRanks(rules, 0, inner, bound, p, d);
      var m1 := FirstSettles(rules, rules[0], inner, inner[0], bound, p, d);
      m := m1 + 1;
      FirstOfCall(g, p, rules, rules[0], m1);
    case _ => m := d;
  }

  lemma RuleInRanks(g: Rules, n: nat, rank: seq<nat>, top: nat, root: Tree, d: nat)
    requires InRanks(g, rank, top, root, d) && n < |g|
    ensures |rank| == |g| && g[n] < root && Upright(g, g[n], d) && LeftOk(g, g[n], rank, rank[n], d)
  {
    hide LeftOk, Upright;
  }

  lemma RulesInRanks(p: Tree, rank: seq<nat>, top: nat, d: nat)
    requires p.TGrammar? && Upstanding(p.rules, rank, top, d)
    ensures InRanks(p.rules, rank, top, p, d)
  {
    hide Upstanding;
  }

  // ---------------------------------------------------------------- and so does the code

  ghost predicate SameFirst(g: Rules, p: Tree, d: nat, m: nat) {
    forall follow: Charset :: GetFirst(g, p, follow, d) == GetFirst(g, p, follow, m)
  }

  ghost predicate SameLength(g: Rules, p: Tree, limit: nat, d: nat, m: nat) {
    && FixedLen(g, p, d) == FixedLen(g, p, m)
    && (0 <= FixedLen(g, p, m) <= limit ==> HasCaptures(g, p, {}, d) == HasCaptures(g, p, {}, m))
  }

  /** What the generator asks about the parts of `p` has the same answers at depths `d` and `m`. */
  ghost predicate SameAnswers(g: Rules, p: Tree, d: nat, m: nat) {
    match p
    case TSeq(p1, p2) => FixedLen(g, p1, d) == FixedLen(g, p1, m) && (NeedFollow(p1) ==> SameFirst(g, p2, d, m))
    case TChoice(p1, p2) =>
      && HeadFail(g, p1, d) == HeadFail(g, p1, m) && FirstOf(g, p1, d) == FirstOf(g, p1, m)
      && (!HeadFail(g, p1, m) && !FirstOf(g, p1, m).empty ==> SameFirst(g, p2, d, m))
    case TRep(q) =>
      IsCharset(q) || (HeadFail(g, q, d) == HeadFail(g, q, m) && FirstOf(g, q, d) == FirstOf(g, q, m))
    case TNot(q) => HeadFail(g, q, d) == HeadFail(g, q, m) && FirstOf(g, q, d) == FirstOf(g, q, m)
    case TAnd(q) => SameLength(g, q, MAXBEHIND, d, m)
    case TCapture(_, _, q) => SameLength(g, q, MAXOFF, d, m)
    case _ => true
  }

  ghost predicate SameCode(g: Rules, p: Tree, d: nat, m: nat) {
    forall opt: bool, tt: Dominating, fl: Charset, tail: bool :: Gen(g, p, opt, tt, fl, d, tail) ==
        Gen(g, p, opt, tt, fl, m, tail)
  }

  ghost predicate SameLeads(g: Rules, p: Tree, d: nat, m: nat) {
    (JumpsEnd(g, p, d) <==> JumpsEnd(g, p, m)) && forall next: Lead :: LeadOf(g, p, d, next) == LeadOf(g, p, m, next)
  }

  ghost predicate Agree(g: Rules, p: Tree, d: nat, m: nat) { SameCode(g, p, d, m) && SameLeads(g, p, d, m) }

  /** The parts of `p` that code is generated for have the same code. */
  ghost predicate PartsAgree(g: Rules, p: Tree, d: nat, m: nat) {
    match p
    case TSeq(p1, p2) => Agree(g, p1, d, m) && Agree(g, p2, d, m)
    case TChoice(p1, p2) => Agree(g, p1, d, m) && Agree(g, p2, d, m)
    case TRep(q) => IsCharset(q) || Agree(g, q, d, m)
    case TNot(q) => HeadFail(g, q, m) || Agree(g, q, d, m)
    case TAnd(q) => Agree(g, q, d, m)
    case TBehind(_, q) => Agree(g, q, d, m)
    case TCapture(_, _, q) => Agree(g, q, d, m)
    case TGrammar(rules) => forall k :: 0 <= k < |rules| ==> Agree(rules, rules[k], d, m)
    case _ => true
  }

  lemma SeqSame(g: Rules, p1: Tree, p2: Tree, opt: bool, tt: Dominating, fl: Charset, tail: bool, d: nat, m: nat)
    requires SameAnswers(g, TSeq(p1, p2), d, m) && SameCode(g, p1, d, m) && SameCode(g, p2, d, m)
    ensures Gen(g, TSeq(p1, p2), opt, tt, fl, d, tail) == Gen(g, TSeq(p1, p2), opt, tt, fl, m, tail)
  {
    hide Gen, GetFirst, FixedLen;
    GenSeq(g, p1, p2, opt, tt, fl, d, tail);
    GenSeq(g, p1, p2, opt, tt, fl, m, tail);
    assert SeqFollow(g, p1, p2, fl, d) == SeqFollow(g, p1, p2, fl, m);
  }

  lemma ChoiceSame(g: Rules, p1: Tree, p2: Tree, opt: bool, tt: Dominating, fl: Charset, tail: bool, d: nat, m: nat)
    requires SameAnswers(g, TChoice(p1, p2), d, m) && SameCode(g, p1, d, m) && SameCode(g, p2, d, m)
    ensures Gen(g, TChoice(p1, p2), opt, tt, fl, d, tail) == Gen(g, TChoice(p1, p2), opt, tt, fl, m, tail)
  {
    hide Gen, GetFirst, HeadFail, ChoiceByTestCode, ChoiceCode, Disjoint;
    assert ChoiceByTest(g, p1, p2, fl, d) == ChoiceByTest(g, p1, p2, fl, m) && FirstOf(g, p1, d) == FirstOf(g, p1, m);
    if ChoiceByTest(g, p1, p2, fl, d) {
      GenChoiceByTest(g, p1, p2, opt, tt, fl, d, tail);
      GenChoiceByTest(g, p1, p2, opt, tt, fl, m, tail);
    } else if opt && p2.TTrue? {
      GenOptionReuse(g, p1, tt, fl, d, tail);
      GenOptionReuse(g, p1, tt, fl, m, tail);
    } else {
      GenChoice(g, p1, p2, opt, tt, fl, d, tail);
      GenChoice(g, p1, p2, opt, tt, fl, m, tail);
    }
  }

  lemma RepSame(g: Rules, q: Tree, opt: bool, tt: Dominating, fl: Charset, tail: bool, d: nat, m: nat)
    requires SameAnswers(g, TRep(q), d, m) && (IsCharset(q) || SameCode(g, q, d, m))
    ensures Gen(g, TRep(q), opt, tt, fl, d, tail) == Gen(g, TRep(q), opt, tt, fl, m, tail)
  {
    hide Gen, GetFirst, HeadFail, RepByTestCode, RepCode, Disjoint;
    if IsCharset(q) {
      GenLeaf(g, TRep(q), opt, tt, fl, d, tail);
      GenLeaf(g, TRep(q), opt, tt, fl, m, tail);
    } else if RepByTest(g, q, fl, d) {
      GenRepByTest(g, q, opt, tt, fl, d, tail);
      GenRepByTest(g, q, opt, tt, fl, m, tail);
    } else {
      GenRep(g, q, opt, tt, fl, d, tail);
      GenRep(g, q, opt, tt, fl, m, tail);
    }
  }

  lemma NotSame(g: Rules, q: Tree, opt: bool, tt: Dominating, fl: Charset, tail: bool, d: nat, m: nat)
    requires SameAnswers(g, TNot(q), d, m) && (HeadFail(g, q, m) || SameCode(g, q, d, m))
    ensures Gen(g, TNot(q), opt, tt, fl, d, tail) == Gen(g, TNot(q), opt, tt, fl, m, tail)
  {
    hide Gen, GetFirst, HeadFail, NotByTestCode, NotCode;
    GenNot(g, q, opt, tt, fl, d, tail);
    GenNot(g, q, opt, tt, fl, m, tail);
  }

  lemma AndSame(g: Rules, q: Tree, opt: bool, tt: Dominating, fl: Charset, tail: bool, d: nat, m: nat)
    requires SameAnswers(g, TAnd(q), d, m) && SameCode(g, q, d, m)
    ensures Gen(g, TAnd(q), opt, tt, fl, d, tail) == Gen(g, TAnd(q), opt, tt, fl, m, tail)
  {
    hide Gen, FixedLen, HasCaptures, AndCode, GoBack;
    GenAnd(g, q, opt, tt, fl, d, tail);
    GenAnd(g, q, opt, tt, fl, m, tail);
  }

  lemma BehindSame(g: Rules, p: Tree, opt: bool, tt: Dominating, fl: Charset, tail: bool, d: nat, m: nat)
    requires p.TBehind? && SameCode(g, p.body, d, m)
    ensures Gen(g, p, opt, tt, fl, d, tail) == Gen(g, p, opt, tt, fl, m, tail)
  {
    hide Gen, GoBack;
    GenLeaf(g, p, opt, tt, fl, d, tail);
    GenLeaf(g, p, opt, tt, fl, m, tail);
  }

  lemma CaptureSame(g: Rules, p: Tree, opt: bool, tt: Dominating, fl: Charset, tail: bool, d: nat, m: nat)
    requires p.TCapture? && SameAnswers(g, p, d, m) && SameCode(g, p.body, d, m)
    ensures Gen(g, p, opt, tt, fl, d, tail) == Gen(g, p, opt, tt, fl, m, tail)
  {
    hide Gen, FixedLen, HasCaptures, FullCaptureCode, OpenCaptureCode;
    GenCapture(g, p.kind, p.key, p.body, opt, tt, fl, d, tail);
    GenCapture(g, p.kind, p.key, p.body, opt, tt, fl, m, tail);
  }

  lemma {:induction false} RulesSame(g: Rules, ps: seq<Tree>, d: nat, m: nat, tail: bool)
    requires forall k :: 0 <= k < |ps| ==> SameCode(g, ps[k], d, m)
    ensures GenRules(g, ps, d, tail) == GenRules(g, ps, m, tail)
  {
    hide Gen;
    if ps != [] {
      assert SameCode(g, ps[0], d, m);
      assert GenRule(g, ps[0], d, tail) == GenRule(g, ps[0], m, tail);
      forall k | 0 <= k < |ps[1..]| ensures SameCode(g, ps[1..][k], d, m) { assert ps[1..][k] == ps[k + 1]; }
      RulesSame(g, ps[1..], d, m, tail);
    }
  }

  lemma GrammarSame(g: Rules, p: Tree, opt: bool, tt: Dominating, fl: Charset, tail: bool, d: nat, m: nat)
    requires p.TGrammar? && forall k :: 0 <= k < |p.rules| ==> Agree(p.rules, p.rules[k], d, m)
    ensures Gen(g, p, opt, tt, fl, d, tail) == Gen(g, p, opt, tt, fl, m, tail)
  {
    hide Gen, GrammarCode, GenRules, SameCode, SameLeads;
    GenLeaf(g, p, opt, tt, fl, d, tail);
    GenLeaf(g, p, opt, tt, fl, m, tail);
    RulesSame(p.rules, p.rules, d, m, tail);
  }

  /** If the parts have the same code and the generator gets the same answers, it emits the same code. */
  lemma CodeSame(g: Rules, p: Tree, d: nat, m: nat)
    requires SameAnswers(g, p, d, m) && PartsAgree(g, p, d, m)
    ensures SameCode(g, p, d, m)
  {
    hide SameAnswers, SameLeads, Gen, HeadFail;
    forall opt: bool, tt: Dominating, fl: Charset, tail: bool
        ensures Gen(g, p, opt, tt, fl, d, tail) == Gen(g, p, opt, tt, fl, m, tail) {
      match p
      case TSeq(p1, p2) => SeqSame(g, p1, p2, opt, tt, fl, tail, d, m);
      case TChoice(p1, p2) => ChoiceSame(g, p1, p2, opt, tt, fl, tail, d, m);
      case TRep(q) => RepSame(g, q, opt, tt, fl, tail, d, m);
      case TNot(q) => NotSame(g, q, opt, tt, fl, tail, d, m);
      case TAnd(q) => AndSame(g, q, opt, tt, fl, tail, d, m);
      case TBehind(_, _) => BehindSame(g, p, opt, tt, fl, tail, d, m);
      case TCapture(_, _, _) => CaptureSame(g, p, opt, tt, fl, tail, d, m);
      case TGrammar(_) => GrammarSame(g, p, opt, tt, fl, tail, d, m);
      case _ =>
        GenLeaf(g, p, opt, tt, fl, d, tail);
        GenLeaf(g, p, opt, tt, fl, m, tail);
    }
  }

  lemma LeadsSame(g: Rules, p: Tree, d: nat, m: nat)
    requires SameAnswers(g, p, d, m) && PartsAgree(g, p, d, m)
    ensures SameLeads(g, p, d, m)
  {
    hide SameAnswers, PartsAgree, LeadOf, JumpsEnd;
    JumpsSame(g, p, d, m);
    forall next: Lead ensures LeadOf(g, p, d, next) == LeadOf(g, p, m, next) { LeadSame(g, p, d, m, next); }
  }

  lemma JumpsSame(g: Rules, p: Tree, d: nat, m: nat)
    requires SameAnswers(g, p, d, m) && PartsAgree(g, p, d, m)
    ensures JumpsEnd(g, p, d) <==> JumpsEnd(g, p, m)
  {
    hide GetFirst, HeadFail, FixedLen, HasCaptures, LeadsEnd, LeadOf, SameCode;
    if p.TGrammar? {
      var rules := p.rules;
      forall k | 0 <= k < |rules| ensures LeadOf(rules, rules[k], d, Returns) == LeadOf(rules, rules[k], m, Returns) &&
          (JumpsEnd(rules, rules[k], d) <==> JumpsEnd(rules, rules[k], m)) {
        assert Agree(rules, rules[k], d, m);
      }
      assert RuleLeads(rules, d) == RuleLeads(rules, m);
    }
  }

  lemma LeadSame(g: Rules, p: Tree, d: nat, m: nat, next: Lead)
    requires SameAnswers(g, p, d, m) && PartsAgree(g, p, d, m)
    ensures LeadOf(g, p, d, next) == LeadOf(g, p, m, next)
  {
    hide GetFirst, HeadFail, FixedLen, HasCaptures, JumpsEnd, SameCode;
    match p
    case TSeq(p1, p2) => assert LeadOf(g, p2, d, next) == LeadOf(g, p2, m, next);
    case TChoice(p1, p2) => assert Barred(g, p1, d) == Barred(g, p1, m);
    case TRep(q) => if !IsCharset(q) { assert Barred(g, q, d) == Barred(g, q, m); }
    case TNot(q) => assert Barred(g, q, d) == Barred(g, q, m);
    case TAnd(q) => assert AndByLength(g, q, d) == AndByLength(g, q, m);
    case TCapture(_, _, q) => assert CaptureByLength(g, q, d) == CaptureByLength(g, q, m);
    case _ =>
  }

  lemma AllSame(g: Rules, p: Tree, d: nat, m: nat)
    requires SameAnswers(g, p, d, m) && PartsAgree(g, p, d, m)
    ensures Agree(g, p, d, m)
  {
    hide SameAnswers, PartsAgree, SameCode, SameLeads;
    CodeSame(g, p, d, m);
    LeadsSame(g, p, d, m);
  }

  /** From where the analyses of the generator have come back the code stays the same. */
  lemma {:induction false} BackAgrees(g: Rules, p: Tree, n: nat, d: nat)
    requires GenBack(g, p, n) && d >= n
    ensures Agree(g, p, d, n)
    decreases p
  {
    hide Agree, SameFirst, SameLength, FixedLen, HeadFail, FirstOf, Back, HeadBack, LengthBack, FirstRun, HeadRun,
      LenRun, FullSet;
    match p {
      case TSeq(p1, p2) =>
        LenRunIs(g, p1, n, d);
        LenRunIs(g, p1, n, n);
        if NeedFollow(p1) { FirstBackSame(g, p2, n, d); }
        BackAgrees(g, p1, n, d);
        BackAgrees(g, p2, n, d);
      case TChoice(p1, p2) =>
        HeadBackSame(g, p1, n, d);
        if Back(g, p2, AskFirst, n) { FirstBackSame(g, p2, n, d); }
        BackAgrees(g, p1, n, d);
        BackAgrees(g, p2, n, d);
      case TRep(q) => if !IsCharset(q) { HeadBackSame(g, q, n, d); BackAgrees(g, q, n, d); }
      case TNot(q) =>
        HeadBackSame(g, q, n, d);
        if GenBack(g, q, n) { BackAgrees(g, q, n, d); }
      case TAnd(q) => LengthBackSame(g, q, MAXBEHIND, n, d); BackAgrees(g, q, n, d);
      case TBehind(_, q) => BackAgrees(g, q, n, d);
      case TCapture(_, _, q) => LengthBackSame(g, q, MAXOFF, n, d); BackAgrees(g, q, n, d);
      case TGrammar(rules) =>
        forall k | 0 <= k < |rules| ensures Agree(rules, rules[k], d, n) { BackAgrees(rules, rules[k], n, d); }
      case _ =>
    }
    AllSame(g, p, d, n);
  }

  lemma HeadBackSame(g: Rules, p: Tree, n: nat, d: nat)
    requires HeadBack(g, p, n) && d >= n
    ensures HeadFail(g, p, d) == HeadFail(g, p, n) && FirstOf(g, p, d) == FirstOf(g, p, n)
    ensures HeadRun(g, p, n) == Some(HeadFail(g, p, n)) && FirstRun(g, p, FullSet(), n) == Some(FirstOf(g, p, n))
  {
    hide HeadBack, HeadRun, HeadFail, FirstRun, FirstOf, FullSet;
    HeadBackIs(g, p, n, n);
    HeadBackIs(g, p, n, d);
  }

  lemma FirstBackSame(g: Rules, p: Tree, n: nat, d: nat)
    requires Back(g, p, AskFirst, n) && d >= n
    ensures SameFirst(g, p, d, n)
  {
    hide Back, FirstRun, GetFirst, FullSet;
    forall follow: Charset ensures GetFirst(g, p, follow, d) == GetFirst(g, p, follow, n) {
      FirstBackIs(g, p, follow, n, n);
      FirstBackIs(g, p, follow, n, d);
    }
  }

  lemma LengthBackSame(g: Rules, p: Tree, limit: nat, n: nat, d: nat)
    requires LengthBack(g, p, limit, n) && d >= n
    ensures SameLength(g, p, limit, d, n)
  {
    hide LenRun, CapRun, FixedLen, HasCaptures;
    LenRunIs(g, p, n, n);
    LenRunIs(g, p, n, d);
    if CapRun(g, p, {}, n).Some? {
      CapRunIs(g, p, {}, n, n);
      CapRunIs(g, p, {}, n, d);
    }
  }
}
