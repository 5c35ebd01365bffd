/** When matching a pattern always comes to an answer, and compiling it to an end.

    lptree.c checks that loops consume, and with some exceptions (LpegVerify.dfy) that no rule gets back to itself
    without consuming.  It does not look inside look-behinds, which go back without consuming; there it
    takes that they lead to simpler and simpler rules. */
module LpegTotal {
  import opened LpegTree
  import opened LpegAnalysis
  import opened LpegCodegen
  import opened LpegRuns
  import opened LpegAnswers
  import opened LpegCorrect
  import opened LpegLead
  import opened LpegChecks

  // ---------------------------------------------------------------- left recursion

  /** Every call that `p` can reach without consuming has a rank below `k`.  Look-behinds are not entered. */
  predicate LeftOk(g: Rules, p: Tree, rank: seq<nat>, k: nat, d: nat) {
    match p
    case TCall(n) => n < |rank| && rank[n] < k
    case TSeq(p1, p2) => LeftOk(g, p1, rank, k, d) && (Nullable(g, p1, d) ==> LeftOk(g, p2, rank, k, d))
    case TChoice(p1, p2) => LeftOk(g, p1, rank, k, d) && LeftOk(g, p2, rank, k, d)
    case TRep(q) => LeftOk(g, q, rank, k, d)
    case TNot(q) => LeftOk(g, q, rank, k, d)
    case TAnd(q) => LeftOk(g, q, rank, k, d)
    case TCapture(_, _, q) => LeftOk(g, q, rank, k, d)
    case _ => true
  }

  ghost predicate Ranked(rules: Rules, rank: seq<nat>, d: nat) {
    |rank| == |rules| && forall k :: 0 <= k < |rules| ==> LeftOk(rules, rules[k], rank, rank[k], d)
  }

  /** No rule gets back to itself without consuming: the rules can be ranked. */
  ghost predicate NotLeftRecursive(rules: Rules, d: nat) {
    exists rank: seq<nat> :: Ranked(rules, rank, d)
  }

  /** No grammar inside `p` is left recursive. */
  ghost predicate NoLeftRecursion(p: Tree, d: nat)
    decreases p
  {
    match p
    case TSeq(p1, p2) => NoLeftRecursion(p1, d) && NoLeftRecursion(p2, d)
    case TChoice(p1, p2) => NoLeftRecursion(p1, d) && NoLeftRecursion(p2, d)
    case TRep(q) => NoLeftRecursion(q, d)
    case TNot(q) => NoLeftRecursion(q, d)
    case TAnd(q) => NoLeftRecursion(q, d)
    case TBehind(_, q) => NoLeftRecursion(q, d)
    case TCapture(_, _, q) => NoLeftRecursion(q, d)
    case TGrammar(rules) => NotLeftRecursive(rules, d) && forall k :: 0 <= k < |rules| ==> NoLeftRecursion(rules[k], d)
    case _ => true
  }

  /** Rules that are not used need no check for left recursion: they can be ranked above all others. */
  lemma UnusedRanked(rules: Rules, rank: seq<nat>, d: nat)
    requires |rank| == |rules| && forall k :: 0 <= k < |rules| && Used(rules, k) ==>
             LeftOk(rules, rules[k], rank, rank[k], d)
    requires forall k :: 0 <= k < |rules| ==> WellFormed(rules, rules[k], d)
    ensures NotLeftRecursive(rules, d)
  {
    hide LeftOk, Used;
    var top := RankBound(rank);
    var all := seq(|rules|, k requires 0 <= k < |rules| => if Used(rules, k) then rank[k] else top);
    forall k | 0 <= k < |rules| ensures LeftOk(rules, rules[k], all, all[k], d) {
      forall n: nat | Calls(rules[k], n) ensures Used(rules, n) { CallUsed(rules, k, n); }
      if Used(rules, k) { LeftOkUsed(rules, rules[k], rank, all, rank[k], d); }
      else { LeftOkTop(rules, rules[k], all, top, d); }
    }
    assert Ranked(rules, all, d);
  }

  lemma CallUsed(rules: Rules, k: nat, n: nat)
    requires k < |rules| && Calls(rules[k], n)
    ensures Used(rules, n)
  {
  }

  lemma {:induction false} LeftOkUsed(g: Rules, p: Tree, rank: seq<nat>, all: seq<nat>, k: nat, d: nat)
    requires LeftOk(g, p, rank, k, d) && |all| == |rank|
    requires forall n: nat :: Calls(p, n) && n < |rank| ==> all[n] == rank[n]
    ensures LeftOk(g, p, all, k, d)
    decreases p
  {
    hide CheckAux;
    match p
    case TSeq(p1, p2) =>
      LeftOkUsed(g, p1, rank, all, k, d);
      if Nullable(g, p1, d) { LeftOkUsed(g, p2, rank, all, k, d); }
    case TChoice(p1, p2) => LeftOkUsed(g, p1, rank, all, k, d); LeftOkUsed(g, p2, rank, all, k, d);
    case TRep(q) => LeftOkUsed(g, q, rank, all, k, d);
    case TNot(q) => LeftOkUsed(g, q, rank, all, k, d);
    case TAnd(q) => LeftOkUsed(g, q, rank, all, k, d);
    case TCapture(_, _, q) => LeftOkUsed(g, q, rank, all, k, d);
    case _ =>
  }

  /** Calls of rules that are ranked below `top` are allowed everywhere. */
  lemma {:induction false} LeftOkTop(g: Rules, p: Tree, rank: seq<nat>, top: nat, d: nat)
    requires WellFormed(g, p, d) && |rank| == |g| && forall n: nat :: n < |g| && Calls(p, n) ==> rank[n] < top
    ensures LeftOk(g, p, rank, top, d)
    decreases p
  {
    hide CheckAux, FixedLen, HasCaptures;
    match p
    case TSeq(p1, p2) => LeftOkTop(g, p1, rank, top, d); LeftOkTop(g, p2, rank, top, d);
    case TChoice(p1, p2) => LeftOkTop(g, p1, rank, top, d); LeftOkTop(g, p2, rank, top, d);
    case TRep(q) => LeftOkTop(g, q, rank, top, d);
    case TNot(q) => LeftOkTop(g, q, rank, top, d);
    case TAnd(q) => LeftOkTop(g, q, rank, top, d);
    case TCapture(_, _, q) => LeftOkTop(g, q, rank, top, d);
    case _ =>
  }

  lemma {:induction false} RankBound(rank: seq<nat>) returns (top: nat)
    ensures forall n :: 0 <= n < |rank| ==> rank[n] < top
  {
    if rank == [] {
      top := 0;
    } else {
      top := RankBound(rank[1..]);
      assert forall n :: 1 <= n < |rank| ==> rank[n] == rank[1..][n - 1];
      if top <= rank[0] { top := rank[0] + 1; }
    }
  }

  // ---------------------------------------------------------------- look-behinds

  /** Calls in `p` go to rules of level `l` at most, and from inside a look-behind at least one level down. */
  predicate Below(p: Tree, level: seq<nat>, l: nat) {
    match p
    case TCall(n) => n < |level| && level[n] <= l
    case TSeq(p1, p2) => Below(p1, level, l) && Below(p2, level, l)
    case TChoice(p1, p2) => Below(p1, level, l) && Below(p2, level, l)
    case TRep(q) => Below(q, level, l)
    case TNot(q) => Below(q, level, l)
    case TAnd(q) => Below(q, level, l)
    case TBehind(_, q) => l > 0 && Below(q, level, l - 1)
    case TCapture(_, _, q) => Below(q, level, l)
    case _ => true
  }

  ghost predicate Leveled(rules: Rules, level: seq<nat>) {
    |level| == |rules| && forall k :: 0 <= k < |rules| ==> Below(rules[k], level, level[k])
  }

  /** Look-behinds never lead back to the rule they are in. */
  ghost predicate Stratified(p: Tree)
    decreases p
  {
    match p
    case TSeq(p1, p2) => Stratified(p1) && Stratified(p2)
    case TChoice(p1, p2) => Stratified(p1) && Stratified(p2)
    case TRep(q) => Stratified(q)
    case TNot(q) => Stratified(q)
    case TAnd(q) => Stratified(q)
    case TBehind(_, q) => Stratified(q)
    case TCapture(_, _, q) => Stratified(q)
    case TGrammar(rules) => (exists level: seq<nat> :: Leveled(rules, level)) && forall k :: 0 <= k < |rules| ==>
        Stratified(rules[k])
    case _ => true
  }

  /** Outside grammars there is always a level. */
  lemma {:induction false} LevelOf(p: Tree, d: nat) returns (l: nat)
    requires WellFormed([], p, d)
    ensures forall m: nat :: m >= l ==> Below(p, [], m)
    decreases p, 1
  {
    hide FixedLen, HasCaptures;
    match p
    case TSeq(p1, p2) => l := LevelOfTwo(p, p1, p2, d);
    case TChoice(p1, p2) => l := LevelOfTwo(p, p1, p2, d);
    case TRep(q) => l := LevelOf(q, d);
    case TNot(q) => l := LevelOf(q, d);
    case TAnd(q) => l := LevelOf(q, d);
    case TBehind(_, q) =>
      var m := LevelOf(q, d);
      l := m + 1;
    case TCapture(_, _, q) => l := LevelOf(q, d);
    case _ => l := 0;
  }

  lemma LevelOfTwo(p: Tree, p1: Tree, p2: Tree, d: nat) returns (l: nat)
    requires p1 < p && p2 < p && WellFormed([], p1, d) && WellFormed([], p2, d)
    ensures forall m: nat :: m >= l ==> Below(p1, [], m) && Below(p2, [], m)
    decreases p, 0
  {
    var l1 := LevelOf(p1, d);
    var l2 := LevelOf(p2, d);
    l := Max(l1, l2);
  }

  // ---------------------------------------------------------------- matching comes to an answer

  /** The rules of the innermost grammar around a tree, all of them parts of `root`. */
  ghost predicate Scope(g: Rules, rank: seq<nat>, top: nat, level: seq<nat>, root: Tree, d: nat) {
    && Ranked(g, rank, d) && Leveled(g, level) && forall n :: 0 <= n < |g| ==> rank[n] < top && RuleOk(g, n, root, d)
  }

  ghost predicate RuleOk(g: Rules, n: nat, root: Tree, d: nat)
    requires n < |g|
  {
    g[n] < root && WellFormed(g, g[n], d) && NoLeftRecursion(g[n], d) && Stratified(g[n]) &&
        (Used(g, n) ==> LoopsConsume(g, g[n], d))
  }

  /** No left recursion, loops that consume, and look-behinds that lead down. */
  ghost predicate Sound(g: Rules, p: Tree, d: nat) {
    WellFormed(g, p, d) && NoLeftRecursion(p, d) && LoopsConsume(g, p, d) && Stratified(p)
  }

  /** What is known of `p` wherever it is: it is part of `root`, and its calls are of levels up to `l`. */
  ghost predicate Confined(g: Rules, p: Tree, level: seq<nat>, l: nat, root: Tree, d: nat) {
    && p < root && Sound(g, p, d) && Below(p, level, l)
    && forall n: nat :: Calls(p, n) ==> Used(g, n)
  }

  /** The parts of a tree are placed like the tree, inside a look-behind one level down. */
  lemma ConfinedParts(g: Rules, p: Tree, level: seq<nat>, l: nat, root: Tree, d: nat)
    requires Confined(g, p, level, l, root, d)
    ensures p.TSeq? ==> Confined(g, p.first, level, l, root, d) && Confined(g, p.second, level, l, root, d)
    ensures p.TChoice? ==> Confined(g, p.left, level, l, root, d) && Confined(g, p.right, level, l, root, d)
    ensures p.TRep? || p.TNot? || p.TAnd? || p.TCapture? ==> Confined(g, p.body, level, l, root, d)
    ensures p.TBehind? ==> l > 0 && Confined(g, p.body, level, l - 1, root, d)
    ensures p.TRep? ==> !Nullable(g, p.body, d)
    ensures p.TCall? ==> p.rule < |g| && Used(g, p.rule) && p.rule < |level| && level[p.rule] <= l
  {
    hide CheckAux, FixedLen, HasCaptures, Used;
    if p.TCall? { assert Calls(p, p.rule); }
  }

  lemma RuleConfined(g: Rules, n: nat, rank: seq<nat>, top: nat, level: seq<nat>, root: Tree, d: nat)
    requires Scope(g, rank, top, level, root, d) && n < |g| && Used(g, n)
    ensures |rank| == |level| == |g| && rank[n] < top && Confined(g, g[n], level, level[n], root, d) &&
            LeftOk(g, g[n], rank, rank[n], d)
  {
    hide LeftOk, WellFormed, NoLeftRecursion, Stratified, LoopsConsume, Below, Calls;
    assert RuleOk(g, n, root, d);
    forall m: nat | Calls(g[n], m) ensures Used(g, m) { CallUsed(g, n, m); }
  }

  /** Nothing is known of what the calls of `p` follow: any rule may be called. */
  lemma AnyCall(g: Rules, p: Tree, rank: seq<nat>, top: nat, level: seq<nat>, root: Tree, d: nat)
    requires Scope(g, rank, top, level, root, d) && WellFormed(g, p, d)
    ensures LeftOk(g, p, rank, top, d)
  {
    hide RuleOk, Leveled, WellFormed, LeftOk;
    LeftOkTop(g, p, rank, top, d);
  }

  /** Enough fuel to match `p`.  A call goes to a lower level, or it follows some consumption, or it goes
      to a rule of smaller rank; a look-behind goes back, but to a lower level; a grammar starts
      afresh, inside a smaller tree. */
  lemma {:induction false} Enough(g: Rules, p: Tree, rank: seq<nat>, k: nat, top: nat, level: seq<nat>, l: nat,
                                  root: Tree, d: nat, subj: Subject, s: nat)
    returns (fuel: nat)
    requires s <= |subj| && Scope(g, rank, top, level, root, d) && Confined(g, p, level, l, root, d) &&
             LeftOk(g, p, rank, k, d)
    ensures Eval(g, p, subj, s, fuel) != Out
    decreases root, l, |subj| - s, k, p, 1
  {
    hide Scope, Confined, CheckAux, FixedLen, HasCaptures, Below, Calls;
    ConfinedParts(g, p, level, l, root, d);
    match p
    case TRep(_) => fuel := EnoughRep(g, p, rank, k, top, level, l, root, d, subj, s);
    case TSeq(_, _) => fuel := EnoughSeq(g, p, rank, k, top, level, l, root, d, subj, s);
    case TChoice(p1, p2) =>
      var f1 := Enough(g, p1, rank, k, top, level, l, root, d, subj, s);
      var f2 := Enough(g, p2, rank, k, top, level, l, root, d, subj, s);
      fuel := Max(f1, f2);
      EvalMonotone(g, p1, subj, s, f1, fuel);
      EvalMonotone(g, p2, subj, s, f2, fuel);
    case TNot(q) => fuel := Enough(g, q, rank, k, top, level, l, root, d, subj, s);
    case TAnd(q) => fuel := Enough(g, q, rank, k, top, level, l, root, d, subj, s);
    case TCapture(_, _, q) => fuel := Enough(g, q, rank, k, top, level, l, root, d, subj, s);
    case TBehind(n, q) =>
      fuel := 0;
      if n <= s {
        ConfinedWell(g, q, level, l - 1, root, d);
        AnyCall(g, q, rank, top, level, root, d);
        fuel := Enough(g, q, rank, top, top, level, l - 1, root, d, subj, s - n);
      }
    case TCall(n) =>
      RuleConfined(g, n, rank, top, level, root, d);
      var f := Enough(g, g[n], rank, rank[n], top, level, level[n], root, d, subj, s);
      fuel := f + 1;
    case TGrammar(rules) => fuel := EnoughGrammar(g, p, level, l, root, k, d, subj, s);
    case _ => fuel := 0;
  }

  lemma ConfinedWell(g: Rules, p: Tree, level: seq<nat>, l: nat, root: Tree, d: nat)
    requires Confined(g, p, level, l, root, d)
    ensures p < root && WellFormed(g, p, d) && NoLeftRecursion(p, d) && Stratified(p) && LoopsConsume(g, p, d)
  {
    hide WellFormed, NoLeftRecursion, Stratified, LoopsConsume;
  }

  lemma {:induction false} EnoughRep(g: Rules, p: Tree, rank: seq<nat>, k: nat, top: nat, level: seq<nat>, l: nat,
                                     root: Tree, d: nat, subj: Subject, s: nat)
    returns (fuel: nat)
    requires s <= |subj| && Scope(g, rank, top, level, root, d) && Confined(g, p, level, l, root, d) &&
             LeftOk(g, p, rank, k, d) && p.TRep?
    ensures Eval(g, p, subj, s, fuel) != Out
    decreases root, l, |subj| - s, k, p, 0
  {
    hide Scope, Confined, CheckAux;
    ConfinedParts(g, p, level, l, root, d);
    var q := p.body;
    fuel := Enough(g, q, rank, k, top, level, l, root, d, subj, s);
    var r := Eval(g, q, subj, s, fuel);
    if r.Yes? {
      NullableSound(g, q, d, subj, s, fuel);
      var more := Enough(g, p, rank, k, top, level, l, root, d, subj, r.pos);
      var f := fuel;
      fuel := Max(f, more) + 1;
      EvalMonotone(g, q, subj, s, f, fuel);
      EvalMonotone(g, p, subj, r.pos, more, fuel - 1);
    }
  }

  lemma {:induction false} EnoughSeq(g: Rules, p: Tree, rank: seq<nat>, k: nat, top: nat, level: seq<nat>, l: nat,
                                     root: Tree, d: nat, subj: Subject, s: nat)
    returns (fuel: nat)
    requires s <= |subj| && Scope(g, rank, top, level, root, d) && Confined(g, p, level, l, root, d) &&
             LeftOk(g, p, rank, k, d) && p.TSeq?
    ensures Eval(g, p, subj, s, fuel) != Out
    decreases root, l, |subj| - s, k, p, 0
  {
    hide Scope, Confined, CheckAux;
    ConfinedParts(g, p, level, l, root, d);
    var p1, p2 := p.first, p.second;
    fuel := Enough(g, p1, rank, k, top, level, l, root, d, subj, s);
    var r := Eval(g, p1, subj, s, fuel);
    if r.Yes? {
      var more;
      if Nullable(g, p1, d) {
        more := Enough(g, p2, rank, k, top, level, l, root, d, subj, r.pos);
      } else {
        NullableSound(g, p1, d, subj, s, fuel);
        ConfinedWell(g, p2, level, l, root, d);
        AnyCall(g, p2, rank, top, level, root, d);
        more := Enough(g, p2, rank, top, top, level, l, root, d, subj, r.pos);
      }
      var f := fuel;
      fuel := Max(f, more);
      EvalMonotone(g, p1, subj, s, f, fuel);
      EvalMonotone(g, p2, subj, r.pos, more, fuel);
    }
  }

  /** The rules of a grammar are a scope of their own. */
  lemma GrammarScope(g: Rules, p: Tree, d: nat) returns (rank: seq<nat>, top: nat, level: seq<nat>)
    requires Sound(g, p, d) && p.TGrammar?
    ensures p.rules != [] && Scope(p.rules, rank, top, level, p, d)
  {
    hide LeftOk, Below, Used, CheckAux;
    var rules := p.rules;
    rank :| Ranked(rules, rank, d);
    level :| Leveled(rules, level);
    top := RankBound(rank);
    forall n | 0 <= n < |rules| ensures RuleOk(rules, n, p, d) {}
  }

  lemma {:induction false} EnoughGrammar(g: Rules, p: Tree, level: seq<nat>, l: nat, root: Tree, k: nat, d: nat,
                                         subj: Subject, s: nat)
    returns (fuel: nat)
    requires s <= |subj| && Confined(g, p, level, l, root, d) && p.TGrammar?
    ensures Eval(g, p, subj, s, fuel) != Out
    decreases root, l, |subj| - s, k, p, 0
  {
    hide Scope, Confined, WellFormed, NoLeftRecursion, LoopsConsume, Stratified, LeftOk;
    ConfinedWell(g, p, level, l, root, d);
    var rank, top, inner := GrammarScope(g, p, d);
    RuleConfined(p.rules, 0, rank, top, inner, p, d);
    var f := Enough(p.rules, p.rules[0], rank, rank[0], top, inner, inner[0], p, d, subj, s);
    fuel := f + 1;
  }

  /** Matching a pattern that lptree.c accepts, that is not left recursive and whose look-behinds are stratified
      ends with an answer, on any subject, from any position. */
  lemma Terminates(p: Tree, d: nat, subj: Subject, s: nat) returns (fuel: nat)
    requires Accepted(p, d) && NoLeftRecursion(p, d) && Stratified(p) && s <= |subj|
    ensures Eval([], p, subj, s, fuel) != Out
  {
    hide CheckAux, LeftOk, WellFormed, NoLeftRecursion, LoopsConsume, Stratified, Calls, Below, Checked;
    AcceptedLoops(p, d);
    var l := LevelOf(p, d);
    NoCalls(p, d);
    assert Scope([], [], 0, [], TNot(p), d);
    AnyCall([], p, [], 0, [], TNot(p), d);
    fuel := Enough([], p, [], 0, 0, [], l, TNot(p), d, subj, s);
  }

  lemma {:induction false} NoCalls(p: Tree, d: nat)
    requires WellFormed([], p, d)
    ensures forall n: nat :: !Calls(p, n)
    decreases p
  {
    hide FixedLen, HasCaptures;
    match p
    case TSeq(p1, p2) => NoCalls(p1, d); NoCalls(p2, d);
    case TChoice(p1, p2) => NoCalls(p1, d); NoCalls(p2, d);
    case TRep(q) => NoCalls(q, d);
    case TNot(q) => NoCalls(q, d);
    case TAnd(q) => NoCalls(q, d);
    case TBehind(_, q) => NoCalls(q, d);
    case TCapture(_, _, q) => NoCalls(q, d);
    case _ =>
  }

  // ---------------------------------------------------------------- compiling comes to an end

  /** The rule that a lead goes to is of a lower level, or of the same level and a smaller rank. */
  ghost predicate Lower(lead: Lead, rank: seq<nat>, k: nat, level: seq<nat>, l: nat) {
    lead.Jumps? ==> lead.rule < |rank| == |level| && (level[lead.rule] < l ||
                                                      (level[lead.rule] == l && rank[lead.rule] < k))
  }

  /** A lead is the next one, which only a nullable tree lets through, or goes to a lower rule. */
  lemma {:induction false} LeadLower(g: Rules, p: Tree, d: nat, next: Lead, rank: seq<nat>, k: nat, level: seq<nat>,
                                     l: nat)
    requires LeftOk(g, p, rank, k, d) && Below(p, level, l) && |rank| == |level|
    ensures var lead := LeadOf(g, p, d, next); Lower(lead, rank, k, level, l) || (lead == next && Nullable(g, p, d))
    decreases p
  {
    hide FixedLen, HasCaptures, GetFirst, HeadFail;
    match p
    case TSeq(p1, p2) =>
      LeadLower(g, p1, d, LeadOf(g, p2, d, next), rank, k, level, l);
      if Nullable(g, p1, d) { LeadLower(g, p2, d, next, rank, k, level, l); }
    case TChoice(_, p2) => LeadLower(g, p2, d, next, rank, k, level, l);
    case TAnd(q) => LeadLower(g, q, d, if FixedLen(g, q, d) > 0 then Stops else next, rank, k, level, l);
    case TBehind(n, q) => LeadDown(g, q, d, next, rank, k, level, l);
    case TCapture(_, _, q) => LeadLower(g, q, d, Stops, rank, k, level, l);
    case _ =>
  }

  lemma {:induction false} LeadDown(g: Rules, p: Tree, d: nat, next: Lead, rank: seq<nat>, k: nat, level: seq<nat>,
                                    l: nat)
    requires l > 0 && Below(p, level, l - 1) && |rank| == |level|
    ensures var lead := LeadOf(g, p, d, next); Lower(lead, rank, k, level, l) || lead == next
    decreases p
  {
    hide FixedLen, HasCaptures, GetFirst, HeadFail;
    match p
    case TSeq(p1, p2) =>
      LeadDown(g, p1, d, LeadOf(g, p2, d, next), rank, k, level, l);
      LeadDown(g, p2, d, next, rank, k, level, l);
    case TChoice(_, p2) => LeadDown(g, p2, d, next, rank, k, level, l);
    case TAnd(q) => LeadDown(g, q, d, if FixedLen(g, q, d) > 0 then Stops else next, rank, k, level, l);
    case TBehind(_, q) =>
      BelowMore(q, level, l - 2, l - 1);
      LeadDown(g, q, d, next, rank, k, level, l);
    case TCapture(_, _, q) => LeadDown(g, q, d, Stops, rank, k, level, l);
    case _ =>
  }

  lemma {:induction false} BelowMore(p: Tree, level: seq<nat>, l: nat, m: nat)
    requires Below(p, level, l) && l <= m
    ensures Below(p, level, m)
    decreases p
  {
    match p
    case TSeq(p1, p2) => BelowMore(p1, level, l, m); BelowMore(p2, level, l, m);
    case TChoice(p1, p2) => BelowMore(p1, level, l, m); BelowMore(p2, level, l, m);
    case TRep(q) => BelowMore(q, level, l, m);
    case TNot(q) => BelowMore(q, level, l, m);
    case TAnd(q) => BelowMore(q, level, l, m);
    case TBehind(_, q) => BelowMore(q, level, l - 1, m - 1);
    case TCapture(_, _, q) => BelowMore(q, level, l, m);
    case _ =>
  }

  /** One number for a level and a rank below `top`. */
  lemma Flattened(top: nat, l1: nat, r1: nat, l2: nat, r2: nat)
    requires r1 < top && r2 < top && (l1 < l2 || (l1 == l2 && r1 < r2))
    ensures l1 * top + r1 < l2 * top + r2
  {
    if l1 < l2 {
      var m := l2 - l1 - 1;
      assert l2 * top == l1 * top + top + m * top by { assert l2 == l1 + 1 + m; Distributes(l1, m, top); }
      Natural(m, top);
    }
  }

  lemma Distributes(a: nat, b: nat, c: nat)
    ensures (a + 1 + b) * c == a * c + c + b * c
  {
  }

  lemma Natural(a: nat, b: nat)
    ensures a * b >= 0
  {
  }

  lemma RankedLeadsEnd(rules: Rules, rank: seq<nat>, level: seq<nat>, d: nat)
    requires Ranked(rules, rank, d) && Leveled(rules, level)
    ensures LeadsEnd(RuleLeads(rules, d))
  {
    hide LeftOk, Below, LeadOf, CheckAux;
    var leads := RuleLeads(rules, d);
    var top := RankBound(rank);
    var all := seq(|rules|, k requires 0 <= k < |rules| => level[k] * top + rank[k]);
    forall k | 0 <= k < |leads| && leads[k].Jumps? ensures leads[k].rule < |all| && all[leads[k].rule] < all[k] {
      LeadLower(rules, rules[k], d, Returns, rank, rank[k], level, level[k]);
      var n := leads[k].rule;
      Flattened(top, level[n], rank[n], level[k], rank[k]);
    }
    assert Decreasing(leads, all);
  }

  /** Chains of jumps end. */
  lemma {:induction false} StratifiedJumps(g: Rules, p: Tree, d: nat)
    requires NoLeftRecursion(p, d) && Stratified(p)
    ensures JumpsEnd(g, p, d)
    decreases p
  {
    hide LeadsEnd, LeftOk, Below, CheckAux, HeadFail;
    match p
    case TSeq(p1, p2) => StratifiedJumps(g, p1, d); StratifiedJumps(g, p2, d);
    case TChoice(p1, p2) => StratifiedJumps(g, p1, d); StratifiedJumps(g, p2, d);
    case TRep(q) => StratifiedJumps(g, q, d);
    case TNot(q) => StratifiedJumps(g, q, d);
    case TAnd(q) => StratifiedJumps(g, q, d);
    case TBehind(_, q) => StratifiedJumps(g, q, d);
    case TCapture(_, _, q) => StratifiedJumps(g, q, d);
    case TGrammar(rules) =>
      var rank: seq<nat> :| Ranked(rules, rank, d);
      var level: seq<nat> :| Leveled(rules, level);
      RankedLeadsEnd(rules, rank, level, d);
      forall k | 0 <= k < |rules| ensures JumpsEnd(rules, rules[k], d) { StratifiedJumps(rules, rules[k], d); }
    case _ =>
  }

  // ---------------------------------------------------------------- the analyses come back

  /** A well-formed tree without left recursion inside. */
  ghost predicate Upright(g: Rules, p: Tree, d: nat) { WellFormed(g, p, d) && NoLeftRecursion(p, d) }

  lemma UprightParts(g: Rules, p: Tree, d: nat)
    requires Upright(g, p, d)
    ensures p.TSeq? ==> Upright(g, p.first, d) && Upright(g, p.second, d)
    ensures p.TChoice? ==> Upright(g, p.left, d) && Upright(g, p.right, d)
    ensures p.TRep? || p.TNot? || p.TAnd? || p.TBehind? || p.TCapture? ==> Upright(g, p.body, d)
    ensures p.TGrammar? ==> p.rules != [] && forall k :: 0 <= k < |p.rules| ==> Upright(p.rules, p.rules[k], d)
    ensures p.TGrammar? ==> exists rank: seq<nat> :: Ranked(p.rules, rank, d)
    ensures p.TCall? ==> p.rule < |g|
  {
    hide FixedLen, HasCaptures, Ranked;
  }

  /** The rules in scope are ranked below `top`. */
  ghost predicate Upstanding(g: Rules, rank: seq<nat>, top: nat, d: nat) {
    Ranked(g, rank, d) && forall n :: 0 <= n < |g| ==> rank[n] < top && Upright(g, g[n], d)
  }

  /** What is nofail is nullable. */
  lemma {:induction false} NoFailNullable(g: Rules, p: Tree, d: nat)
    requires NoFail(g, p, d)
    ensures Nullable(g, p, d)
    decreases d, p
  {
    match p
    case TSeq(p1, p2) => NoFailNullable(g, p1, d); NoFailNullable(g, p2, d);
    case TChoice(p1, p2) => if NoFail(g, p2, d) { NoFailNullable(g, p2, d); } else { NoFailNullable(g, p1, d); }
    case TCapture(_, _, q) => NoFailNullable(g, q, d);
    case TCall(n) => if d > 0 && n < |g| { NoFailNullable(g, g[n], d - 1); }
    case TGrammar(rules) => if d > 0 && rules != [] { NoFailNullable(rules, rules[0], d - 1); }
    case _ =>
  }

  /** `checkaux` and `headfail` follow only calls that can be reached without consuming. */
  lemma {:induction false} LeftFollows(g: Rules, p: Tree, ask: Ask, rank: seq<nat>, k: nat, top: nat, d: nat)
    requires !ask.AskFirst? && Upstanding(g, rank, top, d) && Upright(g, p, d) && LeftOk(g, p, rank, k, d)
    ensures Follows(g, p, ask, rank, k, d)
    decreases Order(ask), 0, p
  {
    hide Upstanding, Upright, CheckAux, HeadFail, WayEnds;
    UprightParts(g, p, d);
    match p
    case TSeq(p1, p2) =>
      LeftFollows(g, p1, ask, rank, k, top, d);
      if ask.AskHead? {
        LeftEnds(g, p2, AskCheck(PENoFail), rank, top, d);
      } else if CheckAux(g, p1, ask.pred, d) {
        if ask.pred == PENoFail { NoFailNullable(g, p1, d); }
        LeftFollows(g, p2, ask, rank, k, top, d);
      }
    case TChoice(p1, p2) => LeftFollows(g, p1, ask, rank, k, top, d); LeftFollows(g, p2, ask, rank, k, top, d);
    case TAnd(q) => LeftFollows(g, q, ask, rank, k, top, d);
    case TCapture(_, _, q) => LeftFollows(g, q, ask, rank, k, top, d);
    case TGrammar(rules) =>
      var inner, bound := GrammarUpstanding(g, p, d);
      forall n | 0 <= n < |rules| ensures Follows(rules, rules[n], ask, inner, inner[n], d) {
        RuleUpright(rules, n, inner, bound, d);
        LeftFollows(rules, rules[n], ask, inner, inner[n], bound, d);
      }
      FollowsInside(g, p, ask, inner, inner[0], rank, k, d);
    case _ =>
  }

  lemma RuleUpright(g: Rules, n: nat, rank: seq<nat>, top: nat, d: nat)
    requires Upstanding(g, rank, top, d) && n < |g|
    ensures |rank| == |g| && rank[n] < top && Upright(g, g[n], d) && LeftOk(g, g[n], rank, rank[n], d)
  {
    hide LeftOk, Upright;
  }

  lemma GrammarUpstanding(g: Rules, p: Tree, d: nat) returns (rank: seq<nat>, top: nat)
    requires p.TGrammar? && Upright(g, p, d)
    ensures p.rules != [] && Upstanding(p.rules, rank, top, d) && |rank| == |p.rules|
  {
    hide LeftOk, Upright;
    UprightParts(g, p, d);
    rank :| Ranked(p.rules, rank, d);
    top := RankBound(rank);
  }

  lemma FollowsInside(g: Rules, p: Tree, ask: Ask, inner: seq<nat>, bound: nat, rank: seq<nat>, k: nat, d: nat)
    requires p.TGrammar? && p.rules != [] && |inner| == |p.rules| && Follows(p.rules, p.rules[0], ask, inner, bound, d)
    requires forall n :: 0 <= n < |p.rules| && inner[n] < bound ==>
             Follows(p.rules, p.rules[n], ask, inner, inner[n], d)
    ensures Follows(g, p, ask, rank, k, d)
  {
  }

  /** Without left recursion `checkaux` and `headfail` come to an end from everywhere. */
  lemma {:induction false} LeftEnds(g: Rules, p: Tree, ask: Ask, rank: seq<nat>, top: nat, d: nat)
    requires !ask.AskFirst? && Upstanding(g, rank, top, d) && Upright(g, p, d)
    ensures WayEnds(g, p, ask, d)
    decreases Order(ask), 1
  {
    hide Upright, LeftOk, Follows;
    forall n | 0 <= n < |g| ensures Follows(g, g[n], ask, rank, rank[n], d) {
      LeftFollows(g, g[n], ask, rank, rank[n], top, d);
    }
    UprightLeft(g, p, rank, top, d);
    LeftFollows(g, p, ask, rank, top, top, d);
    assert RanksDown(g, ask, rank, top, d);
  }

  lemma UprightLeft(g: Rules, p: Tree, rank: seq<nat>, top: nat, d: nat)
    requires Upright(g, p, d) && |rank| == |g| && forall n :: 0 <= n < |g| ==> rank[n] < top
    ensures LeftOk(g, p, rank, top, d)
  {
    hide LeftOk, WellFormed, NoLeftRecursion;
    LeftOkTop(g, p, rank, top, d);
  }

  // ---------------------------------------------------------------- with look-behinds that lead down

  /** A tree without left recursion inside and with stratified look-behinds. */
  ghost predicate Tame(g: Rules, p: Tree, d: nat) { Upright(g, p, d) && Stratified(p) }

  lemma TameParts(g: Rules, p: Tree, d: nat)
    requires Tame(g, p, d)
    ensures p.TSeq? ==> Tame(g, p.first, d) && Tame(g, p.second, d)
    ensures p.TChoice? ==> Tame(g, p.left, d) && Tame(g, p.right, d)
    ensures p.TRep? || p.TNot? || p.TAnd? || p.TBehind? || p.TCapture? ==> Tame(g, p.body, d)
    ensures p.TGrammar? ==> p.rules != [] && forall k :: 0 <= k < |p.rules| ==> Tame(p.rules, p.rules[k], d)
    ensures p.TCall? ==> p.rule < |g|
  {
    hide Upright;
    UprightParts(g, p, d);
  }

  /** The rules in scope by level and by rank below `top`, and `all` of them by one number for both. */
  ghost predicate Numbered(g: Rules, rank: seq<nat>, level: seq<nat>, top: nat, all: seq<nat>, d: nat) {
    && Upstanding(g, rank, top, d) && Leveled(g, level) && |all| == |g|
    && forall n :: 0 <= n < |g| ==> Tame(g, g[n], d) && all[n] == level[n] * top + rank[n]
  }

  lemma NumberBelow(g: Rules, rank: seq<nat>, level: seq<nat>, top: nat, all: seq<nat>, d: nat, n: nat, l: nat, k: nat)
    requires Numbered(g, rank, level, top, all, d) && n < |g|
    requires |level| == |rank| == |g| && (level[n] < l || (level[n] == l && rank[n] < k))
    ensures n < |all| && all[n] < l * top + k
  {
    hide Ranked, Upright, Below, Tame;
    if level[n] < l {
      var m := l - level[n] - 1;
      assert l * top == level[n] * top + top + m * top by { Distributes(level[n], m, top); }
      Natural(m, top);
    }
  }

  lemma NumberedLength(g: Rules, rank: seq<nat>, level: seq<nat>, top: nat, all: seq<nat>, d: nat)
    requires Numbered(g, rank, level, top, all, d)
    ensures |rank| == |level| == |all| == |g| && Upstanding(g, rank, top, d)
  {
    hide LeftOk, Upright, Below, Tame;
  }

  lemma RuleTame(g: Rules, rank: seq<nat>, level: seq<nat>, top: nat, all: seq<nat>, d: nat, n: nat)
    requires Numbered(g, rank, level, top, all, d) && n < |g|
    ensures |rank| == |level| == |all| == |g| && Tame(g, g[n], d) && all[n] == level[n] * top + rank[n]
    ensures LeftOk(g, g[n], rank, rank[n], d) && Below(g[n], level, level[n])
  {
    hide LeftOk, Upright, Below, Tame;
  }

  lemma TameCheck(g: Rules, p: Tree, rank: seq<nat>, top: nat, d: nat)
    requires Upstanding(g, rank, top, d) && Tame(g, p, d)
    ensures WayEnds(g, p, AskCheck(PENullable), d)
  {
    hide Upstanding, Upright, WayEnds;
    LeftEnds(g, p, AskCheck(PENullable), rank, top, d);
  }

  /** Where all calls are of rules numbered below `k`, `getfirst` can go anywhere. */
  lemma {:induction false} FirstAnywhere(g: Rules, p: Tree, rank: seq<nat>, top: nat, all: seq<nat>, k: nat, d: nat)
    requires Upstanding(g, rank, top, d) && Tame(g, p, d)
    requires |all| == |g| && forall n: nat :: Calls(p, n) && n < |g| ==> all[n] < k
    ensures Follows(g, p, AskFirst, all, k, d)
    decreases p, 1
  {
    hide Upstanding, Tame, CheckAux, WayEnds;
    TameParts(g, p, d);
    match p
    case TSeq(p1, p2) =>
      TameCheck(g, p1, rank, top, d);
      FirstAnywhere(g, p1, rank, top, all, k, d);
      FirstAnywhere(g, p2, rank, top, all, k, d);
    case TChoice(p1, p2) =>
      FirstAnywhere(g, p1, rank, top, all, k, d);
      FirstAnywhere(g, p2, rank, top, all, k, d);
    case TRep(q) => FirstAnywhere(g, q, rank, top, all, k, d);
    case TNot(q) => FirstAnywhere(g, q, rank, top, all, k, d);
    case TAnd(q) => FirstAnywhere(g, q, rank, top, all, k, d);
    case TBehind(_, q) => FirstAnywhere(g, q, rank, top, all, k, d);
    case TCapture(_, _, q) => FirstAnywhere(g, q, rank, top, all, k, d);
    case TGrammar(_) => GrammarFollows(g, p, all, k, d);
    case _ =>
  }

  lemma {:induction false} BelowCalls(p: Tree, level: seq<nat>, l: nat)
    requires Below(p, level, l)
    ensures forall n: nat :: Calls(p, n) ==> n < |level| && level[n] <= l
    decreases p
  {
    match p
    case TSeq(p1, p2) => BelowCalls(p1, level, l); BelowCalls(p2, level, l);
    case TChoice(p1, p2) => BelowCalls(p1, level, l); BelowCalls(p2, level, l);
    case TRep(q) => BelowCalls(q, level, l);
    case TNot(q) => BelowCalls(q, level, l);
    case TAnd(q) => BelowCalls(q, level, l);
    case TBehind(_, q) => BelowCalls(q, level, l - 1);
    case TCapture(_, _, q) => BelowCalls(q, level, l);
    case _ =>
  }

  lemma FirstDown(g: Rules, p: Tree, rank: seq<nat>, k: nat, level: seq<nat>, l: nat, top: nat, all: seq<nat>, d: nat)
    requires Numbered(g, rank, level, top, all, d) && Tame(g, p, d) && l > 0 && Below(p, level, l - 1)
    ensures Follows(g, p, AskFirst, all, l * top + k, d)
    decreases p, 2
  {
    hide Numbered, Tame, Below, Follows, Calls;
    NumberedLength(g, rank, level, top, all, d);
    BelowCalls(p, level, l - 1);
    forall n: nat | Calls(p, n) && n < |g| ensures all[n] < l * top + k {
      NumberBelow(g, rank, level, top, all, d, n, l, k);
    }
    FirstAnywhere(g, p, rank, top, all, l * top + k, d);
  }

  /** `getfirst` follows the calls that can be reached without consuming, which are of smaller rank, and
      those in look-behinds, which are of lower levels. */
  lemma {:induction false} FirstFollows(g: Rules, p: Tree, rank: seq<nat>, k: nat, level: seq<nat>, l: nat, top: nat,
                                        all: seq<nat>, d: nat)
    requires Numbered(g, rank, level, top, all, d) && Tame(g, p, d)
    requires LeftOk(g, p, rank, k, d) && Below(p, level, l)
    ensures Follows(g, p, AskFirst, all, l * top + k, d)
    decreases p, 1
  {
    hide Numbered, Tame, CheckAux, WayEnds;
    TameParts(g, p, d);
    NumberedLength(g, rank, level, top, all, d);
    match p
    case TSeq(p1, p2) =>
      TameCheck(g, p1, rank, top, d);
      FirstFollows(g, p1, rank, k, level, l, top, all, d);
      if Nullable(g, p1, d) { FirstFollows(g, p2, rank, k, level, l, top, all, d); }
    case TChoice(p1, p2) =>
      FirstFollows(g, p1, rank, k, level, l, top, all, d);
      FirstFollows(g, p2, rank, k, level, l, top, all, d);
    case TRep(q) => FirstFollows(g, q, rank, k, level, l, top, all, d);
    case TNot(q) => FirstFollows(g, q, rank, k, level, l, top, all, d);
    case TAnd(q) => FirstFollows(g, q, rank, k, level, l, top, all, d);
    case TBehind(_, q) => FirstDown(g, q, rank, k, level, l, top, all, d);
    case TCapture(_, _, q) => FirstFollows(g, q, rank, k, level, l, top, all, d);
    case TCall(n) => NumberBelow(g, rank, level, top, all, d, n, l, k);
    case TGrammar(_) => GrammarFollows(g, p, all, l * top + k, d);
    case _ =>
  }

  /** In a grammar, `getfirst` comes to an end from every rule. */
  lemma {:induction false} GrammarFollows(g: Rules, p: Tree, outer: seq<nat>, k: nat, d: nat)
    requires p.TGrammar? && Tame(g, p, d)
    ensures Follows(g, p, AskFirst, outer, k, d)
    decreases p, 0
  {
    hide LeftOk, Below, Tame, Follows, Numbered;
    TameParts(g, p, d);
    var rules := p.rules;
    var rank, level, top, all := GrammarNumbered(g, p, d);
    NumberedLength(rules, rank, level, top, all, d);
    forall n | 0 <= n < |rules| ensures Follows(rules, rules[n], AskFirst, all, all[n], d) {
      RuleTame(rules, rank, level, top, all, d, n);
      FirstFollows(rules, rules[n], rank, rank[n], level, level[n], top, all, d);
    }
    FollowsInside(g, p, AskFirst, all, all[0], outer, k, d);
  }

  lemma GrammarNumbered(g: Rules, p: Tree, d: nat) returns (rank: seq<nat>, level: seq<nat>, top: nat, all: seq<nat>)
    requires p.TGrammar? && Tame(g, p, d)
    ensures Numbered(p.rules, rank, level, top, all, d)
  {
    hide LeftOk, Below, Upright, Upstanding;
    TameParts(g, p, d);
    rank, top := GrammarUpstanding(g, p, d);
    level :| Leveled(p.rules, level);
    all := seq(|p.rules|, n requires 0 <= n < |p.rules| => level[n] * top + rank[n]);
  }

  /** And so do all analyses from every place in a grammar. */
  lemma TameEnds(g: Rules, p: Tree, ask: Ask, rank: seq<nat>, level: seq<nat>, top: nat, all: seq<nat>, d: nat)
    requires Numbered(g, rank, level, top, all, d) && Tame(g, p, d)
    ensures WayEnds(g, p, ask, d)
  {
    hide Tame, Follows, LeftOk, Below, Calls, Numbered;
    NumberedLength(g, rank, level, top, all, d);
    if ask.AskFirst? {
      var bound := RankBound(all);
      forall n | 0 <= n < |g| ensures Follows(g, g[n], AskFirst, all, all[n], d) {
        RuleTame(g, rank, level, top, all, d, n);
        FirstFollows(g, g[n], rank, rank[n], level, level[n], top, all, d);
      }
      FirstAnywhere(g, p, rank, top, all, bound, d);
      assert RanksDown(g, ask, all, bound, d);
    } else {
      TameUpright(g, p, d);
      LeftEnds(g, p, ask, rank, top, d);
    }
  }

  lemma TameUpright(g: Rules, p: Tree, d: nat)
    requires Tame(g, p, d)
    ensures Upright(g, p, d)
  {
  }

  /** Everything that the generator asks is answered. */
  lemma {:induction false} TameAnalyses(g: Rules, p: Tree, rank: seq<nat>, level: seq<nat>, top: nat, all: seq<nat>,
                                        d: nat)
    requires Numbered(g, rank, level, top, all, d) && Tame(g, p, d)
    ensures AnalysesEnd(g, p, d)
    decreases p, 1
  {
    hide Tame, Numbered, HeadFail, FirstOf, WayEnds;
    TameParts(g, p, d);
    match p
    case TSeq(p1, p2) =>
      TameEnds(g, p2, AskFirst, rank, level, top, all, d);
      TameAnalyses(g, p1, rank, level, top, all, d);
      TameAnalyses(g, p2, rank, level, top, all, d);
    case TChoice(p1, p2) =>
      TameEnds(g, p1, AskFirst, rank, level, top, all, d);
      TameEnds(g, p1, AskHead, rank, level, top, all, d);
      TameEnds(g, p2, AskFirst, rank, level, top, all, d);
      TameAnalyses(g, p1, rank, level, top, all, d);
      TameAnalyses(g, p2, rank, level, top, all, d);
    case TRep(q) => TameBody(g, q, rank, level, top, all, d);
    case TNot(q) => TameBody(g, q, rank, level, top, all, d);
    case TAnd(q) => TameAnalyses(g, q, rank, level, top, all, d);
    case TBehind(_, q) => TameAnalyses(g, q, rank, level, top, all, d);
    case TCapture(_, _, q) => TameAnalyses(g, q, rank, level, top, all, d);
    case TGrammar(rules) =>
      var rank1, level1, top1, all1 := GrammarNumbered(g, p, d);
      forall k | 0 <= k < |rules| ensures AnalysesEnd(rules, rules[k], d) {
        TameAnalyses(rules, rules[k], rank1, level1, top1, all1, d);
      }
    case _ =>
  }

  lemma {:induction false} TameBody(g: Rules, q: Tree, rank: seq<nat>, level: seq<nat>, top: nat, all: seq<nat>, d: nat)
    requires Numbered(g, rank, level, top, all, d) && Tame(g, q, d)
    ensures WayEnds(g, q, AskFirst, d) && WayEnds(g, q, AskHead, d) && AnalysesEnd(g, q, d)
    decreases q, 2
  {
    hide Tame, Numbered, WayEnds;
    TameEnds(g, q, AskFirst, rank, level, top, all, d);
    TameEnds(g, q, AskHead, rank, level, top, all, d);
    TameAnalyses(g, q, rank, level, top, all, d);
  }

  /** A well-formed pattern that is not left recursive and whose look-behinds are stratified can be compiled. */
  lemma StratifiedCompiles(p: Tree, d: nat)
    requires WellFormed([], p, d) && NoLeftRecursion(p, d) && Stratified(p)
    ensures Compilable([], p, d)
  {
    hide WellFormed, NoLeftRecursion, Stratified, AnalysesEnd, JumpsEnd;
    StratifiedJumps([], p, d);
    TameAnalyses([], p, [], [], 0, [], d);
  }
}
