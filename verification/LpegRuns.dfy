/** The analyses of lpcode.c as they run.

    The C functions follow calls without a bound.  `hascaptures` and `fixedlen` mark the calls that they
    are following; the others need not come back.  Here a run is given `n` nested calls; `None` means that it
    has not come back by then.  When a run has come back, its answer is the one that the analyses of
    LpegAnalysis.dfy give at every depth from `n` on. */
module LpegRuns {
  import opened Basics
  import opened LpegTree
  import opened LpegAnalysis

  /** checkaux */
  function CheckRun(g: Rules, p: Tree, pred: Pred, n: nat): Option<bool>
    decreases n, p
  {
    match p
    case TTrue => Some(true)
    case TRep(_) => Some(true)
    case TNot(_) => Some(pred == PENullable)
    case TBehind(_, _) => Some(pred == PENullable)
    case TAnd(q) => if pred == PENullable then Some(true) else CheckRun(g, q, pred, n)
    case TSeq(p1, p2) =>
      var r1 := CheckRun(g, p1, pred, n);
      if r1 == Some(true) then CheckRun(g, p2, pred, n) else r1
    case TChoice(p1, p2) =>
      var r2 := CheckRun(g, p2, pred, n);
      if r2 == Some(false) then CheckRun(g, p1, pred, n) else r2
    case TCapture(_, _, q) => CheckRun(g, q, pred, n)
    case TCall(m) => if n == 0 || m >= |g| then None else CheckRun(g, g[m], pred, n - 1)
    case TGrammar(rules) => if n == 0 || rules == [] then None else CheckRun(rules, rules[0], pred, n - 1)
    case _ => Some(false)
  }

  /** fixedlen; a call in `visited` is being followed already. */
  function LenRun(g: Rules, p: Tree, visited: set<nat>, n: nat): (r: Option<int>)
    ensures r.Some? ==> r.value >= -1
    decreases n, p
  {
    match p
    case TChar(_) => Some(1)
    case TSet(_) => Some(1)
    case TAny => Some(1)
    case TRep(_) => Some(-1)
    case TCapture(_, _, q) => LenRun(g, q, visited, n)
    case TCall(m) =>
      if m in visited then Some(-1)
      else if n == 0 || m >= |g| then None
      else LenRun(g, g[m], visited + {m}, n - 1)
    case TGrammar(rules) => if n == 0 || rules == [] then None else LenRun(rules, rules[0], {}, n - 1)
    case TSeq(p1, p2) =>
      var r1 := LenRun(g, p1, visited, n);
      if r1.None? || r1.value < 0 then r1 else
      var r2 := LenRun(g, p2, visited, n);
      if r2.None? || r2.value < 0 then r2 else Some(r1.value + r2.value)
    case TChoice(p1, p2) =>
      var r1, r2 := LenRun(g, p1, visited, n), LenRun(g, p2, visited, n);
      if r1.None? || r2.None? then None else if r1 == r2 then r1 else Some(-1)
    case _ => Some(0)
  }

  /** hascaptures */
  function CapRun(g: Rules, p: Tree, visited: set<nat>, n: nat): Option<bool>
    decreases n, p
  {
    match p
    case TCapture(_, _, _) => Some(true)
    case TCall(m) =>
      if m in visited then Some(false)
      else if n == 0 || m >= |g| then None
      else CapRun(g, g[m], visited + {m}, n - 1)
    case TGrammar(rules) => if n == 0 || rules == [] then None else CapRun(rules, rules[0], {}, n - 1)
    case TRep(q) => CapRun(g, q, visited, n)
    case TNot(q) => CapRun(g, q, visited, n)
    case TAnd(q) => CapRun(g, q, visited, n)
    case TBehind(_, q) => CapRun(g, q, visited, n)
    case TSeq(p1, p2) =>
      var r1 := CapRun(g, p1, visited, n);
      if r1 == Some(false) then CapRun(g, p2, visited, n) else r1
    case TChoice(p1, p2) =>
      var r1 := CapRun(g, p1, visited, n);
      if r1 == Some(false) then CapRun(g, p2, visited, n) else r1
    case _ => Some(false)
  }

  /** getfirst, which looks into negations and look-behinds although it makes no use of what it finds there */
  function FirstRun(g: Rules, p: Tree, follow: Charset, n: nat): Option<First>
    decreases n, p
  {
    match p
    case TTrue => Some(First(follow, true))
    case TFalse => Some(First({}, false))
    case TChoice(p1, p2) =>
      var r1, r2 := FirstRun(g, p1, follow, n), FirstRun(g, p2, follow, n);
      if r1.None? || r2.None? then None else Some(First(r1.value.cs + r2.value.cs, r1.value.empty || r2.value.empty))
    case TSeq(p1, p2) =>
      (match CheckRun(g, p1, PENullable, n)
       case None => None
       case Some(nullable) =>
         if !nullable then FirstRun(g, p1, FullSet(), n) else
         var r2 := FirstRun(g, p2, follow, n);
         if r2.None? then None else
         var r1 := FirstRun(g, p1, r2.value.cs, n);
         if r1.None? then None else Some(First(r1.value.cs, r1.value.empty && r2.value.empty)))
    case TRep(q) =>
      var r := FirstRun(g, q, follow, n);
      if r.None? then None else Some(First(r.value.cs + follow, true))
    case TCapture(_, _, q) => FirstRun(g, q, follow, n)
    case TCall(m) => if n == 0 || m >= |g| then None else FirstRun(g, g[m], follow, n - 1)
    case TGrammar(rules) => if n == 0 || rules == [] then None else FirstRun(rules, rules[0], follow, n - 1)
    case TAnd(q) =>
      var r := FirstRun(g, q, follow, n);
      if r.None? then None else Some(First(r.value.cs * follow, r.value.empty))
    case TNot(q) =>
      if IsCharset(q) then Some(First(FullSet() - ToCharset(q), true))
      else if FirstRun(g, q, follow, n).None? then None
      else Some(First(follow, true))
    case TBehind(_, q) => if FirstRun(g, q, follow, n).None? then None else Some(First(follow, true))
    case _ => Some(First(ToCharset(p), false))
  }

  /** headfail */
  function HeadRun(g: Rules, p: Tree, n: nat): Option<bool>
    decreases n, p
  {
    match p
    case TTrue => Some(false)
    case TRep(_) => Some(false)
    case TNot(_) => Some(false)
    case TBehind(_, _) => Some(false)
    case TCapture(_, _, q) => HeadRun(g, q, n)
    case TAnd(q) => HeadRun(g, q, n)
    case TCall(m) => if n == 0 || m >= |g| then None else HeadRun(g, g[m], n - 1)
    case TGrammar(rules) => if n == 0 || rules == [] then None else HeadRun(rules, rules[0], n - 1)
    case TSeq(p1, p2) =>
      var r2 := CheckRun(g, p2, PENoFail, n);
      if r2 == Some(true) then HeadRun(g, p1, n) else r2
    case TChoice(p1, p2) =>
      var r1 := HeadRun(g, p1, n);
      if r1 == Some(true) then HeadRun(g, p2, n) else r1
    case _ => Some(true)
  }

  // ---------------------------------------------------------------- what has come back stays

  lemma {:induction false} CheckRunMore(g: Rules, p: Tree, pred: Pred, n: nat, m: nat)
    requires CheckRun(g, p, pred, n).Some? && n <= m
    ensures CheckRun(g, p, pred, m) == CheckRun(g, p, pred, n)
    decreases n, p
  {
    match p
    case TAnd(q) => if pred == PENoFail { CheckRunMore(g, q, pred, n, m); }
    case TSeq(p1, p2) =>
      CheckRunMore(g, p1, pred, n, m);
      if CheckRun(g, p1, pred, n) == Some(true) { CheckRunMore(g, p2, pred, n, m); }
    case TChoice(p1, p2) =>
      CheckRunMore(g, p2, pred, n, m);
      if CheckRun(g, p2, pred, n) == Some(false) { CheckRunMore(g, p1, pred, n, m); }
    case TCapture(_, _, q) => CheckRunMore(g, q, pred, n, m);
    case TCall(k) => CheckRunMore(g, g[k], pred, n - 1, m - 1);
    case TGrammar(rules) => CheckRunMore(rules, rules[0], pred, n - 1, m - 1);
    case _ =>
  }

  lemma {:induction false} LenRunMore(g: Rules, p: Tree, visited: set<nat>, n: nat, m: nat)
    requires LenRun(g, p, visited, n).Some? && n <= m
    ensures LenRun(g, p, visited, m) == LenRun(g, p, visited, n)
    decreases n, p
  {
    match p
    case TCapture(_, _, q) => LenRunMore(g, q, visited, n, m);
    case TSeq(p1, p2) =>
      LenRunMore(g, p1, visited, n, m);
      if LenRun(g, p1, visited, n).value >= 0 { LenRunMore(g, p2, visited, n, m); }
    case TChoice(p1, p2) => LenRunMore(g, p1, visited, n, m); LenRunMore(g, p2, visited, n, m);
    case TCall(k) => if k !in visited { LenRunMore(g, g[k], visited + {k}, n - 1, m - 1); }
    case TGrammar(rules) => LenRunMore(rules, rules[0], {}, n - 1, m - 1);
    case _ =>
  }

  lemma {:induction false} CapRunMore(g: Rules, p: Tree, visited: set<nat>, n: nat, m: nat)
    requires CapRun(g, p, visited, n).Some? && n <= m
    ensures CapRun(g, p, visited, m) == CapRun(g, p, visited, n)
    decreases n, p
  {
    match p
    case TCall(k) => if k !in visited { CapRunMore(g, g[k], visited + {k}, n - 1, m - 1); }
    case TGrammar(rules) => CapRunMore(rules, rules[0], {}, n - 1, m - 1);
    case TRep(q) => CapRunMore(g, q, visited, n, m);
    case TNot(q) => CapRunMore(g, q, visited, n, m);
    case TAnd(q) => CapRunMore(g, q, visited, n, m);
    case TBehind(_, q) => CapRunMore(g, q, visited, n, m);
    case TSeq(p1, p2) =>
      CapRunMore(g, p1, visited, n, m);
      if CapRun(g, p1, visited, n) == Some(false) { CapRunMore(g, p2, visited, n, m); }
    case TChoice(p1, p2) =>
      CapRunMore(g, p1, visited, n, m);
      if CapRun(g, p1, visited, n) == Some(false) { CapRunMore(g, p2, visited, n, m); }
    case _ =>
  }

  lemma {:induction false} FirstRunMore(g: Rules, p: Tree, follow: Charset, n: nat, m: nat)
    requires FirstRun(g, p, follow, n).Some? && n <= m
    ensures FirstRun(g, p, follow, m) == FirstRun(g, p, follow, n)
    decreases n, p
  {
    hide CheckRun, FullSet;
    match p
    case TSeq(p1, p2) =>
      CheckRunMore(g, p1, PENullable, n, m);
      if CheckRun(g, p1, PENullable, n) == Some(false) {
        FirstRunMore(g, p1, FullSet(), n, m);
      } else {
        FirstRunMore(g, p2, follow, n, m);
        FirstRunMore(g, p1, FirstRun(g, p2, follow, n).value.cs, n, m);
      }
    case TChoice(p1, p2) => FirstRunMore(g, p1, follow, n, m); FirstRunMore(g, p2, follow, n, m);
    case TRep(q) => FirstRunMore(g, q, follow, n, m);
    case TCapture(_, _, q) => FirstRunMore(g, q, follow, n, m);
    case TAnd(q) => FirstRunMore(g, q, follow, n, m);
    case TNot(q) => if !IsCharset(q) { FirstRunMore(g, q, follow, n, m); }
    case TBehind(_, q) => FirstRunMore(g, q, follow, n, m);
    case TCall(k) => FirstRunMore(g, g[k], follow, n - 1, m - 1);
    case TGrammar(rules) => FirstRunMore(rules, rules[0], follow, n - 1, m - 1);
    case _ =>
  }

  lemma {:induction false} HeadRunMore(g: Rules, p: Tree, n: nat, m: nat)
    requires HeadRun(g, p, n).Some? && n <= m
    ensures HeadRun(g, p, m) == HeadRun(g, p, n)
    decreases n, p
  {
    hide CheckRun;
    match p
    case TSeq(p1, p2) =>
      CheckRunMore(g, p2, PENoFail, n, m);
      if CheckRun(g, p2, PENoFail, n) == Some(true) { HeadRunMore(g, p1, n, m); }
    case TChoice(p1, p2) =>
      HeadRunMore(g, p1, n, m);
      if HeadRun(g, p1, n) == Some(true) { HeadRunMore(g, p2, n, m); }
    case TCapture(_, _, q) => HeadRunMore(g, q, n, m);
    case TAnd(q) => HeadRunMore(g, q, n, m);
    case TCall(k) => HeadRunMore(g, g[k], n - 1, m - 1);
    case TGrammar(rules) => HeadRunMore(rules, rules[0], n - 1, m - 1);
    case _ =>
  }

  // ---------------------------------------------------------------- and is the answer

  lemma {:induction false} CheckRunIs(g: Rules, p: Tree, pred: Pred, n: nat, d: nat)
    requires CheckRun(g, p, pred, n).Some? && n <= d
    ensures CheckRun(g, p, pred, n) == Some(CheckAux(g, p, pred, d))
    decreases n, p
  {
    match p
    case TAnd(q) => if pred == PENoFail { CheckRunIs(g, q, pred, n, d); }
    case TSeq(p1, p2) =>
      CheckRunIs(g, p1, pred, n, d);
      if CheckRun(g, p1, pred, n) == Some(true) { CheckRunIs(g, p2, pred, n, d); }
    case TChoice(p1, p2) =>
      CheckRunIs(g, p2, pred, n, d);
      if CheckRun(g, p2, pred, n) == Some(false) { CheckRunIs(g, p1, pred, n, d); }
    case TCapture(_, _, q) => CheckRunIs(g, q, pred, n, d);
    case TCall(k) => CheckRunIs(g, g[k], pred, n - 1, d - 1);
    case TGrammar(rules) => CheckRunIs(rules, rules[0], pred, n - 1, d - 1);
    case _ =>
  }

  lemma {:induction false} CapRunIs(g: Rules, p: Tree, visited: set<nat>, n: nat, d: nat)
    requires CapRun(g, p, visited, n).Some? && n <= d
    ensures CapRun(g, p, visited, n) == Some(HasCaptures(g, p, visited, d))
    decreases n, p
  {
    match p
    case TCall(k) => if k !in visited { CapRunIs(g, g[k], visited + {k}, n - 1, d); }
    case TGrammar(rules) => CapRunIs(rules, rules[0], {}, n - 1, d - 1);
    case TRep(q) => CapRunIs(g, q, visited, n, d);
    case TNot(q) => CapRunIs(g, q, visited, n, d);
    case TAnd(q) => CapRunIs(g, q, visited, n, d);
    case TBehind(_, q) => CapRunIs(g, q, visited, n, d);
    case TSeq(p1, p2) =>
      CapRunIs(g, p1, visited, n, d);
      if CapRun(g, p1, visited, n) == Some(false) { CapRunIs(g, p2, visited, n, d); }
    case TChoice(p1, p2) =>
      CapRunIs(g, p1, visited, n, d);
      if CapRun(g, p1, visited, n) == Some(false) { CapRunIs(g, p2, visited, n, d); }
    case _ =>
  }

  lemma {:induction false} FirstRunIs(g: Rules, p: Tree, follow: Charset, n: nat, d: nat)
    requires FirstRun(g, p, follow, n).Some? && n <= d
    ensures FirstRun(g, p, follow, n) == Some(GetFirst(g, p, follow, d))
    decreases n, p
  {
    hide CheckRun, CheckAux, FullSet;
    match p
    case TSeq(p1, p2) =>
      CheckRunIs(g, p1, PENullable, n, d);
      if CheckRun(g, p1, PENullable, n) == Some(false) {
        FirstRunIs(g, p1, FullSet(), n, d);
      } else {
        FirstRunIs(g, p2, follow, n, d);
        FirstRunIs(g, p1, FirstRun(g, p2, follow, n).value.cs, n, d);
      }
    case TChoice(p1, p2) => FirstRunIs(g, p1, follow, n, d); FirstRunIs(g, p2, follow, n, d);
    case TRep(q) => FirstRunIs(g, q, follow, n, d);
    case TCapture(_, _, q) => FirstRunIs(g, q, follow, n, d);
    case TAnd(q) => FirstRunIs(g, q, follow, n, d);
    case TCall(k) => FirstRunIs(g, g[k], follow, n - 1, d - 1);
    case TGrammar(rules) => FirstRunIs(rules, rules[0], follow, n - 1, d - 1);
    case _ =>
  }

  lemma {:induction false} HeadRunIs(g: Rules, p: Tree, n: nat, d: nat)
    requires HeadRun(g, p, n).Some? && n <= d
    ensures HeadRun(g, p, n) == Some(HeadFail(g, p, d))
    decreases n, p
  {
    hide CheckRun, CheckAux;
    match p
    case TSeq(p1, p2) =>
      CheckRunIs(g, p2, PENoFail, n, d);
      if CheckRun(g, p2, PENoFail, n) == Some(true) { HeadRunIs(g, p1, n, d); }
    case TChoice(p1, p2) =>
      HeadRunIs(g, p1, n, d);
      if HeadRun(g, p1, n) == Some(true) { HeadRunIs(g, p2, n, d); }
    case TCapture(_, _, q) => HeadRunIs(g, q, n, d);
    case TAnd(q) => HeadRunIs(g, q, n, d);
    case TCall(k) => HeadRunIs(g, g[k], n - 1, d - 1);
    case TGrammar(rules) => HeadRunIs(rules, rules[0], n - 1, d - 1);
    case _ =>
  }

  /** A length that has been found is the length. */
  lemma {:induction false} LenRunLong(g: Rules, p: Tree, visited: set<nat>, n: nat, d: nat)
    requires var r := LenRun(g, p, visited, n); r.Some? && r.value >= 0 && n <= d
    ensures FixedLen(g, p, d) == LenRun(g, p, visited, n).value
    decreases n, p
  {
    match p
    case TCapture(_, _, q) => LenRunLong(g, q, visited, n, d);
    case TSeq(p1, p2) => LenRunLong(g, p1, visited, n, d); LenRunLong(g, p2, visited, n, d);
    case TChoice(p1, p2) => LenRunLong(g, p1, visited, n, d); LenRunLong(g, p2, visited, n, d);
    case TCall(k) => LenRunLong(g, g[k], visited + {k}, n - 1, d - 1);
    case TGrammar(rules) => LenRunLong(rules, rules[0], {}, n - 1, d - 1);
    case _ =>
  }

  /** The rules being followed have no fixed length at depths below `d`. */
  ghost predicate Lengthless(g: Rules, visited: set<nat>, d: nat) {
    forall k: nat, e: nat :: k in visited && k < |g| && e < d ==> FixedLen(g, g[k], e) == -1
  }

  lemma {:induction false} FixedLenSharper(g: Rules, p: Tree, d: nat, e: nat)
    requires d <= e && FixedLen(g, p, d) >= 0
    ensures FixedLen(g, p, e) == FixedLen(g, p, d)
    decreases d, p
  {
    match p
    case TSeq(p1, p2) => FixedLenSharper(g, p1, d, e); FixedLenSharper(g, p2, d, e);
    case TChoice(p1, p2) => FixedLenSharper(g, p1, d, e); FixedLenSharper(g, p2, d, e);
    case TCapture(_, _, q) => FixedLenSharper(g, q, d, e);
    case TCall(n) => FixedLenSharper(g, g[n], d - 1, e - 1);
    case TGrammar(rules) => FixedLenSharper(rules, rules[0], d - 1, e - 1);
    case _ =>
  }

  /** Giving up on calls that are being followed already is right: there is no length then. */
  lemma {:induction false} LenRunNone(g: Rules, p: Tree, visited: set<nat>, n: nat, d: nat)
    requires LenRun(g, p, visited, n) == Some(-1) && Lengthless(g, visited, d)
    ensures FixedLen(g, p, d) == -1
    decreases n, p, 1
  {
    match p
    case TCapture(_, _, q) => LenRunNone(g, q, visited, n, d);
    case TSeq(p1, p2) =>
      if LenRun(g, p1, visited, n) == Some(-1) { LenRunNone(g, p1, visited, n, d); }
      else { LenRunNone(g, p2, visited, n, d); }
    case TChoice(p1, p2) =>
      if LenRun(g, p1, visited, n) == Some(-1) { LenRunNone(g, p1, visited, n, d); }
      else if LenRun(g, p2, visited, n) == Some(-1) { LenRunNone(g, p2, visited, n, d); }
      else { LenRunDiffers(g, p1, p2, visited, n, d); }
    case TCall(k) => if k !in visited && d > 0 { LenRunCall(g, p, visited, n, d); }
    case TGrammar(rules) => if d > 0 && rules != [] { LenRunNone(rules, rules[0], {}, n - 1, d - 1); }
    case _ =>
  }

  function Max(m: nat, n: nat): nat { if m < n then n else m }

  lemma LenRunDiffers(g: Rules, p1: Tree, p2: Tree, visited: set<nat>, n: nat, d: nat)
    requires var r1, r2 := LenRun(g, p1, visited, n), LenRun(g, p2, visited, n);
             r1.Some? && r2.Some? && r1.value >= 0 && r2.value >= 0 && r1 != r2
    ensures FixedLen(g, p1, d) != FixedLen(g, p2, d) || FixedLen(g, p1, d) < 0
  {
    hide LenRun, FixedLen;
    var e := Max(n, d);
    LenRunLong(g, p1, visited, n, e);
    LenRunLong(g, p2, visited, n, e);
    if FixedLen(g, p1, d) >= 0 { FixedLenSharper(g, p1, d, e); }
    if FixedLen(g, p2, d) >= 0 { FixedLenSharper(g, p2, d, e); }
  }

  /** A rule whose calls of itself are given up has no length at any depth, one depth after the other. */
  lemma {:induction false} LenRunCall(g: Rules, p: Tree, visited: set<nat>, n: nat, d: nat)
    requires p.TCall? && p.rule !in visited && d > 0 && LenRun(g, p, visited, n) == Some(-1)
    requires Lengthless(g, visited, d)
    ensures FixedLen(g, p, d) == -1
    decreases n, p, 0
  {
    var k := p.rule;
    for e := 0 to d
      invariant forall i: nat :: i < e ==> FixedLen(g, g[k], i) == -1
    {
      assert Lengthless(g, visited + {k}, e);
      LenRunNone(g, g[k], visited + {k}, n - 1, e);
    }
  }

  lemma LenRunIs(g: Rules, p: Tree, n: nat, d: nat)
    requires LenRun(g, p, {}, n).Some? && n <= d
    ensures LenRun(g, p, {}, n) == Some(FixedLen(g, p, d))
  {
    hide LenRun, FixedLen;
    if LenRun(g, p, {}, n) == Some(-1) { LenRunNone(g, p, {}, n, d); } else { LenRunLong(g, p, {}, n, d); }
  }
}
