/** The static analyses of lpcode.c, and what each of them guarantees about `Eval`.

    The analyses follow calls, in the C code without a bound; LpegRuns.dfy is about whether they come back.
    Here a call is followed at most `d` times, and past that the answer is the cautious one, so that every
    guarantee below holds whatever `d` is. */
module LpegAnalysis {
  import opened LpegTree

  datatype Pred = PENullable | PENoFail

  function CheckAux(g: Rules, p: Tree, pred: Pred, d: nat): bool
    decreases d, p
  {
    match p
    case TChar(_) => false
    case TSet(_) => false
    case TAny => false
    case TFalse => false
    case TTrue => true
    case TRep(_) => true
    case TNot(_) => pred == PENullable
    case TBehind(_, _) => pred == PENullable
    case TAnd(q) => pred == PENullable || CheckAux(g, q, pred, d)
    case TSeq(p1, p2) => CheckAux(g, p1, pred, d) && CheckAux(g, p2, pred, d)
    case TChoice(p1, p2) => CheckAux(g, p2, pred, d) || CheckAux(g, p1, pred, d)
    case TCapture(_, _, q) => CheckAux(g, q, pred, d)
    case TCall(n) =>
      if d == 0 || n >= |g| then pred == PENullable else CheckAux(g, g[n], pred, d - 1)
    case TGrammar(rules) =>
      if d == 0 || rules == [] then pred == PENullable else CheckAux(rules, rules[0], pred, d - 1)
  }

  function Nullable(g: Rules, p: Tree, d: nat): bool {
    CheckAux(g, p, PENullable, d)
  }

  function NoFail(g: Rules, p: Tree, d: nat): bool {
    CheckAux(g, p, PENoFail, d)
  }

  /** The number of characters every match of `p` consumes, or -1 when it is not fixed. */
  function FixedLen(g: Rules, p: Tree, d: nat): (n: int)
    ensures n >= -1
    decreases d, p
  {
    match p
    case TChar(_) => 1
    case TSet(_) => 1
    case TAny => 1
    case TFalse => 0
    case TTrue => 0
    case TNot(_) => 0
    case TAnd(_) => 0
    case TBehind(_, _) => 0
    case TRep(_) => -1
    case TCapture(_, _, q) => FixedLen(g, q, d)
    case TCall(n) =>
      if d == 0 || n >= |g| then -1 else FixedLen(g, g[n], d - 1)
    case TGrammar(rules) =>
      if d == 0 || rules == [] then -1 else FixedLen(rules, rules[0], d - 1)
    case TSeq(p1, p2) =>
      var n1, n2 := FixedLen(g, p1, d), FixedLen(g, p2, d);
      if n1 < 0 || n2 < 0 then -1 else n1 + n2
    case TChoice(p1, p2) =>
      var n1, n2 := FixedLen(g, p1, d), FixedLen(g, p2, d);
      if n1 != n2 || n1 < 0 then -1 else n1
  }

  function NatsBelow(n: nat): (ns: set<nat>)
    ensures forall k: nat :: k in ns <==> k < n
  {
    if n == 0 then {} else NatsBelow(n - 1) + {n - 1}
  }

  function Unvisited(g: Rules, visited: set<nat>): set<nat> {
    NatsBelow(|g|) - visited
  }

  /** Whether a match of `p` may make a capture; calls in `visited` are not followed again. */
  function HasCaptures(g: Rules, p: Tree, visited: set<nat>, d: nat): bool
    decreases d, Unvisited(g, visited), p
  {
    match p
    case TCapture(_, _, _) => true
    case TCall(n) => n < |g| && n !in visited && HasCaptures(g, g[n], visited + {n}, d)
    case TGrammar(rules) => d == 0 || (rules != [] && HasCaptures(rules, rules[0], {}, d - 1))
    case TRep(q) => HasCaptures(g, q, visited, d)
    case TNot(q) => HasCaptures(g, q, visited, d)
    case TAnd(q) => HasCaptures(g, q, visited, d)
    case TBehind(_, q) => HasCaptures(g, q, visited, d)
    case TSeq(p1, p2) => HasCaptures(g, p1, visited, d) || HasCaptures(g, p2, visited, d)
    case TChoice(p1, p2) => HasCaptures(g, p1, visited, d) || HasCaptures(g, p2, visited, d)
    case _ => false
  }

  /** A first set, and whether the pattern may match at the end of the subject. */
  datatype First = First(cs: Charset, empty: bool)

  function ToCharset(p: Tree): (cs: Charset)
    requires p.TSet? || p.TChar? || p.TAny?
  {
    match p
    case TSet(cs) => cs
    case TChar(c) => {c}
    case TAny => FullSet()
  }

  predicate IsCharset(p: Tree) {
    p.TSet? || p.TChar? || p.TAny?
  }

  /** The first set of `p`, given the first set `follow` of what comes after it. */
  function GetFirst(g: Rules, p: Tree, follow: Charset, d: nat): First
    decreases d, p
  {
    match p
    case TChar(_) => First(ToCharset(p), false)
    case TSet(_) => First(ToCharset(p), false)
    case TAny => First(ToCharset(p), false)
    case TTrue => First(follow, true)
    case TFalse => First({}, false)
    case TChoice(p1, p2) =>
      var f1, f2 := GetFirst(g, p1, follow, d), GetFirst(g, p2, follow, d);
      First(f1.cs + f2.cs, f1.empty || f2.empty)
    case TSeq(p1, p2) =>
      if !Nullable(g, p1, d) then
        GetFirst(g, p1, FullSet(), d)
      else
        var f2 := GetFirst(g, p2, follow, d);
        var f1 := GetFirst(g, p1, f2.cs, d);
        First(f1.cs, f1.empty && f2.empty)
    case TRep(q) => First(GetFirst(g, q, follow, d).cs + follow, true)
    case TCapture(_, _, q) => GetFirst(g, q, follow, d)
    case TCall(n) =>
      if d == 0 || n >= |g| then First(FullSet(), true) else GetFirst(g, g[n], follow, d - 1)
    case TGrammar(rules) =>
      if d == 0 || rules == [] then First(FullSet(), true) else GetFirst(rules, rules[0], follow, d - 1)
    case TAnd(q) =>
      var f := GetFirst(g, q, follow, d);
      First(f.cs * follow, f.empty)
    case TNot(q) =>
      if IsCharset(q) then First(FullSet() - ToCharset(q), true) else First(follow, true)
    case TBehind(_, _) => First(follow, true)
  }

  /** Whether `p` can fail only because of the next character. */
  function HeadFail(g: Rules, p: Tree, d: nat): bool
    decreases d, p
  {
    match p
    case TChar(_) => true
    case TSet(_) => true
    case TAny => true
    case TFalse => true
    case TTrue => false
    case TRep(_) => false
    case TNot(_) => false
    case TBehind(_, _) => false
    case TCapture(_, _, q) => HeadFail(g, q, d)
    case TAnd(q) => HeadFail(g, q, d)
    case TCall(n) => d > 0 && n < |g| && HeadFail(g, g[n], d - 1)
    case TGrammar(rules) => d > 0 && rules != [] && HeadFail(rules, rules[0], d - 1)
    case TSeq(p1, p2) => NoFail(g, p2, d) && HeadFail(g, p1, d)
    case TChoice(p1, p2) => HeadFail(g, p1, d) && HeadFail(g, p2, d)
  }

  /** Whether the code for `p` can make use of a follow set. */
  function NeedFollow(p: Tree): bool {
    match p
    case TChoice(_, _) => true
    case TRep(_) => true
    case TCapture(_, _, q) => NeedFollow(q)
    case TSeq(_, p2) => NeedFollow(p2)
    case _ => false
  }

  // ---------------------------------------------------------------- what they guarantee

  /** A tree that is not nullable never matches without consuming. */
  lemma {:induction false} NullableSound(g: Rules, p: Tree, d: nat, subj: Subject, s: nat, fuel: nat)
    requires s <= |subj| && !Nullable(g, p, d)
    ensures var r := Eval(g, p, subj, s, fuel); r.Yes? ==> r.pos > s
    decreases d, p
  {
    match p
    case TSeq(p1, p2) =>
      var r := Eval(g, p1, subj, s, fuel);
      if Nullable(g, p1, d) {
        if r.Yes? { NullableSound(g, p2, d, subj, r.pos, fuel); }
      } else {
        NullableSound(g, p1, d, subj, s, fuel);
      }
    case TChoice(p1, p2) =>
      NullableSound(g, p1, d, subj, s, fuel);
      NullableSound(g, p2, d, subj, s, fuel);
    case TCapture(_, _, q) => NullableSound(g, q, d, subj, s, fuel);
    case TCall(n) =>
      if fuel > 0 { NullableSound(g, g[n], d - 1, subj, s, fuel - 1); }
    case TGrammar(rules) =>
      if fuel > 0 { NullableSound(rules, rules[0], d - 1, subj, s, fuel - 1); }
    case _ =>
  }

  lemma {:induction false} RepNeverFails(g: Rules, q: Tree, subj: Subject, s: nat, fuel: nat)
    requires s <= |subj|
    ensures !Eval(g, TRep(q), subj, s, fuel).No?
    decreases fuel
  {
    var r := Eval(g, q, subj, s, fuel);
    if r.Yes? && fuel > 0 { RepNeverFails(g, q, subj, r.pos, fuel - 1); }
  }

  /** A tree that is nofail never fails. */
  lemma {:induction false} NoFailSound(g: Rules, p: Tree, d: nat, subj: Subject, s: nat, fuel: nat)
    requires s <= |subj| && NoFail(g, p, d)
    ensures !Eval(g, p, subj, s, fuel).No?
    decreases d, p
  {
    match p
    case TRep(q) => RepNeverFails(g, q, subj, s, fuel);
    case TAnd(q) => NoFailSound(g, q, d, subj, s, fuel);
    case TSeq(p1, p2) =>
      NoFailSound(g, p1, d, subj, s, fuel);
      var r := Eval(g, p1, subj, s, fuel);
      if r.Yes? { NoFailSound(g, p2, d, subj, r.pos, fuel); }
    case TChoice(p1, p2) =>
      if NoFail(g, p2, d) { NoFailSound(g, p2, d, subj, s, fuel); }
      else { NoFailSound(g, p1, d, subj, s, fuel); }
    case TCapture(_, _, q) => NoFailSound(g, q, d, subj, s, fuel);
    case TCall(n) =>
      if fuel > 0 { NoFailSound(g, g[n], d - 1, subj, s, fuel - 1); }
    case TGrammar(rules) =>
      if fuel > 0 { NoFailSound(rules, rules[0], d - 1, subj, s, fuel - 1); }
    case _ =>
  }

  /** A match of a tree with a fixed length consumes exactly that length. */
  lemma {:induction false} FixedLenSound(g: Rules, p: Tree, d: nat, subj: Subject, s: nat, fuel: nat)
    requires s <= |subj| && FixedLen(g, p, d) >= 0
    ensures var r := Eval(g, p, subj, s, fuel); r.Yes? ==> r.pos == s + FixedLen(g, p, d)
    decreases d, p
  {
    match p
    case TSeq(p1, p2) =>
      FixedLenSound(g, p1, d, subj, s, fuel);
      var r := Eval(g, p1, subj, s, fuel);
      if r.Yes? { FixedLenSound(g, p2, d, subj, r.pos, fuel); }
    case TChoice(p1, p2) =>
      FixedLenSound(g, p1, d, subj, s, fuel);
      FixedLenSound(g, p2, d, subj, s, fuel);
    case TCapture(_, _, q) => FixedLenSound(g, q, d, subj, s, fuel);
    case TCall(n) =>
      if fuel > 0 { FixedLenSound(g, g[n], d - 1, subj, s, fuel - 1); }
    case TGrammar(rules) =>
      if fuel > 0 { FixedLenSound(rules, rules[0], d - 1, subj, s, fuel - 1); }
    case _ =>
  }

  /** A character on which `p` can match, consuming it or leaving it to a follower that accepts it,
      is in the first set; and only a tree flagged `empty` matches at the end of the subject. */
  lemma {:induction false} FirstSound(g: Rules, p: Tree, fl: Charset, d: nat, subj: Subject, s: nat, fuel: nat)
    requires s <= |subj| && Eval(g, p, subj, s, fuel).Yes?
    ensures s == |subj| ==> GetFirst(g, p, fl, d).empty
    ensures s < |subj| && (Eval(g, p, subj, s, fuel).pos > s || subj[s] in fl) ==> subj[s] in GetFirst(g, p, fl, d).cs
    decreases d, p, fuel
  {
    match p
    case TChoice(p1, p2) =>
      if Eval(g, p1, subj, s, fuel).Yes? { FirstSound(g, p1, fl, d, subj, s, fuel); }
      else { FirstSound(g, p2, fl, d, subj, s, fuel); }
    case TSeq(p1, p2) =>
      var t := Eval(g, p1, subj, s, fuel).pos;
      if !Nullable(g, p1, d) {
        NullableSound(g, p1, d, subj, s, fuel);
        FirstSound(g, p1, FullSet(), d, subj, s, fuel);
      } else {
        FirstSound(g, p2, fl, d, subj, t, fuel);
        FirstSound(g, p1, GetFirst(g, p2, fl, d).cs, d, subj, s, fuel);
      }
    case TRep(q) =>
      var r := Eval(g, q, subj, s, fuel);
      if r.Yes? {
        FirstSound(g, q, fl, d, subj, s, fuel);
        if r.pos == s { FirstSound(g, p, fl, d, subj, s, fuel - 1); }
      }
    case TAnd(q) => FirstSound(g, q, fl, d, subj, s, fuel);
    case TCapture(_, _, q) => FirstSound(g, q, fl, d, subj, s, fuel);
    case TCall(n) =>
      if d > 0 { FirstSound(g, g[n], fl, d - 1, subj, s, fuel - 1); }
    case TGrammar(rules) =>
      if d > 0 { FirstSound(rules, rules[0], fl, d - 1, subj, s, fuel - 1); }
    case _ =>
  }

  /** Under a full follow set the first set of a nofail tree is full. */
  lemma {:induction false} NoFailFirst(g: Rules, p: Tree, d: nat)
    requires NoFail(g, p, d)
    ensures GetFirst(g, p, FullSet(), d).cs == FullSet()
    ensures Nullable(g, p, d)
    decreases d, p
  {
    match p
    case TSeq(p1, p2) =>
      NoFailFirst(g, p1, d);
      NoFailFirst(g, p2, d);
    case TChoice(p1, p2) =>
      if NoFail(g, p2, d) { NoFailFirst(g, p2, d); } else { NoFailFirst(g, p1, d); }
    case TAnd(q) => NoFailFirst(g, q, d);
    case TCapture(_, _, q) => NoFailFirst(g, q, d);
    case TCall(n) => NoFailFirst(g, g[n], d - 1);
    case TGrammar(rules) => NoFailFirst(rules, rules[0], d - 1);
    case _ =>
  }

  /** A headfail tree cannot match at the end of the subject, and with a full follow set it matches
      exactly when the next character is in its first set. */
  lemma {:induction false} HeadFailSound(g: Rules, p: Tree, d: nat, subj: Subject, s: nat, fuel: nat)
    requires s <= |subj| && HeadFail(g, p, d)
    ensures !GetFirst(g, p, FullSet(), d).empty
    ensures var r := Eval(g, p, subj, s, fuel);
            r != Out ==> (r.Yes? <==> InSet(subj, s, GetFirst(g, p, FullSet(), d).cs))
    decreases d, p
  {
    match p
    case TSeq(p1, p2) =>
      NoFailFirst(g, p2, d);
      HeadFailSound(g, p1, d, subj, s, fuel);
      var r := Eval(g, p1, subj, s, fuel);
      if r.Yes? { NoFailSound(g, p2, d, subj, r.pos, fuel); }
    case TChoice(p1, p2) =>
      HeadFailSound(g, p1, d, subj, s, fuel);
      HeadFailSound(g, p2, d, subj, s, fuel);
    case TAnd(q) => HeadFailSound(g, q, d, subj, s, fuel);
    case TCapture(_, _, q) => HeadFailSound(g, q, d, subj, s, fuel);
    case TCall(n) =>
      HeadFailSound(g, g[n], d - 1, subj, s, if fuel > 0 then fuel - 1 else 0);
    case TGrammar(rules) =>
      HeadFailSound(rules, rules[0], d - 1, subj, s, if fuel > 0 then fuel - 1 else 0);
    case _ =>
  }

  // ---------------------------------------------------------------- captures

  lemma {:induction false} HasCapturesShrinks(g: Rules, p: Tree, few: set<nat>, many: set<nat>, d: nat)
    requires few <= many && HasCaptures(g, p, many, d)
    ensures HasCaptures(g, p, few, d)
    decreases Unvisited(g, few), p
  {
    match p
    case TCall(n) => HasCapturesShrinks(g, g[n], few + {n}, many + {n}, d);
    case TRep(q) => HasCapturesShrinks(g, q, few, many, d);
    case TNot(q) => HasCapturesShrinks(g, q, few, many, d);
    case TAnd(q) => HasCapturesShrinks(g, q, few, many, d);
    case TBehind(_, q) => HasCapturesShrinks(g, q, few, many, d);
    case TSeq(p1, p2) =>
      if HasCaptures(g, p1, many, d) { HasCapturesShrinks(g, p1, few, many, d); }
      else { HasCapturesShrinks(g, p2, few, many, d); }
    case TChoice(p1, p2) =>
      if HasCaptures(g, p1, many, d) { HasCapturesShrinks(g, p1, few, many, d); }
      else { HasCapturesShrinks(g, p2, few, many, d); }
    case _ =>
  }

  /** A capture found when only `few` calls are skipped is still found when `many` are skipped,
      unless the search starts again from one of those skipped calls. */
  lemma {:induction false} HasCapturesDetour(g: Rules, p: Tree, few: set<nat>, many: set<nat>, d: nat)
    requires few <= many && HasCaptures(g, p, few, d)
    ensures HasCaptures(g, p, many, d) || exists n :: n in many && n < |g| && HasCaptures(g, g[n], many, d)
    decreases Unvisited(g, few), p
  {
    match p
    case TCall(n) =>
      HasCapturesDetour(g, g[n], few + {n}, many + {n}, d);
      assert n in many ==> many + {n} == many;
      if n !in many && !HasCaptures(g, p, many, d) {
        var k :| k in many + {n} && k < |g| && HasCaptures(g, g[k], many + {n}, d);
        HasCapturesShrinks(g, g[k], many, many + {n}, d);
      }
    case TRep(q) => HasCapturesDetour(g, q, few, many, d);
    case TNot(q) => HasCapturesDetour(g, q, few, many, d);
    case TAnd(q) => HasCapturesDetour(g, q, few, many, d);
    case TBehind(_, q) => HasCapturesDetour(g, q, few, many, d);
    case TSeq(p1, p2) =>
      if HasCaptures(g, p1, few, d) { HasCapturesDetour(g, p1, few, many, d); }
      else { HasCapturesDetour(g, p2, few, many, d); }
    case TChoice(p1, p2) =>
      if HasCaptures(g, p1, few, d) { HasCapturesDetour(g, p1, few, many, d); }
      else { HasCapturesDetour(g, p2, few, many, d); }
    case _ =>
  }

  /** A match of a tree in which the search finds no capture makes none. */
  lemma {:induction false} HasCapturesSound(g: Rules, p: Tree, d: nat, subj: Subject, s: nat, fuel: nat)
    requires s <= |subj| && !HasCaptures(g, p, {}, d)
    ensures var r := Eval(g, p, subj, s, fuel); r.Yes? ==> r.caps == []
    decreases fuel, p
  {
    match p
    case TRep(q) =>
      HasCapturesSound(g, q, d, subj, s, fuel);
      var r := Eval(g, q, subj, s, fuel);
      if r.Yes? && fuel > 0 { HasCapturesSound(g, p, d, subj, r.pos, fuel - 1); }
    case TSeq(p1, p2) =>
      HasCapturesSound(g, p1, d, subj, s, fuel);
      var r := Eval(g, p1, subj, s, fuel);
      if r.Yes? { HasCapturesSound(g, p2, d, subj, r.pos, fuel); }
    case TChoice(p1, p2) =>
      HasCapturesSound(g, p1, d, subj, s, fuel);
      HasCapturesSound(g, p2, d, subj, s, fuel);
    case TCall(n) =>
      if fuel > 0 && n < |g| {
        if HasCaptures(g, g[n], {}, d) { HasCapturesDetour(g, g[n], {}, {} + {n}, d); }
        HasCapturesSound(g, g[n], d, subj, s, fuel - 1);
      }
    case TGrammar(rules) =>
      if fuel > 0 && rules != [] { HasCapturesSound(rules, rules[0], d - 1, subj, s, fuel - 1); }
    case _ =>
  }
}
