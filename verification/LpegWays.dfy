/** What the analyses answer, exactly.

    A way through a tree passes its parts one after the other: one side of each choice, both parts of a sequence, the
    rules of calls.  A match goes along a way.  The analyses take all ways into account and look at one part at a
    time; and they answer neither more nor less than what can be read off the ways. */
module LpegWays {
  import opened Basics
  import opened LpegTree
  import opened LpegAnalysis

  /** A part that is passed as a whole, with what its calls refer to and how deep they are followed. */
  datatype Part = Part(g: Rules, p: Tree, d: nat)

  /** `w` is a way through `p`.  A call that is not followed any more is a part itself. */
  ghost predicate Way(g: Rules, p: Tree, w: seq<Part>, d: nat)
    decreases d, p
  {
    match p
    case TTrue => w == []
    case TSeq(p1, p2) => exists k: nat :: k <= |w| && Way(g, p1, w[..k], d) && Way(g, p2, w[k..], d)
    case TChoice(p1, p2) => Way(g, p1, w, d) || Way(g, p2, w, d)
    case TCapture(_, _, q) => Way(g, q, w, d)
    case TCall(n) => if d == 0 || n >= |g| then w == [Part(g, p, d)] else Way(g, g[n], w, d - 1)
    case TGrammar(rules) =>
      if d == 0 || rules == [] then w == [Part(g, p, d)] else Way(rules, rules[0], w, d - 1)
    case _ => w == [Part(g, p, d)]
  }

  lemma WaySeq(g: Rules, p1: Tree, p2: Tree, w1: seq<Part>, w2: seq<Part>, d: nat)
    requires Way(g, p1, w1, d) && Way(g, p2, w2, d)
    ensures Way(g, TSeq(p1, p2), w1 + w2, d)
  {
    var w := w1 + w2;
    assert w[..|w1|] == w1 && w[|w1|..] == w2;
  }

  lemma WayParts(g: Rules, p1: Tree, p2: Tree, w: seq<Part>, d: nat) returns (w1: seq<Part>, w2: seq<Part>)
    requires Way(g, TSeq(p1, p2), w, d)
    ensures w == w1 + w2 && Way(g, p1, w1, d) && Way(g, p2, w2, d)
  {
    var k: nat :| k <= |w| && Way(g, p1, w[..k], d) && Way(g, p2, w[k..], d);
    w1, w2 := w[..k], w[k..];
  }

  /** Every tree has a way. */
  lemma {:induction false} SomeWay(g: Rules, p: Tree, d: nat) returns (w: seq<Part>)
    ensures Way(g, p, w, d)
    decreases d, p
  {
    match p
    case TTrue => w := [];
    case TSeq(p1, p2) =>
      var w1 := SomeWay(g, p1, d);
      var w2 := SomeWay(g, p2, d);
      WaySeq(g, p1, p2, w1, w2, d);
      w := w1 + w2;
    case TChoice(p1, p2) => w := SomeWay(g, p1, d);
    case TCapture(_, _, q) => w := SomeWay(g, q, d);
    case TCall(n) => if d == 0 || n >= |g| { w := [Part(g, p, d)]; } else { w := SomeWay(g, g[n], d - 1); }
    case TGrammar(rules) =>
      if d == 0 || rules == [] { w := [Part(g, p, d)]; } else { w := SomeWay(rules, rules[0], d - 1); }
    case _ => w := [Part(g, p, d)];
  }

  // ---------------------------------------------------------------- matches go along ways

  /** The parts of `w` match one after the other, from `s` to `t`. */
  ghost predicate Along(w: seq<Part>, subj: Subject, s: nat, t: nat, fuel: nat)
    requires s <= |subj|
    decreases |w|
  {
    if w == [] then s == t
    else
      var r := Eval(w[0].g, w[0].p, subj, s, fuel);
      r.Yes? && Along(w[1..], subj, r.pos, t, fuel)
  }

  lemma {:induction false} AlongBoth(w1: seq<Part>, w2: seq<Part>, subj: Subject, s: nat, u: nat, t: nat, fuel: nat)
    requires s <= |subj| && u <= |subj| && Along(w1, subj, s, u, fuel) && Along(w2, subj, u, t, fuel)
    ensures Along(w1 + w2, subj, s, t, fuel)
    decreases |w1|
  {
    hide Eval;
    if w1 == [] {
      assert w1 + w2 == w2;
    } else {
      assert (w1 + w2)[1..] == w1[1..] + w2;
      AlongBoth(w1[1..], w2, subj, Eval(w1[0].g, w1[0].p, subj, s, fuel).pos, u, t, fuel);
    }
  }

  lemma {:induction false} AlongMore(w: seq<Part>, subj: Subject, s: nat, t: nat, fuel: nat, more: nat)
    requires s <= |subj| && fuel <= more && Along(w, subj, s, t, fuel)
    ensures Along(w, subj, s, t, more)
    decreases |w|
  {
    hide Eval;
    if w != [] {
      EvalMonotone(w[0].g, w[0].p, subj, s, fuel, more);
      AlongMore(w[1..], subj, Eval(w[0].g, w[0].p, subj, s, fuel).pos, t, fuel, more);
    }
  }

  lemma AlongOne(g: Rules, p: Tree, d: nat, subj: Subject, s: nat, fuel: nat)
    requires s <= |subj| && Eval(g, p, subj, s, fuel).Yes?
    ensures Along([Part(g, p, d)], subj, s, Eval(g, p, subj, s, fuel).pos, fuel)
  {
    hide Eval;
    var w := [Part(g, p, d)];
    assert w[1..] == [];
  }

  /** Each match goes along some way. */
  lemma {:induction false} MatchWay(g: Rules, p: Tree, d: nat, subj: Subject, s: nat, fuel: nat) returns (w: seq<Part>)
    requires s <= |subj| && Eval(g, p, subj, s, fuel).Yes?
    ensures Way(g, p, w, d) && Along(w, subj, s, Eval(g, p, subj, s, fuel).pos, fuel)
    decreases d, p
  {
    hide Along, FullSet;
    match p
    case TTrue =>
      w := [];
      assert Along(w, subj, s, s, fuel) by { AlongNone(subj, s, fuel); }
    case TSeq(p1, p2) =>
      var r1 := Eval(g, p1, subj, s, fuel);
      var w1 := MatchWay(g, p1, d, subj, s, fuel);
      var w2 := MatchWay(g, p2, d, subj, r1.pos, fuel);
      WaySeq(g, p1, p2, w1, w2, d);
      AlongBoth(w1, w2, subj, s, r1.pos, Eval(g, p, subj, s, fuel).pos, fuel);
      w := w1 + w2;
    case TChoice(p1, p2) =>
      if Eval(g, p1, subj, s, fuel).Yes? { w := MatchWay(g, p1, d, subj, s, fuel); }
      else { w := MatchWay(g, p2, d, subj, s, fuel); }
    case TCapture(_, _, q) => w := MatchWay(g, q, d, subj, s, fuel);
    case TCall(n) =>
      if d == 0 || n >= |g| {
        w := [Part(g, p, d)];
        AlongOne(g, p, d, subj, s, fuel);
      } else {
        w := MatchWay(g, g[n], d - 1, subj, s, fuel - 1);
        AlongMore(w, subj, s, Eval(g, p, subj, s, fuel).pos, fuel - 1, fuel);
      }
    case TGrammar(rules) =>
      if d == 0 || rules == [] {
        w := [Part(g, p, d)];
        AlongOne(g, p, d, subj, s, fuel);
      } else {
        w := MatchWay(rules, rules[0], d - 1, subj, s, fuel - 1);
        AlongMore(w, subj, s, Eval(g, p, subj, s, fuel).pos, fuel - 1, fuel);
      }
    case _ =>
      w := [Part(g, p, d)];
      AlongOne(g, p, d, subj, s, fuel);
  }

  lemma AlongNone(subj: Subject, s: nat, fuel: nat)
    requires s <= |subj|
    ensures Along([], subj, s, s, fuel)
  {
  }

  // ---------------------------------------------------------------- nullable and nofail

  /** For nullable, a part that need not consume anything; for nofail, one that never fails. */
  predicate Lenient(x: Part, pred: Pred) {
    match x.p
    case TRep(_) => true
    case TAnd(q) => pred == PENullable || NoFail(x.g, q, x.d)
    case TNot(_) => pred == PENullable
    case TBehind(_, _) => pred == PENullable
    case TCall(_) => pred == PENullable
    case TGrammar(_) => pred == PENullable
    case _ => false
  }

  ghost predicate Easy(w: seq<Part>, pred: Pred) { forall k :: 0 <= k < |w| ==> Lenient(w[k], pred) }

  ghost predicate EasyWay(g: Rules, p: Tree, pred: Pred, d: nat) {
    exists w: seq<Part> :: Way(g, p, w, d) && Easy(w, pred)
  }

  /** checkaux answers yes if and only if there is a way on which it answers yes for every part. */
  lemma {:induction false} CheckExactly(g: Rules, p: Tree, pred: Pred, d: nat)
    ensures CheckAux(g, p, pred, d) <==> EasyWay(g, p, pred, d)
    decreases d, p
  {
    hide Easy;
    match p
    case TTrue => EasyNone(pred); assert Way(g, p, [], d);
    case TSeq(p1, p2) =>
      CheckExactly(g, p1, pred, d);
      CheckExactly(g, p2, pred, d);
      EasySeq(g, p1, p2, pred, d);
    case TChoice(p1, p2) =>
      CheckExactly(g, p1, pred, d);
      CheckExactly(g, p2, pred, d);
      EasyChoice(g, p1, p2, pred, d);
    case TCapture(_, _, q) =>
      CheckExactly(g, q, pred, d);
      assert forall w: seq<Part> :: Way(g, p, w, d) <==> Way(g, q, w, d);
    case TCall(n) =>
      if d == 0 || n >= |g| {
        EasyPart(g, p, pred, d);
      } else {
        CheckExactly(g, g[n], pred, d - 1);
        assert forall w: seq<Part> :: Way(g, p, w, d) <==> Way(g, g[n], w, d - 1);
      }
    case TGrammar(rules) =>
      if d == 0 || rules == [] {
        EasyPart(g, p, pred, d);
      } else {
        CheckExactly(rules, rules[0], pred, d - 1);
        assert forall w: seq<Part> :: Way(g, p, w, d) <==> Way(rules, rules[0], w, d - 1);
      }
    case _ => EasyPart(g, p, pred, d);
  }

  lemma EasyNone(pred: Pred)
    ensures Easy([], pred)
  {
  }

  lemma EasyPart(g: Rules, p: Tree, pred: Pred, d: nat)
    requires forall w: seq<Part> :: Way(g, p, w, d) <==> w == [Part(g, p, d)]
    ensures EasyWay(g, p, pred, d) <==> Lenient(Part(g, p, d), pred)
  {
    hide Way;
    var w := [Part(g, p, d)];
    assert Way(g, p, w, d) && (Easy(w, pred) <==> Lenient(w[0], pred));
  }

  lemma EasySeq(g: Rules, p1: Tree, p2: Tree, pred: Pred, d: nat)
    ensures EasyWay(g, TSeq(p1, p2), pred, d) <==> EasyWay(g, p1, pred, d) && EasyWay(g, p2, pred, d)
  {
    hide Way, Easy;
    if EasyWay(g, p1, pred, d) && EasyWay(g, p2, pred, d) {
      var w1: seq<Part> :| Way(g, p1, w1, d) && Easy(w1, pred);
      var w2: seq<Part> :| Way(g, p2, w2, d) && Easy(w2, pred);
      WaySeq(g, p1, p2, w1, w2, d);
      EasyAppend(w1, w2, pred);
    }
    if w: seq<Part> :| Way(g, TSeq(p1, p2), w, d) && Easy(w, pred) {
      var w1, w2 := WayParts(g, p1, p2, w, d);
      EasyAppend(w1, w2, pred);
    }
  }

  lemma EasyAppend(w1: seq<Part>, w2: seq<Part>, pred: Pred)
    ensures Easy(w1 + w2, pred) <==> Easy(w1, pred) && Easy(w2, pred)
  {
    hide Lenient;
    var w := w1 + w2;
    assert forall k :: 0 <= k < |w1| ==> w[k] == w1[k];
    assert forall k :: 0 <= k < |w2| ==> w[|w1| + k] == w2[k];
  }

  lemma WayChoice(g: Rules, p1: Tree, p2: Tree, w: seq<Part>, d: nat)
    ensures Way(g, TChoice(p1, p2), w, d) <==> Way(g, p1, w, d) || Way(g, p2, w, d)
  {
  }

  lemma EasyChoice(g: Rules, p1: Tree, p2: Tree, pred: Pred, d: nat)
    ensures EasyWay(g, TChoice(p1, p2), pred, d) <==> EasyWay(g, p1, pred, d) || EasyWay(g, p2, pred, d)
  {
    hide Easy, Way;
    forall w: seq<Part> ensures Way(g, TChoice(p1, p2), w, d) <==> Way(g, p1, w, d) || Way(g, p2, w, d) {
      WayChoice(g, p1, p2, w, d);
    }
  }

  // ---------------------------------------------------------------- fixed lengths

  /** How many characters the parts consume. */
  function Chars(w: seq<Part>): nat {
    if w == [] then 0 else (if IsCharset(w[0].p) then 1 else 0) + Chars(w[1..])
  }

  /** Nothing is known of how much a repetition consumes, or a call that is not followed. */
  predicate Measured(w: seq<Part>) {
    forall k :: 0 <= k < |w| ==> !w[k].p.TRep? && !w[k].p.TCall? && !w[k].p.TGrammar?
  }

  lemma {:induction false} CharsAppend(w1: seq<Part>, w2: seq<Part>)
    ensures Chars(w1 + w2) == Chars(w1) + Chars(w2)
    ensures Measured(w1 + w2) <==> Measured(w1) && Measured(w2)
  {
    if w1 == [] {
      assert w1 + w2 == w2;
    } else {
      assert (w1 + w2)[1..] == w1[1..] + w2;
      CharsAppend(w1[1..], w2);
      MeasuredAppend(w1, w2);
    }
  }

  lemma MeasuredAppend(w1: seq<Part>, w2: seq<Part>)
    ensures Measured(w1 + w2) <==> Measured(w1) && Measured(w2)
  {
    var w := w1 + w2;
    assert forall k :: 0 <= k < |w1| ==> w[k] == w1[k];
    assert forall k :: 0 <= k < |w2| ==> w[|w1| + k] == w2[k];
  }

  lemma CharsOne(x: Part)
    ensures Chars([x]) == if IsCharset(x.p) then 1 else 0
  {
    assert [x][1..] == [];
  }

  /** A tree with a fixed length consumes that much on every way. */
  lemma {:induction false} FixedWay(g: Rules, p: Tree, w: seq<Part>, d: nat)
    requires Way(g, p, w, d) && FixedLen(g, p, d) >= 0
    ensures Measured(w) && Chars(w) == FixedLen(g, p, d)
    decreases d, p
  {
    hide Chars;
    match p
    case TTrue => CharsNone();
    case TSeq(p1, p2) =>
      var w1, w2 := WayParts(g, p1, p2, w, d);
      FixedWay(g, p1, w1, d);
      FixedWay(g, p2, w2, d);
      CharsAppend(w1, w2);
    case TChoice(p1, p2) => if Way(g, p1, w, d) { FixedWay(g, p1, w, d); } else { FixedWay(g, p2, w, d); }
    case TCapture(_, _, q) => FixedWay(g, q, w, d);
    case TCall(n) => FixedWay(g, g[n], w, d - 1);
    case TGrammar(rules) => FixedWay(rules, rules[0], w, d - 1);
    case _ => CharsOne(Part(g, p, d));
  }

  lemma CharsNone()
    ensures Chars([]) == 0
  {
  }

  /** A tree without one has a way that cannot be measured, or two on which different numbers are consumed. */
  lemma {:induction false} NotFixedWays(g: Rules, p: Tree, d: nat) returns (w1: seq<Part>, w2: seq<Part>)
    requires FixedLen(g, p, d) < 0
    ensures Way(g, p, w1, d) && Way(g, p, w2, d) && (!Measured(w1) || Chars(w1) != Chars(w2))
    decreases d, p
  {
    hide Chars, Measured;
    match p
    case TSeq(p1, p2) => w1, w2 := NotFixedSeq(g, p1, p2, d);
    case TChoice(p1, p2) =>
      if FixedLen(g, p1, d) < 0 { w1, w2 := NotFixedWays(g, p1, d); }
      else if FixedLen(g, p2, d) < 0 { w1, w2 := NotFixedWays(g, p2, d); }
      else {
        w1 := SomeWay(g, p1, d);
        w2 := SomeWay(g, p2, d);
        FixedWay(g, p1, w1, d);
        FixedWay(g, p2, w2, d);
      }
    case TCapture(_, _, q) => w1, w2 := NotFixedWays(g, q, d);
    case TCall(n) =>
      if d == 0 || n >= |g| { w1, w2 := Unmeasured(g, p, d); } else { w1, w2 := NotFixedWays(g, g[n], d - 1); }
    case TGrammar(rules) =>
      if d == 0 || rules == [] { w1, w2 := Unmeasured(g, p, d); }
      else { w1, w2 := NotFixedWays(rules, rules[0], d - 1); }
    case TRep(_) => w1, w2 := Unmeasured(g, p, d);
  }

  lemma Unmeasured(g: Rules, p: Tree, d: nat) returns (w1: seq<Part>, w2: seq<Part>)
    requires p.TRep? || p.TCall? || p.TGrammar?
    ensures w1 == w2 == [Part(g, p, d)] && !Measured(w1)
  {
    w1 := [Part(g, p, d)];
    w2 := w1;
    assert w1[0] == Part(g, p, d);
  }

  lemma NotFixedSeq(g: Rules, p1: Tree, p2: Tree, d: nat) returns (w1: seq<Part>, w2: seq<Part>)
    requires FixedLen(g, TSeq(p1, p2), d) < 0
    ensures Way(g, TSeq(p1, p2), w1, d) && Way(g, TSeq(p1, p2), w2, d) && (!Measured(w1) || Chars(w1) != Chars(w2))
    decreases d, TSeq(p1, p2), 0
  {
    hide Chars, Measured, Way;
    var a1, a2, b1, b2;
    if FixedLen(g, p1, d) < 0 {
      a1, a2 := NotFixedWays(g, p1, d);
      b1 := SomeWay(g, p2, d);
      b2 := b1;
    } else {
      a1 := SomeWay(g, p1, d);
      a2 := a1;
      b1, b2 := NotFixedWays(g, p2, d);
    }
    WaySeq(g, p1, p2, a1, b1, d);
    WaySeq(g, p1, p2, a2, b2, d);
    CharsAppend(a1, b1);
    CharsAppend(a2, b2);
    w1, w2 := a1 + b1, a2 + b2;
  }

  /** On every way the same number of characters is consumed, `n`. */
  ghost predicate SameOnAll(g: Rules, p: Tree, n: nat, d: nat) {
    forall w: seq<Part> :: Way(g, p, w, d) ==> Measured(w) && Chars(w) == n
  }

  /** A tree has the fixed length `n` if and only if it has no way with a repetition or a call that is not followed, and
      consumes `n` characters on all of them; otherwise the answer is -1. */
  lemma FixedExactly(g: Rules, p: Tree, d: nat)
    ensures forall n: nat :: FixedLen(g, p, d) == n <==> SameOnAll(g, p, n, d)
    ensures FixedLen(g, p, d) == -1 <==> forall n: nat :: !SameOnAll(g, p, n, d)
  {
    hide Way, FixedLen, Chars, Measured;
    var some := SomeWay(g, p, d);
    if FixedLen(g, p, d) >= 0 {
      forall w: seq<Part> | Way(g, p, w, d) ensures Measured(w) && Chars(w) == FixedLen(g, p, d) {
        FixedWay(g, p, w, d);
      }
      assert SameOnAll(g, p, FixedLen(g, p, d), d);
    } else {
      var w1, w2 := NotFixedWays(g, p, d);
    }
  }

  // ---------------------------------------------------------------- first sets

  /** Whether the parts of `w` let the character `c` come next.  `b` says whether what follows does. */
  function Lets(w: seq<Part>, c: Byte, b: bool): bool {
    if w == [] then b
    else
      var x, rest := w[0], Lets(w[1..], c, b);
      match x.p
      case TChar(_) => c in ToCharset(x.p)
      case TSet(_) => c in ToCharset(x.p)
      case TAny => c in ToCharset(x.p)
      case TRep(q) => rest || c in GetFirst(x.g, q, {}, x.d).cs
      case TNot(q) => if IsCharset(q) then c !in ToCharset(q) else rest
      case TAnd(q) => rest && c in GetFirst(x.g, q, FullSet(), x.d).cs
      case TBehind(_, _) => rest
      case TCall(_) => true
      case TGrammar(_) => true
      case _ => false
  }

  ghost predicate LetsSome(g: Rules, p: Tree, c: Byte, b: bool, d: nat) {
    exists w: seq<Part> :: Way(g, p, w, d) && Lets(w, c, b)
  }

  lemma {:induction false} LetsAppend(w1: seq<Part>, w2: seq<Part>, c: Byte, b: bool)
    ensures Lets(w1 + w2, c, b) == Lets(w1, c, Lets(w2, c, b))
  {
    hide FullSet, GetFirst, ToCharset, IsCharset;
    if w1 == [] {
      assert w1 + w2 == w2;
    } else {
      assert (w1 + w2)[1..] == w1[1..] + w2;
      LetsAppend(w1[1..], w2, c, b);
    }
  }

  lemma {:induction false} LetsMore(w: seq<Part>, c: Byte)
    ensures Lets(w, c, false) ==> Lets(w, c, true)
    ensures !Easy(w, PENullable) ==> Lets(w, c, false) == Lets(w, c, true)
  {
    hide FullSet, GetFirst, ToCharset;
    if w != [] {
      LetsMore(w[1..], c);
      assert w == [w[0]] + w[1..];
      EasyAppend([w[0]], w[1..], PENullable);
    }
  }

  /** Whether `c` is in a first set depends only on whether it is in the follow set. */
  lemma {:induction false} Pointwise(g: Rules, p: Tree, f1: Charset, f2: Charset, c: Byte, d: nat)
    requires c in f1 <==> c in f2
    ensures c in GetFirst(g, p, f1, d).cs <==> c in GetFirst(g, p, f2, d).cs
    ensures GetFirst(g, p, f1, d).empty <==> GetFirst(g, p, f2, d).empty
    decreases d, p
  {
    hide FullSet, CheckAux;
    match p
    case TSeq(p1, p2) =>
      if Nullable(g, p1, d) {
        Pointwise(g, p2, f1, f2, c, d);
        Pointwise(g, p1, GetFirst(g, p2, f1, d).cs, GetFirst(g, p2, f2, d).cs, c, d);
      }
    case TChoice(p1, p2) => Pointwise(g, p1, f1, f2, c, d); Pointwise(g, p2, f1, f2, c, d);
    case TRep(q) => Pointwise(g, q, f1, f2, c, d);
    case TAnd(q) => Pointwise(g, q, f1, f2, c, d);
    case TCapture(_, _, q) => Pointwise(g, q, f1, f2, c, d);
    case TCall(n) => if d > 0 && n < |g| { Pointwise(g, g[n], f1, f2, c, d - 1); }
    case TGrammar(rules) => if d > 0 && rules != [] { Pointwise(rules, rules[0], f1, f2, c, d - 1); }
    case _ =>
  }

  /** A character is in the first set of a tree if and only if some way lets it come next. */
  lemma {:induction false} FirstExactly(g: Rules, p: Tree, follow: Charset, c: Byte, d: nat)
    ensures c in GetFirst(g, p, follow, d).cs <==> LetsSome(g, p, c, c in follow, d)
    decreases d, p
  {
    hide FullSet, CheckAux, Lets;
    match p
    case TTrue => LetsNothing(g, c, c in follow, d);
    case TSeq(p1, p2) => FirstSeq(g, p1, p2, follow, c, d);
    case TChoice(p1, p2) =>
      FirstExactly(g, p1, follow, c, d);
      FirstExactly(g, p2, follow, c, d);
      LetsChoice(g, p1, p2, c, c in follow, d);
    case TCapture(_, _, q) =>
      FirstExactly(g, q, follow, c, d);
      assert forall w: seq<Part> :: Way(g, p, w, d) <==> Way(g, q, w, d);
    case TCall(n) =>
      if d == 0 || n >= |g| {
        LetsPart(g, p, c, c in follow, d);
      } else {
        FirstExactly(g, g[n], follow, c, d - 1);
        assert forall w: seq<Part> :: Way(g, p, w, d) <==> Way(g, g[n], w, d - 1);
      }
    case TGrammar(rules) =>
      if d == 0 || rules == [] {
        LetsPart(g, p, c, c in follow, d);
      } else {
        FirstExactly(rules, rules[0], follow, c, d - 1);
        assert forall w: seq<Part> :: Way(g, p, w, d) <==> Way(rules, rules[0], w, d - 1);
      }
    case TRep(q) =>
      LetsPart(g, p, c, c in follow, d);
      if c !in follow { Pointwise(g, q, follow, {}, c, d); }
    case TAnd(q) =>
      LetsPart(g, p, c, c in follow, d);
      if c in follow { Pointwise(g, q, follow, FullSet(), c, d); }
    case _ => LetsPart(g, p, c, c in follow, d);
  }

  lemma LetsNothing(g: Rules, c: Byte, b: bool, d: nat)
    ensures LetsSome(g, TTrue, c, b, d) <==> b
  {
    assert Way(g, TTrue, [], d) && Lets([], c, b) == b;
  }

  lemma LetsChoice(g: Rules, p1: Tree, p2: Tree, c: Byte, b: bool, d: nat)
    ensures LetsSome(g, TChoice(p1, p2), c, b, d) <==> LetsSome(g, p1, c, b, d) || LetsSome(g, p2, c, b, d)
  {
    hide Lets, Way;
    forall w: seq<Part> ensures Way(g, TChoice(p1, p2), w, d) <==> Way(g, p1, w, d) || Way(g, p2, w, d) {
      WayChoice(g, p1, p2, w, d);
    }
  }

  lemma LetsPart(g: Rules, p: Tree, c: Byte, b: bool, d: nat)
    requires forall w: seq<Part> :: Way(g, p, w, d) <==> w == [Part(g, p, d)]
    ensures LetsSome(g, p, c, b, d) <==> Lets([Part(g, p, d)], c, b)
    ensures p.TRep? ==> (LetsSome(g, p, c, b, d) <==> b || c in GetFirst(g, p.body, {}, d).cs)
    ensures p.TAnd? ==> (LetsSome(g, p, c, b, d) <==> b && c in GetFirst(g, p.body, FullSet(), d).cs)
    ensures p.TNot? ==> (LetsSome(g, p, c, b, d) <==> if IsCharset(p.body) then c !in ToCharset(p.body) else b)
    ensures p.TBehind? ==> (LetsSome(g, p, c, b, d) <==> b)
    ensures p.TCall? || p.TGrammar? ==> LetsSome(g, p, c, b, d)
    ensures IsCharset(p) ==> (LetsSome(g, p, c, b, d) <==> c in ToCharset(p))
    ensures p.TFalse? ==> !LetsSome(g, p, c, b, d)
  {
    hide Way, GetFirst, FullSet, ToCharset;
    var w := [Part(g, p, d)];
    assert Way(g, p, w, d) && w[1..] == [];
    assert Lets(w[1..], c, b) == b;
  }

  lemma FirstSeq(g: Rules, p1: Tree, p2: Tree, follow: Charset, c: Byte, d: nat)
    ensures c in GetFirst(g, TSeq(p1, p2), follow, d).cs <==> LetsSome(g, TSeq(p1, p2), c, c in follow, d)
    decreases d, TSeq(p1, p2), 0
  {
    hide FullSet, CheckAux, Lets;
    var next := LetsSome(g, p2, c, c in follow, d);
    LetsSeq(g, p1, p2, c, c in follow, d);
    if Nullable(g, p1, d) {
      FirstExactly(g, p2, follow, c, d);
      FirstExactly(g, p1, GetFirst(g, p2, follow, d).cs, c, d);
    } else {
      FirstExactly(g, p1, FullSet(), c, d);
      CheckExactly(g, p1, PENullable, d);
      LetsStuck(g, p1, c, d);
    }
  }

  /** A way through a sequence lets a character come next if its first half does, what follows being the second half. */
  lemma LetsSeq(g: Rules, p1: Tree, p2: Tree, c: Byte, b: bool, d: nat)
    ensures LetsSome(g, TSeq(p1, p2), c, b, d) <==> LetsSome(g, p1, c, LetsSome(g, p2, c, b, d), d)
  {
    hide Way, Lets, Easy;
    var next := LetsSome(g, p2, c, b, d);
    if w: seq<Part> :| Way(g, TSeq(p1, p2), w, d) && Lets(w, c, b) {
      var w1, w2 := WayParts(g, p1, p2, w, d);
      LetsAppend(w1, w2, c, b);
      LetsMore(w1, c);
      assert Lets(w1, c, next);
    }
    if LetsSome(g, p1, c, next, d) {
      var w1: seq<Part> :| Way(g, p1, w1, d) && Lets(w1, c, next);
      var w2 := SomeWay(g, p2, d);
      if next { w2 :| Way(g, p2, w2, d) && Lets(w2, c, b); }
      WaySeq(g, p1, p2, w1, w2, d);
      LetsAppend(w1, w2, c, b);
      LetsMore(w1, c);
    }
  }

  /** What follows a tree that is not nullable does not matter. */
  lemma LetsStuck(g: Rules, p: Tree, c: Byte, d: nat)
    requires !EasyWay(g, p, PENullable, d)
    ensures LetsSome(g, p, c, false, d) <==> LetsSome(g, p, c, true, d)
  {
    hide Way, Lets, Easy;
    forall w: seq<Part> | Way(g, p, w, d) ensures Lets(w, c, false) == Lets(w, c, true) { LetsMore(w, c); }
  }

  /** A part that may match at the end of the subject. */
  predicate AtEnd(x: Part) {
    match x.p
    case TRep(_) => true
    case TNot(_) => true
    case TBehind(_, _) => true
    case TAnd(q) => GetFirst(x.g, q, {}, x.d).empty
    case TCall(_) => true
    case TGrammar(_) => true
    case _ => false
  }

  ghost predicate EndWay(g: Rules, p: Tree, d: nat) {
    exists w: seq<Part> :: Way(g, p, w, d) && AllAtEnd(w)
  }

  ghost predicate AllAtEnd(w: seq<Part>) { forall k :: 0 <= k < |w| ==> AtEnd(w[k]) }

  /** The empty flag says whether there is a way that may be gone at the end of the subject. */
  lemma {:induction false} EmptyExactly(g: Rules, p: Tree, follow: Charset, d: nat)
    ensures GetFirst(g, p, follow, d).empty <==> EndWay(g, p, d)
    decreases d, p
  {
    hide FullSet, CheckAux, AllAtEnd;
    match p
    case TTrue => EndNothing(g, d);
    case TSeq(p1, p2) =>
      EmptyExactly(g, p2, follow, d);
      EndSeq(g, p1, p2, d);
      if Nullable(g, p1, d) {
        EmptyExactly(g, p1, GetFirst(g, p2, follow, d).cs, d);
      } else {
        EmptyExactly(g, p1, FullSet(), d);
        CheckExactly(g, p1, PENullable, d);
        EndEasy(g, p1, d);
      }
    case TChoice(p1, p2) =>
      EmptyExactly(g, p1, follow, d);
      EmptyExactly(g, p2, follow, d);
      assert forall w: seq<Part> :: Way(g, p, w, d) <==> Way(g, p1, w, d) || Way(g, p2, w, d);
    case TCapture(_, _, q) =>
      EmptyExactly(g, q, follow, d);
      assert forall w: seq<Part> :: Way(g, p, w, d) <==> Way(g, q, w, d);
    case TCall(n) =>
      if d == 0 || n >= |g| {
        EndPart(g, p, d);
      } else {
        EmptyExactly(g, g[n], follow, d - 1);
        assert forall w: seq<Part> :: Way(g, p, w, d) <==> Way(g, g[n], w, d - 1);
      }
    case TGrammar(rules) =>
      if d == 0 || rules == [] {
        EndPart(g, p, d);
      } else {
        EmptyExactly(rules, rules[0], follow, d - 1);
        assert forall w: seq<Part> :: Way(g, p, w, d) <==> Way(rules, rules[0], w, d - 1);
      }
    case TAnd(q) =>
      EndPart(g, p, d);
      EmptyExactly(g, q, follow, d);
      EmptyExactly(g, q, {}, d);
    case _ => EndPart(g, p, d);
  }

  lemma EndNothing(g: Rules, d: nat)
    ensures EndWay(g, TTrue, d)
  {
    assert Way(g, TTrue, [], d) && AllAtEnd([]);
  }

  lemma EndPart(g: Rules, p: Tree, d: nat)
    requires forall w: seq<Part> :: Way(g, p, w, d) <==> w == [Part(g, p, d)]
    ensures EndWay(g, p, d) <==> AtEnd(Part(g, p, d))
  {
    hide Way, AtEnd;
    var w := [Part(g, p, d)];
    assert Way(g, p, w, d) && (AllAtEnd(w) <==> AtEnd(w[0]));
  }

  lemma EndAppend(w1: seq<Part>, w2: seq<Part>)
    ensures AllAtEnd(w1 + w2) <==> AllAtEnd(w1) && AllAtEnd(w2)
  {
    hide AtEnd;
    var w := w1 + w2;
    assert forall k :: 0 <= k < |w1| ==> w[k] == w1[k];
    assert forall k :: 0 <= k < |w2| ==> w[|w1| + k] == w2[k];
  }

  lemma EndSeq(g: Rules, p1: Tree, p2: Tree, d: nat)
    ensures EndWay(g, TSeq(p1, p2), d) <==> EndWay(g, p1, d) && EndWay(g, p2, d)
  {
    hide Way, AllAtEnd;
    if EndWay(g, p1, d) && EndWay(g, p2, d) {
      var w1: seq<Part> :| Way(g, p1, w1, d) && AllAtEnd(w1);
      var w2: seq<Part> :| Way(g, p2, w2, d) && AllAtEnd(w2);
      WaySeq(g, p1, p2, w1, w2, d);
      EndAppend(w1, w2);
    }
    if w: seq<Part> :| Way(g, TSeq(p1, p2), w, d) && AllAtEnd(w) {
      var w1, w2 := WayParts(g, p1, p2, w, d);
      EndAppend(w1, w2);
    }
  }

  lemma EndEasy(g: Rules, p: Tree, d: nat)
    ensures EndWay(g, p, d) ==> EasyWay(g, p, PENullable, d)
  {
    hide Way, GetFirst;
    if w: seq<Part> :| Way(g, p, w, d) && AllAtEnd(w) {
      forall k | 0 <= k < |w| ensures Lenient(w[k], PENullable) { assert AtEnd(w[k]); }
      assert Easy(w, PENullable);
    }
  }

  // ---------------------------------------------------------------- headfail

  /** The parts that can come first, */
  function Heads(g: Rules, p: Tree, d: nat): seq<Part>
    decreases d, p
  {
    match p
    case TSeq(p1, _) => Heads(g, p1, d)
    case TChoice(p1, p2) => Heads(g, p1, d) + Heads(g, p2, d)
    case TCapture(_, _, q) => Heads(g, q, d)
    case TAnd(q) => Heads(g, q, d)
    case TCall(n) => if d == 0 || n >= |g| then [Part(g, p, d)] else Heads(g, g[n], d - 1)
    case TGrammar(rules) => if d == 0 || rules == [] then [Part(g, p, d)] else Heads(rules, rules[0], d - 1)
    case _ => [Part(g, p, d)]
  }

  /** and all that comes behind them. */
  function Tails(g: Rules, p: Tree, d: nat): seq<Part>
    decreases d, p
  {
    match p
    case TSeq(p1, p2) => [Part(g, p2, d)] + Tails(g, p1, d)
    case TChoice(p1, p2) => Tails(g, p1, d) + Tails(g, p2, d)
    case TCapture(_, _, q) => Tails(g, q, d)
    case TAnd(q) => Tails(g, q, d)
    case TCall(n) => if d == 0 || n >= |g| then [] else Tails(g, g[n], d - 1)
    case TGrammar(rules) => if d == 0 || rules == [] then [] else Tails(rules, rules[0], d - 1)
    case _ => []
  }

  ghost predicate OnlyHeadFails(heads: seq<Part>, tails: seq<Part>) {
    && (forall k :: 0 <= k < |heads| ==> IsCharset(heads[k].p) || heads[k].p.TFalse?)
    && (forall k :: 0 <= k < |tails| ==> NoFail(tails[k].g, tails[k].p, tails[k].d))
  }

  /** headfail answers yes if and only if all parts that can come first are characters or sets, or fail, and everything
      behind them is nofail. */
  lemma {:induction false} HeadExactly(g: Rules, p: Tree, d: nat)
    ensures HeadFail(g, p, d) <==> OnlyHeadFails(Heads(g, p, d), Tails(g, p, d))
    decreases d, p
  {
    hide CheckAux, OnlyHeadFails;
    match p
    case TSeq(p1, p2) =>
      HeadExactly(g, p1, d);
      HeadsJoin(Heads(g, p1, d), [], [Part(g, p2, d)], Tails(g, p1, d));
      HeadsTail(Part(g, p2, d));
      assert Heads(g, p1, d) + [] == Heads(g, p1, d);
    case TChoice(p1, p2) =>
      HeadExactly(g, p1, d);
      HeadExactly(g, p2, d);
      HeadsJoin(Heads(g, p1, d), Heads(g, p2, d), Tails(g, p1, d), Tails(g, p2, d));
    case TCapture(_, _, q) => HeadExactly(g, q, d);
    case TAnd(q) => HeadExactly(g, q, d);
    case TCall(n) => if d == 0 || n >= |g| { HeadsOne(Part(g, p, d)); } else { HeadExactly(g, g[n], d - 1); }
    case TGrammar(rules) =>
      if d == 0 || rules == [] { HeadsOne(Part(g, p, d)); } else { HeadExactly(rules, rules[0], d - 1); }
    case _ => HeadsOne(Part(g, p, d));
  }

  lemma HeadsJoin(h1: seq<Part>, h2: seq<Part>, t1: seq<Part>, t2: seq<Part>)
    ensures OnlyHeadFails(h1 + h2, t1 + t2) <==>
            OnlyHeadFails(h1, []) && OnlyHeadFails(h2, []) && OnlyHeadFails([], t1) && OnlyHeadFails([], t2)
    ensures forall h: seq<Part>, t: seq<Part> :: OnlyHeadFails(h, t) <==> OnlyHeadFails(h, []) && OnlyHeadFails([], t)
  {
    hide CheckAux, IsCharset;
    var h, t := h1 + h2, t1 + t2;
    assert forall k :: 0 <= k < |h1| ==> h[k] == h1[k];
    assert forall k :: 0 <= k < |h2| ==> h[|h1| + k] == h2[k];
    assert forall k :: 0 <= k < |t1| ==> t[k] == t1[k];
    assert forall k :: 0 <= k < |t2| ==> t[|t1| + k] == t2[k];
  }

  lemma HeadsTail(x: Part)
    ensures OnlyHeadFails([], [x]) <==> NoFail(x.g, x.p, x.d)
    ensures OnlyHeadFails([], [])
  {
    hide CheckAux;
    assert [x][0] == x;
  }

  lemma HeadsOne(x: Part)
    ensures OnlyHeadFails([x], []) <==> IsCharset(x.p) || x.p.TFalse?
  {
    assert [x][0] == x;
  }

  // ---------------------------------------------------------------- captures

  /** A capture can be found in `p` by following at most `n` nested calls.  A grammar that is not entered may have
      one. */
  predicate CaptureWithin(g: Rules, p: Tree, n: nat, d: nat)
    decreases n, p
  {
    match p
    case TCapture(_, _, _) => true
    case TCall(k) => n > 0 && k < |g| && CaptureWithin(g, g[k], n - 1, d)
    case TGrammar(rules) => d == 0 || (n > 0 && rules != [] && CaptureWithin(rules, rules[0], n - 1, d - 1))
    case TRep(q) => CaptureWithin(g, q, n, d)
    case TNot(q) => CaptureWithin(g, q, n, d)
    case TAnd(q) => CaptureWithin(g, q, n, d)
    case TBehind(_, q) => CaptureWithin(g, q, n, d)
    case TSeq(p1, p2) => CaptureWithin(g, p1, n, d) || CaptureWithin(g, p2, n, d)
    case TChoice(p1, p2) => CaptureWithin(g, p1, n, d) || CaptureWithin(g, p2, n, d)
    case _ => false
  }

  lemma {:induction false} CaptureFound(g: Rules, p: Tree, visited: set<nat>, d: nat) returns (n: nat)
    requires HasCaptures(g, p, visited, d)
    ensures CaptureWithin(g, p, n, d)
    decreases d, Unvisited(g, visited), p
  {
    n := 0;
    match p
    case TCapture(_, _, _) =>
    case TCall(k) =>
      n := CaptureFound(g, g[k], visited + {k}, d);
      n := n + 1;
    case TGrammar(rules) =>
      if d > 0 {
        n := CaptureFound(rules, rules[0], {}, d - 1);
        n := n + 1;
      }
    case TRep(q) => n := CaptureFound(g, q, visited, d);
    case TNot(q) => n := CaptureFound(g, q, visited, d);
    case TAnd(q) => n := CaptureFound(g, q, visited, d);
    case TBehind(_, q) => n := CaptureFound(g, q, visited, d);
    case TSeq(p1, p2) =>
      if HasCaptures(g, p1, visited, d) { n := CaptureFound(g, p1, visited, d); }
      else { n := CaptureFound(g, p2, visited, d); }
    case TChoice(p1, p2) =>
      if HasCaptures(g, p1, visited, d) { n := CaptureFound(g, p1, visited, d); }
      else { n := CaptureFound(g, p2, visited, d); }
  }

  /** The rules being searched have no capture within less than `n` calls. */
  ghost predicate Captureless(g: Rules, visited: set<nat>, n: nat, d: nat) {
    forall k: nat, j: nat :: k in visited && k < |g| && j < n ==> !CaptureWithin(g, g[k], j, d)
  }

  lemma {:induction false} NoCaptureMissed(g: Rules, p: Tree, visited: set<nat>, n: nat, d: nat)
    requires !HasCaptures(g, p, visited, d) && Captureless(g, visited, n, d)
    ensures !CaptureWithin(g, p, n, d)
    decreases d, Unvisited(g, visited), p
  {
    match p
    case TCall(k) =>
      if k < |g| && k !in visited {
        assert k in Unvisited(g, visited) && Unvisited(g, visited + {k}) < Unvisited(g, visited);
        for e := 0 to n
          invariant forall i: nat :: i < e ==> !CaptureWithin(g, g[k], i, d)
        {
          assert Captureless(g, visited + {k}, e, d);
          NoCaptureMissed(g, g[k], visited + {k}, e, d);
        }
      }
    case TGrammar(rules) => if rules != [] && n > 0 { NoCaptureMissed(rules, rules[0], {}, n - 1, d - 1); }
    case TRep(q) => NoCaptureMissed(g, q, visited, n, d);
    case TNot(q) => NoCaptureMissed(g, q, visited, n, d);
    case TAnd(q) => NoCaptureMissed(g, q, visited, n, d);
    case TBehind(_, q) => NoCaptureMissed(g, q, visited, n, d);
    case TSeq(p1, p2) => NoCaptureMissed(g, p1, visited, n, d); NoCaptureMissed(g, p2, visited, n, d);
    case TChoice(p1, p2) => NoCaptureMissed(g, p1, visited, n, d); NoCaptureMissed(g, p2, visited, n, d);
    case _ =>
  }

  /** hascaptures, which visits each rule once, finds a capture if and only if there is one to be found. */
  lemma CapturesExactly(g: Rules, p: Tree, d: nat)
    ensures HasCaptures(g, p, {}, d) <==> exists n: nat :: CaptureWithin(g, p, n, d)
  {
    hide HasCaptures, CaptureWithin;
    if HasCaptures(g, p, {}, d) {
      var n := CaptureFound(g, p, {}, d);
      assert CaptureWithin(g, p, n, d);
    } else {
      forall n: nat ensures !CaptureWithin(g, p, n, d) { NoCaptureMissed(g, p, {}, n, d); }
    }
  }
}
