/** The list of captures that a match leaves behind can be read: it says which captures were made,
    what they cover and how they are nested.  This is what lpcap.c relies on. */
module LpegCaptures {
  import opened Basics
  import opened LpegTree
  import opened LpegVm
  import opened LpegCorrect

  predicate Close(e: CapEntry) { e.kind == CCLOSE }

  predicate Full(e: CapEntry) { e.siz != 0 }

  /** Captures made between `lo` and `hi`, one after the other, each around those nested in it. */
  ghost predicate Proper(cs: seq<Capture>, lo: nat, hi: nat) {
    if cs == [] then lo <= hi
    else
      var c := cs[0];
      && c.kind != CCLOSE && lo <= c.start <= c.end
      && Proper(c.nested, c.start, c.end) && Proper(cs[1..], c.end, hi)
  }

  /** What is read from a list: captures, up to a closing entry or the end, and the rest. */
  datatype Reading = Reading(caps: seq<Capture>, rest: seq<CapEntry>)

  function Read(es: seq<CapEntry>): (r: Option<Reading>)
    ensures r.Some? ==> |r.value.rest| <= |es|
    decreases |es|
  {
    if es == [] || Close(es[0]) then Some(Reading([], es))
    else if Full(es[0]) then
      var e := es[0];
      match Read(es[1..])
      case None => None
      case Some(more) => Some(Reading([Capture(e.kind, e.idx, e.pos, e.pos + e.siz - 1, [])] + more.caps, more.rest))
    else
      match Read(es[1..])
      case None => None
      case Some(inner) =>
        if inner.rest == [] then None
        else
          match Read(inner.rest[1..])
          case None => None
          case Some(more) =>
            Some(Reading([Capture(es[0].kind, es[0].idx, es[0].pos, inner.rest[0].pos, inner.caps)] + more.caps,
                         more.rest))
  }

  ghost function Closing(c: Capture): CapEntry { CapEntry(c.end, 0, CCLOSE, 1) }

  lemma FlatFirst(cs: seq<Capture>, rest: seq<CapEntry>)
    requires cs != []
    ensures FlatAll(cs) + rest == FlatOne(cs[0]) + (FlatAll(cs[1..]) + rest)
  {
    hide FlatOne;
  }

  /** The two ways to list a capture. */
  lemma OneThenMore(c: Capture, more: seq<CapEntry>)
    requires c.start <= c.end && c.kind != CCLOSE
    ensures var es := FlatOne(c) + more;
            && es != [] && !Close(es[0]) && es[0].kind == c.kind && es[0].idx == c.key && es[0].pos == c.start
            && (Full(es[0]) ==> |FlatOne(c)| == 1 && c.nested == [] && es[0].pos + es[0].siz - 1 == c.end &&
                                es[1..] == more)
            && (!Full(es[0]) ==> |FlatOne(c)| == |FlatAll(c.nested)| + 2 &&
                                 es[1..] == FlatAll(c.nested) + ([Closing(c)] + more))
  {
    hide FlatAll;
    if FlatAll(c.nested) == [] { FlatInside(c.nested); }
  }

  /** Reading a list gives back the captures that it lists. */
  lemma {:induction false} ReadsBack(cs: seq<Capture>, lo: nat, hi: nat, rest: seq<CapEntry>)
    requires Proper(cs, lo, hi) && (rest == [] || Close(rest[0]))
    ensures Read(FlatAll(cs) + rest) == Some(Reading(cs, rest))
    decreases cs
  {
    hide Proper, FlatOne;
    if cs == [] {
      assert FlatAll(cs) + rest == rest;
    } else {
      ProperParts(cs, lo, hi);
      var c, more := cs[0], FlatAll(cs[1..]) + rest;
      FlatFirst(cs, rest);
      OneThenMore(c, more);
      ReadsBack(cs[1..], c.end, hi, rest);
      assert cs == [c] + cs[1..];
      if |FlatOne(c)| != 1 {
        ReadsBack(c.nested, c.start, c.end, [Closing(c)] + more);
        assert ([Closing(c)] + more)[1..] == more;
      }
    }
  }

  lemma FlatInside(cs: seq<Capture>)
    ensures FlatAll(cs) == [] ==> cs == []
  {
    if cs != [] { assert |FlatOne(cs[0])| > 0; }
  }

  lemma ProperParts(cs: seq<Capture>, lo: nat, hi: nat)
    requires Proper(cs, lo, hi) && cs != []
    ensures var c := cs[0];
            c.kind != CCLOSE && lo <= c.start <= c.end && Proper(c.nested, c.start, c.end) && Proper(cs[1..], c.end, hi)
  {
  }

  /** No two different lists of captures are listed in the same way. */
  lemma ListDetermines(cs: seq<Capture>, ds: seq<Capture>, lo: nat, hi: nat)
    requires Proper(cs, lo, hi) && Proper(ds, lo, hi) && FlatAll(cs) == FlatAll(ds)
    ensures cs == ds
  {
    hide Proper, FlatAll, Read;
    ReadsBack(cs, lo, hi, []);
    ReadsBack(ds, lo, hi, []);
  }

  // ---------------------------------------------------------------- the captures of a match

  ghost predicate RulesWell(g: Rules, d: nat) {
    forall n :: 0 <= n < |g| ==> WellFormed(g, g[n], d)
  }

  lemma {:induction false} ProperAppend(c1: seq<Capture>, c2: seq<Capture>, lo: nat, mid: nat, hi: nat)
    requires Proper(c1, lo, mid) && Proper(c2, mid, hi)
    ensures Proper(c1 + c2, lo, hi)
    decreases |c1|
  {
    if c1 == [] {
      assert c1 + c2 == c2;
      ProperLower(c2, lo, mid, hi);
    } else {
      ProperAppend(c1[1..], c2, c1[0].end, mid, hi);
      assert (c1 + c2)[0] == c1[0] && (c1 + c2)[1..] == c1[1..] + c2;
    }
  }

  lemma ProperLower(cs: seq<Capture>, lo: nat, mid: nat, hi: nat)
    requires lo <= mid && Proper(cs, mid, hi)
    ensures Proper(cs, lo, hi)
  {
  }

  /** The captures of a match lie in what it consumes, in order and properly nested. */
  lemma {:induction false} EvalProper(g: Rules, p: Tree, d: nat, subj: Subject, s: nat, fuel: nat)
    requires s <= |subj| && WellFormed(g, p, d) && RulesWell(g, d) && Eval(g, p, subj, s, fuel).Yes?
    ensures var r := Eval(g, p, subj, s, fuel); Proper(r.caps, s, r.pos)
    decreases fuel, p
  {
    match p
    case TRep(q) =>
      var r := Eval(g, q, subj, s, fuel);
      if r.Yes? {
        EvalProper(g, q, d, subj, s, fuel);
        EvalProper(g, p, d, subj, r.pos, fuel - 1);
        ProperAppend(r.caps, Eval(g, p, subj, r.pos, fuel - 1).caps, s, r.pos, Eval(g, p, subj, s, fuel).pos);
      }
    case TSeq(p1, p2) =>
      EvalProper(g, p1, d, subj, s, fuel);
      var r1 := Eval(g, p1, subj, s, fuel);
      EvalProper(g, p2, d, subj, r1.pos, fuel);
      var r2 := Eval(g, p2, subj, r1.pos, fuel);
      ProperAppend(r1.caps, r2.caps, s, r1.pos, r2.pos);
    case TChoice(p1, p2) =>
      if Eval(g, p1, subj, s, fuel).Yes? { EvalProper(g, p1, d, subj, s, fuel); }
          else { EvalProper(g, p2, d, subj, s, fuel); }
    case TCall(n) => EvalProper(g, g[n], d, subj, s, fuel - 1);
    case TGrammar(rules) => EvalProper(rules, rules[0], d, subj, s, fuel - 1);
    case TCapture(kind, key, q) =>
      EvalProper(g, q, d, subj, s, fuel);
      var r := Eval(g, q, subj, s, fuel);
      assert [Capture(kind, key, s, r.pos, r.caps)][1..] == [];
    case _ =>
  }

  // ---------------------------------------------------------------- skipping a capture

  /** How many entries there are before the closing entry that `n` others precede. */
  function Pending(es: seq<CapEntry>, n: nat): (k: nat)
    ensures k <= |es|
    decreases |es|
  {
    if es == [] then 0
    else if Close(es[0]) then (if n == 0 then 0 else 1 + Pending(es[1..], n - 1))
    else 1 + Pending(es[1..], if Full(es[0]) then n else n + 1)
  }

  /** A list of captures is balanced: whoever waits for a closing entry waits past it. */
  lemma {:induction false} PendingFlat(cs: seq<Capture>, lo: nat, hi: nat, rest: seq<CapEntry>, n: nat)
    requires Proper(cs, lo, hi)
    ensures Pending(FlatAll(cs) + rest, n) == |FlatAll(cs)| + Pending(rest, n)
    decreases cs
  {
    hide Proper, FlatOne;
    if cs == [] {
      assert FlatAll(cs) + rest == rest;
    } else {
      ProperParts(cs, lo, hi);
      var c, more := cs[0], FlatAll(cs[1..]) + rest;
      FlatFirst(cs, rest);
      OneThenMore(c, more);
      PendingFlat(cs[1..], c.end, hi, rest, n);
      if |FlatOne(c)| != 1 {
        PendingFlat(c.nested, c.start, c.end, [Closing(c)] + more, n + 1);
        assert ([Closing(c)] + more)[1..] == more;
      }
      assert |FlatAll(cs)| == |FlatOne(c)| + |FlatAll(cs[1..])|;
    }
  }

  /** The capture that `Pending` finds the end of ends there, and not before. */
  lemma PendingStep(es: seq<CapEntry>, next: nat, n: nat)
    requires next + 1 <= |es| && !(Close(es[next]) && n == 0)
    ensures var m := if Close(es[next]) then n - 1 else if Full(es[next]) then n else n + 1;
            next + 1 + Pending(es[next + 1..], m) == next + Pending(es[next..], n)
  {
    assert es[next..][1..] == es[next + 1..] && es[next..][0] == es[next];
  }

  lemma OpenEntries(es: seq<CapEntry>, cap: nat, c: Capture, more: seq<CapEntry>) returns (end: nat)
    requires cap <= |es| && es[cap..] == FlatOne(c) + more && c.kind != CCLOSE && Proper(c.nested, c.start, c.end)
    ensures cap < |es| && (Full(es[cap]) <==> |FlatOne(c)| == 1)
    ensures !Full(es[cap]) ==>
              cap < end < |es| && end + 1 == cap + |FlatOne(c)| && Close(es[end]) &&
                  end == cap + 1 + Pending(es[cap + 1..], 0)
  {
    hide Proper, FlatAll;
    assert es[cap] == es[cap..][0];
    end := cap;
    if |FlatOne(c)| != 1 {
      var close := [CapEntry(c.end, 0, CCLOSE, 1)] + more;
      assert es[cap + 1..] == es[cap..][1..] == FlatAll(c.nested) + close;
      PendingFlat(c.nested, c.start, c.end, close, 0);
      end := cap + 1 + |FlatAll(c.nested)|;
      assert es[end] == es[cap + 1..][|FlatAll(c.nested)|] == close[0];
      assert Pending(close, 0) == 0;
    } else {
      FlatInside(c.nested);
    }
  }

  /** Goes from a capture, listed in `capture` from `cap` on, to the next one. */
  method NextCap(capture: array<CapEntry>, cap: nat, ghost c: Capture, ghost more: seq<CapEntry>) returns (next: nat)
    requires cap <= capture.Length && capture[cap..] == FlatOne(c) + more
    requires c.kind != CCLOSE && Proper(c.nested, c.start, c.end)
    ensures next == cap + |FlatOne(c)|
  {
    hide Proper, FlatOne, Pending;
    ghost var es := capture[..];
    ghost var end := OpenEntries(es, cap, c, more);
    next := cap;
    if capture[next].siz == 0 {
      var n: nat := 0;
      next := next + 1;
      while capture[next].kind != CCLOSE || n != 0
        invariant cap < next <= end && next + Pending(es[next..], n) == end
        decreases end - next
      {
        StillPending(es, next, n, end);
        PendingStep(es, next, n);
        if capture[next].kind == CCLOSE { n := n - 1; }
        else if capture[next].siz == 0 { n := n + 1; }
        next := next + 1;
      }
      PendingDone(es, next);
    }
    next := next + 1;
  }

  lemma StillPending(es: seq<CapEntry>, next: nat, n: nat, end: nat)
    requires next < |es| && next + Pending(es[next..], n) == end && !(Close(es[next]) && n == 0)
    ensures next < end
  {
    assert es[next..][0] == es[next];
  }

  lemma PendingDone(es: seq<CapEntry>, next: nat)
    requires next < |es| && Close(es[next])
    ensures Pending(es[next..], 0) == 0
  {
    assert es[next..][0] == es[next];
  }
}
