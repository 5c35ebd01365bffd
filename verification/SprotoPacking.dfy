/** The zero-packing of sproto.c as a function of the bytes: what is written, how much, and what
    unpacking makes of it. */
module SprotoPacking {
  import opened Basics

  type Seg = s: seq<Byte> | |s| == 8 witness seq(8, i => 0)

  const FF := 255

  /** The longest run of segments that are copied as they are. */
  const MAX_RUN := 256

  function NotZero(s: seq<Byte>): (n: nat)
    ensures n <= |s|
  {
    if s == [] then 0 else (if s[0] != 0 then 1 else 0) + NotZero(s[1..])
  }

  function Packed(s: seq<Byte>): (r: seq<Byte>)
    ensures |r| == NotZero(s)
  {
    if s == [] then [] else (if s[0] != 0 then [s[0]] else []) + Packed(s[1..])
  }

  function Pow2(n: nat): (p: nat)
    ensures p > 0
  {
    if n == 0 then 1 else 2 * Pow2(n - 1)
  }

  /** One bit for each byte, the first one lowest: whether it is not zero. */
  function Header(s: seq<Byte>): (h: nat)
    ensures h < Pow2(|s|)
  {
    if s == [] then 0 else (if s[0] != 0 then 1 else 0) + 2 * Header(s[1..])
  }

  function PlainBytes(s: Seg): seq<Byte> {
    assert Pow2(8) == 256;
    [Header(s)] + Packed(s)
  }

  function Concat(segs: seq<Seg>): (r: seq<Byte>)
    ensures |r| == 8 * |segs|
  {
    if segs == [] then [] else segs[0] + Concat(segs[1..])
  }

  function RunBytes(run: seq<Seg>): (r: seq<Byte>)
    requires 1 <= |run| <= MAX_RUN
    ensures |r| == 2 + 8 * |run|
  {
    [FF, |run| - 1] + Concat(run)
  }

  /** What is written for the segments `segs`, after a run that is still open.  A full run is copied
      from memory, where the last segment is `last` instead of being padded with zeros. */
  function Emit(segs: seq<Seg>, last: Seg, run: seq<Seg>): seq<Byte>
    requires |run| < MAX_RUN
    decreases |segs|
  {
    if segs == [] then (if run == [] then [] else RunBytes(run))
    else
      var s, rest := segs[0], segs[1..];
      if run == [] && NotZero(s) == 8 then Emit(rest, last, [s])
      else if run != [] && NotZero(s) >= 6 then
        if |run| + 1 < MAX_RUN then Emit(rest, last, run + [s])
        else RunBytes(run + [if rest == [] then last else s]) + Emit(rest, last, [])
      else (if run == [] then [] else RunBytes(run)) + PlainBytes(s) + Emit(rest, last, [])
  }

  /** Whether the last segment is the one that fills a run. */
  predicate LastFills(segs: seq<Seg>, run: nat)
    requires run < MAX_RUN
    decreases |segs|
  {
    if segs == [] then false
    else
      var s, rest := segs[0], segs[1..];
      if run == 0 && NotZero(s) == 8 then LastFills(rest, 1)
      else if run > 0 && NotZero(s) >= 6 then
        if run + 1 < MAX_RUN then LastFills(rest, run + 1) else rest == [] || LastFills(rest, 0)
      else LastFills(rest, 0)
  }

  // ---------------------------------------------------------------- the input in segments

  function Zeros(n: nat): (z: seq<Byte>)
    ensures |z| == n
  {
    if n == 0 then [] else [0] + Zeros(n - 1)
  }

  /** How many zeros make the length a multiple of eight. */
  function Padding(n: nat): (p: nat)
    ensures p < 8 && (n + p) % 8 == 0
  {
    (8 - n % 8) % 8
  }

  function Padded(x: seq<Byte>): (r: seq<Byte>)
    ensures |r| % 8 == 0
  {
    x + Zeros(Padding(|x|))
  }

  function Cut(x: seq<Byte>): (segs: seq<Seg>)
    requires |x| % 8 == 0
    ensures 8 * |segs| == |x|
  {
    if x == [] then [] else [x[..8]] + Cut(x[8..])
  }

  /** The last segment as it is in memory: `beyond` are the bytes that follow the input there. */
  function LastInMemory(x: seq<Byte>, beyond: seq<Byte>): Seg
    requires |beyond| >= 7
  {
    var p, start := Padding(|x|), |x| - |x| % 8;
    if |x| % 8 == 0 then (if x == [] then Zeros(8) else x[|x| - 8..]) else x[start..] + beyond[..p]
  }

  function Pack(x: seq<Byte>, beyond: seq<Byte>): seq<Byte>
    requires |beyond| >= 7
  {
    Emit(Cut(Padded(x)), LastInMemory(x, beyond), [])
  }

  // ---------------------------------------------------------------- unpacking

  /** The input that is left; `over` when the byte after the end has been taken as well. */
  datatype Input = Input(src: seq<Byte>, over: bool)

  datatype Spreading = Spreading(bytes: seq<Byte>, left: Input)

  /** The bytes that the `k` lowest bits of a header stand for.  The C code notices only at the next
      byte that it has gone past the end: it may take one byte, `beyond`, that is not its own. */
  function Spread(h: nat, k: nat, input: Input, beyond: Byte): (r: Option<Spreading>)
    ensures r.Some? ==> |r.value.bytes| == k && |r.value.left.src| <= |input.src|
    decreases k
  {
    if k == 0 then Some(Spreading([], input))
    else if h % 2 == 0 then
      match Spread(h / 2, k - 1, input, beyond)
      case None => None
      case Some(s) => Some(Spreading([0] + s.bytes, s.left))
    else if input.over then None
    else
      var b, left := if input.src == [] then beyond else input.src[0], if input.src == [] then Input([], true)
          else Input(input.src[1..], false);
      match Spread(h / 2, k - 1, left, beyond)
      case None => None
      case Some(s) => Some(Spreading([b] + s.bytes, s.left))
  }

  function Prepend(bytes: seq<Byte>, r: Option<seq<Byte>>): Option<seq<Byte>> {
    if r.None? then None else Some(bytes + r.value)
  }

  /** How many bytes a run has, from the byte after its mark. */
  function RunLength(b: nat): nat { 8 * (b + 1) }

  function Unpack(src: seq<Byte>, beyond: Byte): Option<seq<Byte>>
    decreases |src|
  {
    if src == [] then Some([])
    else if src[0] == FF then
      if |src| < 2 || |src| < 2 + RunLength(src[1]) then None
      else
        var n := RunLength(src[1]);
        Prepend(src[2..2 + n], Unpack(src[2 + n..], beyond))
    else
      match Spread(src[0], 8, Input(src[1..], false), beyond)
      case None => None
      case Some(s) => Prepend(s.bytes, Unpack(s.left.src, beyond))
  }

  // ---------------------------------------------------------------- the round trip

  lemma SpreadZero(h: nat, k: nat, input: Input, beyond: Byte, s: Spreading)
    requires Spread(h, k, input, beyond) == Some(s)
    ensures Spread(2 * h, k + 1, input, beyond) == Some(Spreading([0] + s.bytes, s.left))
  {
  }

  lemma SpreadOne(h: nat, k: nat, b: Byte, src: seq<Byte>, beyond: Byte, s: Spreading)
    requires Spread(h, k, Input(src, false), beyond) == Some(s)
    ensures Spread(1 + 2 * h, k + 1, Input([b] + src, false), beyond) == Some(Spreading([b] + s.bytes, s.left))
  {
    assert ([b] + src)[1..] == src;
  }

  lemma SpreadNothing(h: nat, input: Input, beyond: Byte)
    ensures Spread(h, 0, input, beyond) == Some(Spreading([], input))
  {
  }

  lemma {:induction false} SpreadPacked(s: seq<Byte>, rest: seq<Byte>, beyond: Byte)
    ensures Spread(Header(s), |s|, Input(Packed(s) + rest, false), beyond) == Some(Spreading(s, Input(rest, false)))
    decreases |s|
  {
    hide Spread;
    if s != [] {
      var t, back := s[1..], Spreading(s[1..], Input(rest, false));
      SpreadPacked(t, rest, beyond);
      assert s == [s[0]] + t;
      if s[0] != 0 {
        SpreadOne(Header(t), |t|, s[0], Packed(t) + rest, beyond, back);
        assert Packed(s) + rest == [s[0]] + (Packed(t) + rest);
      } else {
        SpreadZero(Header(t), |t|, Input(Packed(t) + rest, false), beyond, back);
        assert Packed(s) == Packed(t);
      }
    } else {
      assert Packed(s) + rest == rest;
      SpreadNothing(0, Input(rest, false), beyond);
    }
  }

  lemma {:induction false} FullHeader(s: seq<Byte>)
    ensures Header(s) == Pow2(|s|) - 1 <==> NotZero(s) == |s|
    decreases |s|
  {
    if s != [] { FullHeader(s[1..]); }
  }

  lemma UnpackPlain(s: Seg, rest: seq<Byte>, beyond: Byte)
    requires NotZero(s) < 8
    ensures Unpack(PlainBytes(s) + rest, beyond) == Prepend(s, Unpack(rest, beyond))
  {
    hide Spread, Packed, NotZero;
    FullHeader(s);
    assert Pow2(8) == 256;
    SpreadPacked(s, rest, beyond);
    assert (PlainBytes(s) + rest)[1..] == Packed(s) + rest;
  }

  lemma UnpackRun(run: seq<Seg>, rest: seq<Byte>, beyond: Byte)
    requires 1 <= |run| <= MAX_RUN
    ensures Unpack(RunBytes(run) + rest, beyond) == Prepend(Concat(run), Unpack(rest, beyond))
  {
    var src := RunBytes(run) + rest;
    var n := 8 * |run|;
    assert src[0] == FF && src[1] == |run| - 1;
    assert src[2..2 + n] == Concat(run) && src[2 + n..] == rest;
  }

  lemma {:induction false} ConcatAppend(a: seq<Seg>, b: seq<Seg>)
    ensures Concat(a + b) == Concat(a) + Concat(b)
    decreases |a|
  {
    if a == [] {
      assert a + b == b;
    } else {
      ConcatAppend(a[1..], b);
      assert (a + b)[1..] == a[1..] + b;
    }
  }

  lemma ConcatOne(s: Seg)
    ensures Concat([s]) == s
  {
    assert Concat([s]) == s + [];
  }

  /** The segments that come back: all of them, except that the last one may come from memory. */
  function Back(segs: seq<Seg>, last: Seg, run: nat): seq<Seg>
    requires run < MAX_RUN
  {
    if LastFills(segs, run) then segs[..|segs| - 1] + [last] else segs
  }

  lemma BackNext(segs: seq<Seg>, last: Seg, run: nat, next: nat)
    requires segs != [] && run < MAX_RUN && next < MAX_RUN && LastFills(segs, run) == LastFills(segs[1..], next)
    ensures Back(segs, last, run) == [segs[0]] + Back(segs[1..], last, next)
  {
    if LastFills(segs, run) { assert segs[1..][..|segs| - 2] == segs[1..|segs| - 1]; }
  }

  /** Unpacking gives back the open run and the segments after it. */
  lemma {:induction false} EmitUnpacks(segs: seq<Seg>, last: Seg, run: seq<Seg>, beyond: Byte)
    requires |run| < MAX_RUN
    ensures Unpack(Emit(segs, last, run), beyond) == Some(Concat(run) + Concat(Back(segs, last, |run|)))
    decreases |segs|
  {
    hide Unpack, Back, RunBytes, PlainBytes, Concat, NotZero;
    if segs == [] {
      BackEmpty(last, |run|);
      if run != [] { UnpackRun(run, [], beyond); assert RunBytes(run) + [] == RunBytes(run); }
      assert Concat(run) + [] + [] == Concat(run) + [];
    } else {
      var s, rest := segs[0], segs[1..];
      if run == [] && NotZero(s) == 8 {
        EmitUnpacks(rest, last, [s], beyond);
        BackNext(segs, last, 0, 1);
        ConcatTwo([], s, Back(rest, last, 1));
        assert run + [s] == [s];
      } else if run != [] && NotZero(s) >= 6 {
        if |run| + 1 < MAX_RUN {
          EmitUnpacks(rest, last, run + [s], beyond);
          BackNext(segs, last, |run|, |run| + 1);
          ConcatTwo(run, s, Back(rest, last, |run| + 1));
        } else {
          var x := if rest == [] then last else s;
          EmitUnpacks(rest, last, [], beyond);
          UnpackRun(run + [x], Emit(rest, last, []), beyond);
          BackFull(segs, last, |run|);
          ConcatTwo(run, x, Back(rest, last, 0));
          assert Concat([]) + Concat(Back(rest, last, 0)) == Concat(Back(rest, last, 0));
        }
      } else {
        EmitUnpacks(rest, last, [], beyond);
        UnpackPlain(s, Emit(rest, last, []), beyond);
        BackNext(segs, last, |run|, 0);
        ConcatTwo(run, s, Back(rest, last, 0));
        if run != [] { UnpackRun(run, PlainBytes(s) + Emit(rest, last, []), beyond); }
        var back := Concat(Back(rest, last, 0));
        assert Concat([]) + back == back && [] + (s + back) == s + back;
        assert (if run == [] then [] else RunBytes(run)) + PlainBytes(s) + Emit(rest, last, []) ==
               (if run == [] then [] else RunBytes(run)) + (PlainBytes(s) + Emit(rest, last, []));
        assert [] + (PlainBytes(s) + Emit(rest, last, [])) == PlainBytes(s) + Emit(rest, last, []);
      }
    }
  }

  lemma BackEmpty(last: Seg, run: nat)
    requires run < MAX_RUN
    ensures Back([], last, run) == [] && Concat([]) == [] && Unpack([], 0) == Some([])
    ensures forall b: Byte :: Unpack([], b) == Some([])
  {
  }

  lemma BackFull(segs: seq<Seg>, last: Seg, run: nat)
    requires segs != [] && run + 1 == MAX_RUN && NotZero(segs[0]) >= 6
    ensures Back(segs, last, run) == [if |segs| == 1 then last else segs[0]] + Back(segs[1..], last, 0)
  {
    if |segs| > 1 { BackNext(segs, last, run, 0); }
  }

  lemma ConcatTwo(run: seq<Seg>, s: Seg, rest: seq<Seg>)
    ensures Concat(run) + Concat([s] + rest) == Concat(run + [s]) + Concat(rest) == Concat(run) + (s + Concat(rest))
    ensures Concat([]) == [] && Concat([s]) == s
  {
    ConcatAppend(run, [s]);
    ConcatAppend([s], rest);
    ConcatOne(s);
  }

  lemma {:induction false} ConcatCut(x: seq<Byte>)
    requires |x| % 8 == 0
    ensures Concat(Cut(x)) == x
    decreases |x|
  {
    if x != [] { ConcatCut(x[8..]); }
  }

  /** Whether the last, incomplete segment of an input fills a run of 256. */
  predicate ShortEnd(x: seq<Byte>) {
    |x| % 8 != 0 && LastFills(Cut(Padded(x)), 0)
  }

  /** Unpacking what was packed gives back the input, padded with zeros to a multiple of eight bytes --
      if and only if no incomplete segment fills a run, or the bytes after the input happen to be zero. */
  lemma RoundTrip(x: seq<Byte>, beyond: seq<Byte>, after: Byte)
    requires |beyond| >= 7
    ensures Unpack(Pack(x, beyond), after) == Some(Padded(x)) <==> !ShortEnd(x) ||
                                                                   beyond[..Padding(|x|)] == Zeros(Padding(|x|))
  {
    hide Unpack, Emit, Cut, LastFills, Zeros, Padding;
    var segs, last := Cut(Padded(x)), LastInMemory(x, beyond);
    EmitUnpacks(segs, last, [], after);
    ConcatCut(Padded(x));
    assert Concat([]) + Concat(Back(segs, last, 0)) == Concat(Back(segs, last, 0));
    LastSegment(x, beyond);
    if LastFills(segs, 0) {
      FillsSome(segs, 0);
      BackSame(segs, last);
    }
  }

  lemma FillsSome(segs: seq<Seg>, run: nat)
    requires run < MAX_RUN && LastFills(segs, run)
    ensures segs != []
  {
  }

  lemma BackSame(segs: seq<Seg>, last: Seg)
    requires segs != []
    ensures Concat(segs[..|segs| - 1] + [last]) == Concat(segs) <==> last == segs[|segs| - 1]
  {
    var front, s := segs[..|segs| - 1], segs[|segs| - 1];
    assert segs == front + [s];
    ConcatAppend(front, [last]);
    ConcatAppend(front, [s]);
    ConcatOne(last);
    ConcatOne(s);
    assert (Concat(front) + last)[|Concat(front)|..] == last && (Concat(front) + s)[|Concat(front)|..] == s;
  }

  lemma SliceSlice<T>(x: seq<T>, a: nat, from: nat, to: nat)
    requires from <= to && a + to <= |x|
    ensures x[a..][from..to] == x[a + from..a + to]
  {
  }

  lemma {:induction false} CutAt(x: seq<Byte>, k: nat)
    requires |x| % 8 == 0 && 8 * k < |x|
    ensures k < |Cut(x)| && 8 * k + 8 <= |x| && Cut(x)[k] == x[8 * k..8 * k + 8]
    decreases k
  {
    if k > 0 {
      CutAt(x[8..], k - 1);
      SliceSlice(x, 8, 8 * (k - 1), 8 * (k - 1) + 8);
    }
  }

  lemma CutLast(x: seq<Byte>)
    requires |x| % 8 == 0 && x != []
    ensures Cut(x) != [] && Cut(x)[|Cut(x)| - 1] == x[|x| - 8..]
  {
    hide Cut;
    CutAt(x, |x| / 8 - 1);
    assert 8 * (|x| / 8 - 1) + 8 == |x|;
  }

  /** The last segment in memory is the padded one if the bytes after the input are zero. */
  lemma LastSegment(x: seq<Byte>, beyond: seq<Byte>)
    requires |beyond| >= 7
    ensures x != [] ==> var segs := Cut(Padded(x));
            && segs != []
            && (LastInMemory(x, beyond) == segs[|segs| - 1] <==>
                  |x| % 8 == 0 || beyond[..Padding(|x|)] == Zeros(Padding(|x|)))
    ensures x == [] ==> Cut(Padded(x)) == []
  {
    hide Cut, Zeros, Padding, Padded, LastInMemory;
    if x == [] {
      CutNothing();
      assert Padded(x) == [] by { PaddedWhole(x); }
    } else if |x| % 8 == 0 {
      PaddedWhole(x);
      CutLast(x);
    } else {
      PaddedTail(x);
      CutLast(Padded(x));
      TailInMemory(x, beyond);
      Tails(x[|x| - |x| % 8..], beyond[..Padding(|x|)], Zeros(Padding(|x|)));
    }
  }

  lemma PaddedWhole(x: seq<Byte>)
    requires |x| % 8 == 0
    ensures Padded(x) == x
    ensures forall beyond: seq<Byte> :: |beyond| >= 7 && x != [] ==> LastInMemory(x, beyond) == x[|x| - 8..]
  {
    assert Padding(|x|) == 0 && Zeros(0) == [];
  }

  lemma TailInMemory(x: seq<Byte>, beyond: seq<Byte>)
    requires |x| % 8 != 0 && |beyond| >= 7
    ensures LastInMemory(x, beyond) == x[|x| - |x| % 8..] + beyond[..Padding(|x|)]
  {
    hide Padding;
  }

  lemma Tails(a: seq<Byte>, b: seq<Byte>, c: seq<Byte>)
    ensures a + b == a + c <==> b == c
  {
    assert (a + b)[|a|..] == b && (a + c)[|a|..] == c;
  }

  lemma PaddedTail(x: seq<Byte>)
    requires |x| % 8 != 0
    ensures Padding(|x|) == 8 - |x| % 8 && Padded(x) != []
    ensures Padded(x)[|Padded(x)| - 8..] == x[|x| - |x| % 8..] + Zeros(Padding(|x|))
  {
    hide Zeros, Padding;
    PaddingIs(|x|);
    DropAppend(x, Zeros(Padding(|x|)), |x| - |x| % 8);
  }

  lemma PaddingIs(n: nat)
    ensures Padding(n) == if n % 8 == 0 then 0 else 8 - n % 8
  {
  }

  lemma DropAppend(x: seq<Byte>, z: seq<Byte>, k: nat)
    requires k <= |x|
    ensures (x + z)[k..] == x[k..] + z
  {
  }

  lemma CutNothing()
    ensures Zeros(Padding(0)) == [] && Cut([]) == []
  {
  }

  // ---------------------------------------------------------------- how much is written

  /** Full runs among the segments. */
  function FullRuns(segs: seq<Seg>, run: nat): (n: nat)
    requires run < MAX_RUN
    ensures MAX_RUN * n <= |segs| + run
    decreases |segs|
  {
    if segs == [] then 0
    else
      var s, rest := segs[0], segs[1..];
      if run == 0 && NotZero(s) == 8 then FullRuns(rest, 1)
      else if run > 0 && NotZero(s) >= 6 then (if run + 1 < MAX_RUN then FullRuns(rest, run + 1)
                                               else 1 + FullRuns(rest, 0))
      else FullRuns(rest, 0)
  }

  lemma PlainSize(s: Seg)
    ensures |PlainBytes(s)| == NotZero(s) + 1 && NotZero(s) <= 8
  {
  }

  /** What the callers allocate. */
  function Allocated(n: nat): nat {
    (n + 2047) / 2048 * 2 + n + 2
  }

  /** A run costs two bytes.  The segment that ends it has three zeros at least and so saves them
      again, unless the run is full; only at the end of the input, where the last `p` bytes are
      padding, up to four bytes may be left over. */
  lemma {:induction false} EmitSize(segs: seq<Seg>, last: Seg, run: seq<Seg>, p: nat)
    requires |run| < MAX_RUN && segs != [] && p < 8 && NotZero(segs[|segs| - 1]) <= 8 - p
    ensures var total, full := |run| + |segs|, FullRuns(segs, |run|);
            |Emit(segs, last, run)| + p <= 8 * total + 2 * full + if total == MAX_RUN * full then 2 else 4
    decreases |segs|
  {
    hide RunBytes, PlainBytes, NotZero;
    var s, rest := segs[0], segs[1..];
    PlainSize(s);
    if rest == [] {
      EmitNothing(last);
    } else {
      assert rest[|rest| - 1] == segs[|segs| - 1];
      if run == [] && NotZero(s) == 8 { EmitSize(rest, last, [s], p); }
      else if run != [] && NotZero(s) >= 6 { EmitSize(rest, last, if |run| + 1 < MAX_RUN then run + [s] else [], p); }
      else { EmitSize(rest, last, [], p); }
    }
  }

  lemma EmitNothing(last: Seg)
    ensures Emit([], last, []) == [] && FullRuns([], 0) == 0
    ensures forall s: Seg :: Emit([], last, [s]) == RunBytes([s])
  {
  }

  lemma {:induction false} NotZeroAppend(a: seq<Byte>, n: nat)
    ensures NotZero(a + Zeros(n)) <= |a|
    decreases |a|, n
  {
    if a != [] {
      NotZeroAppend(a[1..], n);
      assert (a + Zeros(n))[1..] == a[1..] + Zeros(n);
    } else if n > 0 {
      NotZeroAppend([], n - 1);
      assert [] + Zeros(n) == [0] + Zeros(n - 1) && [] + Zeros(n - 1) == Zeros(n - 1);
      assert ([] + Zeros(n))[1..] == Zeros(n - 1);
    } else {
      assert [] + Zeros(0) == [];
    }
  }

  /** Packing never writes more than its callers allocate, whatever the input. */
  lemma SizeBound(x: seq<Byte>, beyond: seq<Byte>)
    requires |beyond| >= 7
    ensures |Pack(x, beyond)| <= Allocated(|x|)
  {
    hide Emit, Cut, Zeros, NotZero, FullRuns;
    var segs, last, p := Cut(Padded(x)), LastInMemory(x, beyond), Padding(|x|);
    LastSegment(x, beyond);
    if x == [] {
      EmitNothing(last);
    } else {
      CutLast(Padded(x));
      NotZeroLast(x);
      EmitSize(segs, last, [], p);
      Enough(|x|, p, FullRuns(segs, 0));
    }
  }

  lemma NotZeroLast(x: seq<Byte>)
    requires x != []
    ensures Padded(x) != [] && NotZero(Padded(x)[|Padded(x)| - 8..]) <= 8 - Padding(|x|)
  {
    hide Zeros;
    if |x| % 8 != 0 {
      PaddedTail(x);
      NotZeroAppend(x[|x| - |x| % 8..], Padding(|x|));
    }
  }

  lemma Enough(n: nat, p: nat, full: nat)
    requires n > 0 && p < 8 && (n + p) % 8 == 0 && MAX_RUN * full <= (n + p) / 8
    ensures n + 2 * full + (if (n + p) / 8 == MAX_RUN * full then 2 else 4) <= Allocated(n)
  {
  }

  // ---------------------------------------------------------------- the exception

  function Ones(n: nat): (r: seq<Byte>)
    ensures |r| == n
  {
    if n == 0 then [] else [1] + Ones(n - 1)
  }

  lemma {:induction false} OnesPacked(n: nat, z: nat)
    ensures NotZero(Ones(n) + Zeros(z)) == n
    decreases n
  {
    if n == 0 {
      NotZeroAppend([], z);
    } else {
      assert Ones(n) + Zeros(z) == [1] + (Ones(n - 1) + Zeros(z));
      OnesPacked(n - 1, z);
    }
  }

  lemma {:induction false} OnesDrop(n: nat, k: nat)
    requires k <= n
    ensures Ones(n)[k..] == Ones(n - k) && Ones(n)[..k] == Ones(k)
    decreases k
  {
    if k > 0 {
      OnesDrop(n - 1, k - 1);
      assert Ones(n)[k..] == Ones(n - 1)[k - 1..] && Ones(n)[..k] == [1] + Ones(n - 1)[..k - 1];
    }
  }

  /** Segments without zeros, and a last one with two: they make one run. */
  lemma {:induction false} OnesFill(m: nat, run: nat)
    requires run < MAX_RUN && run + m + 1 == MAX_RUN && m > 0
    ensures LastFills(Cut(Ones(8 * m + 6) + Zeros(2)), run)
    decreases m
  {
    hide Ones, Zeros, NotZero;
    var x := Ones(8 * m + 6) + Zeros(2);
    OnesDrop(8 * m + 6, 8);
    assert x[..8] == Ones(8) + Zeros(0) && x[8..] == Ones(8 * (m - 1) + 6) + Zeros(2) by { NoZeros(); }
    OnesPacked(8, 0);
    if m > 1 { OnesFill(m - 1, run + 1); } else { OnesLast(run + 1); }
  }

  lemma NoZeros()
    ensures Zeros(0) == []
  {
  }

  lemma OnesLast(run: nat)
    requires run + 1 == MAX_RUN
    ensures LastFills(Cut(Ones(6) + Zeros(2)), run)
  {
    hide Ones, Zeros, NotZero;
    var x := Ones(6) + Zeros(2);
    OnesPacked(6, 2);
    assert x[..8] == x && x[8..] == [];
    CutNothing();
  }

  /** 2046 ones, with more ones behind them in memory: the padding that comes back is not zero. */
  lemma RoundTripFails()
    ensures ShortEnd(Ones(2046)) && Unpack(Pack(Ones(2046), Ones(7)), 0) != Some(Padded(Ones(2046)))
  {
    hide Ones, Zeros, Unpack, Pack, LastFills, Cut;
    OnesFill(255, 0);
    RoundTrip(Ones(2046), Ones(7), 0);
    OnesPacked(2, 0);
    OnesDrop(7, 2);
    assert Ones(2) + Zeros(0) == Ones(2) by { NoZeros(); }
    NotZeroAppend([], 2);
    assert [] + Zeros(2) == Zeros(2);
  }
}
