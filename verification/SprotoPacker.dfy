/** `sproto_pack` and `sproto_unpack`: in place, with a buffer that may be too small. */
module SprotoPacker {
  import opened Basics
  import opened SprotoPacking
  import opened SprotoTruncated

  // ---------------------------------------------------------------- segments

  lemma {:induction false} ConcatSlice(x: seq<Byte>, j: nat, k: nat)
    requires |x| % 8 == 0 && j <= k && 8 * k <= |x|
    ensures k <= |Cut(x)| && Concat(Cut(x)[j..k]) == x[8 * j..8 * k]
    decreases k - j
  {
    if j < k {
      ConcatSlice(x, j + 1, k);
      CutAt(x, j);
      assert Cut(x)[j..k] == [Cut(x)[j]] + Cut(x)[j + 1..k];
      assert x[8 * j..8 * k] == x[8 * j..8 * j + 8] + x[8 * (j + 1)..8 * k];
    }
  }

  /** How much the cursor advances for a segment when a run of `n` is open: in a run the bytes
      themselves, at the start of a run its mark and length as well. */
  function Advance(s: Seg, n: nat): nat {
    if InRun(s, n) then (if n > 0 then 8 else 10) else NotZero(s) + 1
  }

  /** Whether a segment becomes part of a run. */
  predicate InRun(s: Seg, n: nat) {
    NotZero(s) == 8 || (n > 0 && NotZero(s) >= 6)
  }

  lemma SliceSnoc(s: seq<Byte>, i: nat)
    requires 0 < i < |s|
    ensures s[..i + 1][1..] == s[1..][..i] && s[..i][1..] == s[1..][..i - 1] && s[1..][i - 1] == s[i]
    ensures s[..i + 1][0] == s[..i][0] == s[0]
  {
  }

  lemma {:induction false} PackedSnoc(s: seq<Byte>, i: nat)
    requires i < |s|
    ensures NotZero(s[..i + 1]) == NotZero(s[..i]) + (if s[i] != 0 then 1 else 0)
    ensures Packed(s[..i + 1]) == Packed(s[..i]) + (if s[i] != 0 then [s[i]] else [])
    decreases i
  {
    if i > 0 {
      PackedSnoc(s[1..], i - 1);
      SliceSnoc(s, i);
    }
  }

  lemma {:induction false} HeaderSnoc(s: seq<Byte>, i: nat)
    requires i < |s|
    ensures Header(s[..i + 1]) == Header(s[..i]) + (if s[i] != 0 then Pow2(i) else 0)
    decreases i
  {
    if i > 0 {
      HeaderSnoc(s[1..], i - 1);
      SliceSnoc(s, i);
    }
  }

  /** Writes a segment behind its header, as far as there is room, and says how far to advance. */
  method PackSeg(s: Seg, buffer: array<Byte>, at: nat, n: nat) returns (r: nat)
    modifies buffer
    ensures r == Advance(s, n)
    ensures forall k :: 0 <= k < at && k < buffer.Length ==> buffer[k] == old(buffer[k])
    ensures !InRun(s, n) && at + r <= buffer.Length ==> buffer[at..at + r] == PlainBytes(s)
  {
    hide Header, Packed, NotZero;
    var header, notzero, weight, i := 0, 0, 1, 0;
    var pos, room := at + 1, buffer.Length - at - 1;
    SliceNothing(s);
    while i < 8
      invariant 0 <= i <= 8 && weight == Pow2(i)
      invariant header == Header(s[..i]) && notzero == NotZero(s[..i]) == |Packed(s[..i])|
      invariant at + 1 <= pos && room == buffer.Length - pos && (room >= 0 ==> pos <= at + 1 + notzero)
      invariant room > 0 ==> pos == at + 1 + notzero
      invariant at + 1 + notzero <= buffer.Length ==> pos == at + 1 + notzero && buffer[at + 1..pos] == Packed(s[..i])
      invariant forall k :: 0 <= k < at && k < buffer.Length ==> buffer[k] == old(buffer[k])
    {
      PackedSnoc(s, i);
      HeaderSnoc(s, i);
      if s[i] != 0 {
        notzero := notzero + 1;
        header := header + weight;
        if room > 0 {
          buffer[pos] := s[i];
          pos := pos + 1;
          room := room - 1;
        }
      }
      weight := 2 * weight;
      i := i + 1;
    }
    assert s[..8] == s;
    if (notzero == 7 || notzero == 6) && n > 0 { notzero := 8; }
    if notzero == 8 { return if n > 0 then 8 else 10; }
    HeaderByte(s);
    if at < buffer.Length { buffer[at] := header; }
    r := notzero + 1;
  }

  lemma SliceNothing(s: seq<Byte>)
    ensures Header(s[..0]) == 0 && NotZero(s[..0]) == 0 && Packed(s[..0]) == []
  {
  }

  lemma HeaderByte(s: Seg)
    ensures Header(s) < 256
  {
    assert Pow2(8) == 256;
  }

  /** `b` is `b0` with `piece` put at `at`. */
  ghost predicate Put(b0: seq<Byte>, b: seq<Byte>, at: nat, piece: seq<Byte>) {
    |b| == |b0| && at + |piece| <= |b| && b[..at] == b0[..at] && b[at..at + |piece|] == piece &&
        b[at + |piece|..] == b0[at + |piece|..]
  }

  lemma PutIntro(b0: seq<Byte>, b: seq<Byte>, at: nat, piece: seq<Byte>)
    requires |b| == |b0| && at + |piece| <= |b|
    requires forall k :: 0 <= k < |b| ==> b[k] == if at <= k < at + |piece| then piece[k - at] else b0[k]
    ensures Put(b0, b, at, piece)
  {
  }

  method CopyBytes(memory: seq<Byte>, start: nat, n: nat, buffer: array<Byte>, at: nat)
    requires start + n <= |memory| && at + n <= buffer.Length
    modifies buffer
    ensures Put(old(buffer[..]), buffer[..], at, memory[start..start + n])
  {
    ghost var b0 := buffer[..];
    var i := 0;
    while i < n
      invariant 0 <= i <= n
      invariant forall k :: 0 <= k < buffer.Length ==> buffer[k] == if at <= k < at + i then memory[start + k - at]
                else b0[k]
    {
      buffer[at + i] := memory[start + i];
      i := i + 1;
    }
    PutIntro(b0, buffer[..], at, memory[start..start + n]);
  }

  method ZeroFill(buffer: array<Byte>, at: nat, n: nat)
    requires at + n <= buffer.Length
    modifies buffer
    ensures Put(old(buffer[..]), buffer[..], at, Zeros(n))
  {
    hide Zeros;
    ghost var b0 := buffer[..];
    var i := 0;
    while i < n
      invariant 0 <= i <= n
      invariant forall k :: 0 <= k < buffer.Length ==> buffer[k] == if at <= k < at + i then 0 else b0[k]
    {
      buffer[at + i] := 0;
      i := i + 1;
    }
    AllZeros(buffer[at..at + n]);
    PutIntro(b0, buffer[..], at, Zeros(n));
  }

  /** Writes a run: its mark, its length, `n` bytes of memory, and zeros up to a multiple of eight. */
  method WriteFf(memory: seq<Byte>, start: nat, n: nat, buffer: array<Byte>, at: nat)
    requires 0 < n <= 8 * MAX_RUN && start + n <= |memory| && at + 2 + n + Padding(n) <= buffer.Length
    modifies buffer
    ensures Put(old(buffer[..]), buffer[..], at, [FF, (n + Padding(n)) / 8 - 1] + memory[start..start + n] +
                Zeros(Padding(n)))
  {
    hide Zeros, Put;
    var all := n + Padding(n);
    ghost var b0 := buffer[..];
    buffer[at] := FF;
    buffer[at + 1] := all / 8 - 1;
    ghost var b1 := buffer[..];
    PutIntro(b0, b1, at, [FF, all / 8 - 1]);
    CopyBytes(memory, start, n, buffer, at + 2);
    ghost var b2 := buffer[..];
    PutTwo(b0, b1, b2, at, [FF, all / 8 - 1], memory[start..start + n]);
    ZeroFill(buffer, at + 2 + n, all - n);
    PutTwo(b0, b2, buffer[..], at, [FF, all / 8 - 1] + memory[start..start + n], Zeros(Padding(n)));
  }

  lemma PutAt(b0: seq<Byte>, b: seq<Byte>, at: nat, piece: seq<Byte>, k: nat)
    requires Put(b0, b, at, piece) && k < |b|
    ensures |b| == |b0| && at + |piece| <= |b| && b[k] == if at <= k < at + |piece| then piece[k - at] else b0[k]
  {
    if k < at { assert b[..at][k] == b0[..at][k]; }
    else if k < at + |piece| { assert b[at..at + |piece|][k - at] == b[k]; }
    else { assert b[at + |piece|..][k - at - |piece|] == b0[at + |piece|..][k - at - |piece|]; }
  }

  /** Two pieces written one behind the other. */
  lemma PutTwo(b0: seq<Byte>, b1: seq<Byte>, b2: seq<Byte>, at: nat, p: seq<Byte>, q: seq<Byte>)
    requires Put(b0, b1, at, p) && Put(b1, b2, at + |p|, q)
    ensures Put(b0, b2, at, p + q)
  {
    hide Put;
    PutLength(b0, b1, at, p);
    PutLength(b1, b2, at + |p|, q);
    forall k | 0 <= k < |b2| ensures b2[k] == if at <= k < at + |p + q| then (p + q)[k - at] else b0[k] {
      PutAt(b0, b1, at, p, k);
      PutAt(b1, b2, at + |p|, q, k);
    }
    PutIntro(b0, b2, at, p + q);
  }

  lemma PutLength(b0: seq<Byte>, b: seq<Byte>, at: nat, piece: seq<Byte>)
    requires Put(b0, b, at, piece)
    ensures |b| == |b0| && at + |piece| <= |b|
  {
  }

  lemma PutAfter(b0: seq<Byte>, b: seq<Byte>, at: nat, piece: seq<Byte>)
    requires Put(b0, b, at, piece)
    ensures |b| == |b0| && at + |piece| <= |b| && b[..at + |piece|] == b0[..at] + piece
  {
    assert b[..at + |piece|] == b[..at] + b[at..at + |piece|];
  }

  lemma {:induction false} AllZeros(z: seq<Byte>)
    requires forall k :: 0 <= k < |z| ==> z[k] == 0
    ensures z == Zeros(|z|)
    decreases |z|
  {
    if z != [] { AllZeros(z[1..]); assert z == [z[0]] + z[1..]; }
  }

  // ---------------------------------------------------------------- packing

  /** The input, its segments, and what they are packed to. */
  datatype Job = Job(memory: seq<Byte>, size: nat) {
    ghost predicate Valid() { size + 7 <= |memory| }

    ghost function Input(): seq<Byte>
      requires Valid()
    {
      memory[..size]
    }

    ghost function Segs(): seq<Seg>
      requires Valid()
    {
      Cut(Padded(Input()))
    }

    ghost function Last(): Seg
      requires Valid()
    {
      LastInMemory(Input(), memory[size..])
    }
  }

  lemma SegCount(job: Job)
    requires job.Valid()
    ensures |job.Segs()| == (job.size + 7) / 8
  {
  }

  /** A segment as the loop reads it: from the input, and padded with zeros at the end. */
  lemma SegRead(job: Job, k: nat)
    requires job.Valid() && 8 * k < job.size
    ensures k < |job.Segs()|
    ensures 8 * k + 8 <= job.size ==> job.Segs()[k] == job.memory[8 * k..8 * k + 8]
    ensures 8 * k + 8 > job.size ==> job.Segs()[k] == job.memory[8 * k..job.size] + Zeros(8 * k + 8 - job.size)
  {
    hide Cut, Zeros, Padded;
    PaddedLength(job.Input());
    CutAt(Padded(job.Input()), k);
    if 8 * k + 8 <= job.size { WholeRead(job, k); } else { PartRead(job, k); }
  }

  lemma PaddedLength(x: seq<Byte>)
    ensures |x| <= |Padded(x)| < |x| + 8
  {
    hide Zeros, Padding;
    PaddingIs(|x|);
  }

  lemma WholeRead(job: Job, k: nat)
    requires job.Valid() && 8 * k + 8 <= job.size
    ensures var r := Padded(job.Input());
            8 * k + 8 <= |r| && r[8 * k..8 * k + 8] == job.memory[8 * k..8 * k + 8]
  {
    hide Zeros, Padding;
  }

  lemma PartRead(job: Job, k: nat)
    requires job.Valid() && 8 * k < job.size < 8 * k + 8
    ensures var r := Padded(job.Input());
            8 * k + 8 <= |r| && r[8 * k..8 * k + 8] == job.memory[8 * k..job.size] + Zeros(8 * k + 8 - job.size)
  {
    hide Zeros, Padding, Padded;
    var x := job.Input();
    PaddedLength(x);
    PaddedTail(x);
    assert |x| - |x| % 8 == 8 * k && |Padded(x)| == 8 * k + 8;
    assert x[8 * k..] == job.memory[8 * k..job.size];
  }

  /** The bytes of a run of whole segments, as they are in memory. */
  lemma RunRead(job: Job, j: nat, k: nat)
    requires job.Valid() && j <= k && 8 * k <= job.size
    ensures k <= |job.Segs()| && Concat(job.Segs()[j..k]) == job.memory[8 * j..8 * k]
  {
    hide Cut, Zeros;
    ConcatSlice(Padded(job.Input()), j, k);
    assert Padded(job.Input())[8 * j..8 * k] == job.memory[8 * j..8 * k];
  }

  lemma LastRead(job: Job)
    requires job.Valid() && job.size > 0
    ensures var k := (job.size + 7) / 8 - 1; 8 * k < job.size && job.Last() == job.memory[8 * k..8 * k + 8]
  {
    hide Zeros, Padding;
    PaddingIs(job.size);
    var k := (job.size + 7) / 8 - 1;
    if job.size % 8 == 0 {
      assert job.size == 8 * k + 8;
      SliceSlice(job.memory[..job.size], 8 * k, 0, 8);
    } else {
      assert job.size - job.size % 8 == 8 * k && job.size + Padding(job.size) == 8 * k + 8;
      AcrossEnd(job.memory, job.size, 8 * k, Padding(job.size));
    }
  }

  /** The bytes before and behind the end of the input, side by side in memory. */
  lemma AcrossEnd(memory: seq<Byte>, size: nat, start: nat, p: nat)
    requires start <= size && size + p <= |memory|
    ensures memory[..size][start..] + memory[size..][..p] == memory[start..size + p]
  {
  }

  /** The last segment of a full run, which may be the last one of the input. */
  lemma FullSegRead(job: Job, k: nat)
    requires job.Valid() && 8 * k < job.size
    ensures var segs := job.Segs();
            k < |segs| && (if k + 1 == |segs| then job.Last() else segs[k]) == job.memory[8 * k..8 * k + 8]
  {
    hide Cut, Zeros, LastInMemory;
    SegCount(job);
    if k + 1 == |job.Segs()| { LastRead(job); } else { SegRead(job, k); }
  }

  /** A full run, the last segment of which may be the last one of the input. */
  lemma FullRunRead(job: Job, j: nat, k: nat)
    requires job.Valid() && j <= k && 8 * k < job.size
    ensures var segs := job.Segs();
            && k < |segs|
            && Concat(segs[j..k] + [if k + 1 == |segs| then job.Last() else segs[k]]) == job.memory[8 * j..8 * k + 8]
  {
    hide Cut, Zeros, LastInMemory, Concat;
    var segs := job.Segs();
    FullSegRead(job, k);
    RunRead(job, j, k);
    OneMoreRead(job.memory, segs[j..k], if k + 1 == |segs| then job.Last() else segs[k], j, k);
  }

  lemma OneMoreRead(memory: seq<Byte>, run: seq<Seg>, s: Seg, j: nat, k: nat)
    requires j <= k && 8 * k + 8 <= |memory|
    requires Concat(run) == memory[8 * j..8 * k] && s == memory[8 * k..8 * k + 8]
    ensures Concat(run + [s]) == memory[8 * j..8 * k + 8]
  {
    hide Concat;
    ConcatAppend(run, [s]);
    ConcatOne(s);
    assert memory[8 * j..8 * k + 8] == memory[8 * j..8 * k] + memory[8 * k..8 * k + 8];
  }

  /** The run that is open at the end of the input, padded with zeros. */
  lemma EndRunRead(job: Job, j: nat)
    requires job.Valid() && 8 * j < job.size
    ensures var segs := job.Segs();
            j <= |segs| && Concat(segs[j..]) == job.memory[8 * j..job.size] + Zeros(Padding(job.size))
    ensures Padding(job.size - 8 * j) == Padding(job.size)
  {
    hide Cut, Zeros, Padding;
    var x, r := job.Input(), Padded(job.Input());
    ConcatSlice(r, j, |r| / 8);
    assert job.Segs()[j..|r| / 8] == job.Segs()[j..] && r[8 * j..8 * (|r| / 8)] == r[8 * j..];
    DropAppend(x, Zeros(Padding(job.size)), 8 * j);
    assert x[8 * j..] == job.memory[8 * j..job.size];
    PaddingShort(job.size, j);
  }

  lemma PaddingShort(n: nat, j: nat)
    requires 8 * j <= n
    ensures Padding(n - 8 * j) == Padding(n)
  {
    hide Padding;
    PaddingIs(n);
    PaddingIs(n - 8 * j);
  }

  // One segment more.

  lemma EmitFirst(segs: seq<Seg>, k: nat, last: Seg)
    requires k < |segs| && NotZero(segs[k]) == 8
    ensures Emit(segs[k..], last, []) == Emit(segs[k + 1..], last, segs[k..k + 1])
  {
    assert segs[k..][1..] == segs[k + 1..] && segs[k..k + 1] == [segs[k]];
  }

  lemma EmitMore(segs: seq<Seg>, j: nat, k: nat, last: Seg)
    requires j < k < |segs| && k - j + 1 < MAX_RUN && NotZero(segs[k]) >= 6
    ensures Emit(segs[k..], last, segs[j..k]) == Emit(segs[k + 1..], last, segs[j..k + 1])
  {
    assert segs[k..][1..] == segs[k + 1..] && segs[j..k] + [segs[k]] == segs[j..k + 1];
  }

  lemma EmitFull(segs: seq<Seg>, j: nat, k: nat, last: Seg)
    requires j < k < |segs| && k - j + 1 == MAX_RUN && NotZero(segs[k]) >= 6
    ensures Emit(segs[k..], last, segs[j..k]) ==
              RunBytes(segs[j..k] + [if k + 1 == |segs| then last else segs[k]]) + Emit(segs[k + 1..], last, [])
  {
    assert segs[k..][1..] == segs[k + 1..];
  }

  lemma EmitPlain(segs: seq<Seg>, j: nat, k: nat, last: Seg)
    requires j <= k < |segs| && k - j < MAX_RUN && !InRun(segs[k], k - j)
    ensures Emit(segs[k..], last, segs[j..k]) ==
              (if j == k then [] else RunBytes(segs[j..k])) + PlainBytes(segs[k]) + Emit(segs[k + 1..], last, [])
  {
    assert segs[k..][1..] == segs[k + 1..];
  }

  /** The variables of the loop: how much has been put out, and the run that is open, if `ffN > 0`:
      where it starts in memory, and where its mark goes. */
  datatype Cursor = Cursor(size: nat, ffN: nat, ffSrc: nat, ffDes: nat) {
    function Base(): nat { if ffN > 0 then ffDes else size }
  }

  /** After `k` segments: what is put out for sure, `done`, is in the buffer if the buffer is large
      enough so far, and what is still to come completes it. */
  ghost predicate Progress(job: Job, buffer: seq<Byte>, k: nat, c: Cursor, done: seq<Byte>, total: seq<Byte>)
    requires job.Valid()
  {
    var segs := job.Segs();
    && c.ffN < MAX_RUN && c.ffN <= k <= |segs|
    && c.size == c.Base() + (if c.ffN > 0 then 2 + 8 * c.ffN else 0)
    && (c.ffN > 0 ==> c.ffSrc == 8 * (k - c.ffN) && NotZero(segs[k - c.ffN]) == 8)
    && |done| == c.Base() && (c.size <= |buffer| ==> buffer[..c.Base()] == done)
    && done + Emit(segs[k..], job.Last(), segs[k - c.ffN..k]) == total
  }

  /** The segment at `8 * k`, padded with zeros if it is the last one. */
  method ReadSeg(job: Job, k: nat) returns (s: Seg)
    requires job.Valid() && 8 * k < job.size
    ensures k < |job.Segs()| && s == job.Segs()[k]
  {
    hide Zeros, Cut;
    SegRead(job, k);
    var i := 8 * k;
    if i + 8 > job.size {
      var tmp := new Byte[8];
      CopyBytes(job.memory, i, job.size - i, tmp, 0);
      ZeroFill(tmp, job.size - i, i + 8 - job.size);
      s := tmp[..];
      assert s == s[..job.size - i] + s[job.size - i..];
    } else {
      s := job.memory[i..i + 8];
    }
  }

  /** The first segment of a run. */
  lemma StartsRun(job: Job, b: seq<Byte>, b1: seq<Byte>, k: nat, c: Cursor, done: seq<Byte>, total: seq<Byte>)
    requires job.Valid() && Progress(job, b, k, c, done, total) && 8 * k < job.size && k < |job.Segs()|
    requires c.ffN == 0 && NotZero(job.Segs()[k]) == 8
    requires |b1| == |b| && (c.size <= |b| ==> b1[..c.size] == b[..c.size])
    ensures Progress(job, b1, k + 1, Cursor(c.size + 10, 1, 8 * k, c.size), done, total)
  {
    hide Emit, Job.Segs, Job.Last;
    EmitFirst(job.Segs(), k, job.Last());
    assert job.Segs()[k - 0..k] == [];
  }

  lemma GoesOn(job: Job, b: seq<Byte>, b1: seq<Byte>, k: nat, c: Cursor, done: seq<Byte>, total: seq<Byte>)
    requires job.Valid() && Progress(job, b, k, c, done, total) && 8 * k < job.size && k < |job.Segs()|
    requires c.ffN > 0 && c.ffN + 1 < MAX_RUN && NotZero(job.Segs()[k]) >= 6
    requires |b1| == |b| && (c.size <= |b| ==> b1[..c.size] == b[..c.size])
    ensures Progress(job, b1, k + 1, Cursor(c.size + 8, c.ffN + 1, c.ffSrc, c.ffDes), done, total)
  {
    hide Emit, Job.Segs, Job.Last;
    EmitMore(job.Segs(), k - c.ffN, k, job.Last());
    if c.size <= |b| { assert b1[..c.ffDes] == b1[..c.size][..c.ffDes] && b[..c.ffDes] == b[..c.size][..c.ffDes]; }
  }

  lemma FillsRun(job: Job, b: seq<Byte>, b1: seq<Byte>, k: nat, c: Cursor, done: seq<Byte>, total: seq<Byte>)
      returns (done1: seq<Byte>)
    requires job.Valid() && Progress(job, b, k, c, done, total) && 8 * k < job.size && k < |job.Segs()|
    requires c.ffN > 0 && c.ffN + 1 == MAX_RUN && NotZero(job.Segs()[k]) >= 6
    requires c.ffSrc + 8 * MAX_RUN <= |job.memory|
    requires |b1| == |b|
    requires c.size + 8 <= |b| ==>
               b1[..c.ffDes] == b[..c.ffDes] && b1[c.ffDes..c.size + 8] == [FF, MAX_RUN - 1] +
                   job.memory[c.ffSrc..c.ffSrc + 8 * MAX_RUN]
    ensures Progress(job, b1, k + 1, Cursor(c.size + 8, 0, c.ffSrc, c.ffDes), done1, total)
  {
    hide Emit, Job.Segs, Job.Last;
    var segs, j := job.Segs(), k - c.ffN;
    EmitFull(segs, j, k, job.Last());
    FullRunRead(job, j, k);
    var run := RunBytes(segs[j..k] + [if k + 1 == |segs| then job.Last() else segs[k]]);
    done1 := done + run;
    assert segs[k + 1 - 0..k + 1] == [];
    assert done + (run + Emit(segs[k + 1..], job.Last(), [])) == done1 + Emit(segs[k + 1..], job.Last(), []);
    if c.size + 8 <= |b| { assert b1[..c.size + 8] == b1[..c.ffDes] + b1[c.ffDes..c.size + 8]; }
  }

  /** What a segment puts out that is not part of the run before it. */
  ghost function PutOut(job: Job, k: nat, n: nat): seq<Byte>
    requires job.Valid() && n <= k < |job.Segs()| && n < MAX_RUN
  {
    (if n == 0 then [] else RunBytes(job.Segs()[k - n..k])) + PlainBytes(job.Segs()[k])
  }

  lemma EndsRun(job: Job, b: seq<Byte>, b1: seq<Byte>, k: nat, c: Cursor, done: seq<Byte>, total: seq<Byte>, n: nat)
    requires job.Valid() && Progress(job, b, k, c, done, total) && k < |job.Segs()|
    requires !InRun(job.Segs()[k], c.ffN) && n == Advance(job.Segs()[k], c.ffN)
    requires |b1| == |b| && (c.size + n <= |b| ==> b1[..c.size + n] == done + PutOut(job, k, c.ffN))
    ensures Progress(job, b1, k + 1, Cursor(c.size + n, 0, c.ffSrc, c.ffDes), done + PutOut(job, k, c.ffN), total)
  {
    hide Emit, Job.Segs, Job.Last, RunBytes, PlainBytes, NotZero;
    var segs, j := job.Segs(), k - c.ffN;
    EmitPlain(segs, j, k, job.Last());
    PlainSize(segs[k]);
    assert segs[k + 1 - 0..k + 1] == [];
    var rest := Emit(segs[k + 1..], job.Last(), []);
    assert done + (PutOut(job, k, c.ffN) + rest) == done + PutOut(job, k, c.ffN) + rest;
  }

  /** Once the run before it has been written, the buffer holds what a segment puts out. */
  lemma PutOutIs(job: Job, b1: seq<Byte>, k: nat, c: Cursor, done: seq<Byte>, end: nat)
    requires job.Valid() && c.ffN <= k < |job.Segs()| && c.ffN < MAX_RUN && 8 * k < job.size
    requires c.Base() <= c.size <= end <= |b1| && b1[..c.Base()] == done && b1[c.size..end] == PlainBytes(job.Segs()[k])
    requires if c.ffN > 0 then c.ffSrc == 8 * (k - c.ffN) &&
             b1[c.Base()..c.size] == [FF, c.ffN - 1] + job.memory[c.ffSrc..c.ffSrc + 8 * c.ffN]
             else c.Base() == c.size
    ensures b1[..end] == done + PutOut(job, k, c.ffN)
  {
    hide Job.Segs, RunBytes, PlainBytes;
    if c.ffN > 0 { RunPutOut(job, k, c.ffN); }
    assert PutOut(job, k, c.ffN) == b1[c.Base()..c.size] + b1[c.size..end];
    Three(b1, c.Base(), c.size, end);
  }

  lemma RunPutOut(job: Job, k: nat, n: nat)
    requires job.Valid() && 0 < n <= k < |job.Segs()| && n < MAX_RUN && 8 * k < job.size
    ensures RunBytes(job.Segs()[k - n..k]) == [FF, n - 1] + job.memory[8 * (k - n)..8 * (k - n) + 8 * n]
  {
    hide Job.Segs, RunBytes;
    RunRead(job, k - n, k);
    RunIs(job.Segs()[k - n..k]);
  }

  lemma RunIs(run: seq<Seg>)
    requires 1 <= |run| <= MAX_RUN
    ensures RunBytes(run) == [FF, |run| - 1] + Concat(run)
  {
  }

  lemma Three(b: seq<Byte>, i: nat, j: nat, k: nat)
    requires i <= j <= k <= |b|
    ensures b[..k] == b[..i] + (b[i..j] + b[j..k])
  {
  }

  /** Writes a run of `n` whole segments. */
  method WriteRun(memory: seq<Byte>, start: nat, n: nat, buffer: array<Byte>, at: nat)
    requires 0 < n <= MAX_RUN && start + 8 * n <= |memory| && at + 2 + 8 * n <= buffer.Length
    modifies buffer
    ensures Put(old(buffer[..]), buffer[..], at, [FF, n - 1] + memory[start..start + 8 * n])
  {
    hide Put;
    WriteFf(memory, start, n * 8, buffer, at);
    assert [FF, n - 1] + memory[start..start + 8 * n] + Zeros(0) == [FF, n - 1] + memory[start..start + 8 * n];
  }

  /** One turn of the loop of `sproto_pack`. */
  method PackOne(job: Job, buffer: array<Byte>, k: nat, c: Cursor, ghost done: seq<Byte>, ghost total: seq<Byte>)
    returns (next: Cursor, ghost done1: seq<Byte>)
    requires job.Valid() && 8 * k < job.size && Progress(job, buffer[..], k, c, done, total)
    modifies buffer
    ensures Progress(job, buffer[..], k + 1, next, done1, total)
  {
    hide Progress, Job.Segs, Job.Last, RunBytes, PlainBytes, NotZero, Advance, InRun, PutOut;
    ProgressFacts(job, buffer[..], k, c, done, total);
    ghost var b := buffer[..];
    var s := ReadSeg(job, k);
    var n := PackSeg(s, buffer, c.size, c.ffN);
    AdvanceFacts(s, c.ffN);
    assert c.size <= |b| ==> buffer[..c.size] == b[..c.size];
    done1 := done;
    if n == 10 {
      next := Cursor(c.size + 10, 1, 8 * k, c.size);
      StartsRun(job, b, buffer[..], k, c, done, total);
    } else if n == 8 && c.ffN > 0 {
      if c.ffN + 1 == MAX_RUN {
        next, done1 := FillRun(job, buffer, k, c, b, done, total);
      } else {
        next := Cursor(c.size + 8, c.ffN + 1, c.ffSrc, c.ffDes);
        GoesOn(job, b, buffer[..], k, c, done, total);
      }
    } else {
      next, done1 := EndRun(job, buffer, k, c, n, b, done, total);
    }
  }

  /** The 256th segment of a run. */
  method FillRun(job: Job, buffer: array<Byte>, k: nat, c: Cursor, ghost b: seq<Byte>, ghost done: seq<Byte>,
                 ghost total: seq<Byte>)
    returns (next: Cursor, ghost done1: seq<Byte>)
    requires job.Valid() && 8 * k < job.size && Progress(job, b, k, c, done, total) && k < |job.Segs()|
    requires c.ffN > 0 && c.ffN + 1 == MAX_RUN && NotZero(job.Segs()[k]) >= 6
    requires |b| == buffer.Length && (c.size <= |b| ==> buffer[..c.size] == b[..c.size])
    modifies buffer
    ensures Progress(job, buffer[..], k + 1, next, done1, total)
  {
    hide Progress, Job.Segs, Job.Last, NotZero;
    ProgressFacts(job, b, k, c, done, total);
    FullRunFits(job, k, c.ffN);
    if c.size + 8 <= buffer.Length {
      assert b[..c.ffDes] == b[..c.size][..c.ffDes] == buffer[..c.ffDes];
      WriteRun(job.memory, c.ffSrc, MAX_RUN, buffer, c.ffDes);
    }
    next := Cursor(c.size + 8, 0, c.ffSrc, c.ffDes);
    done1 := FillsRun(job, b, buffer[..], k, c, done, total);
  }

  /** A segment that is not part of a run. */
  method EndRun(job: Job, buffer: array<Byte>, k: nat, c: Cursor, n: nat, ghost b: seq<Byte>, ghost done: seq<Byte>,
                ghost total: seq<Byte>)
    returns (next: Cursor, ghost done1: seq<Byte>)
    requires job.Valid() && 8 * k < job.size && Progress(job, b, k, c, done, total) && k < |job.Segs()|
    requires !InRun(job.Segs()[k], c.ffN) && n == Advance(job.Segs()[k], c.ffN)
    requires |b| == buffer.Length && (c.size <= |b| ==> buffer[..c.size] == b[..c.size])
    requires c.size + n <= |b| ==> buffer[c.size..c.size + n] == PlainBytes(job.Segs()[k])
    modifies buffer
    ensures Progress(job, buffer[..], k + 1, next, done1, total)
  {
    hide Progress, Job.Segs, Job.Last, NotZero, PlainBytes, PutOut, Advance, InRun;
    ProgressFacts(job, b, k, c, done, total);
    if c.size + n <= buffer.Length {
      assert buffer[..c.Base()] == buffer[..c.size][..c.Base()] == b[..c.size][..c.Base()] == done;
      if c.ffN > 0 {
        ghost var was := buffer[c.size..];
        assert buffer[c.size..c.size + n] == was[..n];
        WriteRun(job.memory, c.ffSrc, c.ffN, buffer, c.ffDes);
        assert buffer[c.size..c.size + n] == buffer[c.size..][..n];
      }
      PutOutIs(job, buffer[..], k, c, done, c.size + n);
    }
    next := Cursor(c.size + n, 0, c.ffSrc, c.ffDes);
    EndsRun(job, b, buffer[..], k, c, done, total, n);
    done1 := done + PutOut(job, k, c.ffN);
  }

  lemma ProgressFacts(job: Job, b: seq<Byte>, k: nat, c: Cursor, done: seq<Byte>, total: seq<Byte>)
    requires job.Valid() && Progress(job, b, k, c, done, total)
    ensures c.ffN < MAX_RUN && c.ffN <= k && c.size == c.Base() + (if c.ffN > 0 then 2 + 8 * c.ffN else 0) &&
            |done| == c.Base()
    ensures c.ffN > 0 ==> c.ffSrc == 8 * (k - c.ffN)
    ensures c.size <= |b| ==> b[..c.Base()] == done
  {
  }

  lemma AdvanceFacts(s: Seg, n: nat)
    ensures Advance(s, n) == 10 <==> n == 0 && NotZero(s) == 8
    ensures n > 0 ==> (Advance(s, n) == 8 <==> NotZero(s) >= 6)
    ensures Advance(s, n) != 10 && !(Advance(s, n) == 8 && n > 0) ==> !InRun(s, n)
    ensures InRun(s, n) ==> Advance(s, n) == 10 || (Advance(s, n) == 8 && n > 0)
  {
  }

  lemma FullRunFits(job: Job, k: nat, n: nat)
    requires job.Valid() && 8 * k < job.size && n <= k && n + 1 == MAX_RUN
    ensures 8 * (k - n) + 8 * MAX_RUN <= |job.memory|
  {
  }

  /** Packs the first `size` bytes of memory.  Nothing is written outside the buffer, and what is
      returned is the size needed, whether or not there is room for it. */
  method SprotoPack(job: Job, buffer: array<Byte>) returns (size: nat)
    requires job.Valid()
    modifies buffer
    ensures var packed := Pack(job.memory[..job.size], job.memory[job.size..]);
            size == |packed| && (size <= buffer.Length ==> buffer[..size] == packed)
  {
    hide Progress, Job.Segs, Job.Last, Pack;
    ghost var total, done := Pack(job.memory[..job.size], job.memory[job.size..]), [];
    var c, k := Cursor(0, 0, 0, 0), 0;
    ProgressStarts(job, buffer[..]);
    SegCount(job);
    while 8 * k < job.size
      invariant 8 * k < job.size + 8 && Progress(job, buffer[..], k, c, done, total)
    {
      c, done := PackOne(job, buffer, k, c, done, total);
      k := k + 1;
    }
    PackEnd(job, buffer, k, c, done, total);
    size := c.size;
  }

  lemma ProgressStarts(job: Job, b: seq<Byte>)
    requires job.Valid()
    ensures Progress(job, b, 0, Cursor(0, 0, 0, 0), [], Pack(job.memory[..job.size], job.memory[job.size..]))
  {
    hide Cut, Emit;
    assert job.Segs()[0..] == job.Segs() && job.Segs()[0..0] == [];
  }

  /** Writes the run that is still open at the end. */
  method PackEnd(job: Job, buffer: array<Byte>, k: nat, c: Cursor, ghost done: seq<Byte>, ghost total: seq<Byte>)
    requires job.Valid() && job.size <= 8 * k < job.size + 8 && Progress(job, buffer[..], k, c, done, total)
    modifies buffer
    ensures c.size == |total| && (c.size <= buffer.Length ==> buffer[..c.size] == total)
  {
    hide Progress, Job.Segs, Job.Last, RunBytes, NotZero, Emit, Zeros, Put;
    ghost var b := buffer[..];
    ProgressFacts(job, b, k, c, done, total);
    ProgressEnds(job, b, k, c, done, total);
    if c.size <= buffer.Length {
      assert b[..c.Base()] == done;
      if c.ffN == 1 {
        WriteFf(job.memory, c.ffSrc, 8, buffer, c.ffDes);
        PutAfter(b, buffer[..], c.ffDes, [FF, 0] + job.memory[c.ffSrc..c.ffSrc + 8] + Zeros(0));
      } else if c.ffN > 1 {
        ghost var n := job.size - c.ffSrc;
        WriteFf(job.memory, c.ffSrc, job.size - c.ffSrc, buffer, c.ffDes);
        PutAfter(b, buffer[..], c.ffDes, [FF, c.ffN - 1] + job.memory[c.ffSrc..job.size] + Zeros(Padding(n)));
      }
      assert buffer[..c.size] == buffer[..][..c.size];
    }
  }

  lemma ProgressEnds(job: Job, b: seq<Byte>, k: nat, c: Cursor, done: seq<Byte>, total: seq<Byte>)
    requires job.Valid() && job.size <= 8 * k < job.size + 8 && Progress(job, b, k, c, done, total)
    ensures c.ffN == 0 ==> total == done
    ensures c.ffN == 1 ==> c.ffSrc + 8 == job.size && Padding(8) == 0 &&
                           total == done + ([FF, 0] + job.memory[c.ffSrc..c.ffSrc + 8] + Zeros(0))
    ensures c.ffN > 1 ==> var n := job.size - c.ffSrc;
              && 0 < n <= 8 * MAX_RUN && n + Padding(n) == 8 * c.ffN
              && total == done + ([FF, c.ffN - 1] + job.memory[c.ffSrc..job.size] + Zeros(Padding(n)))
  {
    hide Job.Last, Job.Segs, Emit, NotZero, Zeros;
    var segs := job.Segs();
    SegCount(job);
    assert segs[k..] == [] && segs[k - c.ffN..k] == segs[k - c.ffN..];
    if c.ffN > 0 {
      OpenRunEnds(job, k, c.ffN);
      if c.ffN == 1 { WholeSeg(job, k - 1); }
    } else {
      EmitNothing(job.Last());
      assert segs[k..] == [];
    }
  }

  /** What the run that is open at the end puts out. */
  lemma OpenRunEnds(job: Job, k: nat, n: nat)
    requires job.Valid() && job.size <= 8 * k < job.size + 8 && 0 < n < MAX_RUN && n <= k == |job.Segs()|
    ensures var start := 8 * (k - n);
            && start < job.size && job.size - start + Padding(job.size - start) == 8 * n
            && Emit([], job.Last(), job.Segs()[k - n..]) == [FF, n - 1] + job.memory[start..job.size] +
                Zeros(Padding(job.size - start))
  {
    hide Job.Last, Job.Segs, NotZero, Zeros, Emit, Concat;
    var run := job.Segs()[k - n..];
    EndRunRead(job, k - n);
    RunIs(run);
    EmitRun(run, job.Last());
    var m, z := job.memory[8 * (k - n)..job.size], Zeros(Padding(job.size));
    assert [FF, n - 1] + (m + z) == [FF, n - 1] + m + z;
  }

  lemma EmitRun(run: seq<Seg>, last: Seg)
    requires 1 <= |run| < MAX_RUN
    ensures Emit([], last, run) == RunBytes(run)
  {
  }

  /** A segment without zeros is not padded. */
  lemma WholeSeg(job: Job, k: nat)
    requires job.Valid() && k < |job.Segs()| && 8 * k < job.size && NotZero(job.Segs()[k]) == 8
    ensures 8 * k + 8 <= job.size
  {
    hide Job.Segs, Zeros, NotZero;
    SegRead(job, k);
    if 8 * k + 8 > job.size { NotZeroAppend(job.memory[8 * k..job.size], 8 * k + 8 - job.size); }
  }

  // ---------------------------------------------------------------- unpacking

  /** Puts a byte into the buffer if there is room. */
  method PutByte(buffer: array<Byte>, at: nat, b: Byte)
    modifies buffer
    ensures forall k :: 0 <= k < at && k < buffer.Length ==> buffer[k] == old(buffer[k])
    ensures at < buffer.Length ==> buffer[at] == b
  {
    if at < buffer.Length { buffer[at] := b; }
  }

  /** What is left of the input at `pos`, which may be one past its end. */
  ghost function Left(src: seq<Byte>, pos: nat): Input {
    if pos <= |src| then Input(src[pos..], false) else Input([], true)
  }

  ghost function Continue(bytes: seq<Byte>, r: Option<Spreading>): Option<Spreading> {
    if r.None? then None else Some(Spreading(bytes + r.value.bytes, r.value.left))
  }

  lemma ContinueNone(r: Option<Spreading>)
    ensures Continue([], r) == r
  {
    if r.Some? { assert [] + r.value.bytes == r.value.bytes; }
  }

  lemma ContinueOne(bytes: seq<Byte>, b: Byte, r: Option<Spreading>)
    ensures Continue(bytes, Continue([b], r)) == Continue(bytes + [b], r)
  {
    if r.Some? { assert bytes + ([b] + r.value.bytes) == bytes + [b] + r.value.bytes; }
  }

  lemma SpreadStep(h: nat, k: nat, src: seq<Byte>, pos: nat, beyond: Byte)
    requires k > 0 && pos <= |src| + 1
    ensures Spread(h, k, Left(src, pos), beyond) ==
              if h % 2 == 0 then Continue([0], Spread(h / 2, k - 1, Left(src, pos), beyond))
              else if pos > |src| then None
              else Continue([if pos < |src| then src[pos] else beyond],
                            Spread(h / 2, k - 1, Left(src, pos + 1), beyond))
  {
    if pos < |src| { assert src[pos..][1..] == src[pos + 1..]; }
  }

  /** The eight bytes of a header.  `pos` may go one past the end of the input: the byte there, `beyond`,
      is taken before the end is noticed. */
  method UnpackSeg(src: seq<Byte>, beyond: Byte, header: Byte, from: nat, buffer: array<Byte>, size: nat)
    returns (ok: bool, pos: nat, ghost bytes: seq<Byte>)
    requires from <= |src|
    modifies buffer
    ensures forall k :: 0 <= k < size && k < buffer.Length ==> buffer[k] == old(buffer[k])
    ensures var r := Spread(header, 8, Input(src[from..], false), beyond);
            if ok then
              && from <= pos <= |src| + 1 && |bytes| == 8
              && r == Some(Spreading(bytes, Left(src, pos)))
              && (size + 8 <= buffer.Length ==> buffer[size..size + 8] == bytes)
            else r == None
  {
    hide Spread;
    var rest, i := header as nat, 0;
    pos, ok, bytes := from, true, [];
    ghost var r := Spread(header, 8, Input(src[from..], false), beyond);
    ContinueNone(r);
    while i < 8
      invariant 0 <= i <= 8 && from <= pos <= |src| + 1 && |bytes| == i
      invariant r == Continue(bytes, Spread(rest, 8 - i, Left(src, pos), beyond))
      invariant forall k :: 0 <= k < size && k < buffer.Length ==> buffer[k] == old(buffer[k])
      invariant size + i <= buffer.Length ==> buffer[size..size + i] == bytes
    {
      SpreadStep(rest, 8 - i, src, pos, beyond);
      var b: Byte := 0;
      if rest % 2 == 1 {
        if pos > |src| { return false, pos, bytes; }
        b := if pos < |src| then src[pos] else beyond;
        pos := pos + 1;
      }
      ghost var was := buffer[..];
      PutByte(buffer, size + i, b);
      assert size + i + 1 <= buffer.Length ==> buffer[size..size + i] == was[size..size + i];
      ContinueOne(bytes, b, Spread(rest / 2, 8 - i - 1, Left(src, pos), beyond));
      bytes := bytes + [b];
      rest := rest / 2;
      i := i + 1;
    }
    SpreadNothing(rest, Left(src, pos), beyond);
    assert bytes + [] == bytes;
  }

  /** Unpacks `src`; `beyond` is the byte that follows it in memory. */
  method SprotoUnpack(src: seq<Byte>, beyond: Byte, buffer: array<Byte>) returns (size: int)
    modifies buffer
    ensures var r := Unpack(src, beyond);
            if size < 0 then size == -1 && r == None
            else r.Some? && size == |r.value| && (size <= buffer.Length ==> buffer[..size] == r.value)
    ensures size < 0 <==> Rejected(src)
  {
    hide Unpack, Spread, Prepend, Rejected;
    RejectedExactly(src, beyond);
    var pos: nat, n: nat := 0, 0;
    ghost var out: seq<Byte> := [];
    ghost var r := Unpack(src, beyond);
    assert src[0..] == src;
    PrependNone(r);
    while pos < |src|
      invariant pos <= |src| + 1 && |out| == n
      invariant r == Prepend(out, Unpack(Left(src, pos).src, beyond))
      invariant n <= buffer.Length ==> buffer[..n] == out
      decreases |src| + 1 - pos
    {
      var header := src[pos];
      pos := pos + 1;
      if header == FF {
        UnpackMark(src, pos - 1, beyond);
        if |src| - pos < 1 { NothingUnpacked(out); return -1; }
        var m := RunLength(src[pos]);
        if |src| - pos < m + 1 { NothingUnpacked(out); return -1; }
        pos := pos + 1;
        if buffer.Length - n >= m { CopyBytes(src, pos, m, buffer, n); }
        PrependTwo(out, src[pos..pos + m], Unpack(src[pos + m..], beyond));
        assert n + m <= buffer.Length ==> buffer[..n + m] == buffer[..n] + buffer[n..n + m];
        out := out + src[pos..pos + m];
        pos := pos + m;
        n := n + m;
      } else {
        UnpackHeader(src, pos - 1, beyond);
        ghost var was := buffer[..];
        var ok, next, bytes := UnpackSeg(src, beyond, header, pos, buffer, n);
        if !ok { NothingUnpacked(out); return -1; }
        PrependTwo(out, bytes, Unpack(Left(src, next).src, beyond));
        assert n + 8 <= buffer.Length ==> buffer[..n] == was[..n] && buffer[..n + 8] == buffer[..n] + buffer[n..n + 8];
        out := out + bytes;
        pos := next;
        n := n + 8;
      }
    }
    UnpackedAll(src, pos, out, beyond);
    size := n;
  }

  /** At the end of the input everything has been put out. */
  lemma UnpackedAll(src: seq<Byte>, pos: nat, out: seq<Byte>, beyond: Byte)
    requires |src| <= pos <= |src| + 1
    ensures Prepend(out, Unpack(Left(src, pos).src, beyond)) == Some(out)
  {
    UnpackNothing(beyond);
    assert out + [] == out;
  }

  lemma PrependNone(r: Option<seq<Byte>>)
    ensures Prepend([], r) == r
  {
    if r.Some? { assert [] + r.value == r.value; }
  }

  lemma NothingUnpacked(out: seq<Byte>)
    ensures Prepend(out, None) == None
  {
  }

  lemma PrependTwo(a: seq<Byte>, b: seq<Byte>, r: Option<seq<Byte>>)
    ensures Prepend(a, Prepend(b, r)) == Prepend(a + b, r)
  {
    if r.Some? { assert a + (b + r.value) == a + b + r.value; }
  }

  lemma UnpackNothing(beyond: Byte)
    ensures Unpack([], beyond) == Some([])
  {
  }

  lemma UnpackMark(src: seq<Byte>, pos: nat, beyond: Byte)
    requires pos < |src| && src[pos] == FF
    ensures Unpack(src[pos..], beyond) ==
              if |src| - pos < 2 || |src| - pos < 2 + RunLength(src[pos + 1]) then None
              else
                var m := RunLength(src[pos + 1]);
                Prepend(src[pos + 2..pos + 2 + m], Unpack(src[pos + 2 + m..], beyond))
  {
    hide Unpack, Prepend;
    var s := src[pos..];
    MarkStep(s, beyond);
    if |s| >= 2 && |s| >= 2 + RunLength(s[1]) {
      var m := RunLength(s[1]);
      SliceSlice(src, pos, 2, 2 + m);
      SliceSlice(src, pos, 2 + m, |s|);
      assert s[2 + m..|s|] == s[2 + m..] && src[pos + (2 + m)..|src|] == src[pos + 2 + m..];
    }
  }

  lemma MarkStep(s: seq<Byte>, beyond: Byte)
    requires s != [] && s[0] == FF
    ensures Unpack(s, beyond) ==
              if |s| < 2 || |s| < 2 + RunLength(s[1]) then None
              else Prepend(s[2..2 + RunLength(s[1])], Unpack(s[2 + RunLength(s[1])..], beyond))
  {
  }

  lemma UnpackHeader(src: seq<Byte>, pos: nat, beyond: Byte)
    requires pos < |src| && src[pos] != FF
    ensures var r := Spread(src[pos], 8, Input(src[pos + 1..], false), beyond);
            Unpack(src[pos..], beyond) == if r.None? then None
                else Prepend(r.value.bytes, Unpack(r.value.left.src, beyond))
  {
    hide Spread;
    assert src[pos..][1..] == src[pos + 1..];
  }
}
