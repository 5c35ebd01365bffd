/** What unpacking does with input that has been cut off: whether it is rejected, and whether the byte
    behind it in memory gets into the output. */
module SprotoTruncated {
  import opened Basics
  import opened SprotoPacking

  /** How many of the `k` lowest bits of a header are set: so many bytes have to follow. */
  function Marks(h: nat, k: nat): (m: nat)
    ensures m <= k
  {
    if k == 0 then 0 else h % 2 + Marks(h / 2, k - 1)
  }

  /** How the records of an input end: the last header, or the last run, lacks `missing` bytes. */
  datatype Ending = Complete | HeaderShort(missing: nat) | RunShort(missing: nat)

  /** Walks from header to header by the number of bytes that have to follow each of them. */
  function EndingOf(src: seq<Byte>): (e: Ending)
    ensures e != Complete ==> e.missing > 0
    decreases |src|
  {
    if src == [] then Complete
    else if src[0] == FF then
      if |src| == 1 then RunShort(1)
      else if |src| < 2 + RunLength(src[1]) then RunShort(2 + RunLength(src[1]) - |src|)
      else EndingOf(src[2 + RunLength(src[1])..])
    else
      var m := Marks(src[0], 8);
      if |src| < 1 + m then HeaderShort(1 + m - |src|) else EndingOf(src[1 + m..])
  }

  /** Spreading succeeds unless two bytes or more are missing; if one is, it takes the byte behind. */
  lemma {:induction false} SpreadEnds(h: nat, k: nat, src: seq<Byte>, b: Byte)
    ensures var m, r := Marks(h, k), Spread(h, k, Input(src, false), b);
            if m <= |src| then r.Some? && r.value.left == Input(src[m..], false)
            else if m == |src| + 1 then r.Some? && r.value.left == Input([], true)
            else r == None
    decreases k
  {
    if k > 0 {
      if h % 2 == 0 { SpreadEnds(h / 2, k - 1, src, b); }
      else if src == [] { SpreadOver(h / 2, k - 1, b); }
      else { SpreadEnds(h / 2, k - 1, src[1..], b); }
    }
  }

  lemma {:induction false} SpreadOver(h: nat, k: nat, b: Byte)
    ensures var r := Spread(h, k, Input([], true), b);
            if Marks(h, k) == 0 then r.Some? && r.value.left == Input([], true) else r == None
    decreases k
  {
    if k > 0 && h % 2 == 0 { SpreadOver(h / 2, k - 1, b); }
  }

  function Headed(x: Byte, r: Option<Spreading>): Option<Spreading> {
    if r.None? then None else Some(Spreading([x] + r.value.bytes, r.value.left))
  }

  lemma HeadedSame(x: Byte, r: Option<Spreading>, t: Option<Spreading>)
    ensures Headed(x, r) == Headed(x, t) <==> r == t
  {
    if r.Some? && t.Some? { assert ([x] + r.value.bytes)[1..] == r.value.bytes &&
                           ([x] + t.value.bytes)[1..] == t.value.bytes; }
  }

  lemma HeadsDiffer(b: Byte, c: Byte, r: Option<Spreading>)
    requires b != c
    ensures Headed(b, r) == Headed(c, r) <==> r == None
  {
    if r.Some? { assert ([b] + r.value.bytes)[0] != ([c] + r.value.bytes)[0]; }
  }

  lemma SpreadNext(h: nat, k: nat, src: seq<Byte>, b: Byte)
    requires k > 0
    ensures h % 2 == 0 ==> Spread(h, k, Input(src, false), b) == Headed(0, Spread(h / 2, k - 1, Input(src, false), b))
    ensures h % 2 == 1 && src != [] ==>
              Spread(h, k, Input(src, false), b) == Headed(src[0], Spread(h / 2, k - 1, Input(src[1..], false), b))
    ensures h % 2 == 1 && src == [] ==> Spread(h, k, Input(src, false), b) ==
                                        Headed(b, Spread(h / 2, k - 1, Input([], true), b))
  {
  }

  /** Nothing depends on the byte behind unless one byte is missing, and then the output does. */
  lemma {:induction false} SpreadForeign(h: nat, k: nat, src: seq<Byte>, b: Byte, c: Byte)
    requires b != c
    ensures Spread(h, k, Input(src, false), b) == Spread(h, k, Input(src, false), c) <==> Marks(h, k) != |src| + 1
    decreases k
  {
    if k > 0 {
      SpreadNext(h, k, src, b);
      SpreadNext(h, k, src, c);
      hide Spread;
      if h % 2 == 0 {
        SpreadForeign(h / 2, k - 1, src, b, c);
        HeadedSame(0, Spread(h / 2, k - 1, Input(src, false), b), Spread(h / 2, k - 1, Input(src, false), c));
      } else if src == [] {
        SpreadOverSame(h / 2, k - 1, b, c);
        SpreadOver(h / 2, k - 1, b);
        HeadsDiffer(b, c, Spread(h / 2, k - 1, Input([], true), b));
      } else {
        SpreadForeign(h / 2, k - 1, src[1..], b, c);
        HeadedSame(src[0], Spread(h / 2, k - 1, Input(src[1..], false), b),
                   Spread(h / 2, k - 1, Input(src[1..], false), c));
      }
    }
  }

  lemma {:induction false} SpreadOverSame(h: nat, k: nat, b: Byte, c: Byte)
    ensures Spread(h, k, Input([], true), b) == Spread(h, k, Input([], true), c)
    decreases k
  {
    if k == 0 {
      assert Spread(h, 0, Input([], true), b) == Some(Spreading([], Input([], true)));
    } else if h % 2 != 0 {
      assert Spread(h, k, Input([], true), b) == None && Spread(h, k, Input([], true), c) == None;
    } else {
      SpreadOverSame(h / 2, k - 1, b, c);
      assert Spread(h, k, Input([], true), b) == Headed(0, Spread(h / 2, k - 1, Input([], true), b));
      assert Spread(h, k, Input([], true), c) == Headed(0, Spread(h / 2, k - 1, Input([], true), c));
    }
  }

  predicate Rejected(src: seq<Byte>) {
    var e := EndingOf(src);
    e.RunShort? || (e.HeaderShort? && e.missing > 1)
  }

  /** Input is rejected if and only if its last run lacks bytes, or its last header lacks more than one. */
  lemma {:induction false} RejectedExactly(src: seq<Byte>, b: Byte)
    ensures Unpack(src, b) == None <==> Rejected(src)
    decreases |src|
  {
    hide Spread;
    if src != [] && src[0] == FF {
      if |src| >= 2 && |src| >= 2 + RunLength(src[1]) { RejectedExactly(src[2 + RunLength(src[1])..], b); }
    } else if src != [] {
      var m := Marks(src[0], 8);
      SpreadEnds(src[0], 8, src[1..], b);
      if m <= |src| - 1 {
        assert src[1..][m..] == src[1 + m..];
        RejectedExactly(src[1 + m..], b);
      }
    }
  }

  /** The byte behind the input gets into the output if and only if the last header lacks exactly one. */
  lemma {:induction false} ForeignExactly(src: seq<Byte>, b: Byte, c: Byte)
    requires b != c
    ensures Unpack(src, b) == Unpack(src, c) <==> EndingOf(src) != HeaderShort(1)
    decreases |src|
  {
    hide Spread;
    if src != [] && src[0] == FF {
      if |src| >= 2 && |src| >= 2 + RunLength(src[1]) {
        var rest, bytes := src[2 + RunLength(src[1])..], src[2..2 + RunLength(src[1])];
        ForeignExactly(rest, b, c);
        PrependSame(bytes, Unpack(rest, b), Unpack(rest, c));
      }
    } else if src != [] {
      var m := Marks(src[0], 8);
      SpreadEnds(src[0], 8, src[1..], b);
      SpreadEnds(src[0], 8, src[1..], c);
      SpreadForeign(src[0], 8, src[1..], b, c);
      if m <= |src| - 1 {
        var bytes, rest := Spread(src[0], 8, Input(src[1..], false), b).value.bytes, src[1 + m..];
        assert src[1..][m..] == rest;
        ForeignExactly(rest, b, c);
        PrependSame(bytes, Unpack(rest, b), Unpack(rest, c));
      } else if m == |src| {
        ForeignLast(src, b, c);
      }
    }
  }

  lemma ForeignLast(src: seq<Byte>, b: Byte, c: Byte)
    requires b != c && src != [] && src[0] != FF && Marks(src[0], 8) == |src|
    ensures Unpack(src, b) != Unpack(src, c)
  {
    hide Spread;
    SpreadEnds(src[0], 8, src[1..], b);
    SpreadEnds(src[0], 8, src[1..], c);
    SpreadForeign(src[0], 8, src[1..], b, c);
    var s, t := Spread(src[0], 8, Input(src[1..], false), b).value, Spread(src[0], 8, Input(src[1..], false), c).value;
    assert Unpack([], b) == Some([]) && Unpack([], c) == Some([]);
    assert s.bytes + [] == s.bytes && t.bytes + [] == t.bytes;
  }

  lemma PrependSame(bytes: seq<Byte>, r: Option<seq<Byte>>, t: Option<seq<Byte>>)
    ensures Prepend(bytes, r) == Prepend(bytes, t) <==> r == t
  {
    if r.Some? && t.Some? { assert (bytes + r.value)[|bytes|..] == r.value && (bytes + t.value)[|bytes|..] == t.value; }
  }

  lemma {:induction false} SpreadZeros(k: nat, input: Input, b: Byte)
    ensures Marks(0, k) == 0 && Spread(0, k, input, b) == Some(Spreading(Zeros(k), input))
  {
    if k > 0 { SpreadZeros(k - 1, input, b); }
  }

  /** A header that announces one byte, and nothing else: the byte behind is unpacked. */
  lemma ForeignByte(b: Byte)
    ensures EndingOf([1]) == HeaderShort(1) && Unpack([1], b) == Some([b] + Zeros(7))
  {
    hide Zeros;
    SpreadZeros(7, Input([], true), b);
    assert Spread(1, 8, Input([], false), b) == Some(Spreading([b] + Zeros(7), Input([], true)));
    assert [1][1..] == [] && Unpack([], b) == Some([]);
    assert [b] + Zeros(7) + [] == [b] + Zeros(7);
  }
}
