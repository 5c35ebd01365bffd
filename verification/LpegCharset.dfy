/** Charsets as lpcode.c keeps them: 32 bytes, one bit for each character. */
module LpegCharset {
  import opened Basics
  import opened LpegTree
  import opened LpegCodegen

  const CHARSETSIZE := 32

  const BITSPERCHAR := 8

  type Bits = s: seq<bv8> | |s| == 32 witness seq(32, i => 0)

  function Mask(k: nat): bv8
    requires k < 8
  {
    match k
    case 0 => 1
    case 1 => 2
    case 2 => 4
    case 3 => 8
    case 4 => 16
    case 5 => 32
    case 6 => 64
    case _ => 128
  }

  predicate Bit(b: bv8, k: nat)
    requires k < 8
  {
    b & Mask(k) != 0
  }

  /** The set that 32 bytes stand for. */
  ghost function SetOf(bits: Bits): Charset {
    set c: Byte | Bit(bits[c / 8], c % 8)
  }

  function ByteOf(cs: Charset, i: nat): bv8
    requires i < CHARSETSIZE
  {
    (if 8 * i in cs then 1 else 0) | (if 8 * i + 1 in cs then 2 else 0) |
    (if 8 * i + 2 in cs then 4 else 0) | (if 8 * i + 3 in cs then 8 else 0) |
    (if 8 * i + 4 in cs then 16 else 0) | (if 8 * i + 5 in cs then 32 else 0) |
    (if 8 * i + 6 in cs then 64 else 0) | (if 8 * i + 7 in cs then 128 else 0)
  }

  function BitsOf(cs: Charset): Bits {
    seq(CHARSETSIZE, i requires 0 <= i < CHARSETSIZE => ByteOf(cs, i))
  }

  lemma ByteBit(cs: Charset, i: nat, k: nat)
    requires i < CHARSETSIZE && k < 8
    ensures Bit(ByteOf(cs, i), k) <==> 8 * i + k in cs
  {
  }

  /** Nothing is lost by keeping a set as bits. */
  lemma BitsRoundTrip(cs: Charset)
    ensures SetOf(BitsOf(cs)) == cs
  {
    forall c: Byte ensures c in SetOf(BitsOf(cs)) <==> c in cs {
      ByteBit(cs, c / 8, c % 8);
    }
  }

  predicate OneBit(b: bv8) { b != 0 && b & (b - 1) == 0 }

  /** The position of the only bit of `b`, found by halving. */
  method BitPosition(b: bv8) returns (k: nat)
    requires OneBit(b)
    ensures k < 8 && b == Mask(k)
  {
    var rest := b;
    k := 0;
    if rest & 0xF0 != 0 { k := k + 4; rest := rest >> 4; }
    if rest & 0x0C != 0 { k := k + 2; rest := rest >> 2; }
    if rest & 0x02 != 0 { k := k + 1; }
  }

  lemma MaskBit(j: nat, k: nat)
    requires j < 8 && k < 8
    ensures Bit(Mask(j), k) <==> j == k
  {
  }

  /** What the loop of `charsettype` knows after `i` bytes in which it counted `count` characters. */
  ghost predicate Counted(bits: Bits, i: nat, count: nat, candidate: int)
    requires i <= CHARSETSIZE
  {
    && (count == 0 ==> forall j :: 0 <= j < i ==> bits[j] == 0)
    && (count == 1 ==> 0 <= candidate < i && OneBit(bits[candidate]) && forall j :: 0 <= j < i && j != candidate ==>
        bits[j] == 0)
    && (count > 1 ==> i > 0 && count == 8 * i && forall j :: 0 <= j < i ==> bits[j] == 0xFF)
  }

  method CharsetTypeOf(bits: Bits) returns (t: CharsetType)
    ensures t == TypeOf(SetOf(bits))
  {
    hide TypeOf, SetOf, Counted, Mask, FullSet;
    var count, i, candidate := 0, 0, -1;
    CountedNone(bits);
    while i < CHARSETSIZE
      invariant 0 <= i <= CHARSETSIZE && 0 <= count && Counted(bits, i, count, candidate)
    {
      var b := bits[i];
      CountedMore(bits, i, count, candidate);
      if b == 0 {
        if count > 1 { return CsSet; }
      } else if b == 0xFF {
        if count < i * BITSPERCHAR { return CsSet; }
        count := count + BITSPERCHAR;
      } else if b & (b - 1) == 0 {
        if count > 0 { return CsSet; }
        count, candidate := count + 1, i;
      } else {
        return CsSet;
      }
      i := i + 1;
    }
    CountedAll(bits, count, candidate);
    if count == 0 { return CsFail; }
    if count == 1 {
      var k := BitPosition(bits[candidate]);
      OneChar(bits, candidate, k);
      return CsChar(candidate * BITSPERCHAR + k);
    }
    return CsAny;
  }

  lemma CountedNone(bits: Bits)
    ensures Counted(bits, 0, 0, -1)
  {
  }

  lemma Member(bits: Bits, i: nat, k: nat)
    requires i < CHARSETSIZE && k < 8
    ensures 8 * i + k in SetOf(bits) <==> Bit(bits[i], k)
  {
    assert (8 * i + k) / 8 == i && (8 * i + k) % 8 == k;
  }

  lemma SomeBit(b: bv8) returns (k: nat)
    requires b != 0
    ensures k < 8 && Bit(b, k)
  {
    k := if b & 1 != 0 then 0 else if b & 2 != 0 then 1 else if b & 4 != 0 then 2 else if b & 8 != 0 then 3
         else if b & 16 != 0 then 4 else if b & 32 != 0 then 5 else if b & 64 != 0 then 6 else 7;
  }

  lemma MissingBit(b: bv8) returns (k: nat)
    requires b != 0xFF
    ensures k < 8 && !Bit(b, k)
  {
    k := if b & 1 == 0 then 0 else if b & 2 == 0 then 1 else if b & 4 == 0 then 2 else if b & 8 == 0 then 3
         else if b & 16 == 0 then 4 else if b & 32 == 0 then 5 else if b & 64 == 0 then 6 else 7;
  }

  lemma TwoBits(b: bv8) returns (k: nat, j: nat)
    requires b != 0 && !OneBit(b)
    ensures k < j < 8 && Bit(b, k) && Bit(b, j)
  {
    k := SomeBit(b & !(b - 1));
    j := SomeBit(b & (b - 1));
    if j < k { k, j := j, k; }
  }

  /** Two members and a character left out make a general set. */
  lemma GeneralSet(bits: Bits, i: nat, k: nat, i1: nat, k1: nat, i2: nat, k2: nat)
    requires i < CHARSETSIZE && k < 8 && i1 < CHARSETSIZE && k1 < 8 && i2 < CHARSETSIZE && k2 < 8
    requires Bit(bits[i], k) && Bit(bits[i1], k1) && !Bit(bits[i2], k2) && (i != i1 || k != k1)
    ensures TypeOf(SetOf(bits)) == CsSet
  {
    hide SetOf, Bit, FullSet;
    Member(bits, i, k);
    Member(bits, i1, k1);
    Member(bits, i2, k2);
    var cs := SetOf(bits);
    assert cs != FullSet() by { InFullSet(8 * i2 + k2); }
    forall c: Byte ensures cs != {c} { assert 8 * i + k in cs && 8 * i1 + k1 in cs; }
  }

  lemma InFullSet(c: Byte)
    ensures c in FullSet()
  {
  }

  lemma CountedZero(bits: Bits, i: nat, count: nat, candidate: int)
    requires i < CHARSETSIZE && Counted(bits, i, count, candidate) && bits[i] == 0
    ensures if count > 1 then TypeOf(SetOf(bits)) == CsSet else Counted(bits, i + 1, count, candidate)
  {
    hide TypeOf, SetOf;
    if count > 1 { GeneralSet(bits, 0, 0, 0, 1, i, 0); }
  }

  lemma CountedFull(bits: Bits, i: nat, count: nat, candidate: int)
    requires i < CHARSETSIZE && Counted(bits, i, count, candidate) && bits[i] == 0xFF
    ensures if count < 8 * i then TypeOf(SetOf(bits)) == CsSet else Counted(bits, i + 1, count + 8, candidate)
  {
    hide TypeOf, SetOf;
    if count < 8 * i {
      var j := if count == 1 then candidate else 0;
      var k := MissingBit(bits[j]);
      GeneralSet(bits, i, 0, i, 1, j, k);
    }
  }

  lemma CountedChar(bits: Bits, i: nat, count: nat, candidate: int)
    requires i < CHARSETSIZE && Counted(bits, i, count, candidate) && OneBit(bits[i])
    ensures if count > 0 then TypeOf(SetOf(bits)) == CsSet else Counted(bits, i + 1, 1, i)
  {
    hide TypeOf, SetOf;
    if count > 0 {
      var j := if count == 1 then candidate else 0;
      var k := SomeBit(bits[j]);
      var k1 := SomeBit(bits[i]);
      var k2 := MissingBit(bits[i]);
      GeneralSet(bits, j, k, i, k1, i, k2);
    }
  }

  lemma CountedMixed(bits: Bits, i: nat)
    requires i < CHARSETSIZE && bits[i] != 0 && bits[i] != 0xFF && !OneBit(bits[i])
    ensures TypeOf(SetOf(bits)) == CsSet
  {
    hide TypeOf, SetOf, OneBit;
    var k, j := TwoBits(bits[i]);
    var n := MissingBit(bits[i]);
    GeneralSet(bits, i, k, i, j, i, n);
  }

  /** One more byte: the answer is known, or the count still says all there is to say. */
  lemma CountedMore(bits: Bits, i: nat, count: nat, candidate: int)
    requires i < CHARSETSIZE && Counted(bits, i, count, candidate)
    ensures bits[i] == 0 ==> if count > 1 then TypeOf(SetOf(bits)) == CsSet else Counted(bits, i + 1, count, candidate)
    ensures bits[i] == 0xFF ==> if count < 8 * i then TypeOf(SetOf(bits)) == CsSet
            else Counted(bits, i + 1, count + 8, candidate)
    ensures OneBit(bits[i]) ==> if count > 0 then TypeOf(SetOf(bits)) == CsSet else Counted(bits, i + 1, 1, i)
    ensures bits[i] != 0 && bits[i] != 0xFF && !OneBit(bits[i]) ==> TypeOf(SetOf(bits)) == CsSet
  {
    hide TypeOf, SetOf, Counted, OneBit;
    if bits[i] == 0 { CountedZero(bits, i, count, candidate); }
    if bits[i] == 0xFF { CountedFull(bits, i, count, candidate); }
    if OneBit(bits[i]) { CountedChar(bits, i, count, candidate); }
    else if bits[i] != 0 && bits[i] != 0xFF { CountedMixed(bits, i); }
  }

  /** After all bytes: nothing was counted, or one character, or all of them. */
  lemma CountedAll(bits: Bits, count: nat, candidate: int)
    requires Counted(bits, CHARSETSIZE, count, candidate)
    ensures count == 0 ==> TypeOf(SetOf(bits)) == CsFail
    ensures count == 1 ==> 0 <= candidate < CHARSETSIZE && OneBit(bits[candidate])
    ensures count > 1 ==> TypeOf(SetOf(bits)) == CsAny
  {
    hide FullSet;
    if count == 0 {
      assert forall c: Byte :: !Bit(bits[c / 8], c % 8);
    } else if count > 1 {
      assert forall c: Byte :: Bit(bits[c / 8], c % 8);
      forall c: Byte ensures c in FullSet() { InFullSet(c); }
      assert 0 in SetOf(bits);
      assert SetOf(bits) == FullSet();
    }
  }

  lemma OneChar(bits: Bits, candidate: int, k: nat)
    requires 0 <= candidate < CHARSETSIZE && k < 8 && bits[candidate] == Mask(k)
    requires Counted(bits, CHARSETSIZE, 1, candidate)
    ensures TypeOf(SetOf(bits)) == CsChar(8 * candidate + k)
  {
    hide FullSet, OneBit;
    var cs, c := SetOf(bits), 8 * candidate + k;
    forall x: Byte ensures x in cs <==> x == c {
      if x / 8 == candidate { MaskBit(k, x % 8); }
    }
    assert cs == {c} && c in cs;
    var other: Byte := if c == 0 then 1 else 0;
    assert cs != FullSet() by { InFullSet(other); }
  }
}
