/** Character sets as bitmaps of 32 bytes (skynet/3rd/lpeg/lptypes.h), and the loop of
    charsettype in skynet/3rd/lpeg/lpcode.c that classifies them. */
module LpegCharset {
  import opened LpegSyntax
  import opened LpegCodegen

  const CHARSETSIZE: nat := 32

  type Bitmap = b: seq<bv8> | |b| == CHARSETSIZE witness seq(CHARSETSIZE, _ => 0)

  /** 1 << k */
  function Bit(k: nat): bv8
    requires k < 8
  {
    match k
    case 0 => 1
    case 1 => 2
    case 2 => 4
    case 3 => 8
    case 4 => 16
    case 5 => 32
    case 6 => 64
    case 7 => 128
  }

  /** testchar */
  predicate TestChar(b: Bitmap, c: Byte) { b[c / 8] & Bit(c % 8) != 0 }

  /** The set a bitmap stands for. */
  function SetOf(b: Bitmap): Charset { set c: Byte | 0 <= c < 256 && TestChar(b, c) }

  /** The byte with the given bits. */
  function ByteOf(cs: Charset, i: nat): bv8
    requires i < CHARSETSIZE
  {
    (if 8 * i in cs then 1 else 0) | (if 8 * i + 1 in cs then 2 else 0)
    | (if 8 * i + 2 in cs then 4 else 0) | (if 8 * i + 3 in cs then 8 else 0)
    | (if 8 * i + 4 in cs then 16 else 0) | (if 8 * i + 5 in cs then 32 else 0)
    | (if 8 * i + 6 in cs then 64 else 0) | (if 8 * i + 7 in cs then 128 else 0)
  }

  function BitmapOf(cs: Charset): Bitmap { seq(CHARSETSIZE, i requires 0 <= i < CHARSETSIZE => ByteOf(cs, i)) }

  lemma ByteOfBit(cs: Charset, i: nat, k: nat)
    requires i < CHARSETSIZE && k < 8
    ensures ByteOf(cs, i) & Bit(k) != 0 <==> 8 * i + k in cs
  {
  }

  /** Bitmaps represent sets. */
  lemma BitmapRoundTrip(cs: Charset)
    ensures SetOf(BitmapOf(cs)) == cs
  {
    forall c: Byte ensures c in SetOf(BitmapOf(cs)) <==> c in cs {
      ByteOfBit(cs, c / 8, c % 8);
    }
  }

  // ----- what a single byte tells -----

  lemma EmptyByte(k: nat)
    requires k < 8
    ensures 0 & Bit(k) == 0 && 0xFF & Bit(k) != 0
  {
  }

  /** A byte with one bit: which bit it is. */
  function BitIndex(b: bv8): (k: nat)
    requires b != 0 && b & (b - 1) == 0
    ensures k < 8 && b == Bit(k)
  {
    var k4 := if b & 0xF0 != 0 then 4 else 0;
    var b4 := if b & 0xF0 != 0 then b >> 4 else b;
    var k2 := if b4 & 0x0C != 0 then 2 else 0;
    var b2 := if b4 & 0x0C != 0 then b4 >> 2 else b4;
    k4 + k2 + if b2 & 0x02 != 0 then 1 else 0
  }

  lemma OneBit(k: nat, j: nat)
    requires k < 8 && j < 8
    ensures Bit(k) & Bit(j) != 0 <==> j == k
  {
  }

  /** A byte that is neither empty nor full nor of one bit has two bits and lacks one. */
  lemma MixedByte(b: bv8) returns (k: nat, j: nat, m: nat)
    requires Classify(b) == SomeBits
    ensures k < j < 8 && m < 8 && b & Bit(k) != 0 && b & Bit(j) != 0 && b & Bit(m) == 0
  {
    k := if b & 1 != 0 then 0 else if b & 2 != 0 then 1 else if b & 4 != 0 then 2 else if b & 8 != 0 then 3
      else if b & 16 != 0 then 4 else if b & 32 != 0 then 5 else 6;
    j := if b & 128 != 0 then 7 else if b & 64 != 0 then 6 else if b & 32 != 0 then 5 else if b & 16 != 0 then 4
      else if b & 8 != 0 then 3 else if b & 4 != 0 then 2 else 1;
    m := if b & 1 == 0 then 0 else if b & 2 == 0 then 1 else if b & 4 == 0 then 2 else if b & 8 == 0 then 3
      else if b & 16 == 0 then 4 else if b & 32 == 0 then 5 else if b & 64 == 0 then 6 else 7;
  }

  /** Two members and a missing character make a set of the general kind. */
  lemma Mixed(cs: Charset, a: Byte, b: Byte, c: Byte)
    requires a in cs && b in cs && a != b && c !in cs
    ensures KindOf(cs) == SomeChars
  {
    assert c in FULLSET;
  }

  /** The cases of charsettype for one byte. */
  datatype ByteKind = NoBit | AllBits | SingleBit(k: nat) | SomeBits

  function Classify(x: bv8): (r: ByteKind)
    ensures r.SingleBit? ==> r.k < 8
  {
    if x == 0 then NoBit
    else if x == 0xFF then AllBits
    else if x & (x - 1) == 0 then SingleBit(BitIndex(x))
    else SomeBits
  }

  lemma InByte(b: Bitmap, i: nat)
    requires i < CHARSETSIZE
    ensures forall c: Byte :: 8 * i <= c < 8 * i + 8 ==> (c in SetOf(b) <==> b[i] & Bit(c - 8 * i) != 0)
  {
    hide Bit;
    forall c: Byte | 8 * i <= c < 8 * i + 8 ensures c / 8 == i && c % 8 == c - 8 * i { }
  }

  /** The characters of byte i of a bitmap. */
  lemma ByteMeans(b: Bitmap, i: nat)
    requires i < CHARSETSIZE
    ensures match Classify(b[i])
            case NoBit => forall c: Byte :: 8 * i <= c < 8 * i + 8 ==> c !in SetOf(b)
            case AllBits => forall c: Byte :: 8 * i <= c < 8 * i + 8 ==> c in SetOf(b)
            case SingleBit(k) => forall c: Byte :: 8 * i <= c < 8 * i + 8 ==> (c in SetOf(b) <==> c == 8 * i + k)
            case SomeBits => KindOf(SetOf(b)) == SomeChars
  {
    hide SetOf, KindOf, Bit, Classify;
    match Classify(b[i])
    case SomeBits => SomeBitsMean(b, i);
    case SingleBit(k) => SingleBitMeans(b, i, k);
    case _ => EvenBitsMean(b, i);
  }

  lemma SomeBitsMean(b: Bitmap, i: nat)
    requires i < CHARSETSIZE && Classify(b[i]) == SomeBits
    ensures KindOf(SetOf(b)) == SomeChars
  {
    hide SetOf, KindOf, Classify, Bit;
    var k, j, m := MixedByte(b[i]);
    InByte(b, i);
    Mixed(SetOf(b), 8 * i + k, 8 * i + j, 8 * i + m);
  }

  lemma SingleBitMeans(b: Bitmap, i: nat, k: nat)
    requires i < CHARSETSIZE && Classify(b[i]) == SingleBit(k)
    ensures forall c: Byte :: 8 * i <= c < 8 * i + 8 ==> (c in SetOf(b) <==> c == 8 * i + k)
  {
    ClassifiedBit(b[i], k);
    hide SetOf, Classify, Bit;
    InByte(b, i);
    forall c: Byte | 8 * i <= c < 8 * i + 8 ensures c in SetOf(b) <==> c == 8 * i + k { OneBit(k, c - 8 * i); }
  }

  lemma ClassifiedBit(x: bv8, k: nat)
    requires Classify(x) == SingleBit(k)
    ensures k < 8 && x == Bit(k)
  {
  }

  lemma EvenBitsMean(b: Bitmap, i: nat)
    requires i < CHARSETSIZE && (Classify(b[i]) == NoBit || Classify(b[i]) == AllBits)
    ensures forall c: Byte :: 8 * i <= c < 8 * i + 8 ==> (c in SetOf(b) <==> Classify(b[i]) == AllBits)
  {
    assert b[i] == if Classify(b[i]) == AllBits then 0xFF else 0;
    hide SetOf, Classify, Bit;
    InByte(b, i);
    forall c: Byte | 8 * i <= c < 8 * i + 8 ensures c in SetOf(b) <==> Classify(b[i]) == AllBits {
      EmptyByte(c - 8 * i);
    }
  }

  /** What the loop of charsettype knows of the characters below n: none is in the set, or
      only the character one, or all of them. */
  ghost predicate Counted(cs: Charset, n: nat, count: nat, one: Byte) {
    && (count == 0 || count == 1 || (count == n && n > 1))
    && (count == 0 ==> forall c: Byte :: c < n ==> c !in cs)
    && (count == 1 ==> one < n && forall c: Byte :: c < n ==> (c in cs <==> c == one))
    && (count > 1 ==> forall c: Byte :: c < n ==> c in cs)
  }

  /** charsettype */
  method CharsetType(b: Bitmap) returns (kind: SetKind)
    ensures kind == KindOf(SetOf(b))
  {
    hide SetOf, Classify, KindOf;
    var count, candidate := 0, 0;
    ghost var cs := SetOf(b);
    ghost var one: Byte := 0;
    for i := 0 to CHARSETSIZE
      invariant Counted(cs, 8 * i, count, one)
      invariant count == 1 ==> candidate < i && Classify(b[candidate]).SingleBit?
      invariant count == 1 ==> one == candidate * 8 + Classify(b[candidate]).k
    {
      ByteMeans(b, i);
      match Classify(b[i]) {
        case NoBit =>
          if count > 1 {
            Mixed(cs, 0, 1, 8 * i);
            return SomeChars;
          }
        case AllBits =>
          if count < i * 8 {
            Mixed(cs, 8 * i, 8 * i + 1, if count == 1 && one == 0 then 1 else 0);
            return SomeChars;
          }
          count := count + 8;
        case SingleBit(k) =>
          ghost var c: Byte := 8 * i + k;
          if count > 0 {
            Mixed(cs, if count == 1 then one else 0, c, if c == 8 * i then c + 1 else 8 * i);
            return SomeChars;
          }
          count, candidate, one := 1, i, c;
        case SomeBits => return SomeChars;
      }
    }
    Conclusion(cs, count, one);
    if count == 0 { return NoChar; }
    if count == 1 { return OneChar(candidate * 8 + Classify(b[candidate]).k); }
    return AllChars;
  }

  lemma Conclusion(cs: Charset, count: nat, one: Byte)
    requires Counted(cs, 256, count, one)
    ensures KindOf(cs) == if count == 0 then NoChar else if count == 1 then OneChar(one) else AllChars
  {
    if count == 0 {
      assert cs == {};
    } else if count == 1 {
      assert cs == {one};
    } else {
      assert cs == FULLSET;
    }
  }
}
