/** What the specification in Sha256 computes, in terms that do not go through its own definitions: FIPS 180-4
    digit by digit, and HMAC by its key. */
module Sha256Laws {
  import opened Sha256

  // ---------- HMAC: RFC 2104 section 2 ----------

  lemma XorByteBits(x: Byte, y: Byte, i: nat)
    ensures Bit(XorByte(x, y), i) <==> (Bit(x, i) != Bit(y, i))
  {
    BitwiseBits(x, y, i);
  }

  /** A key of at most one block is taken as it stands, zeros behind it: 64 bytes are not hashed down. */
  lemma HmacOfShortKeys(key: seq<Byte>, text: seq<Byte>) returns (inner: seq<Byte>, outer: seq<Byte>)
    requires |key| <= 64 && |text| < 0x1fff_ffff_ffff_ff00
    ensures |inner| == |outer| == 64
    ensures forall j :: 0 <= j < 64 ==>
      inner[j] == XorByte(if j < |key| then key[j] else 0, 0x36)
      && outer[j] == XorByte(if j < |key| then key[j] else 0, 0x5c)
    ensures Hmac(key, text) == Hash(outer + Hash(inner + text))
  {
    hide Hash, XorByte;
    var k := BlockKey(key);
    inner, outer := XorPad(k, 0x36), XorPad(k, 0x5c);
    forall j | 0 <= j < 64 ensures k[j] == if j < |key| then key[j] else 0 {}
  }

  /** A longer one stands for its digest. */
  lemma HmacOfLongKeys(key: seq<Byte>, text: seq<Byte>)
    requires 64 < |key| < 0x2000_0000_0000_0000 && |text| < 0x1fff_ffff_ffff_ff00
    ensures Hmac(key, text) == Hmac(Hash(key), text)
  {
    hide Hash, XorByte;
  }

  /** Zeros behind a short key change nothing. */
  lemma TrailingZerosDoNotMatter(key: seq<Byte>, n: nat, text: seq<Byte>)
    requires |key| + n <= 64 && |text| < 0x1fff_ffff_ffff_ff00
    ensures Hmac(key + seq(n, i => 0), text) == Hmac(key, text)
  {
    hide Hash, XorByte;
    assert BlockKey(key + seq(n, i => 0)) == BlockKey(key);
  }

  // ---------- The functions of section 4.1.2 ----------

  lemma {:induction false} ComplementBits(x: nat, bits: nat, i: nat)
    requires x < Pow2(bits) && i < bits
    ensures Bit(Pow2(bits) - 1 - x, i) <==> !Bit(x, i)
    decreases i
  {
    if i > 0 {
      ComplementBits(x / 2, bits - 1, i - 1);
      assert (2 * Pow2(bits - 1) - 1 - x) / 2 == Pow2(bits - 1) - 1 - x / 2;
    }
  }

  /** Choice takes y's digit where x has a one and z's elsewhere; majority has a one where two of three do. */
  lemma ChoiceAndMajority(x: Word, y: Word, z: Word, i: nat)
    requires i < 32
    ensures Bit(Ch(x, y, z), i) <==> if Bit(x, i) then Bit(y, i) else Bit(z, i)
    ensures Bit(Maj(x, y, z), i) <==>
      (Bit(x, i) && Bit(y, i)) || (Bit(x, i) && Bit(z, i)) || (Bit(y, i) && Bit(z, i))
  {
    Pow2Word();
    ComplementBits(x, 32, i);
    BitwiseBits(x, y, i);
    BitwiseBits(Not(x), z, i);
    BitwiseBits(x, z, i);
    BitwiseBits(y, z, i);
    BitwiseBits(WAnd(x, y), WAnd(Not(x), z), i);
    BitwiseBits(WAnd(x, y), WAnd(x, z), i);
    BitwiseBits(WXor(WAnd(x, y), WAnd(x, z)), WAnd(y, z), i);
    hide Bit, Xor, And, Pow2;
  }

  /** A digit of the sum of three words without carry. */
  lemma ThreeWay(a: Word, b: Word, c: Word, i: nat)
    ensures Bit(WXor(WXor(a, b), c), i) <==> ((Bit(a, i) != Bit(b, i)) != Bit(c, i))
  {
    BitwiseBits(a, b, i);
    BitwiseBits(WXor(a, b), c, i);
    hide Bit, Xor;
  }

  /** Each sigma adds up, without carry, the digits at three distances, round the end but for a shift. */
  lemma SigmaDigits(x: Word, i: nat)
    requires i < 32
    ensures Bit(BigSigma0(x), i) <==> ((Bit(x, (i + 2) % 32) != Bit(x, (i + 13) % 32)) != Bit(x, (i + 22) % 32))
    ensures Bit(BigSigma1(x), i) <==> ((Bit(x, (i + 6) % 32) != Bit(x, (i + 11) % 32)) != Bit(x, (i + 25) % 32))
    ensures Bit(SmallSigma0(x), i) <==> ((Bit(x, (i + 7) % 32) != Bit(x, (i + 18) % 32)) != Bit(x, i + 3))
    ensures Bit(SmallSigma1(x), i) <==> ((Bit(x, (i + 17) % 32) != Bit(x, (i + 19) % 32)) != Bit(x, i + 10))
  {
    hide Bit, WXor, Rotr, Shr;
    forall n | n in {2, 13, 22, 6, 11, 25, 7, 18, 17, 19}
      ensures Bit(Rotr(x, n), i) <==> Bit(x, (i + n) % 32)
    {
      RotrRotates(x, n, i);
    }
    ShrBits(x, 3, i);
    ShrBits(x, 10, i);
    ThreeWay(Rotr(x, 2), Rotr(x, 13), Rotr(x, 22), i);
    ThreeWay(Rotr(x, 6), Rotr(x, 11), Rotr(x, 25), i);
    ThreeWay(Rotr(x, 7), Rotr(x, 18), Shr(x, 3), i);
    ThreeWay(Rotr(x, 17), Rotr(x, 19), Shr(x, 10), i);
  }

  // ---------- Padding: section 5.1.1 ----------

  /** The message, a one bit, zeros, and the length in bits as a big-endian number in the last 64 bits. */
  lemma PadLayout(m: seq<Byte>)
    requires |m| < 0x2000_0000_0000_0000
    ensures var p, n := Pad(m), |Pad(m)|;
      && n >= |m| + 9 && p[..|m|] == m && p[|m|] == 0x80 && (forall j :: |m| < j < n - 8 ==> p[j] == 0)
      && BytesWord(p[n - 8], p[n - 7], p[n - 6], p[n - 5]) * 0x1_0000_0000
         + BytesWord(p[n - 4], p[n - 3], p[n - 2], p[n - 1]) == 8 * |m|
  {
    hide WordBytes, BytesWord;
    WordOfBytes(8 * |m| / WORDS);
    WordOfBytes(8 * |m| % WORDS);
  }

  /** So no two messages share a padded form. */
  lemma PaddingIsInjective(m: seq<Byte>, n: seq<Byte>)
    requires |m| < 0x2000_0000_0000_0000 && |n| < 0x2000_0000_0000_0000
    ensures Pad(m) == Pad(n) ==> m == n
  {
    PadLayout(m);
    PadLayout(n);
    hide Pad, BytesWord;
  }

  // ---------- The initial value: section 5.3.3 ----------

  /** h is the first 32 bits of the fractional part of the square root of p, whose whole part is r. */
  predicate IsSquareRootFraction(p: nat, r: nat, h: Word) {
    var x := r * 0x1_0000_0000 + h;
    r * r <= p < (r + 1) * (r + 1) && x * x <= p * 0x1_0000_0000_0000_0000 < (x + 1) * (x + 1)
  }

  lemma InitialValueIsSquareRoots()
    ensures IsSquareRootFraction(2, 1, H0.a) && IsSquareRootFraction(3, 1, H0.b)
    ensures IsSquareRootFraction(5, 2, H0.c) && IsSquareRootFraction(7, 2, H0.d)
    ensures IsSquareRootFraction(11, 3, H0.e) && IsSquareRootFraction(13, 3, H0.f)
    ensures IsSquareRootFraction(17, 4, H0.g) && IsSquareRootFraction(19, 4, H0.h)
  {
  }
}
