/** SHA-256 (FIPS 180-4) and HMAC (RFC 2104) as reference definitions on words and byte strings.

    A word is an integer below 2^32; the bitwise operations recurse on the binary digits, and the
    lemmas at the end say digit by digit what they compute. */
module Sha256 {
  const WORDS := 0x1_0000_0000

  type Word = w: int | 0 <= w < 0x1_0000_0000
  type Byte = b: int | 0 <= b < 0x100

  // ---------- Words: FIPS 180-4 sections 2.2.2 and 3.2 ----------

  function Xor(x: nat, y: nat): nat {
    if x == 0 && y == 0 then 0 else 2 * Xor(x / 2, y / 2) + (if x % 2 == y % 2 then 0 else 1)
  }

  function And(x: nat, y: nat): nat {
    if x == 0 && y == 0 then 0 else 2 * And(x / 2, y / 2) + (if x % 2 == 1 && y % 2 == 1 then 1 else 0)
  }

  function Or(x: nat, y: nat): nat {
    if x == 0 && y == 0 then 0 else 2 * Or(x / 2, y / 2) + (if x % 2 == 1 || y % 2 == 1 then 1 else 0)
  }

  function Not(x: Word): Word { WORDS - 1 - x }

  function Shr(x: Word, n: nat): Word {
    if n == 0 then x else Shr(x / 2, n - 1)
  }

  function Shl(x: Word, n: nat): Word
    decreases n
  {
    if n == 0 then x else Shl(2 * x % WORDS, n - 1)
  }

  function Add(x: Word, y: Word): Word { (x + y) % WORDS }

  /** The three bitwise connectives never leave the word range. */
  lemma {:induction false} BitwiseBelow(x: nat, y: nat, bits: nat)
    requires x < Pow2(bits) && y < Pow2(bits)
    ensures Xor(x, y) < Pow2(bits) && And(x, y) < Pow2(bits) && Or(x, y) < Pow2(bits)
    decreases bits
  {
    if bits > 0 { BitwiseBelow(x / 2, y / 2, bits - 1); }
  }

  function Pow2(n: nat): nat { if n == 0 then 1 else 2 * Pow2(n - 1) }

  lemma Pow2Word()
    ensures Pow2(32) == 0x1_0000_0000
  {
    assert Pow2(4) == 16;
    assert Pow2(8) == 256;
    assert Pow2(12) == 0x1000;
    assert Pow2(16) == 0x1_0000;
    assert Pow2(20) == 0x10_0000;
    assert Pow2(24) == 0x100_0000;
    assert Pow2(28) == 0x1000_0000;
  }

  lemma BitwiseWord(x: Word, y: Word)
    ensures Xor(x, y) < WORDS && And(x, y) < WORDS && Or(x, y) < WORDS
  {
    Pow2Word();
    BitwiseBelow(x, y, 32);
  }

  function WXor(x: Word, y: Word): Word { BitwiseWord(x, y); Xor(x, y) }
  function WAnd(x: Word, y: Word): Word { BitwiseWord(x, y); And(x, y) }
  function WOr(x: Word, y: Word): Word { BitwiseWord(x, y); Or(x, y) }

  // ---------- Functions and constants: section 4 ----------

  function Rotr(x: Word, n: nat): Word
    requires 0 < n < 32
  {
    WOr(Shr(x, n), Shl(x, 32 - n))
  }

  function Ch(x: Word, y: Word, z: Word): Word { WXor(WAnd(x, y), WAnd(Not(x), z)) }
  function Maj(x: Word, y: Word, z: Word): Word { WXor(WXor(WAnd(x, y), WAnd(x, z)), WAnd(y, z)) }
  function BigSigma0(x: Word): Word { WXor(WXor(Rotr(x, 2), Rotr(x, 13)), Rotr(x, 22)) }
  function BigSigma1(x: Word): Word { WXor(WXor(Rotr(x, 6), Rotr(x, 11)), Rotr(x, 25)) }
  function SmallSigma0(x: Word): Word { WXor(WXor(Rotr(x, 7), Rotr(x, 18)), Shr(x, 3)) }
  function SmallSigma1(x: Word): Word { WXor(WXor(Rotr(x, 17), Rotr(x, 19)), Shr(x, 10)) }

  /** The 64 round constants, eight to a row. */
  function KRow(row: nat): (k: seq<Word>)
    ensures |k| == 8
  {
    match row
    case 0 => [0x428a2f98, 0x71374491, 0xb5c0fbcf, 0xe9b5dba5, 0x3956c25b, 0x59f111f1, 0x923f82a4, 0xab1c5ed5]
    case 1 => [0xd807aa98, 0x12835b01, 0x243185be, 0x550c7dc3, 0x72be5d74, 0x80deb1fe, 0x9bdc06a7, 0xc19bf174]
    case 2 => [0xe49b69c1, 0xefbe4786, 0x0fc19dc6, 0x240ca1cc, 0x2de92c6f, 0x4a7484aa, 0x5cb0a9dc, 0x76f988da]
    case 3 => [0x983e5152, 0xa831c66d, 0xb00327c8, 0xbf597fc7, 0xc6e00bf3, 0xd5a79147, 0x06ca6351, 0x14292967]
    case 4 => [0x27b70a85, 0x2e1b2138, 0x4d2c6dfc, 0x53380d13, 0x650a7354, 0x766a0abb, 0x81c2c92e, 0x92722c85]
    case 5 => [0xa2bfe8a1, 0xa81a664b, 0xc24b8b70, 0xc76c51a3, 0xd192e819, 0xd6990624, 0xf40e3585, 0x106aa070]
    case 6 => [0x19a4c116, 0x1e376c08, 0x2748774c, 0x34b0bcb5, 0x391c0cb3, 0x4ed8aa4a, 0x5b9cca4f, 0x682e6ff3]
    case _ => [0x748f82ee, 0x78a5636f, 0x84c87814, 0x8cc70208, 0x90befffa, 0xa4506ceb, 0xbef9a3f7, 0xc67178f2]
  }

  function KAt(t: nat): Word
    requires t < 64
  {
    KRow(t / 8)[t % 8]
  }

  // ---------- Preprocessing: section 5 ----------

  function Zeros(n: nat): (z: seq<Byte>)
    ensures |z| == n && forall i :: 0 <= i < n ==> z[i] == 0
  {
    seq(n, i => 0)
  }

  /** Big-endian bytes of a word. */
  function WordBytes(w: Word): (b: seq<Byte>)
    ensures |b| == 4
  {
    var q1 := w / 0x100;
    var q2 := q1 / 0x100;
    var q3 := q2 / 0x100;
    [q3, q2 % 0x100, q1 % 0x100, w % 0x100]
  }

  function BytesWord(b0: Byte, b1: Byte, b2: Byte, b3: Byte): Word {
    b0 * 0x100_0000 + b1 * 0x1_0000 + b2 * 0x100 + b3
  }

  /** How many zero bytes separate the marker from the length: the least that fills the last block. */
  function ZeroCount(len: nat): (k: nat)
    ensures k < 64 && (len + 9 + k) % 64 == 0
  {
    var r := len % 64;
    assert len == 64 * (len / 64) + r;
    if r < 56 then 55 - r else 119 - r
  }

  /** Section 5.1.1. The length field is 64 bits, so the message is shorter than 2^61 bytes. */
  function Pad(m: seq<Byte>): (p: seq<Byte>)
    requires |m| < 0x2000_0000_0000_0000
    ensures |p| == |m| + 9 + ZeroCount(|m|) && |p| % 64 == 0
  {
    var bits := 8 * |m|;
    m + [0x80] + Zeros(ZeroCount(|m|)) + WordBytes(bits / WORDS) + WordBytes(bits % WORDS)
  }

  // ---------- Hash computation: section 6.2.2 ----------

  datatype Regs = Regs(a: Word, b: Word, c: Word, d: Word, e: Word, f: Word, g: Word, h: Word)

  const H0 := Regs(0x6a09e667, 0xbb67ae85, 0x3c6ef372, 0xa54ff53a,
                   0x510e527f, 0x9b05688c, 0x1f83d9ab, 0x5be0cd19)

  type Block = b: seq<Byte> | |b| == 64 witness Zeros(64)

  function Schedule(block: Block, t: nat): Word {
    if t < 16 then
      BytesWord(block[4 * t], block[4 * t + 1], block[4 * t + 2], block[4 * t + 3])
    else
      Add(Add(Add(SmallSigma1(Schedule(block, t - 2)), Schedule(block, t - 7)),
              SmallSigma0(Schedule(block, t - 15))), Schedule(block, t - 16))
  }

  function T1(s: Regs, k: Word, w: Word): Word {
    Add(Add(Add(Add(s.h, BigSigma1(s.e)), Ch(s.e, s.f, s.g)), k), w)
  }

  function T2(s: Regs): Word { Add(BigSigma0(s.a), Maj(s.a, s.b, s.c)) }

  function Round(s: Regs, k: Word, w: Word): Regs {
    Regs(Add(T1(s, k, w), T2(s)), s.a, s.b, s.c, Add(s.d, T1(s, k, w)), s.e, s.f, s.g)
  }

  function Rounds(s: Regs, block: Block, t: nat): Regs
    requires t <= 64
  {
    if t == 0 then s else Round(Rounds(s, block, t - 1), KAt(t - 1), Schedule(block, t - 1))
  }

  function AddRegs(x: Regs, y: Regs): Regs {
    Regs(Add(x.a, y.a), Add(x.b, y.b), Add(x.c, y.c), Add(x.d, y.d),
         Add(x.e, y.e), Add(x.f, y.f), Add(x.g, y.g), Add(x.h, y.h))
  }

  function Compress(s: Regs, block: Block): Regs { AddRegs(s, Rounds(s, block, 64)) }

  /** The intermediate hash value after the first n blocks of a padded message. */
  function HashBlocks(p: seq<Byte>, n: nat): Regs
    requires 64 * n <= |p|
  {
    if n == 0 then H0 else Compress(HashBlocks(p, n - 1), p[64 * (n - 1)..64 * n])
  }

  function Digest(s: Regs): seq<Byte> {
    WordBytes(s.a) + WordBytes(s.b) + WordBytes(s.c) + WordBytes(s.d)
    + WordBytes(s.e) + WordBytes(s.f) + WordBytes(s.g) + WordBytes(s.h)
  }

  function Hash(m: seq<Byte>): (d: seq<Byte>)
    requires |m| < 0x2000_0000_0000_0000
    ensures |d| == 32
  {
    Digest(HashBlocks(Pad(m), |Pad(m)| / 64))
  }

  // ---------- HMAC: RFC 2104 section 2 ----------

  function XorByte(x: Byte, y: Byte): Byte {
    BitwiseBelow(x, y, 8);
    assert Pow2(8) == 256;
    Xor(x, y)
  }

  function XorPad(key: Block, pad: Byte): Block { seq(64, i requires 0 <= i < 64 => XorByte(key[i], pad)) }

  function BlockKey(key: seq<Byte>): Block
    requires |key| < 0x2000_0000_0000_0000
  {
    var k := if |key| > 64 then Hash(key) else key;
    k + Zeros(64 - |k|)
  }

  function Hmac(key: seq<Byte>, text: seq<Byte>): seq<Byte>
    requires |key| < 0x2000_0000_0000_0000 && |text| < 0x1fff_ffff_ffff_ff00
  {
    var k := BlockKey(key);
    Hash(XorPad(k, 0x5c) + Hash(XorPad(k, 0x36) + text))
  }

  // ---------- What the word operations mean, digit by digit ----------

  predicate Bit(x: nat, i: nat) {
    if i == 0 then x % 2 == 1 else Bit(x / 2, i - 1)
  }

  lemma {:induction false} NoBitsInZero(i: nat)
    ensures !Bit(0, i)
  {
    if i > 0 { NoBitsInZero(i - 1); }
  }

  lemma {:induction false} BitwiseBits(x: nat, y: nat, i: nat)
    ensures Bit(Xor(x, y), i) <==> (Bit(x, i) != Bit(y, i))
    ensures Bit(And(x, y), i) <==> (Bit(x, i) && Bit(y, i))
    ensures Bit(Or(x, y), i) <==> (Bit(x, i) || Bit(y, i))
    decreases i
  {
    if x == 0 && y == 0 {
      NoBitsInZero(i);
    } else if i > 0 {
      BitwiseBits(x / 2, y / 2, i - 1);
    }
  }

  lemma {:induction false} ShrBits(x: Word, n: nat, i: nat)
    ensures Bit(Shr(x, n), i) <==> Bit(x, i + n)
    decreases n
  {
    if n > 0 { ShrBits(x / 2, n - 1, i); }
  }

  /** Taking away a digit from the top leaves the digits below it. */
  lemma {:induction false} BitsBelow(x: nat, top: nat, i: nat)
    requires i < top && x >= Pow2(top)
    ensures Bit(x - Pow2(top), i) <==> Bit(x, i)
    decreases i
  {
    var half := Pow2(top - 1);
    assert (x - 2 * half) / 2 == x / 2 - half && (x - 2 * half) % 2 == x % 2;
    if i > 0 { BitsBelow(x / 2, top - 1, i - 1); }
  }

  /** Doubling a word moves every digit up by one and drops the top one. */
  lemma DoubleBits(x: Word, i: nat)
    requires i < 32
    ensures Bit(2 * x % WORDS, i) <==> i > 0 && Bit(x, i - 1)
  {
    Pow2Word();
    assert Pow2(31) == 0x8000_0000;
    if x >= 0x8000_0000 && i > 0 {
      BitsBelow(x, 31, i - 1);
      assert 2 * x % WORDS == 2 * (x - 0x8000_0000);
    }
  }

  lemma {:induction false} ShlBits(x: Word, n: nat, i: nat)
    requires i < 32
    ensures Bit(Shl(x, n), i) <==> i >= n && Bit(x, i - n)
    decreases n
  {
    if n > 0 {
      ShlBits(2 * x % WORDS, n - 1, i);
      if i >= n - 1 { DoubleBits(x, i - (n - 1)); }
    }
  }

  lemma {:induction false} NoHighBits(x: nat, bits: nat, i: nat)
    requires x < Pow2(bits) && i >= bits
    ensures !Bit(x, i)
    decreases bits
  {
    if bits == 0 { NoBitsInZero(i); } else { NoHighBits(x / 2, bits - 1, i - 1); }
  }

  lemma RotrParts(x: Word, n: nat)
    requires 0 < n < 32
    ensures Rotr(x, n) == Or(Shr(x, n), Shl(x, 32 - n))
  {
    hide Or, Shr, Shl;
  }

  /** Rotation moves every digit n places down and brings the fallen ones back on top. */
  lemma RotrRotates(x: Word, n: nat, i: nat)
    requires 0 < n < 32 && i < 32
    ensures Bit(Rotr(x, n), i) <==> Bit(x, (i + n) % 32)
  {
    hide *;
    RotrParts(x, n);
    Pow2Word();
    BitwiseBits(Shr(x, n), Shl(x, 32 - n), i);
    ShrBits(x, n, i);
    ShlBits(x, 32 - n, i);
    if i + n >= 32 {
      NoHighBits(x, 32, i + n);
      assert (i + n) % 32 == i - (32 - n);
    } else {
      assert (i + n) % 32 == i + n;
    }
  }

  lemma LowByte(q: nat, r: Byte)
    ensures (q * 0x100 + r) / 0x100 == q && (q * 0x100 + r) % 0x100 == r
  {
  }

  lemma WordOfBytes(w: Word)
    ensures var b := WordBytes(w); BytesWord(b[0], b[1], b[2], b[3]) == w
  {
  }

  lemma BytesOfWord(b0: Byte, b1: Byte, b2: Byte, b3: Byte)
    ensures WordBytes(BytesWord(b0, b1, b2, b3)) == [b0, b1, b2, b3]
  {
    var q2 := b0 * 0x100 + b1;
    var q1 := q2 * 0x100 + b2;
    assert BytesWord(b0, b1, b2, b3) == q1 * 0x100 + b3;
    LowByte(q1, b3);
    LowByte(q2, b2);
    LowByte(b0, b1);
  }

  /** Bytes and words are two spellings of the same value, in both directions. */
  lemma WordBytesRoundTrip(w: Word, b0: Byte, b1: Byte, b2: Byte, b3: Byte)
    ensures WordBytes(w) == [b0, b1, b2, b3] <==> w == BytesWord(b0, b1, b2, b3)
  {
    WordOfBytes(w);
    BytesOfWord(b0, b1, b2, b3);
    hide WordBytes, BytesWord;
  }

  lemma NextMultiple(x: int, y: int)
    requires x % 64 == 0 && y % 64 == 0 && x < y + 64
    ensures x <= y
  {
  }

  /** The padded length is the least multiple of 64 with room for the marker and the length. */
  lemma PadIsLeast(m: seq<Byte>, n: nat)
    requires |m| < 0x2000_0000_0000_0000
    ensures n % 64 == 0 && n >= |m| + 9 ==> |Pad(m)| <= n
  {
    if n % 64 == 0 && n >= |m| + 9 { NextMultiple(|Pad(m)|, n); }
  }
}
