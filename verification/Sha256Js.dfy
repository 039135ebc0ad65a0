/** The dashboard's own SHA-256 and HMAC (static/app.js), with JavaScript's number semantics.

    A JavaScript number is modelled as the integer it holds. The bitwise operators convert their
    operands to 32 bits and yield SIGNED 32-bit values; sums are double additions, and `JsAdd`
    demands that each stays in the range where doubles are exact. */
module Sha256Js {
  import opened Common
  import opened Sha256
  import opened Sha256Constants

  datatype JsError = RangeError

  // ---------- Number operators ----------

  function ToUint32(x: int): (w: Word)
    ensures 0 <= x < 0x1_0000_0000 ==> w == x
  {
    x % WORDS
  }

  function ToInt32(x: int): (r: int)
    ensures -0x8000_0000 <= r < 0x8000_0000
    ensures ToUint32(r) == ToUint32(x)
    ensures -0x8000_0000 <= x < 0x8000_0000 ==> r == x
  {
    var w := ToUint32(x);
    if w >= 0x8000_0000 then w - WORDS else w
  }

  function JsAdd(x: int, y: int): (r: int)
    requires -0x20_0000_0000_0000 <= x + y <= 0x20_0000_0000_0000
    ensures r == x + y
    ensures ToUint32(r) == Add(ToUint32(x), ToUint32(y))
  {
    x + y
  }

  function JsXor(x: int, y: int): (r: int)
    ensures -0x8000_0000 <= r < 0x8000_0000
    ensures ToUint32(r) == WXor(ToUint32(x), ToUint32(y))
  {
    ToInt32(WXor(ToUint32(x), ToUint32(y)))
  }

  function JsAnd(x: int, y: int): (r: int)
    ensures -0x8000_0000 <= r < 0x8000_0000
    ensures ToUint32(r) == WAnd(ToUint32(x), ToUint32(y))
  {
    ToInt32(WAnd(ToUint32(x), ToUint32(y)))
  }

  function JsOr(x: int, y: int): (r: int)
    ensures -0x8000_0000 <= r < 0x8000_0000
    ensures ToUint32(r) == WOr(ToUint32(x), ToUint32(y))
  {
    ToInt32(WOr(ToUint32(x), ToUint32(y)))
  }

  /** `~x`. */
  function JsNot(x: int): (r: int)
    ensures -0x8000_0000 <= r < 0x8000_0000
    ensures ToUint32(r) == Not(ToUint32(x))
  {
    -ToInt32(x) - 1
  }

  /** `x >>> n`. */
  function JsUshr(x: int, n: nat): (r: Word)
    ensures ToUint32(r) == Shr(ToUint32(x), n)
  {
    Shr(ToUint32(x), n)
  }

  /** `x << n`. */
  function JsShl(x: int, n: nat): (r: int)
    ensures -0x8000_0000 <= r < 0x8000_0000
    ensures ToUint32(r) == Shl(ToUint32(x), n)
  {
    ToInt32(Shl(ToUint32(x), n))
  }

  /** `x >> 6`. */
  function JsSar6(x: int): int { ToInt32(x) / 64 }

  function Rotr32(x: int, n: nat): (r: int)
    requires 0 < n < 32
    ensures -0x8000_0000 <= r < 0x8000_0000
    ensures ToUint32(r) == Rotr(ToUint32(x), n)
  {
    JsOr(JsUshr(x, n), JsShl(x, 32 - n))
  }

  // ---------- The length computation ----------

  lemma DoubleMod(x: Word, y: nat)
    requires x == y % WORDS
    ensures 2 * x % WORDS == 2 * y % WORDS
  {
  }

  lemma Shl6(x: Word)
    ensures Shl(x, 6) == 64 * x % WORDS
  {
    var x1 := 2 * x % WORDS;
    var x2 := 2 * x1 % WORDS;
    var x3 := 2 * x2 % WORDS;
    var x4 := 2 * x3 % WORDS;
    var x5 := 2 * x4 % WORDS;
    var x6 := 2 * x5 % WORDS;
    assert Shl(x, 6) == x6 by {
      hide Pow2;
      assert Shl(x, 6) == Shl(x1, 5);
      assert Shl(x1, 5) == Shl(x2, 4);
      assert Shl(x2, 4) == Shl(x3, 3);
      assert Shl(x3, 3) == Shl(x4, 2);
      assert Shl(x4, 2) == Shl(x5, 1);
      assert Shl(x5, 1) == Shl(x6, 0);
    }
    hide *;
    DoubleMod(x1, 2 * x);
    DoubleMod(x2, 4 * x);
    DoubleMod(x3, 8 * x);
    DoubleMod(x4, 16 * x);
    DoubleMod(x5, 32 * x);
  }

  function TotalLen(len: nat): int
    requires len < 0x4_0000_0000_0000
  {
    JsShl(JsSar6(JsAdd(JsAdd(len, 9), 63)), 6)
  }

  lemma ShiftedLen(y: int)
    requires -0x200_0000 <= y < 0x200_0000
    ensures JsShl(y, 6) == 64 * y
  {
    Shl6(ToUint32(y));
    hide Shl;
    assert ToUint32(y) == (if y < 0 then y + WORDS else y);
    assert 64 * ToUint32(y) % WORDS == 64 * y % WORDS;
  }

  lemma SixtyFours(len: nat)
    ensures 64 * ((len + 72) / 64) == len + 9 + ZeroCount(len)
  {
    var q, r := len / 64, len % 64;
    if r < 56 {
      assert (len + 72) / 64 == q + 1;
    } else {
      assert (len + 72) / 64 == q + 2;
    }
  }

  /** Below 2^31 the length is the padded length; above it, the 32-bit shift makes an allocation or a
      copy that JavaScript refuses. */
  lemma TotalLenIsPadded(len: nat)
    requires len < 0x4_0000_0000_0000
    ensures len + 72 < 0x8000_0000 ==> TotalLen(len) == len + 9 + ZeroCount(len) && TotalLen(len) % 64 == 0
    ensures len + 72 >= 0x8000_0000 ==> TotalLen(len) < len
  {
    var x := ToInt32(len + 72);
    var y := JsSar6(len + 72);
    ShiftedLen(y);
    hide JsShl, ToUint32, Shl;
    assert TotalLen(len) == 64 * y;
    SixtyFours(len);
    hide ZeroCount;
    if len + 72 >= 0x1_0000_0000 {
      assert 64 * y <= x < 0x8000_0000;
    } else if len + 72 >= 0x8000_0000 {
      HighLengthIsNegative(len + 72);
    }
  }

  lemma HighLengthIsNegative(x: nat)
    requires 0x8000_0000 <= x < 0x1_0000_0000
    ensures JsSar6(x) < 0
  {
  }

  // ---------- DataView ----------

  function GetUint32(b: seq<Byte>, off: nat): Word
    requires off + 4 <= |b|
  {
    BytesWord(b[off], b[off + 1], b[off + 2], b[off + 3])
  }

  method SetUint32(msg: array<Byte>, off: nat, value: int)
    requires off + 4 <= msg.Length
    modifies msg
    ensures msg[..] == old(msg[..off]) + WordBytes(ToUint32(value)) + old(msg[off + 4..])
  {
    hide *;
    var b := WordBytes(ToUint32(value));
    assert |b| == 4;
    msg[off], msg[off + 1], msg[off + 2], msg[off + 3] := b[0], b[1], b[2], b[3];
    assert msg[off..off + 4] == b;
    assert msg[..] == msg[..off] + msg[off..off + 4] + msg[off + 4..];
  }

  // ---------- Agreement of one step with the standard ----------

  lemma SumWords(x: int, y: int)
    ensures ToUint32(x + y) == Add(ToUint32(x), ToUint32(y))
  {
  }

  lemma AddReorders(a: Word, b: Word, c: Word, d: Word)
    ensures Add(Add(Add(a, b), c), d) == Add(Add(Add(d, c), b), a)
  {
    hide Add, ToUint32;
    SumWords(a, b);
    SumWords(a + b, c);
    SumWords(a + b + c, d);
    SumWords(d, c);
    SumWords(d + c, b);
    SumWords(d + c + b, a);
    assert a + b + c + d == d + c + b + a;
  }

  lemma Sigma0Agrees(x: Word)
    ensures ToUint32(JsXor(JsXor(Rotr32(x, 7), Rotr32(x, 18)), JsUshr(x, 3))) == SmallSigma0(x)
  {
    hide JsXor, Rotr32, JsUshr, WXor, Rotr, Shr;
  }

  lemma Sigma1Agrees(x: Word)
    ensures ToUint32(JsXor(JsXor(Rotr32(x, 17), Rotr32(x, 19)), JsUshr(x, 10))) == SmallSigma1(x)
  {
    hide JsXor, Rotr32, JsUshr, WXor, Rotr, Shr;
  }

  lemma ScheduleAgrees(block: Block, i: nat, s0: int, s1: int)
    requires 16 <= i < 64
    ensures ToUint32(s0) == SmallSigma0(Schedule(block, i - 15)) && ToUint32(s1) == SmallSigma1(Schedule(block, i - 2))
      ==> ToUint32(Schedule(block, i - 16) + s0 + Schedule(block, i - 7) + s1) == Schedule(block, i)
  {
    hide SmallSigma0, SmallSigma1, Add, ToUint32;
    var a, c := Schedule(block, i - 16), Schedule(block, i - 7);
    SumWords(a, s0);
    SumWords(a + s0, c);
    SumWords(a + s0 + c, s1);
    AddReorders(a, ToUint32(s0), c, ToUint32(s1));
  }

  lemma BigSigmasAgree(a: Word, e: Word)
    ensures ToUint32(JsXor(JsXor(Rotr32(a, 2), Rotr32(a, 13)), Rotr32(a, 22))) == BigSigma0(a)
    ensures ToUint32(JsXor(JsXor(Rotr32(e, 6), Rotr32(e, 11)), Rotr32(e, 25))) == BigSigma1(e)
  {
    hide JsXor, Rotr32, WXor, Rotr;
  }

  lemma ChoiceAgrees(x: Word, y: Word, z: Word)
    ensures ToUint32(JsXor(JsAnd(x, y), JsAnd(JsNot(x), z))) == Ch(x, y, z)
    ensures ToUint32(JsXor(JsXor(JsAnd(x, y), JsAnd(x, z)), JsAnd(y, z))) == Maj(x, y, z)
  {
    hide JsXor, JsAnd, JsNot, WXor, WAnd, Not;
  }

  lemma RoundAgrees(s: Regs, k: Word, w: Word, S1: int, ch: int, t1: Word, S0: int, maj: int, t2: Word)
    requires ToUint32(S1) == BigSigma1(s.e) && ToUint32(ch) == Ch(s.e, s.f, s.g)
    requires ToUint32(S0) == BigSigma0(s.a) && ToUint32(maj) == Maj(s.a, s.b, s.c)
    requires t1 == ToUint32(s.h + S1 + ch + k + w) && t2 == ToUint32(S0 + maj)
    ensures Regs(ToUint32(t1 + t2), s.a, s.b, s.c, ToUint32(s.d + t1), s.e, s.f, s.g) == Round(s, k, w)
  {
    hide BigSigma0, BigSigma1, Ch, Maj, Add, ToUint32;
    SumWords(s.h, S1);
    SumWords(s.h + S1, ch);
    SumWords(s.h + S1 + ch, k);
    SumWords(s.h + S1 + ch + k, w);
    SumWords(S0, maj);
    SumWords(t1, t2);
    SumWords(s.d, t1);
  }

  // ---------- sha256Bytes ----------

  ghost function RegsOf(h: seq<Word>): Regs
    requires |h| == 8
  {
    Regs(h[0], h[1], h[2], h[3], h[4], h[5], h[6], h[7])
  }

  lemma RegsOfParts(h: seq<Word>)
    requires |h| == 8
    ensures RegsOf(h) == Regs(h[0], h[1], h[2], h[3], h[4], h[5], h[6], h[7])
  {
  }

  lemma RoundsStep(s: Regs, block: Block, i: nat)
    requires i < 64
    ensures Rounds(s, block, 0) == s
    ensures Rounds(s, block, i + 1) == Round(Rounds(s, block, i), KAt(i), Schedule(block, i))
  {
  }

  lemma HashStep(p: seq<Byte>, n: nat, block: Block)
    requires 64 * n + 64 <= |p| && block == p[64 * n..64 * n + 64]
    ensures HashBlocks(p, n + 1) == Compress(HashBlocks(p, n), block)
  {
    hide Compress;
  }

  lemma InitialRegs(h: seq<Word>)
    requires h == [0x6a09e667, 0xbb67ae85, 0x3c6ef372, 0xa54ff53a,
                   0x510e527f, 0x9b05688c, 0x1f83d9ab, 0x5be0cd19]
    ensures RegsOf(h) == H0
  {
  }

  lemma HashOfPadded(m: seq<Byte>, p: seq<Byte>)
    requires |m| < 0x2000_0000_0000_0000 && p == Pad(m)
    ensures |p| % 64 == 0
    ensures HashBlocks(p, 0) == H0
    ensures Hash(m) == Digest(HashBlocks(p, |p| / 64))
  {
    hide Pad, Compress, Digest;
  }

  lemma CompressAdds(s: Regs, block: Block)
    ensures Compress(s, block) == AddRegs(s, Rounds(s, block, 64))
  {
    hide Rounds, AddRegs;
  }

  lemma PadParts(m: seq<Byte>)
    requires |m| < 0x2000_0000_0000_0000
    ensures Pad(m) == m + [0x80] + Zeros(ZeroCount(|m|)) + WordBytes(8 * |m| / 0x1_0000_0000)
                      + WordBytes(ToUint32(ToUint32(8 * |m|)))
  {
    hide WordBytes, Zeros;
  }

  /** The message with its marker, followed by zeros. */
  method MarkMessage(bytes: array<Byte>, totalLen: nat) returns (msg: array<Byte>)
    requires bytes.Length + 9 <= totalLen
    ensures fresh(msg) && msg[..] == bytes[..] + [0x80] + Zeros(totalLen - bytes.Length - 1)
  {
    msg := new Byte[totalLen](i => 0);
    forall i | 0 <= i < bytes.Length { msg[i] := bytes[i]; }
    msg[bytes.Length] := 0x80;
  }

  /** The message with its marker and its length field. */
  method PadMessage(bytes: array<Byte>) returns (r: Result<array<Byte>, JsError>)
    requires bytes.Length < 0x4_0000_0000_0000
    ensures r.Ok? <==> bytes.Length + 72 < 0x8000_0000
    ensures r.Ok? ==> r.value[..] == Pad(bytes[..])
  {
    hide *;
    var bitLen := bytes.Length * 8;
    var totalLen := TotalLen(bytes.Length);
    TotalLenIsPadded(bytes.Length);
    if totalLen < 0 { return Err(RangeError); }
    if bytes.Length > totalLen { return Err(RangeError); }
    var msg := MarkMessage(bytes, totalLen);
    ghost var m, zeros := bytes[..], totalLen - bytes.Length - 9;
    PadParts(m);
    assert msg[..] == m + [0x80] + Zeros(zeros + 8);
    SetUint32(msg, totalLen - 8, bitLen / 0x1_0000_0000);
    assert msg[..] == m + [0x80] + Zeros(zeros) + WordBytes(bitLen / 0x1_0000_0000) + Zeros(4);
    SetUint32(msg, totalLen - 4, ToUint32(bitLen));
    assert msg[..] == Pad(m);
    return Ok(msg);
  }

  lemma ScheduleHead(msg: seq<Byte>, off: nat, i: nat)
    requires off + 64 <= |msg| && i < 16
    ensures Schedule(msg[off..off + 64], i) == GetUint32(msg, off + i * 4)
  {
  }

  /** Loads the block at `off` into the first 16 words of the schedule. */
  method LoadBlock(msg: array<Byte>, off: nat, w: array<Word>)
    requires off + 64 <= msg.Length && w.Length == 64
    modifies w
    ensures forall j :: 0 <= j < 16 ==> w[j] == Schedule(msg[off..off + 64], j)
  {
    hide GetUint32, Schedule;
    ghost var m := msg[..];
    assert msg[off..off + 64] == m[off..off + 64];
    for i := 0 to 16
      invariant forall j :: 0 <= j < i ==> w[j] == Schedule(m[off..off + 64], j)
    {
      ScheduleHead(m, off, i);
      w[i] := GetUint32(msg[..], off + i * 4);
    }
  }

  /** Extends the schedule from 16 words to 64. */
  method ExtendSchedule(w: array<Word>, ghost block: Block)
    requires w.Length == 64
    requires forall j :: 0 <= j < 16 ==> w[j] == Schedule(block, j)
    modifies w
    ensures forall j :: 0 <= j < 64 ==> w[j] == Schedule(block, j)
  {
    hide *;
    for i := 16 to 64
      invariant forall j :: 0 <= j < i ==> w[j] == Schedule(block, j)
    {
      var x15, x2 := w[i - 15], w[i - 2];
      var s0 := JsXor(JsXor(Rotr32(x15, 7), Rotr32(x15, 18)), JsUshr(x15, 3));
      var s1 := JsXor(JsXor(Rotr32(x2, 17), Rotr32(x2, 19)), JsUshr(x2, 10));
      Sigma0Agrees(x15);
      Sigma1Agrees(x2);
      ScheduleAgrees(block, i, s0, s1);
      w[i] := ToUint32(JsAdd(JsAdd(JsAdd(w[i - 16], s0), w[i - 7]), s1));
    }
  }

  /** The 64 rounds over one block, from the registers in `h`. */
  method RunRounds(h: array<Word>, w: array<Word>, ghost block: Block) returns (s: Regs)
    requires h.Length == 8 && w.Length == 64
    requires forall j :: 0 <= j < 64 ==> w[j] == Schedule(block, j)
    ensures s == Rounds(RegsOf(h[..]), block, 64)
  {
    hide *;
    var a, b, c, d, e, f, g, hh := h[0], h[1], h[2], h[3], h[4], h[5], h[6], h[7];
    ghost var first := RegsOf(h[..]);
    RegsOfParts(h[..]);
    RoundsStep(first, block, 0);
    var i := 0;
    while i < 64
      invariant 0 <= i <= 64
      invariant Regs(a, b, c, d, e, f, g, hh) == Rounds(first, block, i)
    {
      ghost var s := Regs(a, b, c, d, e, f, g, hh);
      var S1 := JsXor(JsXor(Rotr32(e, 6), Rotr32(e, 11)), Rotr32(e, 25));
      var ch := JsXor(JsAnd(e, f), JsAnd(JsNot(e), g));
      var t1 := ToUint32(JsAdd(JsAdd(JsAdd(JsAdd(hh, S1), ch), JsK(i)), w[i]));
      var S0 := JsXor(JsXor(Rotr32(a, 2), Rotr32(a, 13)), Rotr32(a, 22));
      var maj := JsXor(JsXor(JsAnd(a, b), JsAnd(a, c)), JsAnd(b, c));
      var t2 := ToUint32(JsAdd(S0, maj));
      BigSigmasAgree(a, e);
      ChoiceAgrees(e, f, g);
      ChoiceAgrees(a, b, c);
      TableAgrees(i);
      RoundAgrees(s, KAt(i), w[i], S1, ch, t1, S0, maj, t2);
      RoundsStep(first, block, i);
      hh := g; g := f; f := e;
      e := ToUint32(JsAdd(d, t1));
      d := c; c := b; b := a;
      a := ToUint32(JsAdd(t1, t2));
      assert Regs(a, b, c, d, e, f, g, hh) == Rounds(first, block, i + 1);
      i := i + 1;
    }
    s := Regs(a, b, c, d, e, f, g, hh);
  }

  method AddInto(h: array<Word>, s: Regs)
    requires h.Length == 8
    modifies h
    ensures RegsOf(h[..]) == AddRegs(old(RegsOf(h[..])), s)
  {
    h[0] := ToUint32(JsAdd(h[0], s.a)); h[1] := ToUint32(JsAdd(h[1], s.b));
    h[2] := ToUint32(JsAdd(h[2], s.c)); h[3] := ToUint32(JsAdd(h[3], s.d));
    h[4] := ToUint32(JsAdd(h[4], s.e)); h[5] := ToUint32(JsAdd(h[5], s.f));
    h[6] := ToUint32(JsAdd(h[6], s.g)); h[7] := ToUint32(JsAdd(h[7], s.h));
  }

  method EncodeDigest(h: array<Word>) returns (out: array<Byte>)
    requires h.Length == 8
    ensures out[..] == Digest(RegsOf(h[..]))
  {
    hide WordBytes, ToUint32, EachWordBytes;
    out := new Byte[32](i => 0);
    NoWordBytes();
    for i := 0 to 8
      invariant out.Length == 32 && fresh(out) && out[..4 * i] == EachWordBytes(h[..i])
    {
      SetUint32(out, i * 4, h[i]);
      assert h[..i + 1] == h[..i] + [h[i]];
      OneMoreWord(h[..i], h[i]);
    }
    assert out[..] == out[..32] && h[..] == h[..8];
    EightWords(h[..]);
  }

  function EachWordBytes(words: seq<Word>): seq<Byte> {
    if words == [] then [] else EachWordBytes(words[..|words| - 1]) + WordBytes(words[|words| - 1])
  }

  lemma NoWordBytes()
    ensures EachWordBytes([]) == []
  {
  }

  lemma OneMoreWord(words: seq<Word>, w: Word)
    ensures EachWordBytes(words + [w]) == EachWordBytes(words) + WordBytes(w)
  {
    assert (words + [w])[..|words|] == words;
  }

  lemma EightWords(h: seq<Word>)
    requires |h| == 8
    ensures EachWordBytes(h) == Digest(RegsOf(h))
  {
    hide WordBytes, EachWordBytes;
    NoWordBytes();
    forall i | 0 <= i < 8
      ensures EachWordBytes(h[..i + 1]) == EachWordBytes(h[..i]) + WordBytes(h[i])
    {
      assert h[..i + 1] == h[..i] + [h[i]];
      OneMoreWord(h[..i], h[i]);
    }
    assert h[..0] == [] && h[..8] == h;
    assert EachWordBytes(h[..0 + 1]) == WordBytes(h[0]);
    assert EachWordBytes(h[..1 + 1]) == WordBytes(h[0]) + WordBytes(h[1]);
    assert EachWordBytes(h[..2 + 1]) == WordBytes(h[0]) + WordBytes(h[1]) + WordBytes(h[2]);
    assert EachWordBytes(h[..7 + 1]) == Digest(RegsOf(h));
  }

  /** The digest when the length fits 31 bits with its padding, and JavaScript's `RangeError` for every
      longer array: never a wrong digest. */
  method Sha256Bytes(bytes: array<Byte>) returns (r: Result<array<Byte>, JsError>)
    requires bytes.Length < 0x4_0000_0000_0000
    ensures r.Ok? <==> bytes.Length + 72 < 0x8000_0000
    ensures r.Ok? ==> r.value[..] == Hash(bytes[..])
  {
    hide *;
    var h := new Word[8][0x6a09e667, 0xbb67ae85, 0x3c6ef372, 0xa54ff53a,
                         0x510e527f, 0x9b05688c, 0x1f83d9ab, 0x5be0cd19];
    InitialRegs(h[..]);
    ghost var input := bytes[..];
    var padded := PadMessage(bytes);
    if padded.Err? { return Err(RangeError); }
    var msg := padded.value;
    ghost var p := msg[..];
    HashOfPadded(input, p);
    assert bytes[..] == input;
    var w := new Word[64](i => 0);
    var off := 0;
    while off < msg.Length
      invariant 0 <= off <= msg.Length && off % 64 == 0
      invariant msg[..] == p && bytes[..] == input && h.Length == 8 && w.Length == 64
      invariant fresh(h) && fresh(w) && h != w
      invariant RegsOf(h[..]) == HashBlocks(p, off / 64)
    {
      ghost var block: Block := p[off..off + 64];
      assert msg[off..off + 64] == block;
      LoadBlock(msg, off, w);
      ExtendSchedule(w, block);
      var s := RunRounds(h, w, block);
      AddInto(h, s);
      HashStep(p, off / 64, block);
      CompressAdds(HashBlocks(p, off / 64), block);
      off := off + 64;
    }
    var out := EncodeDigest(h);
    return Ok(out);
  }

  // ---------- hmacSha256Bytes ----------

  /** The inner message, and the outer one with room left for the inner digest. */
  method PadKeys(padded: array<Byte>, msgBytes: array<Byte>) returns (inner: array<Byte>, outer: array<Byte>)
    requires padded.Length == 64
    ensures fresh(inner) && fresh(outer) && inner != outer && outer.Length == 96
    ensures inner[..] == XorPad(padded[..], 0x36) + msgBytes[..]
    ensures outer[..64] == XorPad(padded[..], 0x5c)
  {
    hide XorByte;
    ghost var k: Block := padded[..];
    inner := new Byte[64 + msgBytes.Length](i => 0);
    outer := new Byte[64 + 32](i => 0);
    for i := 0 to 64
      invariant inner.Length == 64 + msgBytes.Length && outer.Length == 96
      invariant padded[..] == k
      invariant fresh(inner) && fresh(outer) && inner != outer
      invariant inner[..i] == XorPad(k, 0x36)[..i]
      invariant outer[..i] == XorPad(k, 0x5c)[..i]
    {
      assert padded[i] == k[i];
      inner[i] := XorByte(padded[i], 0x36);
      outer[i] := XorByte(padded[i], 0x5c);
    }
    assert XorPad(k, 0x36)[..64] == XorPad(k, 0x36) && XorPad(k, 0x5c)[..64] == XorPad(k, 0x5c);
    forall i | 0 <= i < msgBytes.Length { inner[64 + i] := msgBytes[i]; }
    assert inner[..64] == XorPad(k, 0x36) && inner[64..] == msgBytes[..];
    assert inner[..] == inner[..64] + inner[64..];
  }

  method HmacSha256Bytes(keyBytes: array<Byte>, msgBytes: array<Byte>) returns (r: Result<array<Byte>, JsError>)
    requires keyBytes.Length < 0x2_0000_0000_0000 && msgBytes.Length < 0x2_0000_0000_0000
    ensures r.Ok? <==> (keyBytes.Length <= 64 || keyBytes.Length + 72 < 0x8000_0000)
                       && msgBytes.Length + 64 + 72 < 0x8000_0000
    ensures r.Ok? ==> r.value[..] == Hmac(keyBytes[..], msgBytes[..])
  {
    hide Hash, XorByte;
    ghost var kb, mb := keyBytes[..], msgBytes[..];
    var key := keyBytes;
    if keyBytes.Length > 64 {
      var hashed := Sha256Bytes(keyBytes);
      if hashed.Err? { return Err(RangeError); }
      key := hashed.value;
      assert key[..] == Hash(kb);
    }
    var padded := new Byte[64](i => 0);
    forall i | 0 <= i < key.Length { padded[i] := key[i]; }
    ghost var k := BlockKey(kb);
    assert padded[..] == k;
    assert msgBytes[..] == mb;
    var inner, outer := PadKeys(padded, msgBytes);
    assert inner[..] == XorPad(k, 0x36) + mb;
    var innerHash := Sha256Bytes(inner);
    if innerHash.Err? { return Err(RangeError); }
    forall i | 0 <= i < 32 { outer[64 + i] := innerHash.value[i]; }
    assert outer[..] == XorPad(k, 0x5c) + Hash(XorPad(k, 0x36) + mb);
    r := Sha256Bytes(outer);
    assert keyBytes[..] == kb && msgBytes[..] == mb;
    assert r.Ok? ==> r.value[..] == Hash(XorPad(k, 0x5c) + Hash(XorPad(k, 0x36) + mb));
  }
}
