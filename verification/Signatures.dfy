/** Request signatures (src/crypto.rs): the header's text, its hexadecimal digits, and what counts as the
    same signature. HMAC-SHA256 is any function of a secret and a message. */
module Signatures {
  import opened Common
  import opened Replay
  import opened Text
  import opened Templates

  type Mac = (string, string) -> seq<Byte>

  const SIGNATURE_PREFIX := "sha256="

  // ---------- Hexadecimal ----------

  function DigitValue(c: char): Option<nat> {
    if '0' <= c <= '9' then Some((c - '0') as nat)
    else if 'a' <= c <= 'f' then Some(10 + (c - 'a') as nat)
    else if 'A' <= c <= 'F' then Some(10 + (c - 'A') as nat)
    else None
  }

  function Digit(n: nat): char
    requires n < 16
  {
    if n < 10 then '0' + n as char else 'a' + (n - 10) as char
  }

  lemma DigitsAreHexadecimal(n: nat)
    requires n < 16
    ensures Digit(n) == "0123456789abcdef"[n] && DigitValue("0123456789ABCDEF"[n]) == Some(n)
  {
  }

  /** `hex::decode`: pairs of digits in either case, and nothing else. */
  function HexDecode(s: string): Option<seq<Byte>> {
    if s == "" then Some([])
    else if |s| == 1 then None
    else
      var (high, low, rest) := (DigitValue(s[0]), DigitValue(s[1]), HexDecode(s[2..]));
      if high.None? || low.None? || rest.None? then None
      else DigitBounds(s[0]); DigitBounds(s[1]); Some([16 * high.value + low.value] + rest.value)
  }

  /** `hex::encode`: lower case. */
  function HexEncode(bytes: seq<Byte>): string {
    if bytes == [] then "" else [Digit(bytes[0] / 16), Digit(bytes[0] % 16)] + HexEncode(bytes[1..])
  }

  function Lower(s: string): string {
    if s == "" then ""
    else [if 'A' <= s[0] <= 'Z' then s[0] - 'A' + 'a' else s[0]] + Lower(s[1..])
  }

  lemma DigitBounds(c: char)
    ensures DigitValue(c).Some? ==> DigitValue(c).value < 16
  {
  }

  /** A digit stands for n exactly when it is n's digit once lowered. */
  lemma DigitUpToCase(c: char, n: nat)
    requires n < 16
    ensures DigitValue(c) == Some(n) <==> Lower([c]) == [Digit(n)]
  {
    assert [c][1..] == "" && Lower([c]) == [if 'A' <= c <= 'Z' then c - 'A' + 'a' else c] + "";
    assert Lower([c])[0] == if 'A' <= c <= 'Z' then c - 'A' + 'a' else c;
  }

  lemma LowerPair(s: string)
    requires |s| >= 2
    ensures Lower(s) == Lower([s[0]]) + Lower([s[1]]) + Lower(s[2..])
    ensures |Lower([s[0]])| == |Lower([s[1]])| == 1
  {
    assert [s[0]][1..] == "" && [s[1]][1..] == "" && s[1..][1..] == s[2..];
  }

  lemma {:induction false} LowerLength(s: string)
    ensures |Lower(s)| == |s|
  {
    if s != "" { LowerLength(s[1..]); }
  }

  /** The texts that decode to some bytes are their encoding in any mixture of cases. */
  lemma {:induction false} DecodesUpToCase(s: string, bytes: seq<Byte>)
    ensures HexDecode(s) == Some(bytes) <==> Lower(s) == HexEncode(bytes)
    decreases |s|
  {
    LowerLength(s);
    if |s| >= 2 && bytes != [] {
      LowerPair(s);
      DecodesUpToCase(s[2..], bytes[1..]);
      DigitUpToCase(s[0], bytes[0] / 16);
      DigitUpToCase(s[1], bytes[0] % 16);
      PairDecodes(s, bytes);
      PairEncodes(Lower([s[0]]), Lower([s[1]]), Lower(s[2..]), bytes);
    }
  }

  lemma PairDecodes(s: string, bytes: seq<Byte>)
    requires |s| >= 2 && bytes != []
    ensures HexDecode(s) == Some(bytes)
      <==> && DigitValue(s[0]) == Some(bytes[0] / 16)
           && DigitValue(s[1]) == Some(bytes[0] % 16)
           && HexDecode(s[2..]) == Some(bytes[1..])
  {
    DigitBounds(s[0]);
    DigitBounds(s[1]);
    assert [bytes[0]] + bytes[1..] == bytes;
  }

  lemma PairEncodes(a: string, b: string, rest: string, bytes: seq<Byte>)
    requires |a| == |b| == 1 && bytes != []
    ensures a + b + rest == HexEncode(bytes)
      <==> a == [Digit(bytes[0] / 16)] && b == [Digit(bytes[0] % 16)] && rest == HexEncode(bytes[1..])
  {
    var all, code := a + b + rest, HexEncode(bytes);
    assert all[0] == a[0] && all[1] == b[0] && all[2..] == rest;
    assert code[0] == Digit(bytes[0] / 16) && code[1] == Digit(bytes[0] % 16) && code[2..] == HexEncode(bytes[1..]);
    assert all == [all[0]] + [all[1]] + all[2..] && code == [code[0]] + [code[1]] + code[2..];
  }

  // ---------- Signing and verifying ----------

  /** The hexadecimal part of a well-formed header: after the mandatory tag, without surrounding space. */
  function HexPart(provided: string): Option<string> {
    var text := Trim(provided);
    if SIGNATURE_PREFIX <= text then Some(Trim(text[|SIGNATURE_PREFIX|..])) else None
  }

  /** `compute_signature`: the whole header value. */
  function ComputeSignature(mac: Mac, secret: string, message: string): string {
    SIGNATURE_PREFIX + HexEncode(mac(secret, message))
  }

  /** `verify_signature`: the decoded digest, if it is the message's. */
  function VerifySignature(mac: Mac, secret: string, message: string, provided: string): Option<seq<Byte>> {
    var hex := HexPart(provided);
    if hex.None? then None
    else
      var bytes := HexDecode(hex.value);
      if bytes.None? || bytes.value != mac(secret, message) then None else bytes
  }

  lemma {:induction false} EncodedIsLower(bytes: seq<Byte>)
    ensures Lower(HexEncode(bytes)) == HexEncode(bytes)
    decreases |bytes|
  {
    if bytes != [] {
      var code := HexEncode(bytes);
      EncodedIsLower(bytes[1..]);
      LowerPair(code);
      DigitUpToCase(code[0], bytes[0] / 16);
      DigitUpToCase(code[1], bytes[0] % 16);
      assert code[2..] == HexEncode(bytes[1..]);
      hide Lower, HexEncode;
      assert code == [code[0]] + [code[1]] + code[2..];
    }
  }

  lemma DigitIsNoSpace(n: nat)
    requires n < 16
    ensures !IsSpace(Digit(n))
  {
  }

  lemma {:induction false} EncodedHasNoSpace(bytes: seq<Byte>)
    ensures forall i :: 0 <= i < |HexEncode(bytes)| ==> !IsSpace(HexEncode(bytes)[i])
  {
    if bytes != [] {
      EncodedHasNoSpace(bytes[1..]);
      DigitIsNoSpace(bytes[0] / 16);
      DigitIsNoSpace(bytes[0] % 16);
      hide IsSpace, Digit;
      var code := HexEncode(bytes);
      assert code[2..] == HexEncode(bytes[1..]);
      forall i | 0 <= i < |code| ensures !IsSpace(code[i]) { assert i >= 2 ==> code[i] == code[2..][i - 2]; }
    }
  }

  lemma TrimNothing(s: string)
    requires s != "" ==> !IsSpace(s[0]) && !IsSpace(s[|s| - 1])
    ensures Trim(s) == s
  {
  }

  /** A header is accepted exactly when its digits spell the message's digest, in either case and with any
      space around them. */
  lemma AcceptedSpellings(mac: Mac, secret: string, message: string, provided: string)
    ensures VerifySignature(mac, secret, message, provided)
      == if HexPart(provided).Some? && Lower(HexPart(provided).value) == HexEncode(mac(secret, message))
         then Some(mac(secret, message)) else None
  {
    if HexPart(provided).Some? { DecodesUpToCase(HexPart(provided).value, mac(secret, message)); }
  }

  /** What is computed verifies. */
  lemma ComputedSignatureVerifies(mac: Mac, secret: string, message: string)
    ensures VerifySignature(mac, secret, message, ComputeSignature(mac, secret, message)) == Some(mac(secret, message))
  {
    var code := HexEncode(mac(secret, message));
    var header := ComputeSignature(mac, secret, message);
    EncodedIsLower(mac(secret, message));
    EncodedHasNoSpace(mac(secret, message));
    assert forall i :: 0 <= i < |code| ==> header[7 + i] == code[i];
    TrimNothing(header);
    assert header[7..] == code;
    TrimNothing(code);
    AcceptedSpellings(mac, secret, message, header);
  }

  /** One use per signature: two accepted headers carry the same digest exactly when they differ in nothing
      but case and surrounding space. */
  lemma OneSignatureOneDigest(mac: Mac, s1: string, m1: string, p1: string, s2: string, m2: string, p2: string)
    requires VerifySignature(mac, s1, m1, p1).Some? && VerifySignature(mac, s2, m2, p2).Some?
    ensures VerifySignature(mac, s1, m1, p1) == VerifySignature(mac, s2, m2, p2)
      <==> Lower(HexPart(p1).value) == Lower(HexPart(p2).value)
  {
    AcceptedSpellings(mac, s1, m1, p1);
    AcceptedSpellings(mac, s2, m2, p2);
    DecodesUpToCase(HexPart(p2).value, mac(s1, m1));
  }
}
