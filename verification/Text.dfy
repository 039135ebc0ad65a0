/** The few string operations the handlers lean on. */
module Text {
  /** Unicode white space, as `str::trim` takes it. */
  predicate IsSpace(c: char) {
    || '\t' <= c <= '\r' || c == ' ' || c == '\U{85}' || c == '\U{A0}' || c == '\U{1680}'
    || '\U{2000}' <= c <= '\U{200A}' || c == '\U{2028}' || c == '\U{2029}' || c == '\U{202F}'
    || c == '\U{205F}' || c == '\U{3000}'
  }

  function TrimStart(s: string): string { if s != [] && IsSpace(s[0]) then TrimStart(s[1..]) else s }

  function TrimEnd(s: string): string {
    if s != [] && IsSpace(s[|s| - 1]) then TrimEnd(s[..|s| - 1]) else s
  }

  function Trim(s: string): string { TrimEnd(TrimStart(s)) }

  predicate AllSpace(s: string) { forall i :: 0 <= i < |s| ==> IsSpace(s[i]) }

  lemma {:induction false} StartIsTrimmed(s: string) returns (k: nat)
    ensures k <= |s| && AllSpace(s[..k]) && TrimStart(s) == s[k..]
    ensures TrimStart(s) != "" ==> !IsSpace(TrimStart(s)[0])
  {
    k := 0;
    if s != [] && IsSpace(s[0]) {
      var rest := StartIsTrimmed(s[1..]);
      k := rest + 1;
      SpaceInFront(s[0], s[1..][..rest]);
      hide *;
      assert s[..k] == [s[0]] + s[1..][..rest] && s[1..][rest..] == s[k..];
      assert TrimStart(s) == TrimStart(s[1..]) by { StartSkipped(s); }
    }
  }

  lemma SpaceInFront(c: char, s: string)
    requires IsSpace(c) && AllSpace(s)
    ensures AllSpace([c] + s)
  {
    hide IsSpace;
  }

  lemma StartSkipped(s: string)
    requires s != [] && IsSpace(s[0])
    ensures TrimStart(s) == TrimStart(s[1..])
  {
  }

  lemma {:induction false} EndIsTrimmed(s: string)
    ensures TrimEnd(s) <= s && AllSpace(s[|TrimEnd(s)|..])
    ensures TrimEnd(s) != "" ==> !IsSpace(TrimEnd(s)[|TrimEnd(s)| - 1])
  {
    if s != [] && IsSpace(s[|s| - 1]) {
      EndIsTrimmed(s[..|s| - 1]);
      var n := |TrimEnd(s)|;
      assert s[n..] == s[..|s| - 1][n..] + [s[|s| - 1]];
    }
  }

  /** Trimming takes white space off both ends, all of it and nothing else. */
  lemma TrimStrips(s: string)
    ensures exists i, j :: 0 <= i <= j <= |s| && Trim(s) == s[i..j] && AllSpace(s[..i]) && AllSpace(s[j..])
    ensures Trim(s) != "" ==> !IsSpace(Trim(s)[0]) && !IsSpace(Trim(s)[|Trim(s)| - 1])
  {
    var i := StartIsTrimmed(s);
    EndIsTrimmed(s[i..]);
    KeptInside(s, i, Trim(s));
    hide AllSpace, IsSpace;
    var j := i + |Trim(s)|;
    assert Trim(s) == s[i..j];
    if Trim(s) != "" { assert Trim(s)[0] == s[i..][0]; }
  }

  lemma KeptInside(s: string, i: nat, kept: string)
    requires i <= |s| && kept <= s[i..]
    ensures i + |kept| <= |s| && kept == s[i..i + |kept|] && s[i..][|kept|..] == s[i + |kept|..]
  {
  }

  /** The pieces between separators: one more than there are separators. */
  function Split(s: string, separator: char): (pieces: seq<string>)
    ensures |pieces| > 0
  {
    if s == [] then [""]
    else
      var rest := Split(s[1..], separator);
      if s[0] == separator then [""] + rest else [[s[0]] + rest[0]] + rest[1..]
  }

  lemma {:induction false} SplitOne(s: string, separator: char)
    requires separator !in s
    ensures Split(s, separator) == [s]
  {
    if s != [] {
      assert separator !in s[1..];
      SplitOne(s[1..], separator);
      assert [s[0]] + s[1..] == s;
    }
  }

  /** A separator cuts a text in two, whatever is on either side. */
  lemma {:induction false} SplitAt(a: string, separator: char, b: string)
    ensures Split(a + [separator] + b, separator) == Split(a, separator) + Split(b, separator)
  {
    if a == [] {
      assert (a + [separator] + b)[1..] == b;
    } else {
      assert (a + [separator] + b)[1..] == a[1..] + [separator] + b;
      SplitAt(a[1..], separator, b);
    }
  }
}
