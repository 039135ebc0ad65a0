/** Template expansion (src/dispatch.rs) and the canonical string it produces by default
    (src/crypto.rs). */
module Templates {
  import opened Common

  // ---------- The canonical string ----------

  /** METHOD, TARGET, TIMESTAMP and the body, one newline between. */
  function CanonicalV1(httpMethod: string, target: string, timestamp: string, body: string): string {
    httpMethod + ['\n'] + target + ['\n'] + timestamp + ['\n'] + body
  }

  /** Appends field by field, as `canonical_v1_payload` fills its buffer. */
  method CanonicalV1Payload(httpMethod: string, target: string, timestamp: string, body: string)
    returns (message: string)
    ensures message == CanonicalV1(httpMethod, target, timestamp, body)
  {
    message := httpMethod;
    message := message + ['\n'];
    message := message + target;
    message := message + ['\n'];
    message := message + timestamp;
    message := message + ['\n'];
    message := message + body;
  }

  lemma {:induction false} FirstNewlineDecides(a: string, x: string, b: string, y: string)
    requires '\n' !in a && '\n' !in b && a + ['\n'] + x == b + ['\n'] + y
    ensures a == b && x == y
  {
    var s := a + ['\n'] + x;
    assert s[|a|] == '\n' && s[|b|] == '\n';
    assert forall i :: 0 <= i < |a| ==> s[i] == a[i];
    assert forall i :: 0 <= i < |b| ==> s[i] == b[i];
    assert a == s[..|a|] && b == s[..|b|] && x == s[|a| + 1..] && y == s[|b| + 1..];
  }

  /** One string, one reading: no two requests sign the same bytes. */
  lemma CanonicalIsInjective(m1: string, t1: string, s1: string, b1: string, m2: string, t2: string,
                             s2: string, b2: string)
    requires '\n' !in m1 && '\n' !in t1 && '\n' !in s1 && '\n' !in m2 && '\n' !in t2 && '\n' !in s2
    ensures CanonicalV1(m1, t1, s1, b1) == CanonicalV1(m2, t2, s2, b2) <==> m1 == m2 && t1 == t2 && s1 == s2 && b1 == b2
  {
    if CanonicalV1(m1, t1, s1, b1) == CanonicalV1(m2, t2, s2, b2) {
      var x1, y1 := s1 + ['\n'] + b1, s2 + ['\n'] + b2;
      CanonicalNests(m1, t1, s1, b1);
      CanonicalNests(m2, t2, s2, b2);
      FirstNewlineDecides(m1, t1 + ['\n'] + x1, m2, t2 + ['\n'] + y1);
      FirstNewlineDecides(t1, x1, t2, y1);
      FirstNewlineDecides(s1, b1, s2, b2);
    }
  }

  lemma CanonicalNests(m: string, t: string, s: string, b: string)
    ensures CanonicalV1(m, t, s, b) == m + ['\n'] + (t + ['\n'] + (s + ['\n'] + b))
  {
  }

  // ---------- hmac_template ----------

  datatype Field = Method | Path | Timestamp | Body

  /** What a template means, before any value is known. */
  datatype Token = Char(c: char) | Slot(field: Field)

  datatype Values = Values(httpMethod: string, path: string, timestamp: string, body: string) {
    function Of(f: Field): string {
      match f
      case Method => httpMethod
      case Path => path
      case Timestamp => timestamp
      case Body => body
    }
  }

  function Name(f: Field): string {
    match f
    case Method => "{method}"
    case Path => "{path}"
    case Timestamp => "{timestamp}"
    case Body => "{body}"
  }

  const FIELDS: seq<Field> := [Method, Path, Timestamp, Body]

  /** The placeholder a text begins with, tried in table order. */
  function LeadingField(t: string): (r: Option<Field>)
    ensures r.Some? ==> Name(r.value) <= t
  {
    if Name(Method) <= t then Some(Method)
    else if Name(Path) <= t then Some(Path)
    else if Name(Timestamp) <= t then Some(Timestamp)
    else if Name(Body) <= t then Some(Body)
    else None
  }

  /** A backslash and the character after it. An unknown escape keeps both as they are. */
  function Escape(c: char): seq<Token> {
    if c == 'n' then [Char('\n')]
    else if c == 'r' then [Char('\r')]
    else if c == 't' then [Char('\t')]
    else if c == '\\' then [Char('\\')]
    else [Char('\\'), Char(c)]
  }

  function Tokens(t: string): seq<Token> {
    if t == "" then []
    else if t[0] == '\\' then
      if |t| == 1 then [Char('\\')] else Escape(t[1]) + Tokens(t[2..])
    else
      var field := LeadingField(t);
      if field.Some? then [Slot(field.value)] + Tokens(t[|Name(field.value)|..])
      else [Char(t[0])] + Tokens(t[1..])
  }

  function Text(token: Token, v: Values): string {
    match token
    case Char(c) => [c]
    case Slot(f) => v.Of(f)
  }

  function Render(tokens: seq<Token>, v: Values): string {
    if tokens == [] then "" else Text(tokens[0], v) + Render(tokens[1..], v)
  }

  lemma {:induction false} RenderConcat(a: seq<Token>, b: seq<Token>, v: Values)
    ensures Render(a + b, v) == Render(a, v) + Render(b, v)
  {
    if a == [] {
      assert a + b == b;
    } else {
      assert (a + b)[1..] == a[1..] + b;
      RenderConcat(a[1..], b, v);
    }
  }

  predicate Special(c: char) { c == '\\' || c == '{' }

  lemma PlainHead(t: string)
    requires t != "" && !Special(t[0])
    ensures Tokens(t) == [Char(t[0])] + Tokens(t[1..])
  {
    assert forall f: Field :: Name(f)[0] == '{';
  }

  /** A stretch with nothing special in it stands for itself. */
  lemma {:induction false} PlainPrefix(t: string, k: nat, v: Values)
    requires k <= |t| && forall i :: 0 <= i < k ==> !Special(t[i])
    ensures Render(Tokens(t), v) == t[..k] + Render(Tokens(t[k..]), v)
    decreases k
  {
    hide Tokens, Render;
    if k == 0 {
      assert t[k..] == t;
    } else {
      PlainHead(t);
      RenderOne(Char(t[0]), Tokens(t[1..]), v);
      PlainPrefix(t[1..], k - 1, v);
      assert t[1..][k - 1..] == t[k..] && [t[0]] + t[1..][..k - 1] == t[..k];
    }
  }

  lemma EscapePrefix(t: string, v: Values)
    requires |t| >= 2 && t[0] == '\\'
    ensures Render(Tokens(t), v) == Render(Escape(t[1]), v) + Render(Tokens(t[2..]), v)
  {
    RenderConcat(Escape(t[1]), Tokens(t[2..]), v);
  }

  lemma FieldPrefix(t: string, v: Values)
    requires t != "" && t[0] == '{'
    ensures var f := LeadingField(t);
      Render(Tokens(t), v) == if f.Some? then v.Of(f.value) + Render(Tokens(t[|Name(f.value)|..]), v)
                              else "{" + Render(Tokens(t[1..]), v)
  {
    var f := LeadingField(t);
    if f.Some? { RenderOne(Slot(f.value), Tokens(t[|Name(f.value)|..]), v); }
    else { RenderOne(Char(t[0]), Tokens(t[1..]), v); }
  }

  lemma RenderOne(token: Token, rest: seq<Token>, v: Values)
    ensures Render([token] + rest, v) == Text(token, v) + Render(rest, v)
    ensures Render([token], v) == Text(token, v)
  {
    assert ([token] + rest)[1..] == rest;
    assert Render([], v) == "";
  }

  method FindSpecial(s: string) returns (idx: Option<nat>)
    ensures idx.None? ==> forall i :: 0 <= i < |s| ==> !Special(s[i])
    ensures idx.Some? ==> idx.value < |s| && Special(s[idx.value]) && forall i :: 0 <= i < idx.value ==> !Special(s[i])
  {
    for i := 0 to |s|
      invariant forall k :: 0 <= k < i ==> !Special(s[k])
    {
      if Special(s[i]) { return Some(i); }
    }
    return None;
  }

  method PlaceholderPosition(rest: string) returns (p: Option<Field>)
    ensures p == LeadingField(rest)
  {
    for i := 0 to |FIELDS|
      invariant forall k :: 0 <= k < i ==> !(Name(FIELDS[k]) <= rest)
    {
      if Name(FIELDS[i]) <= rest { return Some(FIELDS[i]); }
    }
    assert forall f :: f in FIELDS ==> !(Name(f) <= rest);
    return None;
  }

  /** `resolve_hmac_template`: one pass, left to right. The tokens depend on the template alone, so no value
      is ever read for escapes or placeholders. */
  method ResolveHmacTemplate(template: string, httpMethod: string, path: string, timestamp: string, body: string)
    returns (out: string)
    ensures out == Render(Tokens(template), Values(httpMethod, path, timestamp, body))
  {
    hide Tokens, Render;
    var v := Values(httpMethod, path, timestamp, body);
    var rest := template;
    out := "";
    TokensEmpty(v);
    while rest != ""
      invariant out + Render(Tokens(rest), v) == Render(Tokens(template), v)
      decreases |rest|
    {
      var idx := FindSpecial(rest);
      if idx.None? {
        PlainPrefix(rest, |rest|, v);
        assert rest[..|rest|] == rest && rest[|rest|..] == "";
        out := out + rest;
        rest := "";
        break;
      }
      PlainPrefix(rest, idx.value, v);
      out := out + rest[..idx.value];
      rest := rest[idx.value..];
      var piece, left := ExpandSpecial(rest, v);
      AppendAssociates(out, piece, Render(Tokens(left), v));
      out := out + piece;
      rest := left;
    }
  }

  lemma AppendAssociates(a: string, b: string, c: string)
    ensures (a + b) + c == a + (b + c)
  {
  }

  /** The body of the loop: an escape, a placeholder, or a brace that begins neither. */
  method ExpandSpecial(rest: string, v: Values) returns (piece: string, left: string)
    requires rest != "" && Special(rest[0])
    ensures |left| < |rest| && piece + Render(Tokens(left), v) == Render(Tokens(rest), v)
  {
    hide Tokens, Render, Escape, LeadingField, Name;
    TokensEmpty(v);
    if rest[0] == '\\' {
      if |rest| == 1 {
        LoneBackslash(rest, v);
        return "\\", "";
      }
      EscapePrefix(rest, v);
      EscapeText(rest[1], v);
      piece := if rest[1] == 'n' then "\n"
               else if rest[1] == 'r' then "\r"
               else if rest[1] == 't' then "\t"
               else if rest[1] == '\\' then "\\"
               else "\\" + [rest[1]];
      return piece, rest[2..];
    }
    FieldPrefix(rest, v);
    var f := PlaceholderPosition(rest);
    if f.None? { return "{", rest[1..]; }
    NameLength(f.value);
    return v.Of(f.value), rest[|Name(f.value)|..];
  }

  lemma TokensEmpty(v: Values)
    ensures Tokens("") == [] && Render(Tokens(""), v) == ""
  {
  }

  lemma NameLength(f: Field)
    ensures |Name(f)| > 0
  {
  }

  lemma LoneBackslash(t: string, v: Values)
    requires |t| == 1 && t[0] == '\\'
    ensures Render(Tokens(t), v) == "\\"
  {
    RenderOne(Char('\\'), [], v);
  }

  lemma EscapeText(c: char, v: Values)
    ensures Render(Escape(c), v)
      == if c == 'n' then "\n" else if c == 'r' then "\r" else if c == 't' then "\t"
         else if c == '\\' then "\\" else "\\" + [c]
  {
    RenderOne(Escape(c)[0], Escape(c)[1..], v);
    if |Escape(c)| == 2 { RenderOne(Escape(c)[1], [], v); }
    assert [Escape(c)[0]] + Escape(c)[1..] == Escape(c);
  }

  // ---------- The default template ----------

  /** Two-character escapes, not newlines. */
  const DEFAULT_HMAC_TEMPLATE := "{method}\\n{path}\\n{timestamp}\\n{body}"

  lemma NewlineEscape(t: string, v: Values)
    ensures Render(Tokens("\\n" + t), v) == "\n" + Render(Tokens(t), v)
  {
    var s := "\\n" + t;
    assert s[0] == '\\' && s[1] == 'n' && s[2..] == t;
    EscapePrefix(s, v);
    EscapeText('n', v);
  }

  lemma FieldFirst(f: Field, t: string, v: Values)
    ensures Render(Tokens(Name(f) + t), v) == v.Of(f) + Render(Tokens(t), v)
  {
    var s := Name(f) + t;
    assert s[0] == '{';
    NamesDiffer(f, t);
    FieldPrefix(s, v);
    assert s[|Name(f)|..] == t;
  }

  lemma NamesDiffer(f: Field, t: string)
    ensures LeadingField(Name(f) + t) == Some(f)
  {
    var s := Name(f) + t;
    assert s[1] == Name(f)[1];
  }

  /** The default is the canonical string, whatever the four values hold. */
  lemma DefaultTemplateIsCanonical(v: Values)
    ensures Render(Tokens(DEFAULT_HMAC_TEMPLATE), v) == CanonicalV1(v.httpMethod, v.path, v.timestamp, v.body)
  {
    hide Tokens, Render;
    TokensEmpty(v);
    FieldFirst(Body, "", v);
    NewlineEscape(Name(Body), v);
    FieldFirst(Timestamp, "\\n" + Name(Body), v);
    NewlineEscape(Name(Timestamp) + ("\\n" + Name(Body)), v);
    var tail := "\\n" + (Name(Timestamp) + ("\\n" + Name(Body)));
    FieldFirst(Path, tail, v);
    NewlineEscape(Name(Path) + tail, v);
    FieldFirst(Method, "\\n" + (Name(Path) + tail), v);
    assert Name(Body) + "" == Name(Body);
    assert DEFAULT_HMAC_TEMPLATE == Name(Method) + ("\\n" + (Name(Path) + tail));
  }

  /** What a template says, read from the left: four placeholders, four escapes, a backslash before anything else
      as it stands, and any other text as it stands. */
  lemma TemplateReads(t: string, v: Values, c: char)
    ensures Render(Tokens("{method}" + t), v) == v.httpMethod + Render(Tokens(t), v)
    ensures Render(Tokens("{path}" + t), v) == v.path + Render(Tokens(t), v)
    ensures Render(Tokens("{timestamp}" + t), v) == v.timestamp + Render(Tokens(t), v)
    ensures Render(Tokens("{body}" + t), v) == v.body + Render(Tokens(t), v)
    ensures Render(Tokens(['\\', c] + t), v)
      == (if c == 'n' then "\n" else if c == 'r' then "\r" else if c == 't' then "\t"
          else if c == '\\' then "\\" else ['\\', c]) + Render(Tokens(t), v)
    ensures c != '\\' && c != '{' ==> Render(Tokens([c] + t), v) == [c] + Render(Tokens(t), v)
  {
    FieldFirst(Method, t, v);
    FieldFirst(Path, t, v);
    FieldFirst(Timestamp, t, v);
    FieldFirst(Body, t, v);
    var escaped, plain := ['\\', c] + t, [c] + t;
    hide Tokens, Render, Escape;
    assert escaped[0] == '\\' && escaped[1] == c && escaped[2..] == t;
    EscapePrefix(escaped, v);
    EscapeText(c, v);
    if c != '\\' && c != '{' {
      PlainPrefix(plain, 1, v);
      assert plain[..1] == [c] && plain[1..] == t;
    }
  }

  /** What a receiver checks: the target with its query string. */
  function RequestTarget(path: string, query: Option<string>): string {
    if query.None? then path else path + "?" + query.value
  }

  /** A dispatch signs the path of its URL alone, so the receiving instance, which signs over the whole
      target, agrees with the default template exactly when the URL has no query string. */
  lemma ChainingNeedsNoQuery(v: Values, query: Option<string>)
    requires '\n' !in v.httpMethod && '\n' !in v.path && '\n' !in v.timestamp
    requires query.Some? ==> '\n' !in query.value
    ensures query.None?
      <==> Render(Tokens(DEFAULT_HMAC_TEMPLATE), v)
           == CanonicalV1(v.httpMethod, RequestTarget(v.path, query), v.timestamp, v.body)
  {
    hide Tokens, Render, CanonicalV1;
    DefaultTemplateIsCanonical(v);
    var target := RequestTarget(v.path, query);
    assert '\n' !in target;
    CanonicalIsInjective(v.httpMethod, v.path, v.timestamp, v.body, v.httpMethod, target, v.timestamp, v.body);
    assert query.Some? ==> |target| > |v.path|;
  }

  // ---------- $name substitution ----------

  /** A placeholder and its value. */
  datatype Entry = Entry(name: string, value: string)

  /** The first table entry whose placeholder begins the text. */
  function Leading(table: seq<Entry>, t: string): (r: Option<Entry>)
    ensures r.Some? ==> r.value in table && r.value.name <= t
  {
    if table == [] then None
    else if table[0].name <= t then Some(table[0])
    else Leading(table[1..], t)
  }

  /** The loop ends because every placeholder consumes something. */
  predicate NonEmptyNames(table: seq<Entry>) { forall e :: e in table ==> e.name != "" }

  function Substitute(t: string, table: seq<Entry>): string
    requires NonEmptyNames(table)
  {
    if t == "" then ""
    else
      var entry := if t[0] == '$' then Leading(table, t) else None;
      if entry.Some? then entry.value.value + Substitute(t[|entry.value.name|..], table)
      else [t[0]] + Substitute(t[1..], table)
  }

  /** The text cut into pieces by names alone: literal characters and table positions. */
  datatype Piece = Literal(c: char) | Use(entry: nat)

  function LeadingAt(names: seq<string>, t: string): (r: Option<nat>)
    ensures r.Some? ==> r.value < |names| && names[r.value] <= t
  {
    if names == [] then None
    else if names[0] <= t then Some(0)
    else
      var r := LeadingAt(names[1..], t);
      if r.Some? then Some(r.value + 1) else None
  }

  function Pieces(t: string, names: seq<string>): (ps: seq<Piece>)
    requires forall i :: 0 <= i < |names| ==> names[i] != ""
    ensures forall i :: 0 <= i < |ps| && ps[i].Use? ==> ps[i].entry < |names|
  {
    if t == "" then []
    else
      var at := if t[0] == '$' then LeadingAt(names, t) else None;
      if at.Some? then [Use(at.value)] + Pieces(t[|names[at.value]|..], names)
      else [Literal(t[0])] + Pieces(t[1..], names)
  }

  function Fill(ps: seq<Piece>, values: seq<string>): string
    requires forall i :: 0 <= i < |ps| && ps[i].Use? ==> ps[i].entry < |values|
  {
    if ps == [] then ""
    else
      (match ps[0]
       case Literal(c) => [c]
       case Use(i) => values[i])
      + Fill(ps[1..], values)
  }

  function NamesOf(table: seq<Entry>): seq<string> { seq(|table|, i requires 0 <= i < |table| => table[i].name) }

  function ValuesOf(table: seq<Entry>): seq<string> { seq(|table|, i requires 0 <= i < |table| => table[i].value) }

  lemma {:induction false} LeadingIsLeadingAt(table: seq<Entry>, t: string)
    ensures var at := LeadingAt(NamesOf(table), t);
      Leading(table, t) == if at.Some? then Some(table[at.value]) else None
  {
    if table != [] {
      assert NamesOf(table)[1..] == NamesOf(table[1..]);
      LeadingIsLeadingAt(table[1..], t);
    }
  }

  /** Substitution fills slots fixed by the template and the names alone: no value is read again. */
  lemma {:induction false} SubstituteNeverRescans(t: string, table: seq<Entry>)
    requires NonEmptyNames(table)
    ensures Substitute(t, table) == Fill(Pieces(t, NamesOf(table)), ValuesOf(table))
    decreases |t|
  {
    if t != "" {
      var names := NamesOf(table);
      LeadingIsLeadingAt(table, t);
      var at := if t[0] == '$' then LeadingAt(names, t) else None;
      var skip := if at.Some? then |names[at.value]| else 1;
      SubstituteNeverRescans(t[skip..], table);
      assert Pieces(t, names)[1..] == Pieces(t[skip..], names);
    }
  }

  predicate PrefixFree(table: seq<Entry>) {
    forall i, j :: 0 <= i < |table| && 0 <= j < |table| && i != j ==> !(table[i].name <= table[j].name)
  }

  lemma PrefixesNest(a: string, b: string, t: string)
    requires a <= t && b <= t
    ensures a <= b || b <= a
  {
    if |a| <= |b| { assert a == t[..|a|] == b[..|a|]; } else { assert b == t[..|b|] == a[..|b|]; }
  }

  lemma {:induction false} LeadingIsUnique(table: seq<Entry>, t: string, i: nat)
    requires PrefixFree(table) && i < |table| && table[i].name <= t
    ensures Leading(table, t) == Some(table[i])
  {
    var found := Leading(table, t);
    LeadingFound(table, t, i);
    var k :| 0 <= k < |table| && table[k] == found.value;
    PrefixesNest(table[k].name, table[i].name, t);
  }

  lemma {:induction false} LeadingFound(table: seq<Entry>, t: string, i: nat)
    requires i < |table| && table[i].name <= t
    ensures Leading(table, t).Some?
  {
    if !(table[0].name <= t) { LeadingFound(table[1..], t, i - 1); }
  }

  lemma LeadingAgrees(t: string, a: seq<Entry>, b: seq<Entry>)
    requires PrefixFree(a) && PrefixFree(b) && forall e :: e in a <==> e in b
    ensures Leading(a, t) == Leading(b, t)
  {
    hide PrefixFree;
    if Leading(a, t).Some? {
      var i :| 0 <= i < |b| && b[i] == Leading(a, t).value;
      LeadingIsUnique(b, t, i);
    } else if Leading(b, t).Some? {
      var i :| 0 <= i < |a| && a[i] == Leading(b, t).value;
      LeadingFound(a, t, i);
    }
  }

  /** With no placeholder a prefix of another, the order of the table is immaterial. */
  lemma {:induction false} TableOrderIsImmaterial(t: string, a: seq<Entry>, b: seq<Entry>)
    requires NonEmptyNames(a) && PrefixFree(a) && PrefixFree(b) && forall e :: e in a <==> e in b
    ensures Substitute(t, a) == Substitute(t, b)
    decreases |t|
  {
    if t != "" {
      LeadingAgrees(t, a, b);
      var entry := if t[0] == '$' then Leading(a, t) else None;
      TableOrderIsImmaterial(t[if entry.Some? then |entry.value.name| else 1..], a, b);
    }
  }

  /** Otherwise the shorter placeholder shadows the longer one when it comes first. */
  lemma ShorterShadowsLonger()
    ensures var short, long := Entry("$a", "1"), Entry("$ab", "2");
      Substitute("$ab", [short, long]) == "1b" && Substitute("$ab", [long, short]) == "2"
  {
    var short, long := Entry("$a", "1"), Entry("$ab", "2");
    assert "$ab"[2..] == "b" && "$ab"[3..] == "" && "b"[1..] == "";
    assert Substitute("b", [short, long]) == "b";
  }

  // ---------- The loop, and the one table the service uses ----------

  method Find(s: string, c: char) returns (idx: Option<nat>)
    ensures idx.None? ==> c !in s
    ensures idx.Some? ==> idx.value < |s| && s[idx.value] == c && c !in s[..idx.value]
  {
    for i := 0 to |s|
      invariant c !in s[..i]
    {
      if s[i] == c { return Some(i); }
    }
    return None;
  }

  method FindEntry(table: seq<Entry>, rest: string) returns (entry: Option<Entry>)
    ensures entry == Leading(table, rest)
  {
    for i := 0 to |table|
      invariant Leading(table, rest) == Leading(table[i..], rest)
    {
      if table[i].name <= rest { return Some(table[i]); }
      assert table[i..][1..] == table[i + 1..];
    }
    return None;
  }

  lemma {:induction false} SubstitutePlain(t: string, k: nat, table: seq<Entry>)
    requires NonEmptyNames(table) && k <= |t| && '$' !in t[..k]
    ensures Substitute(t, table) == t[..k] + Substitute(t[k..], table)
    decreases k
  {
    if k == 0 {
      assert t[k..] == t;
    } else {
      assert t[0] == t[..k][0] && t[1..][..k - 1] == t[..k][1..];
      SubstitutePlain(t[1..], k - 1, table);
      assert t[1..][k - 1..] == t[k..] && [t[0]] + t[1..][..k - 1] == t[..k];
    }
  }

  /** `substitute_placeholders`. */
  method SubstitutePlaceholders(template: string, table: seq<Entry>) returns (out: string)
    requires NonEmptyNames(table)
    ensures out == Substitute(template, table)
  {
    var rest := template;
    out := "";
    while rest != ""
      invariant out + Substitute(rest, table) == Substitute(template, table)
      decreases |rest|
    {
      var idx := Find(rest, '$');
      if idx.None? {
        SubstitutePlain(rest, |rest|, table);
        out := out + rest;
        rest := "";
        break;
      }
      SubstitutePlain(rest, idx.value, table);
      out := out + rest[..idx.value];
      rest := rest[idx.value..];
      var entry := FindEntry(table, rest);
      if entry.Some? {
        out := out + entry.value.value;
        rest := rest[|entry.value.name|..];
      } else {
        out := out + "$";
        rest := rest[1..];
      }
    }
  }

  datatype WebhookEvent = WebhookEvent(
    action: string, address: string, cause: Option<string>, groupName: Option<string>, groupId: Option<string>)

  function EventTable(event: WebhookEvent, timestamp: string): seq<Entry> {
    [Entry("$target_address", event.address), Entry("$ip", event.address),
     Entry("$action", event.action), Entry("$event", event.action),
     Entry("$cause", GetOr(event.cause, "Unknown")), Entry("$group_name", GetOr(event.groupName, "")),
     Entry("$group_id", GetOr(event.groupId, "")), Entry("$timestamp", timestamp)]
  }

  lemma NotAPrefix(a: string, b: string)
    requires |a| >= 3 && |b| >= 3
    requires a[1] != b[1] || a[2] != b[2] || (|a| > 7 && |b| > 7 && a[7] != b[7])
    ensures !(a <= b)
  {
  }

  /** What tells eight names apart: the second letter, or else the third or the eighth. */
  predicate ToldApart(names: seq<string>, second: seq<char>) {
    && |names| == |second| == 8 && second == ['t', 'i', 'a', 'e', 'c', 'g', 'g', 't']
    && (forall i :: 0 <= i < 8 ==> |names[i]| >= 3 && names[i][1] == second[i])
    && names[0][2] != names[7][2]
    && |names[5]| > 7 && |names[6]| > 7 && names[5][7] != names[6][7]
  }

  lemma ToldApartIsPrefixFree(names: seq<string>, second: seq<char>, i: nat, j: nat)
    requires ToldApart(names, second) && i < 8 && j < 8 && i != j
    ensures !(names[i] <= names[j])
  {
    assert second[i] != second[j] || (i == 0 && j == 7) || (i == 7 && j == 0)
           || (i == 5 && j == 6) || (i == 6 && j == 5);
    NotAPrefix(names[i], names[j]);
  }

  lemma EventNamesToldApart(event: WebhookEvent, timestamp: string)
    ensures ToldApart(NamesOf(EventTable(event, timestamp)), ['t', 'i', 'a', 'e', 'c', 'g', 'g', 't'])
  {
  }

  lemma EventTableIsPrefixFree(event: WebhookEvent, timestamp: string)
    ensures PrefixFree(EventTable(event, timestamp)) && NonEmptyNames(EventTable(event, timestamp))
  {
    EventNamesToldApart(event, timestamp);
    hide EventTable, ToldApart;
    ToldApartTable(EventTable(event, timestamp), ['t', 'i', 'a', 'e', 'c', 'g', 'g', 't']);
  }

  lemma ToldApartTable(table: seq<Entry>, second: seq<char>)
    requires ToldApart(NamesOf(table), second)
    ensures PrefixFree(table) && NonEmptyNames(table)
  {
    hide ToldApart;
    var names := NamesOf(table);
    EightNames(names, second);
    assert forall i :: 0 <= i < 8 ==> table[i].name == names[i];
    forall i, j | 0 <= i < 8 && 0 <= j < 8 && i != j
      ensures !(table[i].name <= table[j].name)
    {
      ToldApartIsPrefixFree(names, second, i, j);
    }
  }

  lemma EightNames(names: seq<string>, second: seq<char>)
    requires ToldApart(names, second)
    ensures |names| == 8 && forall i :: 0 <= i < 8 ==> names[i] != ""
  {
  }

  /** A placeholder by itself stands for its value. */
  lemma PlaceholderAlone(table: seq<Entry>, i: nat)
    requires PrefixFree(table) && NonEmptyNames(table) && i < |table| && table[i].name[0] == '$'
    ensures Substitute(table[i].name, table) == table[i].value
  {
    LeadingIsUnique(table, table[i].name, i);
    hide Leading, PrefixFree;
    assert table[i].name[|table[i].name|..] == "" && Substitute("", table) == "";
    assert table[i].value + "" == table[i].value;
  }

  /** What each of the service's placeholders stands for. */
  lemma PlaceholdersStandFor(event: WebhookEvent, timestamp: string)
    ensures var table := EventTable(event, timestamp);
      && NonEmptyNames(table)
      && Substitute("$target_address", table) == Substitute("$ip", table) == event.address
      && Substitute("$action", table) == Substitute("$event", table) == event.action
      && Substitute("$cause", table) == (if event.cause.Some? then event.cause.value else "Unknown")
      && Substitute("$group_name", table) == (if event.groupName.Some? then event.groupName.value else "")
      && Substitute("$group_id", table) == (if event.groupId.Some? then event.groupId.value else "")
      && Substitute("$timestamp", table) == timestamp
  {
    var table := EventTable(event, timestamp);
    EventTableIsPrefixFree(event, timestamp);
    hide PrefixFree, Substitute;
    forall i: nat | i < 8 ensures Substitute(table[i].name, table) == table[i].value { PlaceholderAlone(table, i); }
    assert table[0].name == "$target_address" && table[1].name == "$ip" && table[2].name == "$action";
    assert table[3].name == "$event" && table[4].name == "$cause" && table[5].name == "$group_name";
    assert table[6].name == "$group_id" && table[7].name == "$timestamp";
  }

  /** `resolve_event_variables`. */
  method ResolveEventVariables(template: string, event: WebhookEvent, timestamp: string) returns (out: string)
    ensures var table := EventTable(event, timestamp);
      out == Fill(Pieces(template, NamesOf(table)), ValuesOf(table))
    ensures forall table: seq<Entry> ::
      PrefixFree(table) && (forall e :: e in table <==> e in EventTable(event, timestamp)) ==>
      NonEmptyNames(table) && out == Substitute(template, table)
  {
    hide PrefixFree, Substitute, Fill, Pieces;
    var table := EventTable(event, timestamp);
    EventTableIsPrefixFree(event, timestamp);
    out := SubstitutePlaceholders(template, table);
    SubstituteNeverRescans(template, table);
    forall other: seq<Entry> | PrefixFree(other) && (forall e :: e in other <==> e in table)
      ensures NonEmptyNames(other) && out == Substitute(template, other)
    {
      TableOrderIsImmaterial(template, other, table);
    }
  }
}
