/** Which address a request is attributed to (src/config.rs): the peer, unless the peer is a trusted proxy;
    then the forwarding headers, read from the right. `parse` stands for `str::parse::<IpAddr>`. */
module ClientIp {
  import opened Common
  import opened Addresses
  import opened Text

  datatype Ip = Ip(family: Family, addr: nat)

  type Parser = string -> Option<Ip>

  /** What `HeaderMap::get` returns for X-Forwarded-For and X-Real-IP: the first field line, if any. */
  datatype Headers = Headers(forwardedFor: Option<string>, realIp: Option<string>)

  /** `::ffff:a.b.c.d` is a.b.c.d. */
  function NormalizeIp(ip: Ip): Ip {
    if ip.family.V6? && ip.addr / 0x1_0000_0000 == 0xFFFF then Ip(V4, ip.addr % 0x1_0000_0000) else ip
  }

  predicate Contains(net: Network, ip: Ip) { net.family == ip.family && Covers(net, ip.addr) }

  predicate IsTrusted(ip: Ip, trusted: seq<Network>) { exists i :: 0 <= i < |trusted| && Contains(trusted[i], ip) }

  /** `HeaderValue::to_str` succeeds: visible ASCII, spaces and tabs. */
  predicate Visible(s: string) { forall i :: 0 <= i < |s| ==> s[i] == '\t' || ' ' <= s[i] <= '~' }

  /** What one comma-separated piece claims, if anything. */
  function Claim(piece: string, parse: Parser): Option<Ip> {
    var text := Trim(piece);
    if text == "" then None
    else
      var parsed := parse(text);
      if parsed.None? then None else Some(NormalizeIp(parsed.value))
  }

  function Claims(pieces: seq<string>, parse: Parser): seq<Ip> {
    if pieces == [] then []
    else
      var claim := Claim(pieces[0], parse);
      (if claim.Some? then [claim.value] else []) + Claims(pieces[1..], parse)
  }

  predicate AllTrusted(claims: seq<Ip>, trusted: seq<Network>) {
    forall i :: 0 <= i < |claims| ==> IsTrusted(claims[i], trusted)
  }

  /** The rightmost claim no trusted proxy could have made about itself. */
  function LastUntrusted(claims: seq<Ip>, trusted: seq<Network>): (r: Option<Ip>)
    ensures r.Some? ==> r.value in claims
  {
    if claims == [] then None
    else
      var last := claims[|claims| - 1];
      if !IsTrusted(last, trusted) then Some(last) else LastUntrusted(claims[..|claims| - 1], trusted)
  }

  function Forwarded(text: string, trusted: seq<Network>, parse: Parser): Option<Ip> {
    LastUntrusted(Claims(Split(text, ','), parse), trusted)
  }

  function RealIp(headers: Headers, parse: Parser): Option<Ip> {
    if headers.realIp.None? || !Visible(headers.realIp.value) then None
    else
      var parsed := parse(Trim(headers.realIp.value));
      if parsed.None? then None else Some(NormalizeIp(parsed.value))
  }

  function ResolveClientIp(peer: Ip, headers: Headers, trusted: seq<Network>, parse: Parser): (r: Ip)
    ensures r == NormalizeIp(r)
  {
    var peer := NormalizeIp(peer);
    if !IsTrusted(peer, trusted) then peer
    else
      var chain := if headers.forwardedFor.Some? && Visible(headers.forwardedFor.value)
                   then Forwarded(headers.forwardedFor.value, trusted, parse) else None;
      if chain.Some? then (ClaimIsNormal(headers.forwardedFor.value, trusted, parse); chain.value)
      else
        var claimed := RealIp(headers, parse);
        if claimed.Some? then claimed.value else peer
  }

  lemma {:induction false} ClaimsAreNormal(pieces: seq<string>, parse: Parser)
    ensures forall i :: 0 <= i < |Claims(pieces, parse)| ==>
      NormalizeIp(Claims(pieces, parse)[i]) == Claims(pieces, parse)[i]
  {
    if pieces != [] { ClaimsAreNormal(pieces[1..], parse); }
  }

  lemma ClaimIsNormal(text: string, trusted: seq<Network>, parse: Parser)
    requires Forwarded(text, trusted, parse).Some?
    ensures NormalizeIp(Forwarded(text, trusted, parse).value) == Forwarded(text, trusted, parse).value
  {
    ClaimsAreNormal(Split(text, ','), parse);
  }

  /** ::ffff:a.b.c.d gets the answer a.b.c.d gets, and what has no such spelling is attributed as it stands. */
  lemma MappedPeersAreIpv4(addr: nat, headers: Headers, trusted: seq<Network>, parse: Parser)
    requires addr < 0x1_0000_0000
    ensures ResolveClientIp(Ip(V6, 0xFFFF_0000_0000 + addr), headers, trusted, parse)
      == ResolveClientIp(Ip(V4, addr), headers, trusted, parse)
    ensures trusted == [] ==> ResolveClientIp(Ip(V4, addr), headers, trusted, parse) == Ip(V4, addr)
  {
    assert NormalizeIp(Ip(V6, 0xFFFF_0000_0000 + addr)) == Ip(V4, addr) == NormalizeIp(Ip(V4, addr));
    hide Forwarded, IsTrusted;
    assert trusted == [] ==> !IsTrusted(Ip(V4, addr), trusted) by { NobodyTrusted(Ip(V4, addr)); }
  }

  lemma OtherIpv6PeersStand(addr: nat, headers: Headers, parse: Parser)
    requires addr < 0xFFFF_0000_0000 || addr >= 0x1_0000_0000_0000
    ensures ResolveClientIp(Ip(V6, addr), headers, [], parse) == Ip(V6, addr)
  {
    assert NormalizeIp(Ip(V6, addr)) == Ip(V6, addr);
    NobodyTrusted(Ip(V6, addr));
  }

  lemma NobodyTrusted(ip: Ip)
    ensures !IsTrusted(ip, [])
  {
  }

  /** Trust is containment: in a network of the same family, between its base and the end of its size. */
  lemma TrustIsContainment(ip: Ip, trusted: seq<Network>)
    ensures IsTrusted(ip, trusted) <==>
      exists i :: 0 <= i < |trusted| && trusted[i].family == ip.family
                  && Base(trusted[i]) <= ip.addr < Base(trusted[i]) + Size(trusted[i])
  {
    forall i | 0 <= i < |trusted|
      ensures Contains(trusted[i], ip) <==>
        trusted[i].family == ip.family && Base(trusted[i]) <= ip.addr < Base(trusted[i]) + Size(trusted[i])
    {
      CoversIsInterval(trusted[i], ip.addr);
    }
    hide Contains, Base, Size;
  }

  // ---------- Reading from the right ----------

  lemma ClaimsCons(piece: string, rest: seq<string>, parse: Parser)
    ensures Claims([piece] + rest, parse)
      == (if Claim(piece, parse).Some? then [Claim(piece, parse).value] else []) + Claims(rest, parse)
  {
    hide Claim;
    assert ([piece] + rest)[1..] == rest;
  }

  lemma Associates<T>(x: seq<T>, y: seq<T>, z: seq<T>)
    ensures x + (y + z) == (x + y) + z
  {
  }

  lemma {:induction false} ClaimsConcat(a: seq<string>, b: seq<string>, parse: Parser)
    ensures Claims(a + b, parse) == Claims(a, parse) + Claims(b, parse)
  {
    if a == [] {
      assert a + b == b;
    } else {
      ClaimsConcat(a[1..], b, parse);
      hide *;
      var head := if Claim(a[0], parse).Some? then [Claim(a[0], parse).value] else [];
      ClaimsCons(a[0], a[1..], parse);
      ClaimsCons(a[0], a[1..] + b, parse);
      assert [a[0]] + a[1..] == a && [a[0]] + (a[1..] + b) == a + b;
      Associates(head, Claims(a[1..], parse), Claims(b, parse));
    }
  }

  lemma {:induction false} LastUntrustedConcat(a: seq<Ip>, b: seq<Ip>, trusted: seq<Network>)
    ensures LastUntrusted(a + b, trusted)
      == if LastUntrusted(b, trusted).Some? then LastUntrusted(b, trusted) else LastUntrusted(a, trusted)
    decreases |b|
  {
    if b == [] {
      assert a + b == a;
    } else {
      assert (a + b)[..|a + b| - 1] == a + b[..|b| - 1];
      LastUntrustedConcat(a, b[..|b| - 1], trusted);
    }
  }

  /** Untrusted, with nothing but trusted claims to its right. */
  predicate Rightmost(claims: seq<Ip>, trusted: seq<Network>, i: nat)
    requires i < |claims|
  {
    !IsTrusted(claims[i], trusted) && forall j :: i < j < |claims| ==> IsTrusted(claims[j], trusted)
  }

  /** Exactly the rightmost untrusted claim, and none only if there is none. */
  lemma {:induction false} RightmostUntrustedWins(claims: seq<Ip>, trusted: seq<Network>)
    ensures AllTrusted(claims, trusted) <==> LastUntrusted(claims, trusted).None?
    ensures forall i :: 0 <= i < |claims| && Rightmost(claims, trusted, i) ==>
      LastUntrusted(claims, trusted) == Some(claims[i])
    decreases |claims|
  {
    hide IsTrusted;
    if claims != [] {
      var init, last := claims[..|claims| - 1], |claims| - 1;
      RightmostUntrustedWins(init, trusted);
      assert forall i :: 0 <= i < last && Rightmost(claims, trusted, i) ==> Rightmost(init, trusted, i);
    }
  }

  /** The text before a comma is consulted only when nothing untrusted follows it. */
  lemma ForwardedAcrossComma(text: string, suffix: string, trusted: seq<Network>, parse: Parser)
    ensures Forwarded(text + [','] + suffix, trusted, parse)
      == if Forwarded(suffix, trusted, parse).Some? then Forwarded(suffix, trusted, parse)
            else Forwarded(text, trusted, parse)
  {
    SplitAt(text, ',', suffix);
    ClaimsConcat(Split(text, ','), Split(suffix, ','), parse);
    LastUntrustedConcat(Claims(Split(text, ','), parse), Claims(Split(suffix, ','), parse), trusted);
  }

  /** A piece that is blank or no address is passed over. */
  lemma JunkIsSkipped(text: string, junk: string, trusted: seq<Network>, parse: Parser)
    requires ',' !in junk && (Trim(junk) == "" || parse(Trim(junk)).None?)
    ensures Forwarded(text + [','] + junk, trusted, parse) == Forwarded(text, trusted, parse)
  {
    ForwardedAcrossComma(text, junk, trusted, parse);
    SplitOne(junk, ',');
    assert Claims([junk], parse) == [] + Claims([junk][1..], parse);
    assert LastUntrusted([], trusted) == None;
  }

  /** Hearsay: once an untrusted address follows the comma, whatever readable text stands before it changes
      nothing. */
  lemma HearsayNeverMatters(peer: Ip, text: string, suffix: string, realIp: Option<string>,
                            trusted: seq<Network>, parse: Parser)
    requires Visible(text) && Visible(suffix) && Forwarded(suffix, trusted, parse).Some?
    ensures ResolveClientIp(peer, Headers(Some(text + [','] + suffix), realIp), trusted, parse)
      == ResolveClientIp(peer, Headers(Some(suffix), None), trusted, parse)
  {
    ForwardedAcrossComma(text, suffix, trusted, parse);
    VisibleAcrossComma(text, suffix);
  }

  lemma VisibleAcrossComma(text: string, suffix: string)
    ensures Visible(text + [','] + suffix) <==> Visible(text) && Visible(suffix)
  {
    var all := text + [','] + suffix;
    if Visible(all) {
      forall i | 0 <= i < |text| ensures text[i] == '\t' || ' ' <= text[i] <= '~' { assert all[i] == text[i]; }
      forall i | 0 <= i < |suffix| ensures suffix[i] == '\t' || ' ' <= suffix[i] <= '~' {
        assert all[|text| + 1 + i] == suffix[i];
      }
    }
  }

  // ---------- A chain of proxies ----------

  /** A trusted proxy, and what it wrote for the address it saw. */
  datatype Hop = Hop(address: Ip, writes: string)

  /** A spelling, padded or not, of one address. */
  predicate Spells(text: string, ip: Ip, parse: Parser) {
    Visible(text) && ',' !in text && Claim(text, parse) == Some(NormalizeIp(ip))
  }

  /** Who the i-th hop sees: the client, or the hop before. */
  function Sender(client: Ip, hops: seq<Hop>, i: nat): Ip
    requires i < |hops|
  {
    if i == 0 then client else hops[i - 1].address
  }

  predicate HonestChain(client: Ip, hops: seq<Hop>, trusted: seq<Network>, parse: Parser) {
    && (forall i :: 0 <= i < |hops| ==> IsTrusted(NormalizeIp(hops[i].address), trusted))
    && (forall i :: 0 <= i < |hops| ==> Spells(hops[i].writes, Sender(client, hops, i), parse))
  }

  /** X-Forwarded-For after the hops, from whatever the client sent. */
  function HeaderAfter(start: Option<string>, hops: seq<Hop>): Option<string> {
    if hops == [] then start
    else
      var before := HeaderAfter(start, hops[..|hops| - 1]);
      Some(if before.Some? then before.value + [','] + hops[|hops| - 1].writes else hops[|hops| - 1].writes)
  }

  predicate Readable(start: Option<string>) { start.Some? ==> Visible(start.value) }

  lemma ForwardedOfOne(text: string, ip: Ip, trusted: seq<Network>, parse: Parser)
    requires Spells(text, ip, parse)
    ensures Forwarded(text, trusted, parse)
      == if IsTrusted(NormalizeIp(ip), trusted) then None else Some(NormalizeIp(ip))
  {
    SplitOne(text, ',');
    assert Claims([text], parse) == [NormalizeIp(ip)];
    assert LastUntrusted([NormalizeIp(ip)][..0], trusted) == None;
  }

  lemma {:induction false} ChainEndsAtTheClient(client: Ip, hops: seq<Hop>, start: Option<string>,
                                                trusted: seq<Network>, parse: Parser)
    requires hops != [] && HonestChain(client, hops, trusted, parse) && !IsTrusted(NormalizeIp(client), trusted)
    ensures HeaderAfter(start, hops).Some?
    ensures Forwarded(HeaderAfter(start, hops).value, trusted, parse) == Some(NormalizeIp(client))
    ensures Visible(HeaderAfter(start, hops).value) <==> Readable(start)
    decreases |hops|
  {
    hide Forwarded, Visible, IsTrusted, Claim;
    var init, last := hops[..|hops| - 1], |hops| - 1;
    ForwardedOfOne(hops[last].writes, Sender(client, hops, last), trusted, parse);
    var before := HeaderAfter(start, init);
    if before.Some? {
      ForwardedAcrossComma(before.value, hops[last].writes, trusted, parse);
      VisibleAcrossComma(before.value, hops[last].writes);
    }
    if init != [] {
      forall i | 0 <= i < |init| ensures Spells(init[i].writes, Sender(client, init, i), parse) {
        assert Spells(hops[i].writes, Sender(client, hops, i), parse);
      }
      ChainEndsAtTheClient(client, init, start, trusted, parse);
      assert IsTrusted(NormalizeIp(hops[last - 1].address), trusted);
    }
  }

  /** The promise: behind any number of trusted hops, each appending what it saw, the request is attributed
      to the real client, whatever header text the client sent. It holds exactly when that text can be read
      as a string (anything else makes the service skip the whole header), or when X-Real-IP names the
      client anyway. */
  lemma ChainResolvesToTheClient(client: Ip, hops: seq<Hop>, start: Option<string>, realIp: Option<string>,
                                 trusted: seq<Network>, parse: Parser)
    requires hops != [] && HonestChain(client, hops, trusted, parse) && !IsTrusted(NormalizeIp(client), trusted)
    ensures ResolveClientIp(hops[|hops| - 1].address, Headers(HeaderAfter(start, hops), realIp), trusted, parse)
      == NormalizeIp(client)
      <==> Readable(start) || RealIp(Headers(None, realIp), parse) == Some(NormalizeIp(client))
  {
    hide Forwarded, Visible, IsTrusted, Claim;
    ChainEndsAtTheClient(client, hops, start, trusted, parse);
    assert IsTrusted(NormalizeIp(hops[|hops| - 1].address), trusted);
  }

  /** The other family, concretely: one byte outside visible ASCII, and the proxy 0.0.0.2 is taken for its
      client 0.0.0.1. */
  lemma UnreadableHeaderHidesTheClient(parse: Parser, text: string)
    requires Spells(text, Ip(V4, 1), parse)
    ensures var hops, start, net := [Hop(Ip(V4, 2), text)], [128 as char], Network(V4, 2, 32);
      && HonestChain(Ip(V4, 1), hops, [net], parse) && !IsTrusted(Ip(V4, 1), [net])
      && ResolveClientIp(Ip(V4, 2), Headers(HeaderAfter(Some(start), hops), None), [net], parse) == Ip(V4, 2)
  {
    var hops, start := [Hop(Ip(V4, 2), text)], [128 as char];
    var net: Network := Network(V4, 2, 32);
    OneHostTrusted(net);
    hide Contains, IsTrusted, Claim;
    assert hops[..0] == [] && HeaderAfter(hops := [], start := Some(start)) == Some(start);
    assert (start + [','] + text)[0] == start[0];
    assert !Visible(start + [','] + text);
  }

  lemma OneHostTrusted(net: Network)
    requires net == Network(V4, 2, 32)
    ensures IsTrusted(Ip(V4, 2), [net]) && !IsTrusted(Ip(V4, 1), [net])
  {
    assert Size(net) == 1;
    assert Contains([net][0], Ip(V4, 2)) && !Contains(net, Ip(V4, 1));
  }

  /** Without a trusted peer no header is read at all. */
  lemma UntrustedPeerSpeaksForItself(peer: Ip, headers: Headers, other: Headers, trusted: seq<Network>, parse: Parser)
    requires !IsTrusted(NormalizeIp(peer), trusted)
    ensures ResolveClientIp(peer, headers, trusted, parse) == NormalizeIp(peer)
      == ResolveClientIp(peer, other, trusted, parse)
  {
  }

  /** So a header can change the answer exactly when the peer is trusted, given any text that names somebody
      else. */
  lemma HeadersMatterExactly(peer: Ip, trusted: seq<Network>, parse: Parser, text: string, other: Ip)
    requires Spells(text, other, parse) && NormalizeIp(other) != NormalizeIp(peer)
    ensures IsTrusted(NormalizeIp(peer), trusted)
       <==> exists h1, h2 :: ResolveClientIp(peer, h1, trusted, parse) != ResolveClientIp(peer, h2, trusted, parse)
  {
    hide IsTrusted, Forwarded;
    if IsTrusted(NormalizeIp(peer), trusted) {
      var (none, realIp) := (Headers(None, None), Headers(None, Some(text)));
      assert ResolveClientIp(peer, none, trusted, parse) == NormalizeIp(peer);
      assert ResolveClientIp(peer, realIp, trusted, parse) == NormalizeIp(other);
    }
  }

  /** A chain naming only trusted proxies says nothing: X-Real-IP, and then the peer, speak instead. */
  lemma AllTrustedFallsThrough(peer: Ip, text: string, realIp: Option<string>, trusted: seq<Network>, parse: Parser)
    requires AllTrusted(Claims(Split(text, ','), parse), trusted)
    ensures ResolveClientIp(peer, Headers(Some(text), realIp), trusted, parse)
      == ResolveClientIp(peer, Headers(None, realIp), trusted, parse)
  {
    hide IsTrusted, Claims;
    RightmostUntrustedWins(Claims(Split(text, ','), parse), trusted);
  }
}
