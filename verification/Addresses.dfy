/** Addresses and CIDR ranges, and the canonical form that `target_address` is unique over
    (src/api/support.rs, src/api/records.rs). Parsing and printing text are outside: a network here is
    what the parser returns. */
module Addresses {
  import opened Common

  datatype Family = V4 | V6

  function Width(f: Family): nat { if f.V4? then 32 else 128 }

  function Pow2(n: nat): (p: nat)
    ensures p > 0
  {
    if n == 0 then 1 else 2 * Pow2(n - 1)
  }

  /** A parsed address or CIDR, host bits as written. */
  datatype RawNetwork = Network(family: Family, addr: nat, prefix: nat)

  predicate Fits(n: RawNetwork) { n.prefix <= Width(n.family) && n.addr < Pow2(Width(n.family)) }

  type Network = n: RawNetwork | Fits(n)
    witness Network(V4, 0, 32)

  /** What is stored: a bare host, or a base address with its prefix. */
  datatype Address = Host(family: Family, addr: nat) | Subnet(family: Family, base: nat, prefix: nat)

  function Size(n: Network): nat { Pow2(Width(n.family) - n.prefix) }

  /** `IpNetwork::network()`: the host bits masked off. */
  function Base(n: Network): nat { n.addr / Size(n) * Size(n) }

  /** `normalize_ip_or_cidr` on input that parses. */
  function Normalize(n: Network): Address {
    if n.prefix == Width(n.family) then Host(n.family, n.addr) else Subnet(n.family, Base(n), n.prefix)
  }

  /** The network a stored address reads back as. */
  function AsNetwork(a: Address): RawNetwork {
    match a
    case Host(f, addr) => Network(f, addr, Width(f))
    case Subnet(f, base, prefix) => Network(f, base, prefix)
  }

  /** x agrees with the network on its first `prefix` digits. */
  predicate Covers(n: Network, x: nat) { x / Size(n) == n.addr / Size(n) }

  ghost predicate SameRange(m: Network, n: Network) {
    m.family == n.family && forall x: nat :: Covers(m, x) <==> Covers(n, x)
  }

  // ---------- Arithmetic ----------

  lemma QuotientIs(x: nat, m: nat, q: nat)
    requires m > 0
    ensures x / m == q <==> q * m <= x < q * m + m
  {
    var p := x / m;
    assert p * m <= x < p * m + m;
    if q * m <= x < q * m + m {
      assert (p + 1) * m == p * m + m && (q + 1) * m == q * m + m;
      FactorLess(p + 1, q, m);
      FactorLess(q + 1, p, m);
    }
  }

  lemma {:induction false} Pow2Grows(a: nat, b: nat)
    requires a < b
    ensures Pow2(a) < Pow2(b)
    decreases b
  {
    if a < b - 1 { Pow2Grows(a, b - 1); }
  }

  lemma Pow2Injective(a: nat, b: nat)
    requires Pow2(a) == Pow2(b)
    ensures a == b
  {
    if a < b { Pow2Grows(a, b); }
    if b < a { Pow2Grows(b, a); }
  }

  // ---------- Normal forms ----------

  lemma CoversIsInterval(n: Network, x: nat)
    ensures Covers(n, x) <==> Base(n) <= x < Base(n) + Size(n)
  {
    var s, q := Size(n), n.addr / Size(n);
    assert Base(n) == q * s && Covers(n, x) == (x / s == q);
    QuotientIs(x, s, q);
    hide *;
  }

  lemma SameRangeSameBounds(m: Network, n: Network)
    requires SameRange(m, n)
    ensures Base(m) == Base(n) && Size(m) == Size(n)
  {
    CoversIsInterval(m, Base(m));
    CoversIsInterval(n, Base(m));
    CoversIsInterval(m, Base(n));
    CoversIsInterval(n, Base(n));
    CoversIsInterval(m, Base(m) + Size(m) - 1);
    CoversIsInterval(n, Base(m) + Size(m) - 1);
    CoversIsInterval(m, Base(n) + Size(n) - 1);
    CoversIsInterval(n, Base(n) + Size(n) - 1);
  }

  lemma HostIsItsBase(n: Network)
    requires n.prefix == Width(n.family)
    ensures Size(n) == 1 && Base(n) == n.addr
  {
  }

  /** Two spellings get one stored form exactly when they name the same range. */
  lemma NormalFormsAreRanges(m: Network, n: Network)
    ensures Normalize(m) == Normalize(n) <==> SameRange(m, n)
  {
    if Normalize(m) == Normalize(n) {
      if m.prefix == Width(m.family) { HostIsItsBase(m); HostIsItsBase(n); }
      forall x: nat ensures Covers(m, x) <==> Covers(n, x) {
        CoversIsInterval(m, x);
        CoversIsInterval(n, x);
      }
    }
    if SameRange(m, n) {
      SameRangeSameBounds(m, n);
      Pow2Injective(Width(m.family) - m.prefix, Width(n.family) - n.prefix);
      if m.prefix == Width(m.family) { HostIsItsBase(m); HostIsItsBase(n); }
    }
  }

  /** A form that `Normalize` produces. Rows written before masking may be in another form. */
  ghost predicate Canonical(a: Address) { exists n: Network :: Normalize(n) == a }

  lemma BaseIsItsBase(n: Network)
    ensures var b: RawNetwork := Network(n.family, Base(n), n.prefix);
      Base(n) <= n.addr && Fits(b) && Base(b) == Base(n)
  {
    var s, q := Size(n), n.addr / Size(n);
    assert Base(n) == q * s;
    BaseBelow(n.addr, s, q);
    var b: RawNetwork := Network(n.family, Base(n), n.prefix);
    assert Fits(b) && Size(b) == s;
    assert Base(b) == Base(n) / s * s;
  }

  lemma BaseBelow(x: nat, s: nat, q: nat)
    requires s > 0 && q == x / s
    ensures q * s <= x && q * s / s == q
  {
    QuotientIs(x, s, q);
    QuotientIs(q * s, s, q);
  }

  /** Reading a canonical form back and normalising again changes nothing. */
  lemma NormalizeIsIdempotent(a: Address)
    requires Canonical(a)
    ensures Fits(AsNetwork(a)) && Normalize(AsNetwork(a)) == a
  {
    var n: Network :| Normalize(n) == a;
    BaseIsItsBase(n);
  }

  /** Distinct canonical addresses never denote one range. */
  lemma CanonicalAddressesAreDistinctRanges(a: Address, b: Address)
    ensures Canonical(a) && Canonical(b) && a != b ==>
      Fits(AsNetwork(a)) && Fits(AsNetwork(b)) && !SameRange(AsNetwork(a), AsNetwork(b))
  {
    if Canonical(a) && Canonical(b) {
      NormalizeIsIdempotent(a);
      NormalizeIsIdempotent(b);
      NormalFormsAreRanges(AsNetwork(a), AsNetwork(b));
    }
  }

  // ---------- guard_bannable_address ----------

  function Quotient(x: nat, m: nat): nat
    requires m > 0
  {
    x / m
  }

  function TopBits(f: Family, addr: nat, bits: nat): nat
    requires bits <= Width(f)
  {
    Quotient(addr, Pow2(Width(f) - bits))
  }

  /** Decided on the base address alone. */
  predicate BannableBase(f: Family, addr: nat) {
    match f
    case V4 =>
      && TopBits(f, addr, 8) != 127           // loopback
      && addr != 0                            // unspecified
      && TopBits(f, addr, 8) != 10            // 10.0.0.0/8
      && TopBits(f, addr, 12) != 0xac1        // 172.16.0.0/12
      && TopBits(f, addr, 16) != 0xc0a8       // 192.168.0.0/16
      && TopBits(f, addr, 16) != 0xa9fe       // 169.254.0.0/16
    case V6 =>
      && addr != 1                            // loopback
      && addr != 0                            // unspecified
      && TopBits(f, addr, 10) != 0xfe80 / 64  // fe80::/10
      && TopBits(f, addr, 7) != 0xfc00 / 512  // fc00::/7
  }

  predicate Bannable(n: Network) { BannableBase(n.family, Base(n)) }

  predicate BannableAddress(a: Address) {
    match a
    case Host(f, addr) => BannableBase(f, addr)
    case Subnet(f, base, _) => BannableBase(f, base)
  }

  /** The first `bits` digits are t exactly between two multiples of the size of such a network. */
  lemma TopBitsAre(f: Family, addr: nat, bits: nat, t: nat)
    requires bits <= Width(f)
    ensures TopBits(f, addr, bits) == t
       <==> t * Pow2(Width(f) - bits) <= addr < t * Pow2(Width(f) - bits) + Pow2(Width(f) - bits)
  {
    QuotientIs(addr, Pow2(Width(f) - bits), t);
    hide Pow2;
  }

  function Quad(a: nat, b: nat, c: nat, d: nat): nat { a * 0x100_0000 + b * 0x1_0000 + c * 0x100 + d }

  lemma ShortPowers()
    ensures Pow2(16) == 0x1_0000 && Pow2(20) == 0x10_0000 && Pow2(24) == 0x100_0000
  {
    assert Pow2(8) == 0x100;
  }

  /** What may not be banned, as ranges: a network whose base lies in 127.0.0.0/8, 10.0.0.0/8, 172.16.0.0/12,
      192.168.0.0/16 or 169.254.0.0/16, and 0.0.0.0. */
  lemma BannableIpv4Exactly(n: Network)
    requires n.family.V4?
    ensures Bannable(n) <==>
      && Base(n) != 0
      && !(Quad(127, 0, 0, 0) <= Base(n) <= Quad(127, 255, 255, 255))
      && !(Quad(10, 0, 0, 0) <= Base(n) <= Quad(10, 255, 255, 255))
      && !(Quad(172, 16, 0, 0) <= Base(n) <= Quad(172, 31, 255, 255))
      && !(Quad(192, 168, 0, 0) <= Base(n) <= Quad(192, 168, 255, 255))
      && !(Quad(169, 254, 0, 0) <= Base(n) <= Quad(169, 254, 255, 255))
  {
    ShortPowers();
    TopBitsAre(V4, Base(n), 8, 127);
    TopBitsAre(V4, Base(n), 8, 10);
    TopBitsAre(V4, Base(n), 12, 0xac1);
    TopBitsAre(V4, Base(n), 16, 0xc0a8);
    TopBitsAre(V4, Base(n), 16, 0xa9fe);
    hide TopBits, Base;
  }

  lemma {:induction false} Pow2Adds(a: nat, b: nat)
    ensures Pow2(a + b) == Pow2(a) * Pow2(b)
  {
    if a > 0 { Pow2Adds(a - 1, b); }
  }

  /** A short prefix, seen from the first sixteen digits. */
  lemma TopBitsOfTopBits(addr: nat, bits: nat, t: nat)
    requires bits <= 16
    ensures TopBits(V6, addr, bits) == t
       <==> t * Pow2(16 - bits) <= TopBits(V6, addr, 16) < t * Pow2(16 - bits) + Pow2(16 - bits)
  {
    hide TopBits, Pow2;
    var rest := 128 - 16;
    var s, count, first := Pow2(rest), Pow2(16 - bits), TopBits(V6, addr, 16);
    TopBitsAre(V6, addr, 16, first);
    TopBitsAre(V6, addr, bits, t);
    Pow2Adds(16 - bits, rest);
    assert 16 - bits + rest == Width(V6) - bits;
    InBlock(addr, s, first, t * count, count);
    Regroup(t, count, s);
  }

  lemma Regroup(a: nat, b: nat, c: nat)
    ensures a * (b * c) == a * b * c
  {
  }

  /** And :: and ::1, fe80::/10 and fc00::/7, by the first sixteen digits. */
  lemma BannableIpv6Exactly(n: Network)
    requires n.family.V6?
    ensures var first := TopBits(V6, Base(n), 16);
      Bannable(n) <==> Base(n) != 0 && Base(n) != 1 && !(0xfe80 <= first < 0xfec0) && !(0xfc00 <= first < 0xfe00)
  {
    TopBitsOfTopBits(Base(n), 10, 0xfe80 / 64);
    TopBitsOfTopBits(Base(n), 7, 0xfc00 / 512);
    assert Pow2(6) == 64 && Pow2(9) == 512;
    hide TopBits, Base;
  }

  /** A block of sizes is met by a number exactly when its quotient is in the block. */
  lemma InBlock(x: nat, s: nat, q: nat, low: nat, count: nat)
    requires s > 0 && q * s <= x < q * s + s
    ensures low * s <= x < low * s + count * s <==> low <= q < low + count
  {
    if low <= q { ScaledOrder(low, q, s); } else { ScaledOrder(q + 1, low, s); }
    if low + count <= q { ScaledOrder(low + count, q, s); } else { ScaledOrder(q + 1, low + count, s); }
    assert (q + 1) * s == q * s + s && (low + count) * s == low * s + count * s;
  }

  lemma ScaledOrder(a: nat, b: nat, s: nat)
    requires a <= b
    ensures a * s <= b * s
  {
  }

  /** The batch endpoint re-parses the stored form; the verdict is the single endpoint's. */
  lemma BannableSurvivesNormalizing(n: Network)
    ensures BannableAddress(Normalize(n)) <==> Bannable(n)
  {
    if n.prefix == Width(n.family) { HostIsItsBase(n); }
  }
}
