/** The cache of resolved proxy hostnames (src/config.rs) under any interleaving of requests. A step is what
    one task does between two points where another can run; the write lock is held across lookups, and a
    task can be dropped while it waits for one. */
module DnsCache {
  import opened Common
  import opened Addresses

  type Instant = nat

  const SECOND := 1_000_000_000
  const POSITIVE_TTL := 30 * SECOND
  const NEGATIVE_TTL := 5 * SECOND

  datatype Config = Config(networks: seq<Network>, hostnames: seq<string>, positiveTtl: nat, negativeTtl: nat)

  datatype HostnameState = HostnameState(addresses: seq<Network>, attemptedAt: Instant, resolved: bool)

  datatype Cache = Cache(snapshot: seq<Network>, hosts: map<string, HostnameState>, built: bool)

  /** What happened so far, for the record. */
  datatype Event =
    | Started(name: string, at: Instant)
    | Outcome(name: string, state: HostnameState)
    | Cleared
    | Answered(networks: seq<Network>)

  /** A writer is between two names, or waiting for the lookup of name number `next`. */
  datatype Writer = Idle | Checking(next: nat) | LookingUp(next: nat)

  /** `readers` maps each task holding the read lock to how many names it has found fresh. */
  datatype State = State(cache: Cache, writer: Writer, readers: map<nat, nat>, now: Instant, log: seq<Event>)

  datatype Step =
    | Tick(elapsed: nat)
    | BeginRead(task: nat)
    | CheckFresh(task: nat)
    | Answer(task: nat)
    | EndRead(task: nat)
    | BeginWrite
    | BeginPrime
    | CheckName
    | LookupDone(addresses: seq<Network>)
    | Finish
    | Abandon

  // ---------- The code's own computations ----------

  function Expiry(c: Config, h: HostnameState): Instant {
    h.attemptedAt + if h.resolved then c.positiveTtl else c.negativeTtl
  }

  /** `is_fresh`: less than the reuse window has elapsed. */
  predicate IsFresh(c: Config, h: HostnameState, now: Instant) { now < Expiry(c, h) }

  /** How long the outcome of a lookup may be reused: the longer time if it found an address. */
  function ReuseFor(c: Config, h: HostnameState): nat {
    if h.addresses == [] then c.negativeTtl else c.positiveTtl
  }

  /** At t the outcome is within its reuse window, or from later than t. */
  predicate Young(c: Config, h: HostnameState, t: Instant) {
    h.attemptedAt >= t || t < h.attemptedAt + ReuseFor(c, h)
  }

  predicate FreshName(c: Config, hosts: map<string, HostnameState>, name: string, now: Instant) {
    name in hosts && IsFresh(c, hosts[name], now)
  }

  function AddressesOf(hosts: map<string, HostnameState>, name: string): seq<Network> {
    if name in hosts then hosts[name].addresses else []
  }

  function Merged(networks: seq<Network>, hosts: map<string, HostnameState>, hostnames: seq<string>): seq<Network> {
    if hostnames == [] then networks
    else Merged(networks, hosts, hostnames[..|hostnames| - 1]) + AddressesOf(hosts, hostnames[|hostnames| - 1])
  }

  function Next(c: Config, s: State, step: Step): State {
    match step
    case Tick(elapsed) => s.(now := s.now + elapsed)
    case BeginRead(task) =>
      if s.writer.Idle? && s.cache.built then s.(readers := s.readers[task := 0]) else s
    case CheckFresh(task) =>
      if task in s.readers && s.readers[task] < |c.hostnames|
         && FreshName(c, s.cache.hosts, c.hostnames[s.readers[task]], s.now)
      then s.(readers := s.readers[task := s.readers[task] + 1]) else s
    case Answer(task) =>
      if task in s.readers && s.readers[task] == |c.hostnames|
      then s.(readers := s.readers - {task}, log := s.log + [Answered(s.cache.snapshot)]) else s
    case EndRead(task) => s.(readers := s.readers - {task})
    case BeginWrite =>
      if s.writer.Idle? && s.readers == map[] then s.(writer := Checking(0)) else s
    case BeginPrime =>
      if s.writer.Idle? && s.readers == map[]
      then s.(cache := s.cache.(hosts := map[]), writer := Checking(0), log := s.log + [Cleared]) else s
    case CheckName =>
      if s.writer.Checking? && s.writer.next < |c.hostnames| then
        var name := c.hostnames[s.writer.next];
        if FreshName(c, s.cache.hosts, name, s.now) then s.(writer := Checking(s.writer.next + 1))
        else s.(writer := LookingUp(s.writer.next), log := s.log + [Started(name, s.now)])
      else s
    case LookupDone(addresses) =>
      if s.writer.LookingUp? && s.writer.next < |c.hostnames| then
        var name := c.hostnames[s.writer.next];
        var state := HostnameState(addresses, s.now, addresses != []);
        s.(cache := s.cache.(hosts := s.cache.hosts[name := state]), writer := Checking(s.writer.next + 1),
           log := s.log + [Outcome(name, state)])
      else s
    case Finish =>
      if s.writer == Checking(|c.hostnames|) then
        var snapshot := Merged(c.networks, s.cache.hosts, c.hostnames);
        s.(cache := s.cache.(snapshot := snapshot, built := true), writer := Idle, log := s.log + [Answered(snapshot)])
      else s
    case Abandon =>
      if s.writer.LookingUp? then s.(writer := Idle) else s
  }

  function Run(c: Config, s: State, steps: seq<Step>): State {
    if steps == [] then s else Next(c, Run(c, s, steps[..|steps| - 1]), steps[|steps| - 1])
  }

  function Start(now: Instant): State { State(Cache([], map[], false), Idle, map[], now, []) }

  // ---------- The history's own account ----------

  /** The last outcome a name had. */
  function Latest(log: seq<Event>, name: string): Option<HostnameState> {
    if log == [] then None
    else
      var last := log[|log| - 1];
      if last.Outcome? && last.name == name then Some(last.state) else Latest(log[..|log| - 1], name)
  }

  /** The literal networks, then each hostname's latest addresses, in the configured order. */
  function Current(log: seq<Event>, networks: seq<Network>, hostnames: seq<string>): seq<Network> {
    if hostnames == [] then networks
    else
      var latest := Latest(log, hostnames[|hostnames| - 1]);
      Current(log, networks, hostnames[..|hostnames| - 1]) + if latest.Some? then latest.value.addresses else []
  }

  predicate LastFound(log: seq<Event>, name: string, n: Network) {
    Latest(log, name).Some? && n in Latest(log, name).value.addresses
  }

  /** A network is trusted exactly as a literal or as an address some configured name last resolved to. */
  lemma {:induction false} CurrentHolds(log: seq<Event>, networks: seq<Network>, hostnames: seq<string>, n: Network)
    ensures n in Current(log, networks, hostnames) <==>
      n in networks || exists name :: name in hostnames && LastFound(log, name, n)
  {
    if hostnames != [] {
      var init, last := hostnames[..|hostnames| - 1], hostnames[|hostnames| - 1];
      CurrentHolds(log, networks, init, n);
      assert n in Current(log, networks, hostnames) <==> n in Current(log, networks, init) || LastFound(log, last, n);
      hide Latest, LastFound, Current;
      assert hostnames == init + [last];
    }
  }

  ghost predicate AllKnown(log: seq<Event>, hostnames: seq<string>) {
    forall i :: 0 <= i < |hostnames| ==> Latest(log, hostnames[i]).Some?
  }

  ghost predicate AnswerRight(c: Config, log: seq<Event>, k: nat)
    requires k < |log|
  {
    log[k].Answered? ==>
      log[k].networks == Current(log[..k], c.networks, c.hostnames) && AllKnown(log[..k], c.hostnames)
  }

  /** Every answer is what the lookups so far amount to, and no name was still unknown. */
  ghost predicate AnswersRight(c: Config, log: seq<Event>) {
    forall k :: 0 <= k < |log| ==> AnswerRight(c, log, k)
  }

  /** Nothing was forgotten from i on. */
  ghost predicate Kept(log: seq<Event>, i: nat, j: nat)
    requires i <= j <= |log|
  {
    forall k :: i <= k < j ==> log[k] != Cleared
  }

  /** The name whose outcome is event i is looked up again at event j. */
  predicate AnotherLookup(log: seq<Event>, i: nat, j: nat)
    requires i < |log| && j < |log|
  {
    log[i].Outcome? && log[j].Started? && log[i].name == log[j].name
  }

  /** A lookup waits out the reuse window of every earlier outcome of that name, unless a prime intervened. */
  ghost predicate LookupsSpaced(c: Config, log: seq<Event>) {
    forall i, j :: 0 <= i < j < |log| && AnotherLookup(log, i, j) && Kept(log, i, j) ==>
      log[j].at >= Expiry(c, log[i].state)
  }

  // ---------- Invariants ----------

  /** The table holds latest outcomes. */
  ghost predicate HostsLatest(hosts: map<string, HostnameState>, log: seq<Event>) {
    forall name :: name in hosts ==> Latest(log, name) == Some(hosts[name])
  }

  ghost predicate PrefixKnown(c: Config, hosts: map<string, HostnameState>, n: nat) {
    n <= |c.hostnames| && forall i :: 0 <= i < n ==> c.hostnames[i] in hosts
  }

  /** The snapshot is up to date, or some name the first n do not include has lapsed. */
  ghost predicate UpToDateOrLapsed(c: Config, cache: Cache, n: nat, now: Instant) {
    || cache.snapshot == Merged(c.networks, cache.hosts, c.hostnames)
    || exists j :: 0 <= j < |c.hostnames| && LapsedAfter(c, cache.hosts, j, n, now)
  }

  ghost predicate LapsedAfter(c: Config, hosts: map<string, HostnameState>, j: nat, n: nat, now: Instant)
    requires j < |c.hostnames|
  {
    && !FreshName(c, hosts, c.hostnames[j], now)
    && (forall i :: 0 <= i < n && i < |c.hostnames| ==> c.hostnames[i] != c.hostnames[j])
  }

  /** Expiries only move forward while nothing is cleared. */
  ghost predicate ExpiriesKept(c: Config, hosts: map<string, HostnameState>, log: seq<Event>) {
    forall i :: 0 <= i < |log| && log[i].Outcome? && Kept(log, i, |log|) ==>
      ExpiresNoSooner(c, hosts, log[i].name, log[i].state)
  }

  ghost predicate ExpiresNoSooner(c: Config, hosts: map<string, HostnameState>, name: string, h: HostnameState) {
    name in hosts && Expiry(c, hosts[name]) >= Expiry(c, h)
  }

  ghost predicate WriterSound(c: Config, s: State) {
    && (!s.writer.Idle? ==> s.readers == map[] && PrefixKnown(c, s.cache.hosts, s.writer.next))
    && (s.writer.LookingUp? ==>
          s.writer.next < |c.hostnames| && !FreshName(c, s.cache.hosts, c.hostnames[s.writer.next], s.now))
    && (s.writer.Idle? && s.cache.built ==> UpToDateOrLapsed(c, s.cache, 0, s.now))
  }

  ghost predicate ReaderSound(c: Config, s: State, n: nat) {
    s.cache.built && PrefixKnown(c, s.cache.hosts, n) && UpToDateOrLapsed(c, s.cache, n, s.now)
  }

  ghost predicate Sound(c: Config, s: State) {
    && HostsLatest(s.cache.hosts, s.log)
    && WriterSound(c, s)
    && (forall task :: task in s.readers ==> ReaderSound(c, s, s.readers[task]))
  }

  /** Resolved means that an address was found. */
  ghost predicate HostsMarked(hosts: map<string, HostnameState>) {
    forall name :: name in hosts ==> (hosts[name].resolved <==> hosts[name].addresses != [])
  }

  lemma LatestSkips(log: seq<Event>, e: Event)
    ensures forall name ::
      Latest(log + [e], name) == if e.Outcome? && e.name == name then Some(e.state) else Latest(log, name)
  {
    assert (log + [e])[..|log|] == log;
  }

  lemma {:induction false} MergedIsCurrent(networks: seq<Network>, hosts: map<string, HostnameState>,
                                           hostnames: seq<string>, log: seq<Event>)
    requires HostsLatest(hosts, log) && forall i :: 0 <= i < |hostnames| ==> hostnames[i] in hosts
    ensures Merged(networks, hosts, hostnames) == Current(log, networks, hostnames)
    ensures AllKnown(log, hostnames)
  {
    if hostnames != [] { MergedIsCurrent(networks, hosts, hostnames[..|hostnames| - 1], log); }
  }

  lemma LapsedStays(c: Config, cache: Cache, n: nat, now: Instant, later: Instant)
    requires UpToDateOrLapsed(c, cache, n, now) && now <= later
    ensures UpToDateOrLapsed(c, cache, n, later)
  {
    if cache.snapshot != Merged(c.networks, cache.hosts, c.hostnames) {
      var j: nat :| j < |c.hostnames| && LapsedAfter(c, cache.hosts, j, n, now);
      assert LapsedAfter(c, cache.hosts, j, n, later);
    }
  }

  /** One more name found fresh is not the one that lapsed. */
  lemma FreshIsNotLapsed(c: Config, cache: Cache, n: nat, now: Instant)
    requires UpToDateOrLapsed(c, cache, n, now) && n < |c.hostnames| && FreshName(c, cache.hosts, c.hostnames[n], now)
    ensures UpToDateOrLapsed(c, cache, n + 1, now)
  {
    if cache.snapshot != Merged(c.networks, cache.hosts, c.hostnames) {
      var j: nat :| j < |c.hostnames| && LapsedAfter(c, cache.hosts, j, n, now);
      assert LapsedAfter(c, cache.hosts, j, n + 1, now);
    }
  }

  lemma AllSeenIsUpToDate(c: Config, cache: Cache, now: Instant)
    requires UpToDateOrLapsed(c, cache, |c.hostnames|, now)
    ensures cache.snapshot == Merged(c.networks, cache.hosts, c.hostnames)
  {
  }

  lemma {:induction false} NextIsSound(c: Config, s: State, step: Step)
    requires Sound(c, s)
    ensures Sound(c, Next(c, s, step))
  {
    var t := Next(c, s, step);
    hide Merged, Latest, UpToDateOrLapsed;
    match step
    case Tick(elapsed) =>
      if s.writer.Idle? && s.cache.built { LapsedStays(c, s.cache, 0, s.now, t.now); }
      forall task | task in s.readers ensures ReaderSound(c, t, s.readers[task]) {
        assert ReaderSound(c, s, s.readers[task]);
        LapsedStays(c, s.cache, s.readers[task], s.now, t.now);
      }
    case BeginRead(task) =>
    case CheckFresh(task) =>
      if t != s {
        assert ReaderSound(c, s, s.readers[task]);
        FreshIsNotLapsed(c, s.cache, s.readers[task], s.now);
      }
    case Answer(task) =>
      LatestSkips(s.log, Answered(s.cache.snapshot));
    case EndRead(task) =>
    case BeginWrite =>
    case BeginPrime =>
    case CheckName =>
      if t.log != s.log { LatestSkips(s.log, t.log[|s.log|]); }
    case LookupDone(addresses) =>
      if t != s { LatestSkips(s.log, t.log[|s.log|]); }
    case Finish =>
      if t != s { LatestSkips(s.log, t.log[|s.log|]); FinishUpToDate(c, t); }
    case Abandon =>
      if t != s { LookingUpIsLapsed(c, s); }
  }

  lemma FinishUpToDate(c: Config, t: State)
    requires t.cache.snapshot == Merged(c.networks, t.cache.hosts, c.hostnames)
    ensures UpToDateOrLapsed(c, t.cache, 0, t.now)
  {
  }

  lemma LookingUpIsLapsed(c: Config, s: State)
    requires WriterSound(c, s) && s.writer.LookingUp?
    ensures UpToDateOrLapsed(c, s.cache, 0, s.now)
  {
    assert LapsedAfter(c, s.cache.hosts, s.writer.next, 0, s.now);
  }

  // ---------- Every answer is right ----------

  lemma AnswersExtend(c: Config, log: seq<Event>, e: Event)
    requires AnswersRight(c, log) && AnswerRight(c, log + [e], |log|)
    ensures AnswersRight(c, log + [e])
  {
    var all := log + [e];
    forall k | 0 <= k < |all|
      ensures AnswerRight(c, all, k)
    {
      if k < |log| {
        assert AnswerRight(c, log, k) && all[..k] == log[..k];
      }
    }
  }

  lemma MergedAnswerIsRight(c: Config, hosts: map<string, HostnameState>, log: seq<Event>)
    requires HostsLatest(hosts, log) && PrefixKnown(c, hosts, |c.hostnames|)
    ensures AnswerRight(c, log + [Answered(Merged(c.networks, hosts, c.hostnames))], |log|)
  {
    MergedIsCurrent(c.networks, hosts, c.hostnames, log);
    assert (log + [Answered(Merged(c.networks, hosts, c.hostnames))])[..|log|] == log;
  }

  lemma NextAnswersRight(c: Config, s: State, step: Step)
    requires Sound(c, s) && AnswersRight(c, s.log)
    ensures AnswersRight(c, Next(c, s, step).log)
  {
    hide AnswersRight, HostsLatest, UpToDateOrLapsed, PrefixKnown, Merged;
    var t := Next(c, s, step);
    if t.log != s.log {
      var e := t.log[|s.log|];
      if step.Answer? {
        assert ReaderSound(c, s, s.readers[step.task]);
        AllSeenIsUpToDate(c, s.cache, s.now);
        MergedAnswerIsRight(c, s.cache.hosts, s.log);
      } else if step.Finish? {
        MergedAnswerIsRight(c, s.cache.hosts, s.log);
      }
      AnswersExtend(c, s.log, e);
    }
  }

  // ---------- Lookups are spaced ----------

  lemma ExpiriesExtend(c: Config, hosts: map<string, HostnameState>, log: seq<Event>, e: Event)
    requires ExpiriesKept(c, hosts, log) && !e.Outcome?
    ensures ExpiriesKept(c, if e.Cleared? then map[] else hosts, log + [e])
  {
    var all := log + [e];
    forall i | 0 <= i < |all| && all[i].Outcome? && Kept(all, i, |all|)
      ensures !e.Cleared? && ExpiresNoSooner(c, hosts, all[i].name, all[i].state)
    {
      assert all[|log|] == e;
      assert forall k :: i <= k < |log| ==> all[k] == log[k];
      assert Kept(log, i, |log|) && all[i] == log[i];
    }
  }

  lemma ExpiriesAfterOutcome(c: Config, hosts: map<string, HostnameState>, log: seq<Event>, name: string,
                             h: HostnameState)
    requires ExpiriesKept(c, hosts, log) && !FreshName(c, hosts, name, h.attemptedAt)
    ensures ExpiriesKept(c, hosts[name := h], log + [Outcome(name, h)])
  {
    var all := log + [Outcome(name, h)];
    forall i | 0 <= i < |all| && all[i].Outcome? && Kept(all, i, |all|)
      ensures ExpiresNoSooner(c, hosts[name := h], all[i].name, all[i].state)
    {
      if i < |log| {
        assert forall k :: i <= k < |log| ==> all[k] == log[k];
        assert Kept(log, i, |log|) && all[i] == log[i];
        assert ExpiresNoSooner(c, hosts, log[i].name, log[i].state);
      }
    }
  }

  lemma SpacingExtends(c: Config, hosts: map<string, HostnameState>, log: seq<Event>, e: Event)
    requires ExpiriesKept(c, hosts, log) && LookupsSpaced(c, log)
    requires e.Started? ==> !FreshName(c, hosts, e.name, e.at)
    ensures LookupsSpaced(c, log + [e])
  {
    var all := log + [e];
    forall i, j | 0 <= i < j < |all| && AnotherLookup(all, i, j) && Kept(all, i, j)
      ensures all[j].at >= Expiry(c, all[i].state)
    {
      assert forall k :: i <= k < j ==> all[k] == log[k];
      assert Kept(log, i, j) && all[i] == log[i];
      if j == |log| {
        assert ExpiresNoSooner(c, hosts, log[i].name, log[i].state);
      } else {
        assert all[j] == log[j] && AnotherLookup(log, i, j);
      }
    }
  }

  lemma NextSpaced(c: Config, s: State, step: Step)
    requires WriterSound(c, s) && ExpiriesKept(c, s.cache.hosts, s.log) && LookupsSpaced(c, s.log)
    ensures ExpiriesKept(c, Next(c, s, step).cache.hosts, Next(c, s, step).log)
    ensures LookupsSpaced(c, Next(c, s, step).log)
  {
    hide ExpiriesKept, LookupsSpaced, FreshName;
    var t := Next(c, s, step);
    if t.log != s.log {
      var e := t.log[|s.log|];
      SpacingExtends(c, s.cache.hosts, s.log, e);
      if e.Outcome? { ExpiriesAfterOutcome(c, s.cache.hosts, s.log, e.name, e.state); }
      else { ExpiriesExtend(c, s.cache.hosts, s.log, e); }
    }
  }

  // ---------- Over every run ----------

  ghost predicate Good(c: Config, s: State) {
    && Sound(c, s) && AnswersRight(c, s.log) && HostsMarked(s.cache.hosts)
    && ExpiriesKept(c, s.cache.hosts, s.log) && LookupsSpaced(c, s.log)
  }

  lemma NextIsMarked(c: Config, s: State, step: Step)
    requires HostsMarked(s.cache.hosts)
    ensures HostsMarked(Next(c, s, step).cache.hosts)
  {
    hide Merged, FreshName;
  }

  lemma {:induction false} RunKeepsGood(c: Config, s: State, steps: seq<Step>)
    requires Good(c, s)
    ensures Good(c, Run(c, s, steps))
    decreases |steps|
  {
    if steps != [] {
      var init, last := steps[..|steps| - 1], steps[|steps| - 1];
      RunKeepsGood(c, s, init);
      var mid := Run(c, s, init);
      assert Good(c, mid) && Sound(c, mid) && WriterSound(c, mid);
      hide Next, Sound, AnswersRight, ExpiriesKept, LookupsSpaced, HostsMarked;
      NextIsMarked(c, mid, last);
      NextIsSound(c, mid, last);
      NextAnswersRight(c, mid, last);
      NextSpaced(c, mid, last);
    }
  }

  /** An outcome counts as resolved exactly when it found an address. */
  ghost predicate Marked(log: seq<Event>) {
    forall i :: 0 <= i < |log| && log[i].Outcome? ==> (log[i].state.resolved <==> log[i].state.addresses != [])
  }

  lemma {:induction false} RunMarks(c: Config, now: Instant, steps: seq<Step>)
    ensures Marked(Run(c, Start(now), steps).log)
    decreases |steps|
  {
    hide Merged, FreshName;
    if steps != [] { RunMarks(c, now, steps[..|steps| - 1]); }
  }

  /** A name that was found may not be asked for again within the positive window, one that was not within
      the negative one, unless a prime came between. */
  ghost predicate ReuseRespected(c: Config, log: seq<Event>) {
    forall i, j :: 0 <= i < j < |log| && AnotherLookup(log, i, j) && Kept(log, i, j) ==>
      log[j].at >= log[i].state.attemptedAt + ReuseFor(c, log[i].state)
  }

  /** From an empty cache, whatever interleaving of readers, writers, primes, lookups and dropped requests:
      every answer handed out is exactly what the lookups so far amount to, and no name is looked up within
      the reuse window of an earlier outcome. */
  lemma CacheAgreesWithRecomputation(c: Config, now: Instant, steps: seq<Step>)
    ensures AnswersRight(c, Run(c, Start(now), steps).log)
    ensures ReuseRespected(c, Run(c, Start(now), steps).log)
  {
    RunKeepsGood(c, Start(now), steps);
    RunMarks(c, now, steps);
  }

  // ---------- The snapshot itself ----------

  ghost predicate SnapshotCurrent(c: Config, s: State) {
    s.writer.Idle? && s.cache.built ==>
      s.cache.snapshot == Merged(c.networks, s.cache.hosts, c.hostnames) && PrefixKnown(c, s.cache.hosts, |c.hostnames|)
  }

  lemma NextSnapshotCurrent(c: Config, s: State, step: Step)
    requires Sound(c, s) && SnapshotCurrent(c, s) && step != Abandon
    ensures SnapshotCurrent(c, Next(c, s, step))
  {
    hide Merged, HostsLatest, UpToDateOrLapsed, ReaderSound;
  }

  lemma {:induction false} RunSnapshotCurrent(c: Config, now: Instant, steps: seq<Step>)
    requires Abandon !in steps
    ensures SnapshotCurrent(c, Run(c, Start(now), steps))
    decreases |steps|
  {
    if steps != [] {
      var init, last := steps[..|steps| - 1], steps[|steps| - 1];
      assert forall i :: 0 <= i < |init| ==> init[i] == steps[i];
      RunSnapshotCurrent(c, now, init);
      RunKeepsGood(c, Start(now), init);
      hide SnapshotCurrent;
      NextSnapshotCurrent(c, Run(c, Start(now), init), last);
    }
  }

  /** As long as no task is dropped in the middle of a lookup, the built snapshot itself is the literal
      networks followed by each name's latest addresses, whenever no refresh is under way. */
  lemma BuiltSnapshotIsCurrent(c: Config, now: Instant, steps: seq<Step>)
    requires Abandon !in steps
    ensures var s := Run(c, Start(now), steps);
      s.writer.Idle? && s.cache.built ==> s.cache.snapshot == Current(s.log, c.networks, c.hostnames)
  {
    var s := Run(c, Start(now), steps);
    RunSnapshotCurrent(c, now, steps);
    RunKeepsGood(c, Start(now), steps);
    if s.writer.Idle? && s.cache.built { MergedIsCurrent(c.networks, s.cache.hosts, c.hostnames, s.log); }
  }

  predicate Reusable(c: Config, hosts: map<string, HostnameState>, name: string, now: Instant) {
    name in hosts && now < hosts[name].attemptedAt + ReuseFor(c, hosts[name])
  }

  /** With dropped requests it still is, as long as every name is within its reuse window. */
  lemma FreshSnapshotIsCurrent(c: Config, now: Instant, steps: seq<Step>)
    ensures var s := Run(c, Start(now), steps);
      s.writer.Idle? && s.cache.built
      && (forall i :: 0 <= i < |c.hostnames| ==> Reusable(c, s.cache.hosts, c.hostnames[i], s.now))
      ==> s.cache.snapshot == Current(s.log, c.networks, c.hostnames)
  {
    var s := Run(c, Start(now), steps);
    RunKeepsGood(c, Start(now), steps);
    if s.writer.Idle? && s.cache.built
       && forall i :: 0 <= i < |c.hostnames| ==> Reusable(c, s.cache.hosts, c.hostnames[i], s.now) {
      assert WriterSound(c, s);
      MergedIsCurrent(c.networks, s.cache.hosts, c.hostnames, s.log);
    }
  }

  /** Where the last answer stands in the history. */
  function LastAnswer(log: seq<Event>): (r: Option<nat>)
    ensures r.Some? ==> r.value < |log| && log[r.value].Answered?
  {
    if log == [] then None
    else if log[|log| - 1].Answered? then Some(|log| - 1)
    else LastAnswer(log[..|log| - 1])
  }

  /** The snapshot is the last answer, even while it is being refreshed. */
  ghost predicate SnapshotAnswered(s: State) {
    s.cache.built ==> var k := LastAnswer(s.log); k.Some? && s.log[k.value].networks == s.cache.snapshot
  }

  lemma LastAnswerSkips(log: seq<Event>, e: Event)
    ensures LastAnswer(log + [e]) == if e.Answered? then Some(|log|) else LastAnswer(log)
  {
    assert (log + [e])[..|log|] == log;
  }

  lemma NextSnapshotAnswered(c: Config, s: State, step: Step)
    requires SnapshotAnswered(s)
    ensures SnapshotAnswered(Next(c, s, step))
  {
    hide Merged, LastAnswer, FreshName;
    var t := Next(c, s, step);
    if t.log != s.log { LastAnswerSkips(s.log, t.log[|s.log|]); }
  }

  lemma {:induction false} RunSnapshotAnswered(c: Config, now: Instant, steps: seq<Step>)
    ensures SnapshotAnswered(Run(c, Start(now), steps))
    decreases |steps|
  {
    if steps != [] {
      RunSnapshotAnswered(c, now, steps[..|steps| - 1]);
      hide Next, SnapshotAnswered;
      NextSnapshotAnswered(c, Run(c, Start(now), steps[..|steps| - 1]), steps[|steps| - 1]);
    }
  }

  function LatestAddresses(log: seq<Event>, name: string): seq<Network> {
    var latest := Latest(log, name);
    if latest.Some? then latest.value.addresses else []
  }

  /** Over every run, dropped refreshes included: the built snapshot is current exactly when the outcomes since
      the last answer have left the merged list as it was. */
  lemma SnapshotCurrentExactly(c: Config, now: Instant, steps: seq<Step>)
    requires Run(c, Start(now), steps).cache.built
    ensures var s := Run(c, Start(now), steps);
      var k := LastAnswer(s.log);
      k.Some?
      && (s.cache.snapshot == Current(s.log, c.networks, c.hostnames)
          <==> Current(s.log[..k.value], c.networks, c.hostnames) == Current(s.log, c.networks, c.hostnames))
  {
    var s := Run(c, Start(now), steps);
    RunSnapshotAnswered(c, now, steps);
    RunKeepsGood(c, Start(now), steps);
    var k := LastAnswer(s.log).value;
    assert AnswerRight(c, s.log, k);
  }

  /** Two histories that differ in one name at most. */
  ghost predicate DifferAt(l1: seq<Event>, l2: seq<Event>, hostnames: seq<string>, x: string) {
    forall i :: 0 <= i < |hostnames| && hostnames[i] != x ==>
      LatestAddresses(l1, hostnames[i]) == LatestAddresses(l2, hostnames[i])
  }

  lemma {:induction false} MoreAddressesMakeMore(l1: seq<Event>, l2: seq<Event>, networks: seq<Network>,
                                                 hostnames: seq<string>, x: string)
    requires DifferAt(l1, l2, hostnames, x) && |LatestAddresses(l1, x)| < |LatestAddresses(l2, x)|
    ensures |Current(l1, networks, hostnames)| <= |Current(l2, networks, hostnames)|
    ensures x in hostnames ==> |Current(l1, networks, hostnames)| < |Current(l2, networks, hostnames)|
  {
    if hostnames != [] {
      var init, last := hostnames[..|hostnames| - 1], hostnames[|hostnames| - 1];
      MoreAddressesMakeMore(l1, l2, networks, init, x);
      assert hostnames == init + [last];
    }
  }

  lemma {:induction false} OtherAddressesMakeOther(l1: seq<Event>, l2: seq<Event>, networks: seq<Network>,
                                                   hostnames: seq<string>, x: string)
    requires DifferAt(l1, l2, hostnames, x) && |LatestAddresses(l1, x)| == |LatestAddresses(l2, x)|
    ensures |Current(l1, networks, hostnames)| == |Current(l2, networks, hostnames)|
    ensures x in hostnames && LatestAddresses(l1, x) != LatestAddresses(l2, x) ==>
      Current(l1, networks, hostnames) != Current(l2, networks, hostnames)
  {
    if hostnames != [] {
      var init, last := hostnames[..|hostnames| - 1], hostnames[|hostnames| - 1];
      OtherAddressesMakeOther(l1, l2, networks, init, x);
      assert hostnames == init + [last];
      var (c1, c2) := (Current(l1, networks, init), Current(l2, networks, init));
      var (a1, a2) := (LatestAddresses(l1, last), LatestAddresses(l2, last));
      assert (c1 + a1)[..|c1|] == c1 && (c2 + a2)[..|c1|] == c2;
      assert (c1 + a1)[|c1|..] == a1 && (c2 + a2)[|c1|..] == a2;
    }
  }

  lemma {:induction false} SameAddressesMakeSame(l1: seq<Event>, l2: seq<Event>, networks: seq<Network>,
                                                 hostnames: seq<string>)
    requires forall i :: 0 <= i < |hostnames| ==> LatestAddresses(l1, hostnames[i]) == LatestAddresses(l2, hostnames[i])
    ensures Current(l1, networks, hostnames) == Current(l2, networks, hostnames)
  {
    if hostnames != [] { SameAddressesMakeSame(l1, l2, networks, hostnames[..|hostnames| - 1]); }
  }

  /** By name: where at most one configured name has had a different outcome since the last answer, the
      snapshot is current exactly when none has. */
  lemma SnapshotCurrentByName(c: Config, now: Instant, steps: seq<Step>, x: string)
    requires Run(c, Start(now), steps).cache.built && x in c.hostnames
    ensures var s := Run(c, Start(now), steps);
      var k := LastAnswer(s.log);
      k.Some?
      && (DifferAt(s.log[..k.value], s.log, c.hostnames, x) ==>
            (s.cache.snapshot == Current(s.log, c.networks, c.hostnames)
             <==> LatestAddresses(s.log[..k.value], x) == LatestAddresses(s.log, x)))
  {
    SnapshotCurrentExactly(c, now, steps);
    var s := Run(c, Start(now), steps);
    hide Run, Current, LatestAddresses;
    var before := s.log[..LastAnswer(s.log).value];
    if DifferAt(before, s.log, c.hostnames, x) {
      assert DifferAt(s.log, before, c.hostnames, x);
      if |LatestAddresses(before, x)| < |LatestAddresses(s.log, x)| {
        MoreAddressesMakeMore(before, s.log, c.networks, c.hostnames, x);
      } else if |LatestAddresses(before, x)| > |LatestAddresses(s.log, x)| {
        MoreAddressesMakeMore(s.log, before, c.networks, c.hostnames, x);
      } else {
        OtherAddressesMakeOther(before, s.log, c.networks, c.hostnames, x);
        if LatestAddresses(before, x) == LatestAddresses(s.log, x) {
          SameAddressesMakeSame(before, s.log, c.networks, c.hostnames);
        }
      }
    }
  }

  ghost predicate Leads(c: Config, s: State, t: State) { exists steps :: Run(c, s, steps) == t }

  lemma LeadsNowhere(c: Config, s: State)
    ensures Leads(c, s, s)
  {
    assert Run(c, s, []) == s;
  }

  lemma LeadsNext(c: Config, s: State, t: State, step: Step)
    requires Leads(c, s, t)
    ensures Leads(c, s, Next(c, t, step))
  {
    var steps :| Run(c, s, steps) == t;
    assert (steps + [step])[..|steps|] == steps;
    assert Run(c, s, steps + [step]) == Next(c, t, step);
  }

  lemma LeadsKeepsGood(c: Config, s: State, t: State)
    requires Leads(c, s, t) && Good(c, s)
    ensures Good(c, t)
  {
    var steps :| Run(c, s, steps) == t;
    RunKeepsGood(c, s, steps);
  }

  ghost predicate Reaches(c: Config, s: State) { Leads(c, Start(0), s) }

  lemma ReachesStart(c: Config)
    ensures Reaches(c, Start(0))
  {
    assert Run(c, Start(0), []) == Start(0);
  }

  lemma TwoNames(hosts: map<string, HostnameState>, log: seq<Event>)
    ensures Merged([], hosts, ["a", "b"]) == AddressesOf(hosts, "a") + AddressesOf(hosts, "b")
    ensures Latest(log, "a").Some? && Latest(log, "b").Some? ==>
      Current(log, [], ["a", "b"]) == Latest(log, "a").value.addresses + Latest(log, "b").value.addresses
  {
    assert ["a", "b"][..1] == ["a"] && ["a"][..0] == [];
    assert Merged([], hosts, ["a"]) == AddressesOf(hosts, "a");
    assert Latest(log, "a").Some? ==> Current(log, [], ["a"]) == Latest(log, "a").value.addresses;
  }

  lemma ReachesNext(c: Config, s: State, step: Step)
    requires Reaches(c, s)
    ensures Reaches(c, Next(c, s, step))
  {
    LeadsNext(c, Start(0), s, step);
  }

  /** A refresh of two lapsed names, up to the second lookup. */
  lemma ReachesSecondLookup(c: Config, s: State, first: seq<Network>) returns (t: State)
    requires Reaches(c, s) && s.writer.Idle? && s.readers == map[] && c.hostnames == ["a", "b"]
    requires !FreshName(c, s.cache.hosts, "a", s.now) && !FreshName(c, s.cache.hosts, "b", s.now)
    ensures var h := HostnameState(first, s.now, first != []);
      && t == s.(writer := LookingUp(1), cache := s.cache.(hosts := s.cache.hosts["a" := h]), log := t.log)
      && Latest(t.log, "a") == Some(h) && Latest(t.log, "b") == Latest(s.log, "b")
    ensures Reaches(c, t)
  {
    hide Reaches;
    ReachesNext(c, s, BeginWrite);
    var s1 := Next(c, s, BeginWrite);
    ReachesNext(c, s1, CheckName);
    var s2 := Next(c, s1, CheckName);
    ReachesNext(c, s2, LookupDone(first));
    var s3 := Next(c, s2, LookupDone(first));
    ReachesNext(c, s3, CheckName);
    t := Next(c, s3, CheckName);
    hide Latest;
    var h := HostnameState(first, s.now, first != []);
    LatestSkips(s.log, Started("a", s.now));
    LatestSkips(s2.log, Outcome("a", h));
    LatestSkips(s3.log, Started("b", s.now));
  }

  /** Two names, both failed at boot. */
  lemma ReachesFailedBoot(c: Config) returns (s: State)
    requires c.networks == [] && c.hostnames == ["a", "b"]
    ensures var failed := HostnameState([], 0, false);
      s == State(Cache([], map["a" := failed, "b" := failed], true), Idle, map[], 0, s.log)
      && Latest(s.log, "b") == Some(failed)
    ensures Reaches(c, s)
  {
    hide Reaches;
    ReachesStart(c);
    var s1 := ReachesSecondLookup(c, Start(0), []);
    ReachesNext(c, s1, LookupDone([]));
    var s2 := Next(c, s1, LookupDone([]));
    ReachesNext(c, s2, Finish);
    s := Next(c, s2, Finish);
    TwoNames(s2.cache.hosts, s2.log);
    hide Latest, Merged, Current;
    LatestSkips(s1.log, Outcome("b", HostnameState([], 0, false)));
    LatestSkips(s2.log, Answered(s.cache.snapshot));
    assert s.cache.snapshot == [];
  }

  /** And not otherwise: later the first name resolves and its request is dropped while waiting for the
      second. `built` stands, the snapshot is behind. */
  lemma DroppedRefreshLeavesSnapshotBehind(n: Network) returns (c: Config, s: State)
    ensures Reaches(c, s) && s.writer.Idle? && s.cache.built
    ensures s.cache.snapshot == [] && Current(s.log, c.networks, c.hostnames) == [n]
  {
    hide Reaches, Latest, Merged, Current;
    c := Config([], ["a", "b"], 30, 5);
    var s1 := ReachesFailedBoot(c);
    ReachesNext(c, s1, Tick(5));
    var s2 := ReachesSecondLookup(c, Next(c, s1, Tick(5)), [n]);
    ReachesNext(c, s2, Abandon);
    s := Next(c, s2, Abandon);
    TwoNames(s.cache.hosts, s.log);
  }

  // ---------- The object itself ----------

  /** One configured entry: a literal network, or a name resolved at request time. */
  datatype ProxyMatcher = Literal(network: Network) | Hostname(name: string)

  function Literals(matchers: seq<ProxyMatcher>): (networks: seq<Network>)
    ensures forall n :: n in networks <==> Literal(n) in matchers
  {
    if matchers == [] then []
    else (if matchers[0].Literal? then [matchers[0].network] else []) + Literals(matchers[1..])
  }

  function Names(matchers: seq<ProxyMatcher>): (names: seq<string>)
    ensures forall name :: name in names <==> Hostname(name) in matchers
  {
    if matchers == [] then []
    else (if matchers[0].Hostname? then [matchers[0].name] else []) + Names(matchers[1..])
  }

  /** `TrustedProxies` and its cache, one call at a time. Time passes between clock reads as it likes, and a
      lookup returns what it likes. Every call is a run of the steps above. */
  class TrustedProxies {
    const config: Config
    var snapshot: seq<Network>
    var hosts: map<string, HostnameState>
    var built: bool
    var clock: Instant
    ghost var log: seq<Event>

    ghost function St(): State
      reads this
    {
      State(Cache(snapshot, hosts, built), Idle, map[], clock, log)
    }

    constructor (matchers: seq<ProxyMatcher>, now: Instant)
      ensures config == Config(Literals(matchers), Names(matchers), 30 * SECOND, 5 * SECOND)
      ensures St() == Start(now) && Good(config, St())
    {
      config := Config(Literals(matchers), Names(matchers), POSITIVE_TTL, NEGATIVE_TTL);
      snapshot, hosts, built, clock, log := [], map[], false, now, [];
    }

    method Elapse()
      modifies this`clock
      ensures clock >= old(clock)
    {
      var d: nat :| d >= 0;
      clock := clock + d;
    }

    /** `resolve_hostname`: whatever the resolver says, however long it takes; nothing on failure. */
    method LookUp(name: string) returns (addresses: seq<Network>)
      modifies this`clock
      ensures clock >= old(clock)
    {
      addresses :| |addresses| >= 0;
      Elapse();
    }

    /** The networks to match a request against. */
    method Resolved() returns (r: seq<Network>)
      requires Good(config, St())
      modifies this
      ensures Good(config, St()) && Leads(config, old(St()), St())
      ensures r == if config.hostnames == [] then config.networks else Current(log, config.networks, config.hostnames)
      ensures config.hostnames != [] ==> built && log != [] && log[|log| - 1] == Answered(r)
      ensures config.hostnames != [] && old(built)
              && (forall i :: 0 <= i < |config.hostnames| ==>
                    Reusable(config, old(hosts), config.hostnames[i], clock)) ==>
                hosts == old(hosts) && log == old(log) + [Answered(r)]
      ensures forall i :: 0 <= i < |config.hostnames| ==>
        Latest(log, config.hostnames[i]).Some? && Young(config, Latest(log, config.hostnames[i]).value, old(clock))
    {
      hide Good, Leads, Merged, Current, Latest;
      LeadsNowhere(config, St());
      GoodMarks(config, St());
      ghost var origin := St();
      if config.hostnames == [] { return config.networks; }
      if built {
        ghost var s := Next(config, St(), BeginRead(0));
        LeadsNext(config, origin, St(), BeginRead(0));
        var i := 0;
        var allFresh := true;
        while allFresh && i < |config.hostnames|
          invariant 0 <= i <= |config.hostnames| && clock >= old(clock)
          invariant snapshot == old(snapshot) && hosts == old(hosts) && built == old(built) && log == old(log)
          invariant s == St().(readers := map[0 := i]) && Leads(config, origin, s)
          invariant forall k :: 0 <= k < i ==>
            config.hostnames[k] in hosts && Young(config, hosts[config.hostnames[k]], old(clock))
          invariant !allFresh ==> i < |config.hostnames| && !FreshName(config, hosts, config.hostnames[i], clock)
          decreases |config.hostnames| - i, allFresh
        {
          var before := clock;
          Elapse();
          LeadsNext(config, origin, s, Tick(clock - before));
          s := Next(config, s, Tick(clock - before));
          if config.hostnames[i] in hosts && IsFresh(config, hosts[config.hostnames[i]], clock) {
            LeadsNext(config, origin, s, CheckFresh(0));
            s := Next(config, s, CheckFresh(0));
            i := i + 1;
          } else {
            allFresh := false;
          }
        }
        if allFresh {
          LeadsNext(config, origin, s, Answer(0));
          log := log + [Answered(snapshot)];
          assert Next(config, s, Answer(0)) == St();
          LeadsKeepsGood(config, origin, St());
          LastAnswerRight(config, St());
          GoodLatest(config, St());
          return snapshot;
        }
        LeadsNext(config, origin, s, EndRead(0));
        assert Next(config, s, EndRead(0)) == St();
      }
      LeadsNext(config, origin, St(), BeginWrite);
      RefreshLocked(origin);
      LeadsKeepsGood(config, origin, St());
      LastAnswerRight(config, St());
      GoodLatest(config, St());
      r := snapshot;
    }

    /** Looks up every lapsed name, then rebuilds the snapshot; under the write lock. */
    method RefreshLocked(ghost origin: State)
      requires Leads(config, origin, St().(writer := Checking(0))) && HostsMarked(hosts)
      modifies this
      ensures Leads(config, origin, St())
      ensures built && log != [] && log[|log| - 1] == Answered(snapshot)
      ensures clock >= old(clock) && Refreshed(old(hosts), hosts, old(clock))
      ensures forall i :: 0 <= i < |config.hostnames| ==>
        config.hostnames[i] in hosts && Young(config, hosts[config.hostnames[i]], old(clock))
    {
      hide Leads, Merged;
      for i := 0 to |config.hostnames|
        invariant Leads(config, origin, St().(writer := Checking(i)))
        invariant clock >= old(clock) && Refreshed(old(hosts), hosts, old(clock))
        invariant HostsMarked(hosts) && forall k :: 0 <= k < i ==>
          config.hostnames[k] in hosts && Young(config, hosts[config.hostnames[k]], old(clock))
      {
        RefreshName(origin, i);
      }
      LeadsNext(config, origin, St().(writer := Checking(|config.hostnames|)), Finish);
      Rebuild();
    }

    /** One name: nothing while it is within its reuse window, otherwise one lookup. */
    method RefreshName(ghost origin: State, i: nat)
      requires i < |config.hostnames| && Leads(config, origin, St().(writer := Checking(i))) && HostsMarked(hosts)
      modifies this`hosts, this`clock, this`log
      ensures Leads(config, origin, St().(writer := Checking(i + 1)))
      ensures config.hostnames[i] in hosts && clock >= old(clock) && HostsMarked(hosts)
      ensures Young(config, hosts[config.hostnames[i]], old(clock))
      ensures hosts == old(hosts)
        || (hosts == old(hosts)[config.hostnames[i] := hosts[config.hostnames[i]]]
            && hosts[config.hostnames[i]].attemptedAt >= old(clock))
    {
      hide Leads;
      var name := config.hostnames[i];
      ghost var s := St().(writer := Checking(i));
      ghost var before := clock;
      Elapse();
      LeadsNext(config, origin, s, Tick(clock - before));
      s := Next(config, s, Tick(clock - before));
      LeadsNext(config, origin, s, CheckName);
      s := Next(config, s, CheckName);
      if name in hosts && IsFresh(config, hosts[name], clock) { return; }
      log := log + [Started(name, clock)];
      before := clock;
      var addresses := LookUp(name);
      LeadsNext(config, origin, s, Tick(clock - before));
      s := Next(config, s, Tick(clock - before));
      LeadsNext(config, origin, s, LookupDone(addresses));
      s := Next(config, s, LookupDone(addresses));
      hosts := hosts[name := HostnameState(addresses, clock, addresses != [])];
      log := log + [Outcome(name, hosts[name])];
    }

    /** The snapshot: literals first, then each name's addresses. */
    method Rebuild()
      modifies this`snapshot, this`built, this`log
      ensures St() == Next(config, old(St()).(writer := Checking(|config.hostnames|)), Finish)
    {
      hide Merged;
      var merged := config.networks;
      MergedEmpty(config.networks, hosts);
      for i := 0 to |config.hostnames|
        invariant merged == Merged(config.networks, hosts, config.hostnames[..i]) && St() == old(St())
      {
        MergedLast(config.networks, hosts, config.hostnames[..i], config.hostnames[i]);
        assert config.hostnames[..i + 1] == config.hostnames[..i] + [config.hostnames[i]];
        if config.hostnames[i] in hosts { merged := merged + hosts[config.hostnames[i]].addresses; }
      }
      assert config.hostnames[..|config.hostnames|] == config.hostnames;
      snapshot, built := merged, true;
      log := log + [Answered(snapshot)];
    }

    /** Looks every name up afresh and reports, in order, the ones that failed. */
    method Prime() returns (failed: seq<string>)
      requires Good(config, St())
      modifies this
      ensures Good(config, St()) && Leads(config, old(St()), St())
      ensures failed == Failing(log, config.hostnames)
      ensures forall name :: name in failed <==>
        name in config.hostnames && Latest(log, name).Some? && Latest(log, name).value.addresses == []
      ensures config.hostnames != [] ==> snapshot == Current(log, config.networks, config.hostnames)
      ensures forall i :: 0 <= i < |config.hostnames| ==>
        config.hostnames[i] in hosts && hosts[config.hostnames[i]].attemptedAt >= old(clock)
    {
      hide Good, Leads, Merged, Current, Latest, Failing;
      LeadsNowhere(config, St());
      ghost var origin := St();
      failed := [];
      FailingEmpty(log);
      if config.hostnames == [] { return; }
      LeadsNext(config, origin, St(), BeginPrime);
      hosts := map[];
      log := log + [Cleared];
      assert Next(config, origin, BeginPrime) == St().(writer := Checking(0));
      RefreshLocked(origin);
      LeadsKeepsGood(config, origin, St());
      LastAnswerRight(config, St());
      GoodHosts(config, St());
      GoodMarks(config, St());
      FailingEmpty(log);
      ghost var primed := St();
      for i := 0 to |config.hostnames|
        invariant failed == Failing(log, config.hostnames[..i]) && St() == primed
      {
        FailingLast(log, config.hostnames[..i], config.hostnames[i]);
        assert config.hostnames[..i + 1] == config.hostnames[..i] + [config.hostnames[i]];
        if !hosts[config.hostnames[i]].resolved { failed := failed + [config.hostnames[i]]; }
      }
      assert config.hostnames[..|config.hostnames|] == config.hostnames;
      FailingAre(log, config.hostnames);
    }
  }

  /** Every entry is an old one or no older than `since`. */
  ghost predicate Refreshed(before: map<string, HostnameState>, after: map<string, HostnameState>, since: Instant) {
    && before.Keys <= after.Keys
    && forall name :: name in after ==>
      (name in before && after[name] == before[name]) || after[name].attemptedAt >= since
  }

  /** The names whose latest lookup found nothing. */
  function Failing(log: seq<Event>, hostnames: seq<string>): seq<string> {
    if hostnames == [] then []
    else
      var name := hostnames[|hostnames| - 1];
      var latest := Latest(log, name);
      Failing(log, hostnames[..|hostnames| - 1]) + if latest.Some? && latest.value.resolved then [] else [name]
  }

  lemma {:induction false} FailingAre(log: seq<Event>, hostnames: seq<string>)
    ensures forall name :: name in Failing(log, hostnames) <==>
      name in hostnames && !(Latest(log, name).Some? && Latest(log, name).value.resolved)
  {
    hide Latest;
    if hostnames != [] {
      var init, last := hostnames[..|hostnames| - 1], hostnames[|hostnames| - 1];
      FailingAre(log, init);
      assert hostnames == init + [last];
    }
  }

  lemma FailingEmpty(log: seq<Event>)
    ensures Failing(log, []) == []
  {
  }

  lemma FailingLast(log: seq<Event>, hostnames: seq<string>, name: string)
    ensures Failing(log, hostnames + [name]) == Failing(log, hostnames)
      + if Latest(log, name).Some? && Latest(log, name).value.resolved then [] else [name]
  {
    assert (hostnames + [name])[..|hostnames|] == hostnames;
  }

  lemma MergedEmpty(networks: seq<Network>, hosts: map<string, HostnameState>)
    ensures Merged(networks, hosts, []) == networks
  {
  }

  lemma MergedLast(networks: seq<Network>, hosts: map<string, HostnameState>, hostnames: seq<string>, name: string)
    ensures Merged(networks, hosts, hostnames + [name]) == Merged(networks, hosts, hostnames) + AddressesOf(hosts, name)
  {
    assert (hostnames + [name])[..|hostnames|] == hostnames;
  }

  lemma GoodMarks(c: Config, s: State)
    requires Good(c, s)
    ensures HostsMarked(s.cache.hosts)
  {
  }

  lemma GoodLatest(c: Config, s: State)
    requires Good(c, s)
    ensures forall name :: name in s.cache.hosts ==> Latest(s.log, name) == Some(s.cache.hosts[name])
  {
  }

  lemma GoodHosts(c: Config, s: State)
    requires Good(c, s)
    ensures HostsLatest(s.cache.hosts, s.log)
  {
  }

  /** An answer just given still stands. */
  lemma LastAnswerRight(c: Config, s: State)
    requires Good(c, s) && s.log != [] && s.log[|s.log| - 1].Answered?
    ensures s.log[|s.log| - 1].networks == Current(s.log, c.networks, c.hostnames)
  {
    var k := |s.log| - 1;
    assert AnswerRight(c, s.log, k);
    CurrentSkips(s.log[..k], s.log[k], c.networks, c.hostnames);
    assert s.log == s.log[..k] + [s.log[k]];
  }

  lemma {:induction false} CurrentSkips(log: seq<Event>, e: Event, networks: seq<Network>, hostnames: seq<string>)
    requires !e.Outcome?
    ensures Current(log + [e], networks, hostnames) == Current(log, networks, hostnames)
  {
    LatestSkips(log, e);
    if hostnames != [] { CurrentSkips(log, e, networks, hostnames[..|hostnames| - 1]); }
  }
}
