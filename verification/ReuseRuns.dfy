/** Runs of the threaded guard (src/replay.rs) that let one signature in as often as lock delays allow: each use
    enters early, and a sweep by another key's call, with a later clock value, goes ahead of its decision.
    Such sweeps are due a quarter window apart; CrowdedRuns has runs in which they are due at any time. */
module ReuseRuns {
  import opened Common
  import opened Replay
  import opened ReplayThreads
  import opened ReplaySweeps

  const WINDOW := MAX_TIMESTAMP_SKEW_SECS * SECOND
  const QUARTER := 75 * SECOND

  /** The clock value use k captures: `from` first, d after that, then every e. */
  function Captured(from: Instant, d: nat, e: nat, k: nat): (t: Instant)
    ensures t >= from && (k > 0 ==> t >= from + d)
  {
    if k == 0 then from else if k == 1 then from + d else Captured(from, d, e, k - 1) + e
  }

  /** When it is decided: every use but the first one waits as long. */
  function Decided(from: Instant, d: nat, e: nat, k: nat): Instant
    requires d <= WINDOW
  {
    if k == 0 then from else Captured(from, d, e, k) + WINDOW - d
  }

  function UsesLog(id: SignatureId, from: Instant, d: nat, e: nat, n: nat): seq<Decision>
    requires d <= WINDOW
  {
    seq(n, k requires 0 <= k => Decision(id, Captured(from, d, e, k), Decided(from, d, e, k), true))
  }

  // ---------- Quiet runs ----------

  ghost predicate Quiet(s: System, t: System) { exists events :: Uncrowded(s, events) && Run(s, events) == t }

  lemma {:induction false} UncrowdedAppends(s: System, a: seq<Event>, e: Event)
    requires Uncrowded(s, a) && |Step(Run(s, a), e).seen| < MAX_TRACKED_SIGNATURES
    ensures Uncrowded(s, a + [e]) && Run(s, a + [e]) == Step(Run(s, a), e)
    decreases |a|
  {
    hide Step;
    if a == [] {
      assert [] + [e] == [e] && [e][1..] == [];
      assert Uncrowded(Step(s, e), []) && Run(Step(s, e), []) == Step(s, e);
    } else {
      assert (a + [e])[1..] == a[1..] + [e];
      UncrowdedAppends(Step(s, a[0]), a[1..], e);
    }
  }

  lemma QuietStart(s: System)
    requires s.seen == map[]
    ensures Quiet(s, s)
  {
    assert Uncrowded(s, []) && Run(s, []) == s;
  }

  lemma QuietStep(s: System, t: System, e: Event)
    requires Quiet(s, t) && |Step(t, e).seen| < MAX_TRACKED_SIGNATURES
    ensures Quiet(s, Step(t, e))
  {
    var events :| Uncrowded(s, events) && Run(s, events) == t;
    UncrowdedAppends(s, events, e);
  }

  // ---------- Between two decisions ----------

  /** Thread 3k serves use k, thread 3k + 1 the sweep before it. Uses k up to m have entered. */
  ghost predicate InFlight(threads: map<nat, Phase>, id: SignatureId, from: Instant, d: nat, e: nat, k: nat, m: nat) {
    && (forall j: nat :: k <= j < m ==> 3 * j in threads && threads[3 * j] == Entered(id, Captured(from, d, e, j)))
    && (forall j: nat :: j >= m ==> 3 * j !in threads)
    && (forall j: nat :: j >= k ==> 3 * j + 1 !in threads)
  }

  /** Threads 3k + 2 stand as they did. */
  ghost predicate OthersStand(before: map<nat, Phase>, after: map<nat, Phase>) {
    forall j: nat :: 3 * j + 2 in before ==> 3 * j + 2 in after && after[3 * j + 2] == before[3 * j + 2]
  }

  /** The state after k uses, from a state whose clock is where the uses start. */
  ghost predicate After(origin: System, s: System, id: SignatureId, d: nat, e: nat, k: nat, m: nat)
    requires d <= WINDOW
  {
    && k > 0 && m >= k && s.window == WINDOW
    && s.seen == map[id := Captured(origin.clock, d, e, k - 1) + WINDOW]
    && s.log == origin.log + UsesLog(id, origin.clock, d, e, k)
    && InFlight(s.threads, id, origin.clock, d, e, k, m)
  }

  /** And every use up to the n-th whose turn it was has entered. */
  ghost predicate InTime(s: System, from: Instant, d: nat, e: nat, k: nat, m: nat, n: nat)
    requires d <= WINDOW
  {
    m <= n && s.clock <= Decided(from, d, e, k) && (m < n ==> s.clock <= Captured(from, d, e, m))
  }

  lemma {:induction false} CapturedGrows(from: Instant, d: nat, e: nat, i: nat, j: nat)
    requires i <= j && d <= e
    ensures Captured(from, d, e, i) <= Captured(from, d, e, j)
    decreases j
  {
    if i < j { CapturedGrows(from, d, e, i, j - 1); }
  }

  /** Time passes up to `to`, and every use whose turn it is enters. */
  lemma {:induction false} Advances(origin: System, s: System, id: SignatureId, from: Instant, d: nat, e: nat, k: nat,
                                    m: nat, to: Instant, n: nat)
    returns (t: System, m2: nat)
    requires d <= e && d <= WINDOW && m <= n
    requires Quiet(origin, s) && InFlight(s.threads, id, from, d, e, k, m) && k <= m && |s.seen| <= 1
    requires s.clock <= to && (m < n ==> s.clock <= Captured(from, d, e, m))
    ensures Quiet(origin, t) && m <= m2 <= n && InFlight(t.threads, id, from, d, e, k, m2)
    ensures t == s.(clock := to, threads := t.threads) && OthersStand(s.threads, t.threads)
    ensures m2 < n ==> to < Captured(from, d, e, m2)
    decreases n - m
  {
    hide Quiet, Captured, Decided, UsesLog;
    if m < n && Captured(from, d, e, m) <= to {
      QuietStep(origin, s, Tick(Captured(from, d, e, m) - s.clock));
      var s1 := s.(clock := Captured(from, d, e, m));
      assert Step(s, Tick(Captured(from, d, e, m) - s.clock)) == s1;
      QuietStep(origin, s1, Enter(3 * m, id));
      var s2 := s1.(threads := s1.threads[3 * m := Entered(id, Captured(from, d, e, m))]);
      assert Step(s1, Enter(3 * m, id)) == s2;
      CapturedGrows(from, d, e, m, m + 1);
      EnterIsInFlight(s1.threads, id, from, d, e, k, m);
      hide InFlight, OthersStand;
      t, m2 := Advances(origin, s2, id, from, d, e, k, m + 1, to, n);
      OthersStandOn(s.threads, s2.threads, t.threads);
    } else {
      QuietStep(origin, s, Tick(to - s.clock));
      t, m2 := s.(clock := to), m;
      assert Step(s, Tick(to - s.clock)) == t;
    }
  }

  lemma OthersStandOn(a: map<nat, Phase>, b: map<nat, Phase>, c: map<nat, Phase>)
    requires OthersStand(a, b) && OthersStand(b, c)
    ensures OthersStand(a, c)
  {
  }

  lemma EnterIsInFlight(threads: map<nat, Phase>, id: SignatureId, from: Instant, d: nat, e: nat, k: nat, m: nat)
    requires InFlight(threads, id, from, d, e, k, m) && m >= k
    ensures InFlight(threads[3 * m := Entered(id, Captured(from, d, e, m))], id, from, d, e, k, m + 1)
    ensures OthersStand(threads, threads[3 * m := Entered(id, Captured(from, d, e, m))])
  {
    hide Captured;
  }

  // ---------- One more use ----------

  /** Another key's call enters now, finds a sweep due and makes it. */
  lemma Sweeps(origin: System, s: System, t: nat, id: SignatureId) returns (n: System)
    requires Quiet(origin, s) && t !in s.threads && |s.seen| <= 1 && s.clock >= s.next && s.window == WINDOW
    requires forall x :: x in s.seen ==> s.seen[x] <= s.clock
    ensures Quiet(origin, n)
    ensures n == s.(seen := map[], next := s.clock + QUARTER, threads := s.threads[t := Deciding(id, s.clock)])
  {
    hide Quiet;
    QuietStep(origin, s, Enter(t, id));
    var s1 := s.(threads := s.threads[t := Entered(id, s.clock)]);
    QuietStep(origin, s1, Measure(t));
    var s2 := s.(threads := s.threads[t := Measured(id, s.clock, false)]);
    assert Step(s1, Measure(t)) == s2;
    QuietStep(origin, s2, Schedule(t));
    var s3 := s.(next := s.clock + QUARTER, threads := s.threads[t := SweepDue(id, s.clock)]);
    assert Step(s2, Schedule(t)) == s3;
    assert Live(s3.seen, s.clock) == map[];
    QuietStep(origin, s3, Retain(t));
    n := Step(s3, Retain(t));
    assert n.threads == s.threads[t := Deciding(id, s.clock)];
  }

  /** A call that entered earlier finds no sweep due and the map empty. */
  lemma Accepts(origin: System, s: System, t: nat, id: SignatureId, now: Instant) returns (n: System)
    requires Quiet(origin, s) && t in s.threads && s.threads[t] == Entered(id, now) && s.seen == map[]
    requires now < s.next && s.window == WINDOW
    ensures Quiet(origin, n)
    ensures n == s.(seen := map[id := now + WINDOW], threads := s.threads[t := Idle],
                    log := s.log + [Decision(id, now, s.clock, true)])
  {
    hide Quiet;
    QuietStep(origin, s, Measure(t));
    var s1 := s.(threads := s.threads[t := Measured(id, now, false)]);
    QuietStep(origin, s1, Schedule(t));
    var s2 := s.(threads := s.threads[t := Deciding(id, now)]);
    assert Step(s1, Schedule(t)) == s2;
    n := s.(seen := map[id := now + WINDOW], threads := s.threads[t := Idle],
            log := s.log + [Decision(id, now, s.clock, true)]);
    assert Step(s2, Decide(t)) == n by { assert s2.seen[id := now + WINDOW] == map[id := now + WINDOW]; }
    QuietStep(origin, s2, Decide(t));
  }

  lemma SweepsThenAccepts(origin: System, s: System, t: nat, id: SignatureId, other: SignatureId, now: Instant)
    returns (n: System)
    requires Quiet(origin, s) && |s.seen| <= 1 && s.next <= s.clock && now <= s.clock && s.window == WINDOW
    requires t in s.threads && s.threads[t] == Entered(id, now) && t + 1 !in s.threads
    requires forall x :: x in s.seen ==> s.seen[x] <= s.clock
    ensures Quiet(origin, n)
    ensures n == s.(seen := map[id := now + WINDOW], next := s.clock + QUARTER,
                    threads := s.threads[t + 1 := Deciding(other, s.clock)][t := Idle],
                    log := s.log + [Decision(id, now, s.clock, true)])
  {
    hide Quiet;
    var s1 := Sweeps(origin, s, t + 1, other);
    n := Accepts(origin, s1, t, id, now);
  }

  lemma UsesLogLast(id: SignatureId, from: Instant, d: nat, e: nat, k: nat)
    requires d <= WINDOW
    ensures UsesLog(id, from, d, e, k + 1)
         == UsesLog(id, from, d, e, k) + [Decision(id, Captured(from, d, e, k), Decided(from, d, e, k), true)]
  {
  }

  /** Where the uses can start: an empty map, no sweep due, the threads of the uses unused. */
  ghost predicate Ready(s: System) {
    && s.window == WINDOW && s.seen == map[] && s.clock < s.next
    && (forall j: nat :: 3 * j !in s.threads) && (forall j: nat :: j > 0 ==> 3 * j + 1 !in s.threads)
  }

  lemma FirstUse(origin: System, id: SignatureId, d: nat, e: nat, n: nat) returns (s: System)
    requires Ready(origin) && d <= WINDOW && n > 0
    ensures Quiet(origin, s) && After(origin, s, id, d, e, 1, 1) && InTime(s, origin.clock, d, e, 1, 1, n)
    ensures s.next == origin.next && s.nextCapacity == origin.nextCapacity && s.clock == origin.clock
    ensures OthersStand(origin.threads, s.threads)
  {
    QuietStart(origin);
    hide Quiet;
    QuietStep(origin, origin, Enter(0, id));
    var s1 := origin.(threads := origin.threads[3 * 0 := Entered(id, origin.clock)]);
    s := Accepts(origin, s1, 0, id, origin.clock);
    assert s.threads == origin.threads[3 * 0 := Idle];
  }

  /** At the moment of use k: sweep, then decide. */
  lemma UseNow(origin: System, id: SignatureId, other: SignatureId, d: nat, e: nat, k: nat, m: nat, s: System)
    returns (t: System)
    requires d <= e && d <= WINDOW && k < m
    requires Quiet(origin, s) && After(origin, s, id, d, e, k, m)
    requires s.next <= s.clock == Decided(origin.clock, d, e, k)
    ensures Quiet(origin, t) && After(origin, t, id, d, e, k + 1, m) && t.clock == s.clock
    ensures t.next == s.clock + QUARTER && t.nextCapacity == s.nextCapacity && OthersStand(s.threads, t.threads)
  {
    Moments(origin.clock, d, e, k);
    hide Quiet, Captured, Decided, UsesLog;
    t := SweepsThenAccepts(origin, s, 3 * k, id, other, Captured(origin.clock, d, e, k));
    StillInFlight(s.threads, id, origin.clock, d, e, k, m, Deciding(other, s.clock));
    hide InFlight, OthersStand;
    UsesLogLast(id, origin.clock, d, e, k);
  }

  /** From k uses to the next: wait for its moment, sweep, decide. */
  lemma NextUse(origin: System, id: SignatureId, other: SignatureId, d: nat, e: nat, k: nat, m: nat, n: nat, s: System)
    returns (t: System, m2: nat)
    requires d <= e && d <= WINDOW && k < n
    requires Quiet(origin, s) && After(origin, s, id, d, e, k, m) && InTime(s, origin.clock, d, e, k, m, n)
    requires s.next <= Decided(origin.clock, d, e, k)
    ensures Quiet(origin, t) && After(origin, t, id, d, e, k + 1, m2) && InTime(t, origin.clock, d, e, k + 1, m2, n)
    ensures t.next == Decided(origin.clock, d, e, k) + QUARTER && t.nextCapacity == s.nextCapacity
    ensures OthersStand(s.threads, t.threads)
  {
    var at := Decided(origin.clock, d, e, k);
    Moments(origin.clock, d, e, k);
    hide Quiet, Captured, Decided, UsesLog, InFlight, OthersStand;
    var s1;
    s1, m2 := Advances(origin, s, id, origin.clock, d, e, k, m, at, n);
    if m2 <= k { CapturedGrows(origin.clock, d, e, m2, k); }
    t := UseNow(origin, id, other, d, e, k, m2, s1);
    OthersStandOn(s.threads, s1.threads, t.threads);
  }

  lemma Moments(from: Instant, d: nat, e: nat, k: nat)
    requires d <= e && d <= WINDOW && k > 0
    ensures var at := Decided(from, d, e, k);
      Captured(from, d, e, k) <= at <= Decided(from, d, e, k + 1) && Captured(from, d, e, k - 1) + WINDOW <= at
  {
    CapturedGrows(from, d, e, k, k + 1);
  }

  lemma StillInFlight(threads: map<nat, Phase>, id: SignatureId, from: Instant, d: nat, e: nat, k: nat, m: nat,
                         p: Phase)
    requires InFlight(threads, id, from, d, e, k, m) && m > k
    ensures InFlight(threads[3 * k + 1 := p][3 * k := Idle], id, from, d, e, k + 1, m)
    ensures OthersStand(threads, threads[3 * k + 1 := p][3 * k := Idle])
  {
    hide Captured;
  }

  /** Another key with the same digest. */
  function Other(id: SignatureId): SignatureId { SignatureId(id.keyId + 1, id.digest) }

  // ---------- Sweeps in turn ----------

  lemma {:induction false} ReachesUses(id: SignatureId, d: nat, e: nat, k: nat, n: nat) returns (s: System, m: nat)
    requires 0 < d <= e && d <= WINDOW && QUARTER <= e && 0 < k <= n
    ensures var origin := Start(WINDOW, 0);
      Quiet(origin, s) && After(origin, s, id, d, e, k, m) && InTime(s, 0, d, e, k, m, n)
      && s.next <= Decided(0, d, e, k)
  {
    var origin := Start(WINDOW, 0);
    hide Quiet, After, InTime;
    if k == 1 {
      s := FirstUse(origin, id, d, e, n);
      m := 1;
    } else {
      s, m := ReachesUses(id, d, e, k - 1, n);
      s, m := NextUse(origin, id, Other(id), d, e, k - 1, m, n, s);
    }
  }

  /** The guard can be driven to n uses without ever filling its map, each captured e after the one before (d
      after the first) and decided when its predecessor's window is over or later. */
  lemma UsesAreReached(id: SignatureId, d: nat, e: nat, n: nat) returns (events: seq<Event>)
    requires 0 < d <= e && d <= WINDOW && QUARTER <= e && n > 0
    ensures Uncrowded(Start(WINDOW, 0), events) && Run(Start(WINDOW, 0), events).log == UsesLog(id, 0, d, e, n)
  {
    var s, m := ReachesUses(id, d, e, n, n);
    events :| Uncrowded(Start(WINDOW, 0), events) && Run(Start(WINDOW, 0), events) == s;
  }
}
