/** Runs of the threaded guard (src/replay.rs) whose map was full once. Calls that measured it then, and have
    waited since, count as sweeping out of turn: each sets the schedule back to its own clock value, so that
    the next fresh call finds a sweep due. */
module CrowdedRuns {
  import opened Replay
  import opened ReplayThreads
  import opened ReplaySweeps
  import opened ReuseRuns

  const BACKOFF := WINDOW / CAPACITY_BACKOFF_DIVISOR

  /** The clock value the j-th stale call holds. */
  function StaleSince(j: nat): Instant { (j + 1) * WINDOW }

  /** Calls k up to n, long in flight, measured a full map. */
  ghost predicate Primed(threads: map<nat, Phase>, other: SignatureId, k: nat, n: nat) {
    forall j: nat :: k <= j < n ==>
      3 * j + 2 in threads && threads[3 * j + 2] == Measured(other, StaleSince(j), true)
  }

  /** As many entries of other keys, accepted at 0. */
  ghost function Crowd(id: SignatureId, size: nat): (seen: map<SignatureId, Instant>)
    ensures |seen| == size
    ensures forall x :: x in seen ==> id.keyId < x.keyId <= id.keyId + size && seen[x] == WINDOW
  {
    if size == 0 then map[] else Crowd(id, size - 1)[SignatureId(id.keyId + size, id.digest) := WINDOW]
  }

  ghost predicate Free(log: seq<Decision>, id: SignatureId) { forall i :: 0 <= i < |log| ==> log[i].id != id }

  lemma ReachesStep(s: System, t: System, e: Event)
    requires Reaches(s, t)
    ensures Reaches(s, Step(t, e))
  {
    hide Reaches, Step;
    assert [e][1..] == [] && Run(t, [e]) == Run(Step(t, e), []);
    var _ := ReachesMore(s, t, [e]);
  }

  ghost predicate Crowded(s: System, id: SignatureId, size: nat) {
    && s == System(WINDOW, 0, Crowd(id, size), QUARTER, 0, s.threads, s.log) && Free(s.log, id)
    && s.threads.Keys <= {2} && PhaseOf(s, 2) == Idle
  }

  /** Call after call by other keys, all at the start. */
  lemma {:induction false} Crowds(id: SignatureId, size: nat) returns (s: System)
    requires size <= MAX_TRACKED_SIGNATURES
    ensures Reaches(Start(WINDOW, 0), s) && Crowded(s, id, size)
  {
    var origin := Start(WINDOW, 0);
    if size == 0 {
      s := origin;
      assert Run(origin, []) == s;
    } else {
      var s0 := Crowds(id, size - 1);
      s := CrowdsByOne(s0, id, size - 1);
    }
  }

  /** A call that finds no sweep due and its signature new. */
  lemma Passes(origin: System, s: System, t: nat, x: SignatureId) returns (n: System)
    requires Reaches(origin, s) && PhaseOf(s, t) == Idle && x !in s.seen
    requires |s.seen| < MAX_TRACKED_SIGNATURES && s.clock < s.next
    ensures Reaches(origin, n)
    ensures n == s.(seen := s.seen[x := s.clock + s.window], threads := s.threads[t := Idle],
                    log := s.log + [Decision(x, s.clock, s.clock, true)])
  {
    hide Reaches;
    ReachesStep(origin, s, Enter(t, x));
    var s1 := s.(threads := s.threads[t := Entered(x, s.clock)]);
    ReachesStep(origin, s1, Measure(t));
    var s2 := s.(threads := s.threads[t := Measured(x, s.clock, false)]);
    assert Step(s1, Measure(t)) == s2 by { assert s1.threads[t := s2.threads[t]] == s2.threads; }
    ReachesStep(origin, s2, Schedule(t));
    var s3 := s.(threads := s.threads[t := Deciding(x, s.clock)]);
    assert Step(s2, Schedule(t)) == s3 by { assert s2.threads[t := s3.threads[t]] == s3.threads; }
    ReachesStep(origin, s3, Decide(t));
    n := Step(s3, Decide(t));
    assert n.threads == s.threads[t := Idle];
  }

  lemma CrowdsByOne(s0: System, id: SignatureId, size: nat) returns (s: System)
    requires Reaches(Start(WINDOW, 0), s0) && Crowded(s0, id, size) && size < MAX_TRACKED_SIGNATURES
    ensures Reaches(Start(WINDOW, 0), s) && Crowded(s, id, size + 1)
  {
    hide Reaches, Crowd;
    s := Passes(Start(WINDOW, 0), s0, 2, SignatureId(id.keyId + size + 1, id.digest));
    CrowdByOne(id, size);
  }

  lemma CrowdByOne(id: SignatureId, size: nat)
    ensures Crowd(id, size + 1) == Crowd(id, size)[SignatureId(id.keyId + size + 1, id.digest) := WINDOW]
  {
  }

  /** The map as full as it was, calls up to j have measured it, and only thread 2 has done anything else. */
  ghost predicate Priming(s: System, id: SignatureId, j: nat) {
    && s == System(WINDOW, j * WINDOW, Crowd(id, MAX_TRACKED_SIGNATURES), QUARTER, 0, s.threads, s.log)
    && Free(s.log, id) && Primed(s.threads, Other(id), 0, j)
    && (forall t :: t in s.threads ==> t % 3 == 2 && (t == 2 || t < 3 * j + 2))
    && (j == 0 ==> PhaseOf(s, 2) == Idle)
  }

  lemma {:induction false} Primes(id: SignatureId, j: nat) returns (s: System)
    ensures Reaches(Start(WINDOW, 0), s) && Priming(s, id, j)
  {
    var origin := Start(WINDOW, 0);
    hide Reaches, Crowd;
    if j == 0 {
      s := Crowds(id, MAX_TRACKED_SIGNATURES);
    } else {
      var s0 := Primes(id, j - 1);
      s := PrimesOne(s0, id, j - 1);
    }
  }

  lemma PrimesOne(s0: System, id: SignatureId, j: nat) returns (s: System)
    requires Reaches(Start(WINDOW, 0), s0) && Priming(s0, id, j)
    ensures Reaches(Start(WINDOW, 0), s) && Priming(s, id, j + 1)
  {
    hide Reaches;
    var origin, t := Start(WINDOW, 0), 3 * j + 2;
    ReachesStep(origin, s0, Tick(WINDOW));
    var s1 := s0.(clock := StaleSince(j));
    assert Step(s0, Tick(WINDOW)) == s1;
    ReachesStep(origin, s1, Enter(t, Other(id)));
    var s2 := s1.(threads := s0.threads[t := Entered(Other(id), StaleSince(j))]);
    assert PhaseOf(s1, t) == Idle;
    assert Step(s1, Enter(t, Other(id))) == s2;
    ReachesStep(origin, s2, Measure(t));
    s := s1.(threads := s0.threads[t := Measured(Other(id), StaleSince(j), true)]);
    assert Step(s2, Measure(t)) == s by { assert s2.threads[t := s.threads[t]] == s.threads; }
  }

  lemma ReachesQuietly(s: System, t: System, u: System)
    requires Reaches(s, t) && Quiet(t, u)
    ensures Reaches(s, u)
  {
    var events :| Uncrowded(t, events) && Run(t, events) == u;
    hide Reaches, Run, Uncrowded;
    var _ := ReachesMore(s, t, events);
  }

  ghost predicate Waiting(s: System, id: SignatureId, k: nat, n: nat) {
    Primed(s.threads, Other(id), k, n) && s.nextCapacity <= StaleSince(k)
  }

  /** The first stale call empties the map. */
  lemma Empties(s0: System, id: SignatureId, n: nat) returns (s: System)
    requires Reaches(Start(WINDOW, 0), s0) && Priming(s0, id, n) && n > 0
    ensures Reaches(Start(WINDOW, 0), s)
    ensures s == System(WINDOW, (n + 1) * WINDOW, map[], WINDOW + QUARTER, WINDOW + BACKOFF,
                        s0.threads[2 := Deciding(Other(id), WINDOW)], s0.log)
  {
    hide Reaches;
    var origin := Start(WINDOW, 0);
    assert 3 * 0 + 2 in s0.threads && s0.threads[2] == Measured(Other(id), WINDOW, true);
    ReachesStep(origin, s0, Schedule(2));
    var s1 := s0.(next := WINDOW + QUARTER, nextCapacity := WINDOW + BACKOFF,
                  threads := s0.threads[2 := SweepDue(Other(id), WINDOW)]);
    assert Step(s0, Schedule(2)) == s1;
    ReachesStep(origin, s1, Retain(2));
    assert Live(s1.seen, WINDOW) == map[];
    var s2 := s1.(seen := map[], threads := s0.threads[2 := Deciding(Other(id), WINDOW)]);
    assert Step(s1, Retain(2)) == s2 by { assert s1.threads[2 := s2.threads[2]] == s2.threads; }
    ReachesStep(origin, s2, Tick(WINDOW));
    s := Step(s2, Tick(WINDOW));
  }

  /** Then a fresh call sweeps on the spot, and the uses can start. */
  lemma Clears(s0: System, id: SignatureId, n: nat) returns (s: System)
    requires Reaches(Start(WINDOW, 0), s0) && Priming(s0, id, n) && n > 0
    ensures Reaches(Start(WINDOW, 0), s) && Ready(s) && Waiting(s, id, 1, n) && Free(s.log, id)
    ensures s.clock == (n + 1) * WINDOW
  {
    hide Reaches, Quiet;
    var s1 := Empties(s0, id, n);
    assert Quiet(s1, s1) by { QuietStart(s1); }
    s := Sweeps(s1, s1, 1, Other(id));
    ReachesQuietly(Start(WINDOW, 0), s1, s);
  }

  /** A stale call takes its turn in the schedule, and puts the next sweep where its own clock value says. */
  lemma Rewinds(origin: System, s: System, t: nat, other: SignatureId, x: Instant) returns (n: System)
    requires Quiet(origin, s) && |s.seen| <= 1 && s.window == WINDOW && x >= s.nextCapacity
    requires t in s.threads && s.threads[t] == Measured(other, x, true)
    ensures Quiet(origin, n)
    ensures n == s.(next := x + QUARTER, nextCapacity := x + BACKOFF, threads := s.threads[t := SweepDue(other, x)])
  {
    hide Quiet;
    QuietStep(origin, s, Schedule(t));
    n := Step(s, Schedule(t));
  }

  lemma NextCrowdedUse(origin: System, id: SignatureId, d: nat, k: nat, m: nat, n: nat, s: System)
    returns (t: System, m2: nat)
    requires d <= WINDOW && 0 < k < n && origin.clock == (n + 1) * WINDOW
    requires Quiet(origin, s) && After(origin, s, id, d, d, k, m) && InTime(s, origin.clock, d, d, k, m, n)
    requires Waiting(s, id, k, n)
    ensures Quiet(origin, t) && After(origin, t, id, d, d, k + 1, m2) && InTime(t, origin.clock, d, d, k + 1, m2, n)
    ensures Waiting(t, id, k + 1, n)
  {
    hide Quiet, Captured, UsesLog;
    var s1 := Rewinds(origin, s, 3 * k + 2, Other(id), StaleSince(k));
    assert After(origin, s1, id, d, d, k, m);
    hide InFlight, After;
    assert s1.next <= Decided(origin.clock, d, d, k);
    t, m2 := NextUse(origin, id, Other(id), d, d, k, m, n, s1);
  }

  lemma {:induction false} ReachesCrowdedUses(origin: System, id: SignatureId, d: nat, k: nat, n: nat)
    returns (s: System, m: nat)
    requires Ready(origin) && Waiting(origin, id, 1, n) && origin.clock == (n + 1) * WINDOW
    requires d <= WINDOW && 0 < k <= n
    ensures Quiet(origin, s) && After(origin, s, id, d, d, k, m) && InTime(s, origin.clock, d, d, k, m, n)
    ensures Waiting(s, id, k, n)
  {
    hide Quiet, After, InTime, Ready;
    if k == 1 {
      s := FirstUse(origin, id, d, d, n);
      m := 1;
    } else {
      s, m := ReachesCrowdedUses(origin, id, d, k - 1, n);
      s, m := NextCrowdedUse(origin, id, d, k - 1, m, n, s);
    }
  }

  /** Where the map was full once, the guard can be driven to n uses captured as close as one likes, each
      decided when its predecessor's window is over. */
  lemma CrowdedUsesAreReached(id: SignatureId, d: nat, n: nat) returns (events: seq<Event>, before: seq<Decision>)
    requires d <= WINDOW && n > 0
    ensures Run(Start(WINDOW, 0), events).log == before + UsesLog(id, (n + 1) * WINDOW, d, d, n)
    ensures Free(before, id)
  {
    hide Quiet, Reaches, UsesLog, Ready, Waiting, InFlight;
    var s0 := Primes(id, n);
    var origin := Clears(s0, id, n);
    var s, _ := ReachesCrowdedUses(origin, id, d, n, n);
    ReachesQuietly(Start(WINDOW, 0), origin, s);
    before := origin.log;
    events := EventsTo(Start(WINDOW, 0), s);
  }
}
