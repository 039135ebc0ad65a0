/** The single-use guard for request signatures (src/replay.rs), one call at a time, measured against an
    unbounded history of what it accepted. Instants are nanoseconds on the monotonic clock. */
module Replay {
  import opened Common

  type Instant = nat
  type Byte = b: int | 0 <= b < 0x100

  /** Raw digest bytes, together with the key that signed. */
  datatype SignatureId = SignatureId(keyId: nat, digest: seq<Byte>)

  const SECOND := 1_000_000_000
  const PRUNE_INTERVAL_DIVISOR := 4
  const CAPACITY_BACKOFF_DIVISOR := 16
  const MAX_TRACKED_SIGNATURES := 100_000

  function Clamp(x: int, low: int, high: int): int { if x < low then low else if x > high then high else x }

  datatype Acceptance = Acceptance(id: SignatureId, at: Instant)

  /** The ideal guard: remembers everything, forgets nothing. */
  ghost predicate UsedWithin(history: seq<Acceptance>, id: SignatureId, now: Instant, window: nat) {
    exists h :: h in history && h.id == id && now < h.at + window
  }

  /** `retain(|_, expires_at| expires_at > now)`. */
  function Live(seen: map<SignatureId, Instant>, now: Instant): map<SignatureId, Instant> {
    map s | s in seen && seen[s] > now :: seen[s]
  }

  /** The map is the live part of the history, plus leftovers no sweep has reached. */
  ghost predicate Remembers(seen: map<SignatureId, Instant>, history: seq<Acceptance>, clock: Instant, window: nat) {
    && (forall h :: h in history ==> h.at <= clock)
    && (forall h :: h in history && clock < h.at + window ==> h.id in seen && seen[h.id] >= h.at + window)
    && (forall s :: s in seen ==> Justified(s, seen[s], history, window))
  }

  /** An entry stands for an acceptance one window before it expires. */
  ghost predicate Justified(s: SignatureId, expires: Instant, history: seq<Acceptance>, window: nat) {
    exists h :: h in history && h.id == s && expires == h.at + window
  }

  lemma SweepForgetsOnlyExpired(seen: map<SignatureId, Instant>, history: seq<Acceptance>, clock: Instant,
                                window: nat, now: Instant)
    requires Remembers(seen, history, clock, window) && now >= clock
    ensures Remembers(seen, history, now, window)
    ensures Remembers(Live(seen, now), history, now, window)
  {
  }

  /** The map answers as the history does. */
  lemma MapAnswers(seen: map<SignatureId, Instant>, history: seq<Acceptance>, now: Instant, window: nat,
                   id: SignatureId)
    requires Remembers(seen, history, now, window)
    ensures UsedWithin(history, id, now, window) <==> id in seen && seen[id] > now
  {
    if id in seen && seen[id] > now { assert Justified(id, seen[id], history, window); }
  }

  lemma RecordRemembers(seen: map<SignatureId, Instant>, history: seq<Acceptance>, now: Instant, window: nat,
                        id: SignatureId)
    requires Remembers(seen, history, now, window)
    ensures Remembers(seen[id := now + window], history + [Acceptance(id, now)], now, window)
  {
    var after, table := history + [Acceptance(id, now)], seen[id := now + window];
    forall s | s in table
      ensures Justified(s, table[s], after, window)
    {
      if s == id {
        assert Acceptance(id, now) in after;
      } else {
        var h :| h in history && h.id == s && seen[s] == h.at + window;
        assert h in after;
      }
    }
  }

  /** n intervals fit in a span. */
  ghost predicate Fit(n: nat, interval: nat, span: int) { n * interval <= span }

  lemma FitOneMore(n: nat, interval: nat, before: int, after: int)
    requires Fit(n, interval, before) && before + interval <= after
    ensures Fit(n + 1, interval, after)
  {
  }

  lemma FitLonger(n: nat, interval: nat, before: int, after: int)
    requires Fit(n, interval, before) && before <= after
    ensures Fit(n, interval, after)
  {
  }

  lemma FitCount(n: nat, interval: nat, span: int)
    requires interval > 0 && Fit(n, interval, span)
    ensures n <= span / interval
  {
    var q := span / interval;
    assert span < q * interval + interval;
    assert (q + 1) * interval == q * interval + interval;
    FactorLess(q + 1, n, interval);
  }

  lemma FitCountLate(n: nat, interval: nat, span: nat)
    requires interval > 0 && Fit(n, interval, span + interval)
    ensures n <= span / interval + 1
  {
    var q := span / interval;
    assert span < q * interval + interval;
    assert (q + 2) * interval == q * interval + interval + interval;
    FactorLess(q + 2, n, interval);
  }

  /** What the guard keeps between calls. */
  datatype Memory = Memory(seen: map<SignatureId, Instant>, next: Instant, nextCapacity: Instant)

  /** `prune_if_due`. */
  function Pruned(m: Memory, window: nat, now: Instant): Memory {
    var capacityDue := |m.seen| >= MAX_TRACKED_SIGNATURES && now >= m.nextCapacity;
    if now < m.next && !capacityDue then m
    else Memory(Live(m.seen, now), now + window / PRUNE_INTERVAL_DIVISOR,
                if capacityDue then now + window / CAPACITY_BACKOFF_DIVISOR else m.nextCapacity)
  }

  lemma PruneSweeps(m: Memory, window: nat, now: Instant)
    ensures var kept := Pruned(m, window, now).seen; m.seen - (m.seen.Keys - kept.Keys) == kept
  {
  }

  class ReplayGuard {
    var seen: map<SignatureId, Instant>
    var next: Instant
    var nextCapacity: Instant
    const window: nat
    const pruneInterval: nat
    const capacityBackoff: nat

    // What really happened, for comparison.
    ghost var history: seq<Acceptance>
    ghost const start: Instant
    ghost var clock: Instant
    ghost var lastSweep: Instant
    ghost var routineSweeps: nat
    ghost var capacitySweeps: nat

    function Kept(): Memory
      reads this
    {
      Memory(seen, next, nextCapacity)
    }

    ghost predicate Durations() {
      && SECOND <= window <= 3600 * SECOND
      && pruneInterval == window / PRUNE_INTERVAL_DIVISOR
      && capacityBackoff == window / CAPACITY_BACKOFF_DIVISOR
    }

    /** Each sweep has pushed its own schedule ahead by a full interval. */
    ghost predicate Paced()
      reads this
    {
      && start <= lastSweep <= clock && next == lastSweep + pruneInterval
      && start <= nextCapacity <= clock + capacityBackoff
      && Fit(routineSweeps, pruneInterval, lastSweep - start)
      && Fit(capacitySweeps, capacityBackoff, nextCapacity - start)
      && (forall s :: s in seen ==> seen[s] > lastSweep)
    }

    ghost predicate Valid()
      reads this
    {
      Durations() && Remembers(seen, history, clock, window) && Paced()
    }

    constructor (windowSeconds: int, now: Instant)
      ensures Valid() && history == [] && start == clock == now
      ensures Kept() == Memory(map[], now + window / 4, now)
      ensures 1 <= windowSeconds <= 3600 ==> window == windowSeconds * SECOND
      ensures windowSeconds < 1 ==> window == SECOND
      ensures windowSeconds > 3600 ==> window == 3600 * SECOND
      ensures routineSweeps == capacitySweeps == 0
    {
      window := Clamp(windowSeconds, 1, 3600) * SECOND;
      pruneInterval := Clamp(windowSeconds, 1, 3600) * SECOND / PRUNE_INTERVAL_DIVISOR;
      capacityBackoff := Clamp(windowSeconds, 1, 3600) * SECOND / CAPACITY_BACKOFF_DIVISOR;
      seen := map[];
      next := now + Clamp(windowSeconds, 1, 3600) * SECOND / PRUNE_INTERVAL_DIVISOR;
      nextCapacity := now;
      history, start, clock, lastSweep := [], now, now, now;
      routineSweeps, capacitySweeps := 0, 0;
    }

    /** The guard the service runs with. */
    static method Default(now: Instant) returns (g: ReplayGuard)
      ensures fresh(g) && g.Valid() && g.history == [] && g.start == g.clock == now
      ensures g.window == 300 * SECOND && g.Kept() == Memory(map[], now + 75 * SECOND, now)
      ensures g.routineSweeps == g.capacitySweeps == 0
    {
      g := new ReplayGuard(MAX_TIMESTAMP_SKEW_SECS, now);
    }

    /** Sweeps when a routine or a capacity sweep is due. Only expired entries are forgotten. */
    method PruneIfDue(now: Instant)
      requires Valid() && now >= clock
      modifies this
      ensures Valid() && clock == now && history == old(history) && now < next
      ensures Kept() == Pruned(old(Kept()), window, now)
    {
      hide Fit, Durations, Remembers, Live;
      var overCapacity := |seen| >= MAX_TRACKED_SIGNATURES;
      var routineDue := now >= next;
      var capacityDue := overCapacity && now >= nextCapacity;
      if routineDue || capacityDue {
        Sweep(now, routineDue, capacityDue);
      } else {
        SweepForgetsOnlyExpired(seen, history, clock, window, now);
        clock := now;
      }
      IntervalsAre();
    }

    /** The schedule moves on and the expired entries go. */
    method Sweep(now: Instant, routineDue: bool, capacityDue: bool)
      requires Valid() && now >= clock && (routineDue || capacityDue)
      requires (routineDue <==> now >= next) && (capacityDue ==> now >= nextCapacity)
      modifies this
      ensures Valid() && clock == now && history == old(history) && now < next
      ensures Kept() == Memory(Live(old(seen), now), now + pruneInterval,
                               if capacityDue then now + capacityBackoff else old(nextCapacity))
    {
      hide Fit, Durations, Remembers;
      SweepForgetsOnlyExpired(seen, history, clock, window, now);
      DurationsPositive();
      clock := now;
      FitLonger(routineSweeps, pruneInterval, lastSweep - start, now - start);
      if routineDue {
        FitOneMore(routineSweeps, pruneInterval, lastSweep - start, now - start);
        routineSweeps := routineSweeps + 1;
      }
      if capacityDue {
        FitLonger(capacitySweeps, capacityBackoff, nextCapacity - start, now + capacityBackoff - start);
        if !routineDue {
          FitOneMore(capacitySweeps, capacityBackoff, nextCapacity - start, now + capacityBackoff - start);
          capacitySweeps := capacitySweeps + 1;
        }
        nextCapacity := now + capacityBackoff;
      }
      lastSweep := now;
      next := now + pruneInterval;
      seen := Live(seen, now);
    }

    /** First use, or not. The answer is the ideal guard's, whatever was swept and however full the map
        is; a call leaves no entry accepted a window and a quarter ago. */
    method CheckAndRecord(id: SignatureId, now: Instant) returns (first: bool)
      requires Valid() && now >= clock
      modifies this
      ensures Valid() && clock == now
      ensures first <==> !UsedWithin(old(history), id, now, window)
      ensures first <==> forall h :: h in old(history) && h.id == id ==> h.at + window <= now
      ensures history == if first then old(history) + [Acceptance(id, now)] else old(history)
      ensures forall s :: s in seen ==> exists h :: h in history && h.id == s && h.at > now - window - window / 4
      ensures var pruned := Pruned(old(Kept()), window, now);
        && (first <==> !(id in pruned.seen && pruned.seen[id] > now))
        && Kept() == if first then pruned.(seen := pruned.seen[id := now + window]) else pruned
    {
      hide Fit, Durations, Remembers;
      PruneIfDue(now);
      MapAnswers(seen, history, now, window, id);
      DurationsPositive();
      if id in seen && seen[id] > now {
        EntriesAreRecent();
        return false;
      }
      RecordRemembers(seen, history, now, window, id);
      seen := seen[id := now + window];
      history := history + [Acceptance(id, now)];
      EntriesAreRecent();
      return true;
    }

    /** What was accepted at t stands in the map, unexpired, for every call before t + 300 seconds, whatever
        calls and sweeps came between. */
    lemma AcceptedIsRemembered(id: SignatureId, t: Instant, now: Instant)
      requires Valid() && window == 300 * SECOND && Acceptance(id, t) in history
      requires clock <= now < t + 300 * SECOND
      ensures id in seen && seen[id] > now
    {
      hide Fit;
      assert clock < t + window;
    }

    lemma IntervalsAre()
      requires Durations()
      ensures pruneInterval == window / PRUNE_INTERVAL_DIVISOR && capacityBackoff == window / CAPACITY_BACKOFF_DIVISOR
    {
    }

    lemma DurationsPositive()
      requires Durations()
      ensures window > 0 && pruneInterval > 0 && capacityBackoff > 0 && pruneInterval == window / 4 < window
    {
    }

    lemma EntriesAreRecent()
      requires Valid() && clock < next
      ensures forall s :: s in seen ==> exists h :: h in history && h.id == s && h.at > clock - window - window / 4
    {
      hide Fit;
      forall s | s in seen
        ensures exists h :: h in history && h.id == s && h.at > clock - window - window / 4
      {
        assert Justified(s, seen[s], history, window);
        var h :| h in history && h.id == s && seen[s] == h.at + window;
      }
    }

    /** Sweeps are amortised: at most one per quarter window, and one more per sixteenth while full. */
    lemma SweepsAreAmortised()
      requires Valid()
      ensures var elapsed := clock - start;
        routineSweeps + capacitySweeps <= elapsed / (window / 4) + elapsed / (window / 16) + 1
    {
      hide Fit, Remembers, Durations;
      DurationsPositive();
      DurationsPositive16();
      var elapsed := clock - start;
      FitLonger(routineSweeps, pruneInterval, lastSweep - start, elapsed);
      FitCount(routineSweeps, pruneInterval, elapsed);
      FitLonger(capacitySweeps, capacityBackoff, nextCapacity - start, elapsed + capacityBackoff);
      FitCountLate(capacitySweeps, capacityBackoff, elapsed);
    }

    lemma DurationsPositive16()
      requires Durations()
      ensures capacityBackoff == window / 16 > 0
    {
    }
  }
}
