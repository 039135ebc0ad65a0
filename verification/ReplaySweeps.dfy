/** When a threaded guard lets a signature in again before its window is over by its own clock (src/replay.rs):
    only after a sweep, and while the map is not full sweeps come a quarter window apart. */
module ReplaySweeps {
  import opened Replay
  import opened ReplayThreads

  /** A system and the clock values its sweeps were scheduled with. */
  datatype Traced = Traced(s: System, swept: set<Instant>)

  ghost function TraceStep(t: Traced, e: Event): Traced {
    var after := Step(t.s, e);
    Traced(after, if e.Schedule? && PhaseOf(t.s, e.thread).Measured? && PhaseOf(after, e.thread).SweepDue?
                  then t.swept + {PhaseOf(t.s, e.thread).now} else t.swept)
  }

  ghost function Trace(t: Traced, events: seq<Event>): Traced
    decreases |events|
  {
    if events == [] then t else Trace(TraceStep(t, events[0]), events[1..])
  }

  /** The map never holds as many signatures as make the guard sweep out of turn. */
  ghost predicate Uncrowded(s: System, events: seq<Event>)
    decreases |events|
  {
    |s.seen| < MAX_TRACKED_SIGNATURES && (events == [] || Uncrowded(Step(s, events[0]), events[1..]))
  }

  lemma {:induction false} TraceIsRun(t: Traced, events: seq<Event>)
    ensures Trace(t, events).s == Run(t.s, events)
    decreases |events|
  {
    hide Step;
    if events != [] { TraceIsRun(TraceStep(t, events[0]), events[1..]); }
  }

  // ---------- The invariant ----------

  ghost predicate Quarterly(swept: set<Instant>, next: Instant, interval: nat) {
    && (forall y :: y in swept ==> y + interval <= next)
    && (forall y, z :: y in swept && z in swept && y < z ==> y + interval <= z)
  }

  ghost predicate Calls(threads: map<nat, Phase>, swept: set<Instant>, clock: Instant) {
    && (forall t :: t in threads && !threads[t].Idle? ==> threads[t].now <= clock)
    && (forall t :: t in threads && threads[t].Measured? ==> !threads[t].overCapacity)
    && (forall t :: t in threads && threads[t].SweepDue? ==> threads[t].now in swept)
  }

  ghost predicate SweptBetween(swept: set<Instant>, low: Instant, high: Instant) {
    exists y :: y in swept && low <= y <= high
  }

  /** An acceptance is still in the map for its full window, or a sweep that late has come. */
  ghost predicate Excused(log: seq<Decision>, seen: map<SignatureId, Instant>, swept: set<Instant>, clock: Instant,
                          window: nat) {
    forall i :: 0 <= i < |log| && log[i].accepted ==>
      (log[i].id in seen && seen[log[i].id] >= log[i].now + window) || SweptBetween(swept, log[i].now + window, clock)
  }

  /** Of two acceptances, the second has a clock value a window on, or a sweep that late came between them. */
  ghost predicate Reopened(log: seq<Decision>, swept: set<Instant>, window: nat) {
    forall i, j :: 0 <= i < j < |log| && log[i].accepted && log[j].accepted && log[i].id == log[j].id ==>
      log[i].now + window <= log[j].now || SweptBetween(swept, log[i].now + window, log[j].at)
  }

  ghost predicate Tracked(t: Traced) {
    && Quarterly(t.swept, t.s.next, t.s.window / PRUNE_INTERVAL_DIVISOR)
    && Calls(t.s.threads, t.swept, t.s.clock)
    && Excused(t.s.log, t.s.seen, t.swept, t.s.clock, t.s.window)
    && Reopened(t.s.log, t.swept, t.s.window)
  }

  lemma LaterStillSwept(log: seq<Decision>, seen: map<SignatureId, Instant>, swept: set<Instant>, more: set<Instant>,
                        clock: Instant, later: Instant, window: nat)
    requires Excused(log, seen, swept, clock, window) && swept <= more && clock <= later
    ensures Excused(log, seen, more, later, window)
  {
    forall i | 0 <= i < |log| && log[i].accepted && SweptBetween(swept, log[i].now + window, clock)
      ensures SweptBetween(more, log[i].now + window, later)
    {
      var y :| y in swept && log[i].now + window <= y <= clock;
      assert y in more;
    }
  }

  lemma ReopenedStays(log: seq<Decision>, swept: set<Instant>, more: set<Instant>, window: nat)
    requires Reopened(log, swept, window) && swept <= more
    ensures Reopened(log, more, window)
  {
    forall i, j | 0 <= i < j < |log| && SweptBetween(swept, log[i].now + window, log[j].at)
      ensures SweptBetween(more, log[i].now + window, log[j].at)
    {
      var y :| y in swept && log[i].now + window <= y <= log[j].at;
      assert y in more;
    }
  }

  /** A retain drops only what a sweep excuses. */
  lemma RetainExcuses(log: seq<Decision>, seen: map<SignatureId, Instant>, swept: set<Instant>, clock: Instant,
                      window: nat, now: Instant)
    requires Excused(log, seen, swept, clock, window) && now in swept && now <= clock
    ensures Excused(log, Live(seen, now), swept, clock, window)
  {
    forall i | 0 <= i < |log| && log[i].accepted && log[i].id in seen && seen[log[i].id] >= log[i].now + window
               && log[i].id !in Live(seen, now)
      ensures SweptBetween(swept, log[i].now + window, clock)
    {
      assert now in swept && log[i].now + window <= now <= clock;
    }
  }

  lemma AcceptExcuses(log: seq<Decision>, seen: map<SignatureId, Instant>, swept: set<Instant>, clock: Instant,
                      window: nat, d: Decision)
    requires Excused(log, seen, swept, clock, window) && Reopened(log, swept, window)
    requires d.accepted && d.at == clock && !(d.id in seen && seen[d.id] > d.now)
    ensures Excused(log + [d], seen[d.id := d.now + window], swept, clock, window)
    ensures Reopened(log + [d], swept, window)
  {
    hide SweptBetween;
  }

  lemma RefusalExcuses(log: seq<Decision>, seen: map<SignatureId, Instant>, swept: set<Instant>, clock: Instant,
                       window: nat, d: Decision)
    requires Excused(log, seen, swept, clock, window) && Reopened(log, swept, window) && !d.accepted
    ensures Excused(log + [d], seen, swept, clock, window) && Reopened(log + [d], swept, window)
  {
    hide SweptBetween;
  }

  lemma DecideStaysTracked(t: Traced, thread: nat)
    requires Tracked(t)
    ensures Tracked(TraceStep(t, Decide(thread)))
  {
    var p := PhaseOf(t.s, thread);
    var s := t.s;
    hide Excused, Reopened;
    if p.Deciding? {
      if p.id in s.seen && s.seen[p.id] > p.now {
        RefusalExcuses(s.log, s.seen, t.swept, s.clock, s.window, Decision(p.id, p.now, s.clock, false));
      } else {
        AcceptExcuses(s.log, s.seen, t.swept, s.clock, s.window, Decision(p.id, p.now, s.clock, true));
      }
    }
  }

  lemma ScheduleStaysTracked(t: Traced, thread: nat)
    requires Tracked(t)
    ensures Tracked(TraceStep(t, Schedule(thread)))
  {
    var after := TraceStep(t, Schedule(thread));
    hide Excused, Reopened;
    LaterStillSwept(t.s.log, t.s.seen, t.swept, after.swept, t.s.clock, t.s.clock, t.s.window);
    ReopenedStays(t.s.log, t.swept, after.swept, t.s.window);
  }

  lemma StepStaysTracked(t: Traced, e: Event)
    requires Tracked(t) && |t.s.seen| < MAX_TRACKED_SIGNATURES
    ensures Tracked(TraceStep(t, e)) && TraceStep(t, e).s.window == t.s.window
  {
    hide Excused, Reopened, Quarterly;
    match e
    case Tick(elapsed) =>
      LaterStillSwept(t.s.log, t.s.seen, t.swept, t.swept, t.s.clock, t.s.clock + elapsed, t.s.window);
    case Enter(_, _) =>
    case Measure(_) =>
    case Schedule(thread) => ScheduleStaysTracked(t, thread);
    case Retain(thread) =>
      var p := PhaseOf(t.s, thread);
      if p.SweepDue? { RetainExcuses(t.s.log, t.s.seen, t.swept, t.s.clock, t.s.window, p.now); }
    case Decide(thread) => DecideStaysTracked(t, thread);
  }

  lemma {:induction false} TraceStaysTracked(t: Traced, events: seq<Event>)
    requires Tracked(t) && Uncrowded(t.s, events)
    ensures Tracked(Trace(t, events)) && Trace(t, events).s.window == t.s.window
    decreases |events|
  {
    hide Tracked, Step;
    if events != [] {
      StepStaysTracked(t, events[0]);
      TraceStaysTracked(TraceStep(t, events[0]), events[1..]);
    }
  }

  /** In a run that never fills the map, the sweeps are a quarter window apart, and one of them reopens every
      signature accepted again within its window. */
  lemma SweepsReopen(window: nat, clock: Instant, events: seq<Event>) returns (swept: set<Instant>)
    requires Uncrowded(Start(window, clock), events)
    ensures forall y, z :: y in swept && z in swept && y < z ==> y + window / PRUNE_INTERVAL_DIVISOR <= z
    ensures Reopened(Run(Start(window, clock), events).log, swept, window)
  {
    var t := Traced(Start(window, clock), {});
    TraceStaysTracked(t, events);
    TraceIsRun(t, events);
    swept := Trace(t, events).swept;
  }
}
