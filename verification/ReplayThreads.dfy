/** The same guard under threads (src/replay.rs): a call reads the clock once, then takes the map lock, the
    schedule lock, the map lock and the map lock again, and other calls may run between any two of these
    sections. By the time a call decides, the clock value it holds may be stale. */
module ReplayThreads {
  import opened Replay

  /** Where a call stands, with the clock value it captured on entry. */
  datatype Phase =
    | Idle
    | Entered(id: SignatureId, now: Instant)
    | Measured(id: SignatureId, now: Instant, overCapacity: bool)
    | SweepDue(id: SignatureId, now: Instant)
    | Deciding(id: SignatureId, now: Instant)

  /** One answer: what was asked, the clock value used, the real time, and the verdict. */
  datatype Decision = Decision(id: SignatureId, now: Instant, at: Instant, accepted: bool)

  datatype System = System(
    window: nat,
    clock: Instant,
    seen: map<SignatureId, Instant>,
    next: Instant,
    nextCapacity: Instant,
    threads: map<nat, Phase>,
    log: seq<Decision>)

  datatype Event =
    | Tick(elapsed: nat)
    | Enter(thread: nat, id: SignatureId)
    | Measure(thread: nat)
    | Schedule(thread: nat)
    | Retain(thread: nat)
    | Decide(thread: nat)

  function PhaseOf(s: System, t: nat): Phase { if t in s.threads then s.threads[t] else Idle }

  function Move(s: System, t: nat, p: Phase): System { s.(threads := s.threads[t := p]) }

  /** One lock section of one thread, or the passing of time. An event that does not fit is nothing. */
  function Step(s: System, e: Event): System {
    match e
    case Tick(elapsed) => s.(clock := s.clock + elapsed)
    case Enter(t, id) => if PhaseOf(s, t).Idle? then Move(s, t, Entered(id, s.clock)) else s
    case Measure(t) =>
      var p := PhaseOf(s, t);
      if p.Entered? then Move(s, t, Measured(p.id, p.now, |s.seen| >= MAX_TRACKED_SIGNATURES)) else s
    case Schedule(t) =>
      var p := PhaseOf(s, t);
      if !p.Measured? then s
      else
        var routineDue := p.now >= s.next;
        var capacityDue := p.overCapacity && p.now >= s.nextCapacity;
        if !routineDue && !capacityDue then Move(s, t, Deciding(p.id, p.now))
        else Move(s.(next := p.now + s.window / PRUNE_INTERVAL_DIVISOR,
                     nextCapacity := if capacityDue then p.now + s.window / CAPACITY_BACKOFF_DIVISOR
                                     else s.nextCapacity),
                  t, SweepDue(p.id, p.now))
    case Retain(t) =>
      var p := PhaseOf(s, t);
      if p.SweepDue? then Move(s.(seen := Live(s.seen, p.now)), t, Deciding(p.id, p.now)) else s
    case Decide(t) =>
      var p := PhaseOf(s, t);
      if !p.Deciding? then s
      else if p.id in s.seen && s.seen[p.id] > p.now then
        Move(s.(log := s.log + [Decision(p.id, p.now, s.clock, false)]), t, Idle)
      else
        Move(s.(seen := s.seen[p.id := p.now + s.window],
                log := s.log + [Decision(p.id, p.now, s.clock, true)]), t, Idle)
  }

  function Run(s: System, events: seq<Event>): System
    decreases |events|
  {
    if events == [] then s else Run(Step(s, events[0]), events[1..])
  }

  function Start(window: nat, clock: Instant): System {
    System(window, clock, map[], clock + window / PRUNE_INTERVAL_DIVISOR, clock, map[], [])
  }

  // ---------- The invariant ----------

  ghost predicate CallsInPast(threads: map<nat, Phase>, clock: Instant) {
    forall t :: t in threads && !threads[t].Idle? ==> threads[t].now <= clock
  }

  ghost predicate LogInPast(log: seq<Decision>, clock: Instant) {
    forall i :: 0 <= i < |log| ==> log[i].now <= log[i].at <= clock
  }

  /** An acceptance is either still in the map, unexpired for its full window, or a window old. */
  ghost predicate Covered(log: seq<Decision>, seen: map<SignatureId, Instant>, clock: Instant, window: nat) {
    forall i :: 0 <= i < |log| && log[i].accepted ==>
      clock >= log[i].now + window || (log[i].id in seen && seen[log[i].id] >= log[i].now + window)
  }

  ghost predicate Backed(log: seq<Decision>, id: SignatureId, expires: Instant, window: nat) {
    exists i :: 0 <= i < |log| && log[i].accepted && log[i].id == id && expires == log[i].now + window
  }

  /** Every entry stands for an acceptance one window before it expires. */
  ghost predicate Grounded(log: seq<Decision>, seen: map<SignatureId, Instant>, window: nat) {
    forall id :: id in seen ==> Backed(log, id, seen[id], window)
  }

  ghost predicate Spaced(log: seq<Decision>, window: nat) {
    forall i, j :: 0 <= i < j < |log| && log[i].accepted && log[j].accepted && log[i].id == log[j].id ==>
      log[i].now + window <= log[j].at
  }

  /** Some earlier acceptance is, by the refused call's clock value, younger than the window. */
  ghost predicate HasCause(log: seq<Decision>, j: nat, window: nat)
    requires j < |log|
  {
    exists i :: 0 <= i < j && log[i].accepted && log[i].id == log[j].id && log[j].now < log[i].now + window
  }

  ghost predicate RefusalsJustified(log: seq<Decision>, window: nat) {
    forall j :: 0 <= j < |log| && !log[j].accepted ==> HasCause(log, j, window)
  }

  ghost predicate Inv(s: System) {
    && CallsInPast(s.threads, s.clock) && LogInPast(s.log, s.clock)
    && Covered(s.log, s.seen, s.clock, s.window) && Grounded(s.log, s.seen, s.window)
    && Spaced(s.log, s.window) && RefusalsJustified(s.log, s.window)
  }

  lemma BackingStays(log: seq<Decision>, d: Decision, id: SignatureId, expires: Instant, window: nat)
    requires Backed(log, id, expires, window)
    ensures Backed(log + [d], id, expires, window)
  {
    var i :| 0 <= i < |log| && log[i].accepted && log[i].id == id && expires == log[i].now + window;
    assert (log + [d])[i] == log[i];
  }

  lemma CauseStays(log: seq<Decision>, d: Decision, j: nat, window: nat)
    requires j < |log| && HasCause(log, j, window)
    ensures HasCause(log + [d], j, window)
  {
    var i :| 0 <= i < j && log[i].accepted && log[i].id == log[j].id && log[j].now < log[i].now + window;
    assert (log + [d])[i] == log[i] && (log + [d])[j] == log[j];
  }

  lemma RefusalsStayJustified(log: seq<Decision>, d: Decision, window: nat)
    requires RefusalsJustified(log, window) && (d.accepted || HasCause(log + [d], |log|, window))
    ensures RefusalsJustified(log + [d], window)
  {
    forall j | 0 <= j < |log + [d]| && !(log + [d])[j].accepted
      ensures HasCause(log + [d], j, window)
    {
      if j < |log| {
        assert !log[j].accepted;
        CauseStays(log, d, j, window);
      }
    }
  }

  lemma AcceptCovers(log: seq<Decision>, seen: map<SignatureId, Instant>, clock: Instant, window: nat, d: Decision)
    requires Covered(log, seen, clock, window) && d.accepted && d.now <= d.at == clock
    requires !(d.id in seen && seen[d.id] > d.now)
    ensures Covered(log + [d], seen[d.id := d.now + window], clock, window)
  {
  }

  lemma AcceptIsSpaced(log: seq<Decision>, seen: map<SignatureId, Instant>, clock: Instant, window: nat, d: Decision)
    requires Covered(log, seen, clock, window) && Spaced(log, window) && d.accepted && d.now <= d.at == clock
    requires !(d.id in seen && seen[d.id] > d.now)
    ensures Spaced(log + [d], window)
  {
  }

  lemma AcceptGrounds(log: seq<Decision>, seen: map<SignatureId, Instant>, window: nat, d: Decision)
    requires Grounded(log, seen, window) && d.accepted
    ensures Grounded(log + [d], seen[d.id := d.now + window], window)
  {
    var after := seen[d.id := d.now + window];
    forall id | id in after
      ensures Backed(log + [d], id, after[id], window)
    {
      if id == d.id {
        assert (log + [d])[|log|] == d;
      } else {
        BackingStays(log, d, id, seen[id], window);
      }
    }
  }

  lemma RefusalIsHarmless(log: seq<Decision>, seen: map<SignatureId, Instant>, clock: Instant, window: nat, d: Decision)
    requires Covered(log, seen, clock, window) && Spaced(log, window) && Grounded(log, seen, window)
    requires !d.accepted && d.id in seen && seen[d.id] > d.now
    ensures Covered(log + [d], seen, clock, window) && Spaced(log + [d], window) && Grounded(log + [d], seen, window)
    ensures HasCause(log + [d], |log|, window)
  {
    forall id | id in seen ensures Backed(log + [d], id, seen[id], window)
      { BackingStays(log, d, id, seen[id], window); }
    assert Backed(log, d.id, seen[d.id], window);
    var i :| 0 <= i < |log| && log[i].accepted && log[i].id == d.id && seen[d.id] == log[i].now + window;
    assert (log + [d])[i] == log[i];
  }

  lemma DecideEffect(s: System, t: nat)
    requires CallsInPast(s.threads, s.clock)
    ensures var p := PhaseOf(s, t); var after := Step(s, Decide(t));
      && (!p.Deciding? ==> after == s)
      && (p.Deciding? ==> p.now <= s.clock && CallsInPast(after.threads, after.clock)
                          && after.clock == s.clock && after.window == s.window)
      && (p.Deciding? && p.id in s.seen && s.seen[p.id] > p.now ==>
            after.log == s.log + [Decision(p.id, p.now, s.clock, false)] && after.seen == s.seen)
      && (p.Deciding? && !(p.id in s.seen && s.seen[p.id] > p.now) ==>
            after.log == s.log + [Decision(p.id, p.now, s.clock, true)]
            && after.seen == s.seen[p.id := p.now + s.window])
  {
  }

  lemma DecideKeepsInv(s: System, t: nat)
    requires Inv(s)
    ensures Inv(Step(s, Decide(t)))
  {
    hide Step, CallsInPast, Covered, Grounded, Spaced, RefusalsJustified, HasCause;
    DecideEffect(s, t);
    var p := PhaseOf(s, t);
    if p.Deciding? {
      if p.id in s.seen && s.seen[p.id] > p.now {
        var d := Decision(p.id, p.now, s.clock, false);
        RefusalIsHarmless(s.log, s.seen, s.clock, s.window, d);
        RefusalsStayJustified(s.log, d, s.window);
      } else {
        var d := Decision(p.id, p.now, s.clock, true);
        AcceptCovers(s.log, s.seen, s.clock, s.window, d);
        AcceptIsSpaced(s.log, s.seen, s.clock, s.window, d);
        AcceptGrounds(s.log, s.seen, s.window, d);
        RefusalsStayJustified(s.log, d, s.window);
      }
    }
  }

  lemma StepKeepsInv(s: System, e: Event)
    requires Inv(s)
    ensures Inv(Step(s, e)) && Step(s, e).window == s.window
  {
    hide Spaced, RefusalsJustified, Backed;
    if e.Decide? { DecideKeepsInv(s, e.thread); }
  }

  lemma {:induction false} RunKeepsInv(s: System, events: seq<Event>)
    requires Inv(s)
    ensures Inv(Run(s, events)) && Run(s, events).window == s.window
    decreases |events|
  {
    hide Inv, Step;
    if events != [] {
      StepKeepsInv(s, events[0]);
      RunKeepsInv(Step(s, events[0]), events[1..]);
    }
  }

  /** Under every interleaving of lock sections, with clock values as stale as the scheduler makes them:
      two acceptances of one signature under one key are a window apart, from the clock value the first
      captured to the moment of the second; and no refusal comes without an acceptance that, by the
      refused call's own clock value, is younger than the window. */
  lemma AcceptancesAreSpaced(window: nat, clock: Instant, events: seq<Event>)
    ensures Spaced(Run(Start(window, clock), events).log, window)
    ensures RefusalsJustified(Run(Start(window, clock), events).log, window)
  {
    assert Inv(Start(window, clock));
    RunKeepsInv(Start(window, clock), events);
  }

  // ---------- How sharp the spacing is ----------

  const X := SignatureId(0, [])
  const Y := SignatureId(1, [])
  const FIRST := [Decision(X, 0, 0, true)]

  lemma ActOne()
    ensures Run(Start(4, 0), [Enter(0, X), Measure(0), Schedule(0)])
         == System(4, 0, map[], 1, 0, map[0 := Deciding(X, 0)], [])
  {
    var s0 := Start(4, 0);
    var s1 := System(4, 0, map[], 1, 0, map[0 := Entered(X, 0)], []);
    var s2 := System(4, 0, map[], 1, 0, map[0 := Measured(X, 0, false)], []);
    RunThree(s0, Enter(0, X), s1, Measure(0), s2, Schedule(0), System(4, 0, map[], 1, 0, map[0 := Deciding(X, 0)], []));
  }

  lemma ActTwo(s: System)
    requires s == System(4, 0, map[], 1, 0, map[0 := Deciding(X, 0)], [])
    ensures Run(s, [Decide(0), Tick(3), Enter(1, X)])
         == System(4, 3, map[X := 4], 1, 0, map[0 := Idle, 1 := Entered(X, 3)], FIRST)
  {
    var s1 := System(4, 0, map[X := 4], 1, 0, map[0 := Idle], FIRST);
    assert Step(s, Decide(0)) == s1;
    RunThree(s, Decide(0), s1, Tick(3), s1.(clock := 3), Enter(1, X),
             System(4, 3, map[X := 4], 1, 0, map[0 := Idle, 1 := Entered(X, 3)], FIRST));
  }

  lemma ActThree(s: System)
    requires s == System(4, 3, map[X := 4], 1, 0, map[0 := Idle, 1 := Entered(X, 3)], FIRST)
    ensures Run(s, [Measure(1), Schedule(1), Retain(1)])
         == System(4, 3, map[X := 4], 4, 0, map[0 := Idle, 1 := Deciding(X, 3)], FIRST)
  {
    var s1 := s.(threads := map[0 := Idle, 1 := Measured(X, 3, false)]);
    var s2 := s.(next := 4, threads := map[0 := Idle, 1 := SweepDue(X, 3)]);
    assert Live(s.seen, 3) == s.seen;
    RunThree(s, Measure(1), s1, Schedule(1), s2, Retain(1),
             s.(next := 4, threads := map[0 := Idle, 1 := Deciding(X, 3)]));
  }

  lemma ActFour(s: System)
    requires s == System(4, 3, map[X := 4], 4, 0, map[0 := Idle, 1 := Deciding(X, 3)], FIRST)
    ensures Run(s, [Tick(1), Enter(2, Y), Measure(2)])
         == System(4, 4, map[X := 4], 4, 0, map[0 := Idle, 1 := Deciding(X, 3), 2 := Measured(Y, 4, false)], FIRST)
  {
    var s1 := s.(clock := 4);
    var s2 := s1.(threads := s.threads[2 := Entered(Y, 4)]);
    var s3 := s1.(threads := map[0 := Idle, 1 := Deciding(X, 3), 2 := Measured(Y, 4, false)]);
    RunThree(s, Tick(1), s1, Enter(2, Y), s2, Measure(2), s3);
  }

  lemma ActFive(s: System)
    requires s == System(4, 4, map[X := 4], 4, 0, map[0 := Idle, 1 := Deciding(X, 3),
                                                        2 := Measured(Y, 4, false)], FIRST)
    ensures Run(s, [Schedule(2), Retain(2), Decide(1)]).log == FIRST + [Decision(X, 3, 4, true)]
  {
    var s1 := s.(next := 5, threads := s.threads[2 := SweepDue(Y, 4)]);
    var s2 := s1.(seen := map[], threads := s.threads[2 := Deciding(Y, 4)]);
    assert Live(s.seen, 4) == map[];
    assert Step(s1, Retain(2)) == s2;
    RunThree(s, Schedule(2), s1, Retain(2), s2, Decide(1), Step(s2, Decide(1)));
  }

  /** The spacing is no tighter than that: a sweep on a later clock value can let a stale call in before
      its own clock value is a window past the first. */
  lemma StaleCallsSpaceLess()
    ensures exists events :: var s := Run(Start(4, 0), events);
      |s.log| == 2 && s.log[0].accepted && s.log[1].accepted && s.log[0].id == s.log[1].id
      && s.log[1].now < s.log[0].now + 4
  {
    var s0 := Start(4, 0);
    assert Run(s0, []) == s0 && Reaches(s0, s0);
    hide Run, Reaches;
    ActOne();
    var s1 := ReachesMore(s0, s0, [Enter(0, X), Measure(0), Schedule(0)]);
    ActTwo(s1);
    var s2 := ReachesMore(s0, s1, [Decide(0), Tick(3), Enter(1, X)]);
    ActThree(s2);
    var s3 := ReachesMore(s0, s2, [Measure(1), Schedule(1), Retain(1)]);
    ActFour(s3);
    var s4 := ReachesMore(s0, s3, [Tick(1), Enter(2, Y), Measure(2)]);
    ActFive(s4);
    var s5 := ReachesMore(s0, s4, [Schedule(2), Retain(2), Decide(1)]);
    var events := EventsTo(s0, s5);
    assert Run(s0, events).log == FIRST + [Decision(X, 3, 4, true)];
  }

  ghost predicate Reaches(s: System, t: System) { exists events :: Run(s, events) == t }

  lemma ReachesMore(s: System, t: System, more: seq<Event>) returns (u: System)
    requires Reaches(s, t)
    ensures u == Run(t, more) && Reaches(s, u)
  {
    var events := EventsTo(s, t);
    RunAppends(s, events, more);
    u := Run(t, more);
  }

  lemma EventsTo(s: System, t: System) returns (events: seq<Event>)
    requires Reaches(s, t)
    ensures Run(s, events) == t
  {
    events :| Run(s, events) == t;
  }

  lemma RunThree(s0: System, e0: Event, s1: System, e1: Event, s2: System, e2: Event, s3: System)
    requires Step(s0, e0) == s1 && Step(s1, e1) == s2 && Step(s2, e2) == s3
    ensures Run(s0, [e0, e1, e2]) == s3
  {
    hide Step;
    assert [e0, e1, e2][1..] == [e1, e2] && [e1, e2][1..] == [e2] && [e2][1..] == [];
    assert Run(s2, [e2]) == Run(s3, []);
    assert Run(s1, [e1, e2]) == Run(s2, [e2]);
  }

  // ---------- A call that nothing interrupts ----------

  function KeptBy(s: System): Memory { Memory(s.seen, s.next, s.nextCapacity) }

  lemma EntersAndMeasures(s: System, t: nat, id: SignatureId)
    requires PhaseOf(s, t) == Idle
    ensures Step(Step(s, Enter(t, id)), Measure(t))
         == Move(s, t, Measured(id, s.clock, |s.seen| >= MAX_TRACKED_SIGNATURES))
  {
    var p := Measured(id, s.clock, |s.seen| >= MAX_TRACKED_SIGNATURES);
    assert s.threads[t := Entered(id, s.clock)][t := p] == s.threads[t := p];
  }

  lemma SchedulesAndRetains(s: System, t: nat, id: SignatureId)
    requires t in s.threads && s.threads[t] == Measured(id, s.clock, |s.seen| >= MAX_TRACKED_SIGNATURES)
    ensures var kept := Pruned(KeptBy(s), s.window, s.clock);
      Step(Step(s, Schedule(t)), Retain(t))
      == Move(s.(seen := kept.seen, next := kept.next, nextCapacity := kept.nextCapacity), t, Deciding(id, s.clock))
  {
    hide Live;
    var d := Deciding(id, s.clock);
    assert s.threads[t := SweepDue(id, s.clock)][t := d] == s.threads[t := d] == s.threads[t := d][t := d];
  }

  lemma RunFive(s: System, a: Event, b: Event, c: Event, d: Event, e: Event)
    ensures Run(s, [a, b, c, d, e]) == Step(Step(Step(Step(Step(s, a), b), c), d), e)
  {
    hide Step;
    RunThree(s, a, Step(s, a), b, Step(Step(s, a), b), c, Step(Step(Step(s, a), b), c));
    RunAppends(s, [a, b, c], [d, e]);
    var s3 := Run(s, [a, b, c]);
    assert [d, e][1..] == [e] && [e][1..] == [];
    assert Run(Step(s3, d), [e]) == Run(Step(Step(s3, d), e), []);
    assert [a, b, c] + [d, e] == [a, b, c, d, e];
  }

  /** Where the call is before its last section. */
  function AboutToDecide(s: System, t: nat, id: SignatureId): System {
    var kept := Pruned(KeptBy(s), s.window, s.clock);
    s.(seen := kept.seen, next := kept.next, nextCapacity := kept.nextCapacity,
       threads := s.threads[t := Deciding(id, s.clock)])
  }

  lemma UntilDeciding(s: System, t: nat, id: SignatureId)
    requires PhaseOf(s, t) == Idle
    ensures Step(Step(Step(Step(s, Enter(t, id)), Measure(t)), Schedule(t)), Retain(t)) == AboutToDecide(s, t, id)
  {
    EntersAndMeasures(s, t, id);
    var p := Measured(id, s.clock, |s.seen| >= MAX_TRACKED_SIGNATURES);
    SchedulesAndRetains(Move(s, t, p), t, id);
    hide Pruned, Step;
    assert s.threads[t := p][t := Deciding(id, s.clock)] == s.threads[t := Deciding(id, s.clock)];
  }

  /** It does what the guard's one-call-at-a-time form does. */
  lemma UninterruptedCallIsARun(s: System, t: nat, id: SignatureId)
    requires PhaseOf(s, t) == Idle
    ensures var kept := Pruned(KeptBy(s), s.window, s.clock);
      var first := !(id in kept.seen && kept.seen[id] > s.clock);
      Run(s, [Enter(t, id), Measure(t), Schedule(t), Retain(t), Decide(t)])
      == s.(seen := if first then kept.seen[id := s.clock + s.window] else kept.seen, next := kept.next,
            nextCapacity := kept.nextCapacity, threads := s.threads[t := Idle],
            log := s.log + [Decision(id, s.clock, s.clock, first)])
  {
    hide Pruned, Run, Step;
    RunFive(s, Enter(t, id), Measure(t), Schedule(t), Retain(t), Decide(t));
    UntilDeciding(s, t, id);
    Decides(AboutToDecide(s, t, id), t, id);
    assert s.threads[t := Deciding(id, s.clock)][t := Idle] == s.threads[t := Idle];
  }

  lemma Decides(s: System, t: nat, id: SignatureId)
    requires t in s.threads && s.threads[t] == Deciding(id, s.clock)
    ensures var first := !(id in s.seen && s.seen[id] > s.clock);
      Step(s, Decide(t)) == s.(seen := if first then s.seen[id := s.clock + s.window] else s.seen,
                               threads := s.threads[t := Idle],
                               log := s.log + [Decision(id, s.clock, s.clock, first)])
  {
  }

  lemma {:induction false} RunAppends(s: System, a: seq<Event>, b: seq<Event>)
    ensures Run(s, a + b) == Run(Run(s, a), b)
    decreases |a|
  {
    if a == [] {
      assert a + b == b;
    } else {
      assert (a + b)[1..] == a[1..] + b;
      RunAppends(Step(s, a[0]), a[1..], b);
    }
  }
}
