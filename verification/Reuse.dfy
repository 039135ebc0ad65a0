/** What the two checks on a signed request leave open together: a timestamp may be up to 300 seconds ahead
    or behind when it is read (src/middleware.rs); then the request waits for the database and for its body;
    then its call to the guard reads the clock, waits for the guard's locks and decides, while the guard
    forgets 300 seconds after an acceptance (src/replay.rs). Here the wall clock and the monotonic clock run
    alike. */
module Reuse {
  import opened Replay
  import opened ReplayThreads
  import opened ReplaySweeps
  import opened ReuseRuns
  import opened CrowdedRuns

  /** Unix seconds at a monotonic instant; `boot` is the wall clock, in nanoseconds, at instant 0. */
  function UnixTime(boot: nat, at: Instant): nat { (boot + at) / SECOND }

  /** The freshness check on a request stamped `stamp`. */
  predicate Fresh(boot: nat, at: Instant, stamp: int) { stamp - 300 <= UnixTime(boot, at) <= stamp + 300 }

  /** Fresh when checked, in the guard at most `gap` later, and decided at most `lag` after that. */
  predicate Served(d: Decision, checked: Instant, boot: nat, stamp: int, gap: nat, lag: nat) {
    Fresh(boot, checked, stamp) && checked <= d.now <= checked + gap && d.now <= d.at <= d.now + lag
  }

  /** Every call with this signature, which carries one timestamp, was served like that. */
  predicate AllServed(log: seq<Decision>, checked: seq<Instant>, id: SignatureId, boot: nat, stamp: int, gap: nat,
                      lag: nat)
    requires |checked| == |log|
  {
    forall i :: 0 <= i < |log| && log[i].id == id ==> Served(log[i], checked[i], boot, stamp, gap, lag)
  }

  /** Of that, what the guard alone accounts for. */
  predicate Prompt(log: seq<Decision>, id: SignatureId, lag: nat) {
    forall i :: 0 <= i < |log| && log[i].id == id ==> log[i].now <= log[i].at <= log[i].now + lag
  }

  lemma ServedIsPrompt(log: seq<Decision>, checked: seq<Instant>, id: SignatureId, boot: nat, stamp: int, gap: nat,
                       lag: nat)
    requires |checked| == |log|
    ensures AllServed(log, checked, id, boot, stamp, gap, lag) ==> Prompt(log, id, lag)
  {
    hide Fresh;
    if AllServed(log, checked, id, boot, stamp, gap, lag) {
      forall i | 0 <= i < |log| && log[i].id == id ensures log[i].now <= log[i].at <= log[i].now + lag {
        assert Served(log[i], checked[i], boot, stamp, gap, lag);
      }
    }
  }

  /** Where in the log the signature was accepted. */
  function Uses(log: seq<Decision>, id: SignatureId): (uses: seq<nat>)
    ensures forall a :: 0 <= a < |uses| ==> uses[a] < |log| && log[uses[a]].accepted && log[uses[a]].id == id
    ensures forall a, b :: 0 <= a < b < |uses| ==> uses[a] < uses[b]
  {
    if log == [] then []
    else
      var last := |log| - 1;
      Uses(log[..last], id) + if log[last].accepted && log[last].id == id then [last] else []
  }

  lemma FreshBounds(boot: nat, at: Instant, stamp: int)
    ensures Fresh(boot, at, stamp) <==> (stamp - 300) * SECOND <= boot + at < (stamp + 301) * SECOND
  {
  }

  // ---------- How much room n uses take ----------

  function Max(x: int, y: int): int { if x < y then y else x }

  /** n uses, the first two d apart and the others e. */
  function Span(n: nat, d: int, e: int): int { if n < 2 then 0 else d + (n - 2) * e }

  /** Each use captures a clock value at least d after every earlier one. */
  lemma {:induction false} UsesTakeRoom(log: seq<Decision>, id: SignatureId, lag: nat, k: nat)
    requires Prompt(log, id, lag) && Spaced(log, WINDOW) && k < |Uses(log, id)|
    ensures var uses := Uses(log, id); log[uses[k]].now >= log[uses[0]].now + k * (WINDOW - lag)
  {
    hide Uses;
    if k > 0 {
      var uses := Uses(log, id);
      UsesTakeRoom(log, id, lag, k - 1);
      assert log[uses[k - 1]].now + WINDOW <= log[uses[k]].at <= log[uses[k]].now + lag;
      OneMore(k, WINDOW - lag);
    }
  }

  lemma OneMore(k: int, x: int)
    ensures k * x == (k - 1) * x + x
  {
  }

  /** And freshness leaves 601 seconds and the gap for all of them. */
  lemma UsesFitFreshness(log: seq<Decision>, checked: seq<Instant>, id: SignatureId, boot: nat, stamp: int, gap: nat,
                         lag: nat)
    requires |checked| == |log| && AllServed(log, checked, id, boot, stamp, gap, lag) && Uses(log, id) != []
    ensures var uses := Uses(log, id); log[uses[|uses| - 1]].now - log[uses[0]].now < 601 * SECOND + gap
  {
    var uses := Uses(log, id);
    FreshBounds(boot, checked[uses[0]], stamp);
    FreshBounds(boot, checked[uses[|uses| - 1]], stamp);
  }

  /** Where the k-th use stands when every reopening needs a sweep of its own and sweeps are a quarter window
      apart: it has room for k - 1 quarters, and either so has the next one, or a sweep that late is spent. */
  ghost predicate Quartered(log: seq<Decision>, uses: seq<nat>, swept: set<Instant>, lag: nat, k: nat)
    requires 0 < k < |uses| && forall a :: 0 <= a < |uses| ==> uses[a] < |log|
  {
    var first, now := log[uses[0]].now, log[uses[k]].now;
    && now + lag >= first + WINDOW + (k - 1) * QUARTER
    && (now >= first + k * QUARTER || SweptBetween(swept, first + WINDOW + (k - 1) * QUARTER, now + lag))
  }

  lemma {:induction false} UsesTakeQuarters(log: seq<Decision>, id: SignatureId, lag: nat, swept: set<Instant>, k: nat)
    requires Prompt(log, id, lag) && lag < WINDOW
    requires forall y, z :: y in swept && z in swept && y < z ==> y + QUARTER <= z
    requires Reopened(log, swept, WINDOW) && 0 < k < |Uses(log, id)|
    ensures Quartered(log, Uses(log, id), swept, lag, k)
  {
    var uses := Uses(log, id);
    var first, before, d := log[uses[0]].now, log[uses[k - 1]], log[uses[k]];
    assert before.now + WINDOW <= d.now || SweptBetween(swept, before.now + WINDOW, d.at);
    if k == 1 {
      if SweptBetween(swept, before.now + WINDOW, d.at) {
        var y :| y in swept && before.now + WINDOW <= y <= d.at;
        assert y in swept && first + WINDOW <= y <= d.now + lag;
      }
    } else {
      UsesTakeQuarters(log, id, lag, swept, k - 1);
      OneMoreQuarter(swept, first, before.now, d.now, d.at, lag, k);
    }
  }

  lemma OneMoreQuarter(swept: set<Instant>, first: Instant, before: Instant, now: Instant, at: Instant, lag: nat,
                       k: nat)
    requires lag < WINDOW && at <= now + lag && k >= 2
    requires forall y, z :: y in swept && z in swept && y < z ==> y + QUARTER <= z
    requires before + WINDOW <= now || SweptBetween(swept, before + WINDOW, at)
    requires before + lag >= first + WINDOW + (k - 2) * QUARTER
    requires before >= first + (k - 1) * QUARTER
      || SweptBetween(swept, first + WINDOW + (k - 2) * QUARTER, before + lag)
    ensures now + lag >= first + WINDOW + (k - 1) * QUARTER
    ensures now >= first + k * QUARTER || SweptBetween(swept, first + WINDOW + (k - 1) * QUARTER, now + lag)
  {
    if before + WINDOW > now {
      var y :| y in swept && before + WINDOW <= y <= at;
      if before < first + (k - 1) * QUARTER {
        var x :| x in swept && first + WINDOW + (k - 2) * QUARTER <= x <= before + lag;
        assert x < y;
      }
      assert y in swept && first + WINDOW + (k - 1) * QUARTER <= y <= now + lag;
    }
  }

  // ---------- What is possible ----------

  ghost predicate UsedTimes(events: seq<Event>, clock: Instant, checked: seq<Instant>, id: SignatureId, boot: nat,
                            stamp: int, gap: nat, lag: nat, n: nat)
  {
    var log := Run(Start(WINDOW, clock), events).log;
    |checked| == |log| && AllServed(log, checked, id, boot, stamp, gap, lag) && |Uses(log, id)| == n
  }

  /** Some run of the guard, under any interleaving of its calls, accepts one signature n times. */
  ghost predicate CanBeUsed(id: SignatureId, n: nat, gap: nat, lag: nat) {
    exists events, clock, checked, boot, stamp :: UsedTimes(events, clock, checked, id, boot, stamp, gap, lag, n)
  }

  /** The same, of runs in which the guard's map never reaches its ceiling. */
  ghost predicate CanBeUsedUncrowded(id: SignatureId, n: nat, gap: nat, lag: nat) {
    exists events, clock, checked, boot, stamp ::
      UsedTimes(events, clock, checked, id, boot, stamp, gap, lag, n) && Uncrowded(Start(WINDOW, clock), events)
  }

  /** In every run: n - 1 windows less the lag fit into 601 seconds and the gap. */
  lemma UsesAreBounded(id: SignatureId, n: nat, gap: nat, lag: nat)
    requires n > 0 && CanBeUsed(id, n, gap, lag)
    ensures (n - 1) * (WINDOW - lag) < 601 * SECOND + gap
  {
    var events, clock, checked, boot, stamp :| UsedTimes(events, clock, checked, id, boot, stamp, gap, lag, n);
    var log := Run(Start(WINDOW, clock), events).log;
    AcceptancesAreSpaced(WINDOW, clock, events);
    ServedIsPrompt(log, checked, id, boot, stamp, gap, lag);
    UsesTakeRoom(log, id, lag, n - 1);
    UsesFitFreshness(log, checked, id, boot, stamp, gap, lag);
  }

  /** Either spacing gives the uses their room; so does the larger. */
  lemma UsesTakeSpan(log: seq<Decision>, id: SignatureId, lag: nat, swept: set<Instant>)
    requires Prompt(log, id, lag) && lag < WINDOW
    requires forall y, z :: y in swept && z in swept && y < z ==> y + QUARTER <= z
    requires Reopened(log, swept, WINDOW) && Spaced(log, WINDOW) && Uses(log, id) != []
    ensures var uses := Uses(log, id);
      log[uses[|uses| - 1]].now - log[uses[0]].now >= Span(|uses|, WINDOW - lag, Max(WINDOW - lag, QUARTER))
  {
    hide *;
    var uses := Uses(log, id);
    var n, room := |uses|, log[uses[|uses| - 1]].now - log[uses[0]].now;
    UsesTakeRoom(log, id, lag, n - 1);
    if n > 1 {
      UsesTakeQuarters(log, id, lag, swept, n - 1);
      QuartersAreRoom(log, uses, swept, lag, n - 1);
    }
    SpanIsRoom(n, WINDOW - lag, room);
  }

  lemma QuartersAreRoom(log: seq<Decision>, uses: seq<nat>, swept: set<Instant>, lag: nat, k: nat)
    requires 0 < k < |uses| && forall a :: 0 <= a < |uses| ==> uses[a] < |log|
    requires Quartered(log, uses, swept, lag, k)
    ensures log[uses[k]].now - log[uses[0]].now >= WINDOW - lag + (k - 1) * QUARTER
  {
    hide SweptBetween;
  }

  lemma SpanIsRoom(n: nat, d: nat, room: int)
    requires n > 0 && room >= (n - 1) * d && (n > 1 ==> room >= d + (n - 2) * QUARTER)
    ensures room >= Span(n, d, Max(d, QUARTER))
  {
    if n > 1 { OneMore(n - 1, d); }
  }

  lemma UncrowdedUsesAreBounded(id: SignatureId, n: nat, gap: nat, lag: nat)
    requires n > 0 && lag < WINDOW && CanBeUsedUncrowded(id, n, gap, lag)
    ensures Span(n, WINDOW - lag, Max(WINDOW - lag, QUARTER)) < 601 * SECOND + gap
  {
    var events, clock, checked, boot, stamp :|
      UsedTimes(events, clock, checked, id, boot, stamp, gap, lag, n) && Uncrowded(Start(WINDOW, clock), events);
    var log := Run(Start(WINDOW, clock), events).log;
    AcceptancesAreSpaced(WINDOW, clock, events);
    var swept := SweepsReopen(WINDOW, clock, events);
    hide Run, Start, AllServed, Prompt, Reopened, Spaced, Uses, Uncrowded, Span;
    ServedIsPrompt(log, checked, id, boot, stamp, gap, lag);
    UsesTakeSpan(log, id, lag, swept);
    UsesFitFreshness(log, checked, id, boot, stamp, gap, lag);
  }

  // ---------- And no less ----------

  function Min(x: nat, y: nat): nat { if x < y then x else y }

  lemma {:induction false} UsesOfAll(before: seq<Decision>, log: seq<Decision>, id: SignatureId)
    requires Free(before, id) && forall i :: 0 <= i < |log| ==> log[i].accepted && log[i].id == id
    ensures |Uses(before + log, id)| == |log|
    decreases |before| + |log|
  {
    var all := before + log;
    if log != [] {
      assert all[..|all| - 1] == before + log[..|log| - 1];
      UsesOfAll(before, log[..|log| - 1], id);
    } else if before != [] {
      assert all[..|all| - 1] == before[..|before| - 1] + [];
      UsesOfAll(before[..|before| - 1], [], id);
    }
  }

  lemma {:induction false} CapturedSpan(from: Instant, d: nat, e: nat, n: nat)
    requires n > 0
    ensures Captured(from, d, e, n - 1) == from + Span(n, d, e)
  {
    if n > 2 {
      CapturedSpan(from, d, e, n - 1);
      assert (n - 2) * e == (n - 3) * e + e;
    }
  }

  /** Stamped 300 seconds ahead of the first capture and checked as late as freshness allows. */
  function CheckedAt(from: Instant, captured: Instant): Instant { Min(captured, from + 601 * SECOND - 1) }

  lemma UseIsServed(d: Decision, from: nat, gap: nat, lag: nat)
    requires d.now < from * SECOND + 601 * SECOND + gap && d.now <= d.at <= d.now + lag && from * SECOND <= d.now
    ensures Served(d, CheckedAt(from * SECOND, d.now), 0, from + 300, gap, lag)
  {
    FreshBounds(0, CheckedAt(from * SECOND, d.now), from + 300);
  }

  function CheckedTimes(log: seq<Decision>, from: Instant): seq<Instant> {
    seq(|log|, i requires 0 <= i < |log| => CheckedAt(from, log[i].now))
  }

  lemma LogIsServed(id: SignatureId, before: seq<Decision>, from: nat, d: nat, e: nat, n: nat, gap: nat, lag: nat)
    requires d <= e && d <= WINDOW && n > 0 && WINDOW - d <= lag && Span(n, d, e) < 601 * SECOND + gap
    requires Free(before, id)
    ensures var log := before + UsesLog(id, from * SECOND, d, e, n);
      AllServed(log, CheckedTimes(log, from * SECOND), id, 0, from + 300, gap, lag) && |Uses(log, id)| == n
  {
    var uses := UsesLog(id, from * SECOND, d, e, n);
    var log := before + uses;
    CapturedSpan(from * SECOND, d, e, n);
    hide Span, CheckedAt, Served, Uses;
    forall i | 0 <= i < |log| && log[i].id == id
      ensures Served(log[i], CheckedAt(from * SECOND, log[i].now), 0, from + 300, gap, lag)
    {
      assert i >= |before| && log[i] == uses[i - |before|];
      CapturedGrows(from * SECOND, d, e, i - |before|, n - 1);
      UseIsServed(log[i], from, gap, lag);
    }
    UsesOfAll(before, uses, id);
  }

  lemma UsesAreServed(id: SignatureId, d: nat, e: nat, n: nat, gap: nat, lag: nat)
    requires 0 < d <= e && d <= WINDOW && QUARTER <= e && n > 0 && WINDOW - d <= lag
    requires Span(n, d, e) < 601 * SECOND + gap
    ensures CanBeUsedUncrowded(id, n, gap, lag)
  {
    hide Span, Run, Start, Uncrowded, AllServed, Uses, UsesLog, CheckedAt;
    var events := UsesAreReached(id, d, e, n);
    LogIsServed(id, [], 0, d, e, n, gap, lag);
    var log := UsesLog(id, 0, d, e, n);
    assert [] + log == log;
    assert UsedTimes(events, 0, CheckedTimes(log, 0), id, 0, 300, gap, lag, n);
    assert Uncrowded(Start(WINDOW, 0), events);
  }

  /** After a full map the uses can be as close as one likes. */
  lemma CrowdedUsesAreServed(id: SignatureId, d: nat, n: nat, gap: nat, lag: nat)
    requires d <= WINDOW && n > 0 && WINDOW - d <= lag && (n - 1) * d < 601 * SECOND + gap
    ensures CanBeUsed(id, n, gap, lag)
  {
    OneMore(n - 1, d);
    assert Span(n, d, d) == (n - 1) * d;
    hide Span, Run, Start, AllServed, Uses, UsesLog, CheckedAt;
    var from := (n + 1) * 300;
    assert from * SECOND == (n + 1) * WINDOW;
    var events, before := CrowdedUsesAreReached(id, d, n);
    LogIsServed(id, before, from, d, d, n, gap, lag);
    var log := before + UsesLog(id, from * SECOND, d, d, n);
    assert UsedTimes(events, 0, CheckedTimes(log, from * SECOND), id, 0, from + 300, gap, lag, n);
  }

  /** Where the guard's map never fills up: one signed request can be accepted n times exactly when n uses, the
      first two the window less the lag apart and the others that or a quarter window, whichever is more, fit
      into 601 seconds and the gap. */
  lemma UncrowdedUsesPossible(id: SignatureId, n: nat, gap: nat, lag: nat)
    requires n > 0 && lag < WINDOW
    ensures CanBeUsedUncrowded(id, n, gap, lag)
       <==> Span(n, WINDOW - lag, Max(WINDOW - lag, QUARTER)) < 601 * SECOND + gap
  {
    if CanBeUsedUncrowded(id, n, gap, lag) { UncrowdedUsesAreBounded(id, n, gap, lag); }
    if Span(n, WINDOW - lag, Max(WINDOW - lag, QUARTER)) < 601 * SECOND + gap {
      UsesAreServed(id, WINDOW - lag, Max(WINDOW - lag, QUARTER), n, gap, lag);
    }
  }

  /** In any run at all: one signed request can be accepted n times exactly when n - 1 windows less the lag fit
      into 601 seconds and the gap. */
  lemma UsesPossible(id: SignatureId, n: nat, gap: nat, lag: nat)
    requires n > 0
    ensures CanBeUsed(id, n, gap, lag) <==> (n - 1) * (WINDOW - lag) < 601 * SECOND + gap
  {
    if CanBeUsed(id, n, gap, lag) { UsesAreBounded(id, n, gap, lag); }
    if (n - 1) * (WINDOW - lag) < 601 * SECOND + gap {
      CrowdedUsesAreServed(id, WINDOW - Min(lag, WINDOW), n, gap, lag);
    }
  }

  /** So a full map makes long lags worse: ten uses a second apart take one. */
  lemma CrowdsAllowMore(id: SignatureId)
    ensures CanBeUsed(id, 10, 0, 299 * SECOND) && !CanBeUsedUncrowded(id, 10, 0, 299 * SECOND)
  {
    UsesPossible(id, 10, 0, 299 * SECOND);
    UncrowdedUsesPossible(id, 10, 0, 299 * SECOND);
  }

  /** Three times at most, exactly as long as the gap and three lags stay within 299 seconds. */
  lemma AcceptedAtMostThrice(id: SignatureId, gap: nat, lag: nat)
    ensures (forall n: nat :: CanBeUsed(id, n, gap, lag) ==> n <= 3) <==> gap + 3 * lag <= 299 * SECOND
  {
    if gap + 3 * lag <= 299 * SECOND {
      forall n: nat | CanBeUsed(id, n, gap, lag) ensures n <= 3 {
        if n > 3 {
          UsesAreBounded(id, n, gap, lag);
          Scaled(3, n - 1, WINDOW - lag);
        }
      }
    } else {
      UsesPossible(id, 4, gap, lag);
    }
  }

  lemma Scaled(i: nat, j: nat, x: nat)
    requires i <= j
    ensures i * x <= j * x
  {
  }

  /** Three times it can be without any delay, and a fourth after a body 299 seconds and a nanosecond late, or
      after lock delays of 100 seconds. */
  lemma AcceptedThrice(id: SignatureId)
    ensures CanBeUsed(id, 3, 0, 0) && CanBeUsed(id, 4, 299 * SECOND + 1, 0) && CanBeUsed(id, 4, 0, 100 * SECOND)
  {
    UsesPossible(id, 3, 0, 0);
    UsesPossible(id, 4, 299 * SECOND + 1, 0);
    UsesPossible(id, 4, 0, 100 * SECOND);
  }

  /** With no limit on how long a body may take, there is no limit on the uses of one signature. */
  lemma SlowBodiesAllowAnyNumber(id: SignatureId, n: nat)
    requires n > 0
    ensures exists gap :: CanBeUsed(id, n, gap, 0)
  {
    UsesPossible(id, n, n * WINDOW, 0);
  }
}
