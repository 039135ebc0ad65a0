/** How old an answer of the proxy cache can be (src/config.rs), under any interleaving: no answer rests on an
    outcome that was past its reuse window when its request began. */
module DnsAges {
  import opened Common
  import opened Addresses
  import opened DnsCache

  /** When the task last took the read lock on a built cache. */
  function ReadBegan(c: Config, s: State, steps: seq<Step>, task: nat): Instant {
    if steps == [] then 0
    else
      var init, last := steps[..|steps| - 1], steps[|steps| - 1];
      var mid := Run(c, s, init);
      if last == BeginRead(task) && mid.writer.Idle? && mid.cache.built then mid.now else ReadBegan(c, s, init, task)
  }

  /** When the write lock was last taken. */
  function WriteBegan(c: Config, s: State, steps: seq<Step>): Instant {
    if steps == [] then 0
    else
      var init, last := steps[..|steps| - 1], steps[|steps| - 1];
      var mid := Run(c, s, init);
      if (last == BeginWrite || last == BeginPrime) && mid.writer.Idle? && mid.readers == map[] then mid.now
      else WriteBegan(c, s, init)
  }

  /** The first n names rest on outcomes young at t. */
  ghost predicate YoungUpTo(c: Config, hosts: map<string, HostnameState>, n: nat, t: Instant) {
    forall i :: 0 <= i < n && i < |c.hostnames| ==> c.hostnames[i] in hosts && Young(c, hosts[c.hostnames[i]], t)
  }

  ghost predicate AgesRight(c: Config, s: State, begun: nat -> Instant, write: Instant) {
    && HostsMarked(s.cache.hosts) && (!s.writer.Idle? ==> s.readers == map[])
    && (forall task :: task in s.readers ==>
          begun(task) <= s.now && YoungUpTo(c, s.cache.hosts, s.readers[task], begun(task)))
    && (!s.writer.Idle? ==> write <= s.now && YoungUpTo(c, s.cache.hosts, s.writer.next, write))
  }

  /** What a step makes of the two beginnings. */
  function ReadsAfter(s: State, step: Step, begun: nat -> Instant): nat -> Instant {
    task => if step == BeginRead(task) && s.writer.Idle? && s.cache.built then s.now else begun(task)
  }

  function WriteAfter(s: State, step: Step, write: Instant): Instant {
    if (step == BeginWrite || step == BeginPrime) && s.writer.Idle? && s.readers == map[] then s.now else write
  }

  lemma NoneYet(c: Config, hosts: map<string, HostnameState>, t: Instant)
    ensures YoungUpTo(c, hosts, 0, t)
  {
  }

  /** Fresh by the flag is within the window by the addresses. */
  lemma OneMoreFresh(c: Config, hosts: map<string, HostnameState>, n: nat, t: Instant, now: Instant)
    requires HostsMarked(hosts) && YoungUpTo(c, hosts, n, t) && t <= now && n < |c.hostnames|
    ensures FreshName(c, hosts, c.hostnames[n], now) ==> YoungUpTo(c, hosts, n + 1, t)
  {
  }

  lemma OneMoreLookup(c: Config, hosts: map<string, HostnameState>, n: nat, t: Instant, h: HostnameState)
    requires YoungUpTo(c, hosts, n, t) && t <= h.attemptedAt && n < |c.hostnames|
    ensures YoungUpTo(c, hosts[c.hostnames[n] := h], n + 1, t)
  {
  }

  lemma NextReadAges(c: Config, s: State, step: Step, begun: nat -> Instant, write: Instant)
    requires AgesRight(c, s, begun, write)
    requires step.BeginRead? || step.CheckFresh? || step.Answer? || step.EndRead? || step.Tick?
    ensures AgesRight(c, Next(c, s, step), ReadsAfter(s, step, begun), WriteAfter(s, step, write))
  {
    hide Merged, YoungUpTo, HostsMarked, FreshName, Young;
    match step
    case BeginRead(_) => NoneYet(c, s.cache.hosts, s.now);
    case CheckFresh(task) =>
      if task in s.readers && s.readers[task] < |c.hostnames| {
        OneMoreFresh(c, s.cache.hosts, s.readers[task], begun(task), s.now);
      }
    case _ =>
  }

  lemma NextWriteAges(c: Config, s: State, step: Step, begun: nat -> Instant, write: Instant)
    requires AgesRight(c, s, begun, write)
    requires !(step.BeginRead? || step.CheckFresh? || step.Answer? || step.EndRead? || step.Tick?)
    ensures AgesRight(c, Next(c, s, step), ReadsAfter(s, step, begun), WriteAfter(s, step, write))
  {
    hide Merged, YoungUpTo, HostsMarked, FreshName, Young;
    NextIsMarked(c, s, step);
    match step
    case BeginWrite => NoneYet(c, s.cache.hosts, s.now);
    case BeginPrime => NoneYet(c, map[], s.now);
    case CheckName =>
      if s.writer.Checking? && s.writer.next < |c.hostnames| {
        OneMoreFresh(c, s.cache.hosts, s.writer.next, write, s.now);
      }
    case LookupDone(addresses) =>
      if s.writer.LookingUp? && s.writer.next < |c.hostnames| {
        OneMoreLookup(c, s.cache.hosts, s.writer.next, write, HostnameState(addresses, s.now, addresses != []));
      }
    case _ =>
  }

  lemma NextAges(c: Config, s: State, step: Step, begun: nat -> Instant, write: Instant)
    requires AgesRight(c, s, begun, write)
    ensures AgesRight(c, Next(c, s, step), ReadsAfter(s, step, begun), WriteAfter(s, step, write))
  {
    hide *;
    if step.BeginRead? || step.CheckFresh? || step.Answer? || step.EndRead? || step.Tick? {
      NextReadAges(c, s, step, begun, write);
    } else {
      NextWriteAges(c, s, step, begun, write);
    }
  }

  lemma {:induction false} RunAges(c: Config, now: Instant, steps: seq<Step>)
    ensures var start := Start(now);
      AgesRight(c, Run(c, start, steps), task => ReadBegan(c, start, steps, task), WriteBegan(c, start, steps))
    decreases |steps|
  {
    if steps != [] {
      var start, init, last := Start(now), steps[..|steps| - 1], steps[|steps| - 1];
      RunAges(c, now, init);
      var begun, mid := (task: nat) => ReadBegan(c, start, init, task), Run(c, start, init);
      NextAges(c, mid, last, begun, WriteBegan(c, start, init));
      hide AgesRight, Next;
      AgesDependOnReads(c, Next(c, mid, last), ReadsAfter(mid, last, begun),
                        task => ReadBegan(c, start, steps, task), WriteBegan(c, start, steps));
    }
  }

  lemma AgesDependOnReads(c: Config, s: State, f: nat -> Instant, g: nat -> Instant, write: Instant)
    requires AgesRight(c, s, f, write) && forall task :: f(task) == g(task)
    ensures AgesRight(c, s, g, write)
  {
  }

  /** Whatever came before, the outcomes behind an answer were within their reuse windows when the reader or
      the writer that gives it began, or are later still. */
  lemma AnswersAreYoung(c: Config, now: Instant, steps: seq<Step>, step: Step, networks: seq<Network>)
    requires var s := Run(c, Start(now), steps); Next(c, s, step).log == s.log + [Answered(networks)]
    ensures step.Answer? || step == Finish
    ensures var s := Run(c, Start(now), steps);
      var began := if step == Finish then WriteBegan(c, Start(now), steps)
                   else ReadBegan(c, Start(now), steps, step.task);
      began <= s.now && forall i :: 0 <= i < |c.hostnames| ==>
        Latest(s.log, c.hostnames[i]).Some? && Young(c, Latest(s.log, c.hostnames[i]).value, began)
  {
    var s := Run(c, Start(now), steps);
    RunAges(c, now, steps);
    RunKeepsGood(c, Start(now), steps);
    GoodLatest(c, s);
    hide Latest, Merged, Young, Good, Run;
    assert s.log + [Answered(networks)] != s.log && (s.log + [Answered(networks)])[|s.log|] == Answered(networks);
  }
}
