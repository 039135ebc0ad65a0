/** The `since` filter as a replication protocol: a consumer that polls with `include_deleted` and the
    whole seconds of its previous poll, and lays each answer over what it holds. */
module DeltaSync {
  import opened Common
  import opened Lineage
  import opened Guards
  import opened Rights
  import opened Addresses
  import opened Records
  import opened Batch
  import opened ListIps
  import opened RecordRuns

  /** Which groups a consumer follows, and whether it polls as the master. */
  datatype View = View(groups: set<Id>, isMaster: bool)

  /** What is replicated per membership: the address and its row, the deleter only for the master. */
  datatype Copy = Copy(address: Address, record: Record)

  type Table = map<(Id, Id), Copy>

  ghost predicate Listable(c: Core, m: (Id, Id), v: View) {
    m in c.members && m.1 in v.groups && FindById(c.records, m.0).Some?
  }

  function AsSeen(r: Record, v: View): Record { if v.isMaster then r else r.(deletedBy := None) }

  ghost function CopyOf(c: Core, id: Id, v: View): Copy
    requires FindById(c.records, id).Some?
  {
    var a := FindById(c.records, id).value;
    Copy(a, AsSeen(c.records[a], v))
  }

  /** The server's membership and record table, over the groups the consumer follows. */
  ghost function ServerTable(c: Core, v: View): Table {
    map m | m in c.members && Listable(c, m, v) :: CopyOf(c, m.0, v)
  }

  /** The listing under `include_deleted` and `since`, keyed by membership. */
  ghost function Poll(c: Core, v: View, since: Option<int>): Table {
    map m | m in c.members && Listable(c, m, v)
            && (since.Some? ==> InWindow(CopyOf(c, m.0, v).record, since.value, true)) :: CopyOf(c, m.0, v)
  }

  // ---------- A poll is a request ----------

  /** The consumer's request: at most the groups by name, the cutoff, deleted records too, on one page. */
  function PollFilters(names: Option<string>, since: Option<int>, limit: nat): Filters {
    Filters(names, None, None, _ => true, _ => true, None, None,
            if since.Some? then Some(Since(since.value, true)) else None, limit, 0, false, true, false)
  }

  /** The response row of a copy. */
  function RowOf(rights: Tables, m: (Id, Id), copy: Copy, v: View): ResponseRow
    requires m.1 in rights.groups
  {
    ItemOf(rights.groups[m.1], copy.address, copy.record, v.isMaster)
  }

  ghost predicate RowOfSome(rights: Tables, row: ResponseRow, table: Table, v: View) {
    exists m :: m in table && m.1 in rights.groups && row == RowOf(rights, m, table[m], v)
  }

  /** And back: a row holds everything a copy does. */
  function ReadRow(row: ResponseRow): Copy {
    Copy(row.address, Record(row.id, row.cause, row.isLocked, row.createdAt, row.updatedAt, row.lastSeenAt,
                             row.isDeleted, row.deletedAt, row.deletedBy))
  }

  lemma {:induction false} DistinctFit<T>(items: seq<T>, s: set<T>)
    requires forall i, j :: 0 <= i < j < |items| ==> items[i] != items[j]
    requires forall i :: 0 <= i < |items| ==> items[i] in s
    ensures |items| <= |s|
  {
    if items != [] {
      var init, last := items[..|items| - 1], items[|items| - 1];
      DistinctFit(init, s - {last});
    }
  }

  /** One page holds every hit: there are no more hits than memberships. */
  lemma OnePageSuffices(rows: seq<Hit>, st: Store, isMaster: bool, scope: Option<set<Id>>, f: Filters, now: Time)
    requires Orders(rows, st, isMaster, scope, f, now)
    ensures |rows| <= |st.core.members|
  {
    var members := seq(|rows|, i requires 0 <= i < |rows| => rows[i].member);
    forall i | 0 <= i < |rows| ensures Hits(st, isMaster, scope, f, now, rows[i]) { assert rows[i] in rows; }
    DistinctFit(members, st.core.members);
  }

  lemma HitsAreTheCopies(st: Store, v: View, scope: Option<set<Id>>, f: Filters, since: Option<int>, now: Time,
                         hit: Hit)
    requires scope == Some(v.groups) || (scope == None && v.groups == st.rights.groups.Keys)
    requires v.groups <= st.rights.groups.Keys && f == PollFilters(f.groups, since, f.limit)
    ensures Hits(st, v.isMaster, scope, f, now, hit)
       <==> hit.member in Poll(st.core, v, since)
            && hit.item == RowOf(st.rights, hit.member, Poll(st.core, v, since)[hit.member], v)
  {
  }

  /** What the listing answers to that request are the poll's rows, all of them and nothing else, and each
      row gives back its copy. */
  lemma PollIsTheListing(st: Store, me: Id, v: View, names: Option<string>, since: Option<int>, limit: nat, now: Time,
                         answer: Answer)
    requires me in st.rights.keys && v.isMaster == st.rights.keys[me].isMaster
    requires v.groups <= st.rights.groups.Keys && |st.core.members| <= limit
    requires var scope := Scope(st.rights, me, v.isMaster, PollFilters(names, since, limit));
      scope == Some(v.groups) || (scope == None && v.groups == st.rights.groups.Keys)
    requires MayAnswer(st, me, PollFilters(names, since, limit), now, answer)
    ensures answer.Bare?
    ensures forall row :: row in answer.items <==> RowOfSome(st.rights, row, Poll(st.core, v, since), v)
    ensures forall m :: m in Poll(st.core, v, since) ==>
      ReadRow(RowOf(st.rights, m, Poll(st.core, v, since)[m], v)) == Poll(st.core, v, since)[m]
  {
    var f := PollFilters(names, since, limit);
    var scope := Scope(st.rights, me, v.isMaster, f);
    if scope != Some({}) && (v.isMaster || Readable(st.rights, me) != {}) {
      var rows :| Orders(rows, st, v.isMaster, scope, f, now) && answer == Render(f, rows);
      OnePageSuffices(rows, st, v.isMaster, scope, f, now);
      assert rows[0..|rows|] == rows;
      RowsAreTheCopies(st, v, scope, f, since, now, rows, answer);
    }
  }

  lemma RowsAreTheCopies(st: Store, v: View, scope: Option<set<Id>>, f: Filters, since: Option<int>, now: Time,
                         rows: seq<Hit>, answer: Answer)
    requires scope == Some(v.groups) || (scope == None && v.groups == st.rights.groups.Keys)
    requires v.groups <= st.rights.groups.Keys && f == PollFilters(f.groups, since, f.limit)
    requires Orders(rows, st, v.isMaster, scope, f, now)
    requires answer.Bare? && |answer.items| == |rows| && forall i :: 0 <= i < |rows| ==> answer.items[i] == rows[i].item
    ensures forall row :: row in answer.items <==> RowOfSome(st.rights, row, Poll(st.core, v, since), v)
  {
    var poll := Poll(st.core, v, since);
    forall hit ensures hit in rows
       <==> hit.member in poll && hit.item == RowOf(st.rights, hit.member, poll[hit.member], v) {
      HitsAreTheCopies(st, v, scope, f, since, now, hit);
    }
    hide Orders, Hits, Poll, RowOf;
    forall m | m in poll ensures RowOf(st.rights, m, poll[m], v) in answer.items {
      var hit := Hit(m, RowOf(st.rights, m, poll[m], v));
      var i :| 0 <= i < |rows| && rows[i] == hit;
      assert answer.items[i] == hit.item;
    }
    forall i | 0 <= i < |rows|
      ensures rows[i].member in poll && answer.items[i] == RowOf(st.rights, rows[i].member, poll[rows[i].member], v)
    {
      assert rows[i] in rows;
    }
  }

  function WholeSeconds(t: Time): int { t / SECONDS }

  /** The operations of the history: registrations, soft deletes by id, batches without their own
      sighting, update or deletion times. */
  predicate Replicable(op: Op) {
    match op
    case OpUpsert(_, _, _, _) => true
    case OpBatch(_, _, p) =>
      forall i :: 0 <= i < |p.entries| ==>
        p.entries[i].updatedAt.None? && p.entries[i].lastSeenAt.None? && p.entries[i].deletedAt.None?
    case OpDelete(_, _, _, hard) => !hard
    case _ => false
  }

  // ---------- What an operation touches ----------

  ghost predicate NewLink(before: Core, after: Core, a: Address, g: Id)
    requires a in after.records
  {
    (after.records[a].id, g) in after.members && (after.records[a].id, g) !in before.members
  }

  /** A row as a write at `now` leaves it: just deleted, or live and just seen. */
  predicate Stamped(r: Record, now: Time) { if r.isDeleted then r.deletedAt == Some(now) else r.lastSeenAt == now }

  /** Every record the operation changed or linked carries its stamp, and nothing was taken away. */
  ghost predicate Touches(before: Core, after: Core, now: Time) {
    && before.members <= after.members
    && (forall a :: a in before.records ==> a in after.records && after.records[a].id == before.records[a].id)
    && (forall a :: a in before.records && after.records[a] != before.records[a] ==> Stamped(after.records[a], now))
    && (forall a, g :: a in after.records && NewLink(before, after, a, g) ==> Stamped(after.records[a], now))
  }

  lemma TouchesNothing(c: Core, now: Time)
    ensures Touches(c, c, now)
  {
  }

  lemma RegisterTouches(c: Core, a: Address, cause: Option<string>, now: Time, g: Id, group: Group,
                        white: bool)
    requires WellKept(c)
    ensures Touches(c, RegisterCore(c, a, cause, now, g, group, white).0, now)
  {
    var after := RegisterCore(c, a, cause, now, g, group, white).0;
    forall b | b in c.records ensures after.records[b].id == c.records[b].id {}
    assert Stamped(after.records[a], now);
    forall b | b in after.records && b != a ensures after.records[b].id != after.records[a].id {}
  }

  lemma UpsertTouches(st: Store, me: Id, now: Time, p: UpsertPayload, white: bool)
    requires WellKept(st.core) && me in st.rights.keys
    ensures Touches(st.core, Upsert(st, me, now, p, white).0.core, now)
  {
    hide WellKept, Touches, RegisterCore;
    TouchesNothing(st.core, now);
    if p.target.Some? {
      forall g, group
        ensures Touches(st.core,
                        RegisterCore(st.core, Normalize(p.target.value), p.cause, now, g, group, white).0, now)
      {
        RegisterTouches(st.core, Normalize(p.target.value), p.cause, now, g, group, white);
      }
    }
  }

  lemma SoftDeleteTouches(st: Store, me: Id, now: Time, id: Id)
    requires me in st.rights.keys
    ensures Touches(st.core, DeleteRecord(st, me, id, false, now).0.core, now)
  {
    hide MayDelete;
  }

  /** A membership the loop added belongs to a listed, unlocked address. */
  lemma NewLinkIsListed(before: Core, after: Core, items: seq<Item>, ctx: Context, a: Address, g: Id)
    requires RowsAfter(before, after, items, ctx) && LinksAfter(before, after, items, ctx.g)
    requires a in after.records && NewLink(before, after, a, g)
    ensures a in Listed(items) && !Locked(before, a)
  {
    hide RowAfter, Listed;
  }

  lemma LoopTouches(before: Core, after: Core, items: seq<Item>, ctx: Context)
    requires RowsAfter(before, after, items, ctx) && LinksAfter(before, after, items, ctx.g)
    requires forall i :: 0 <= i < |items| ==> items[i].entry.lastSeenAt.None? && items[i].entry.deletedAt.None?
    ensures Touches(before, after, ctx.now)
  {
    forall a | a in Listed(items) && !Locked(before, a)
      ensures a in after.records && Stamped(after.records[a], ctx.now)
    {
      var i :| 0 <= i < |items| && items[i].address == a;
      assert RowAfter(before, after, items[i], ctx);
    }
    forall a | a in Listed(items) && Locked(before, a)
      ensures after.records[a] == before.records[a]
    {
      var i :| 0 <= i < |items| && items[i].address == a;
      assert RowAfter(before, after, items[i], ctx);
    }
    forall a, g | a in after.records && NewLink(before, after, a, g)
      ensures Stamped(after.records[a], ctx.now)
    {
      NewLinkIsListed(before, after, items, ctx, a, g);
    }
    hide Stamped, Listed, RowAfter;
  }

  lemma SweepTouches(c: Core, swept: set<Address>, ctx: Context)
    ensures Touches(c, SweepRecords(c, swept, ctx), ctx.now)
  {
    var after := SweepRecords(c, swept, ctx);
    forall a | a in c.records && after.records[a] != c.records[a]
      ensures Stamped(after.records[a], ctx.now)
    {
      assert after.records[a] == SoftDeleted(c.records[a], ctx.me, ctx.now);
    }
    assert forall a, g :: a in after.records ==> !NewLink(c, after, a, g);
  }

  lemma TouchesCompose(a: Core, b: Core, c: Core, now: Time)
    requires Touches(a, b, now) && Touches(b, c, now)
    requires forall x :: x in c.records ==> x in b.records
    ensures Touches(a, c, now)
  {
    hide Stamped;
    forall x, g | x in c.records && NewLink(a, c, x, g)
      ensures Stamped(c.records[x], now)
    {
      assert c.records[x].id == b.records[x].id;
      assert NewLink(a, b, x, g) || NewLink(b, c, x, g);
    }
  }

  lemma CommitTouches(st: Store, items: seq<Item>, mode: Mode, ctx: Context)
    requires WellKept(st.core) && CanonicalItems(items) && Distinct(items)
    requires forall i :: 0 <= i < |items| ==> items[i].entry.lastSeenAt.None? && items[i].entry.deletedAt.None?
    ensures Touches(st.core, Commit(st, items, mode, ctx).store.core, ctx.now)
  {
    FoldEffect(st.core, items, ctx);
    var mid := Fold(st.core, items, ctx).core;
    hide Fold, Swept, Touches, RowsAfter, LinksAfter, Distinct, CanonicalItems, WellKept, Listed;
    LoopTouches(st.core, mid, items, ctx);
    if mode.FullReplace? {
      var swept := Swept(mid, Listed(items), ctx.g);
      SweepTouches(mid, swept, ctx);
      TouchesCompose(st.core, mid, SweepRecords(mid, swept, ctx), ctx.now);
    }
  }

  lemma BatchTouches(st: Store, me: Id, now: Time, p: Payload)
    requires WellKept(st.core) && me in st.rights.keys
    requires Replicable(OpBatch(me, now, p))
    ensures Touches(st.core, BatchRecords(st, me, now, p).store.core, now)
  {
    TouchesNothing(st.core, now);
    if AllParse(p.entries) && Distinct(Items(p.entries)) {
      ItemsAreCanonical(p.entries);
      var items := Items(p.entries);
      assert forall i :: 0 <= i < |items| ==> items[i].entry.lastSeenAt.None? && items[i].entry.deletedAt.None?;
      hide Commit, Touches, WellKept, Admit, Items, CanonicalItems, Distinct, BannableAddress;
      forall rights, g, group
        ensures Touches(st.core, Commit(st.(rights := rights), items, p.mode,
                                           Context(me, now, g, group, p.skipWebhooks)).store.core, now)
      {
        CommitTouches(st.(rights := rights), items, p.mode, Context(me, now, g, group, p.skipWebhooks));
      }
    }
  }

  lemma OperationTouches(st: Store, op: Op)
    requires WellKept(st.core) && Replicable(op)
    ensures Touches(st.core, Perform(st, op).core, op.now)
  {
    hide Touches, WellKept, Upsert, BatchRecords, DeleteRecord;
    TouchesNothing(st.core, op.now);
    match op
    case OpUpsert(me, now, p, white) => if me in st.rights.keys { UpsertTouches(st, me, now, p, white); }
    case OpBatch(me, now, p) => if me in st.rights.keys { BatchTouches(st, me, now, p); }
    case OpDelete(me, now, id, _) => if me in st.rights.keys { SoftDeleteTouches(st, me, now, id); }
  }

  // ---------- The consumer ----------

  /** Between polls: the consumer's table is part of the server's, and whatever differs would be in the
      next answer. */
  ghost predicate Lags(local: Table, server: Table, since: Option<int>) {
    && local.Keys <= server.Keys
    && forall m :: m in server ==>
         (m in local && local[m] == server[m]) || (since.Some? ==> InWindow(server[m].record, since.value, true))
  }

  /** What an operation added to a table or rewrote in it. */
  ghost predicate Changed(before: Table, after: Table, m: (Id, Id))
    requires m in after
  {
    m !in before || before[m] != after[m]
  }

  /** The operation wrote the record at a, or linked it to g. */
  ghost predicate Wrote(before: Core, after: Core, a: Address, g: Id)
    requires a in after.records
  {
    (a in before.records && after.records[a] != before.records[a]) || NewLink(before, after, a, g)
  }

  /** A changed row of the table is a written record. */
  lemma TableGrows(before: Core, after: Core, v: View)
    requires WellKept(before) && WellKept(after) && before.members <= after.members
    requires forall a :: a in before.records ==> a in after.records && after.records[a].id == before.records[a].id
    ensures ServerTable(before, v).Keys <= ServerTable(after, v).Keys
    ensures forall m :: m in ServerTable(after, v) && Changed(ServerTable(before, v), ServerTable(after, v), m) ==>
      var copy := ServerTable(after, v)[m];
      copy.address in after.records && Wrote(before, after, copy.address, m.1)
      && copy.record.(deletedBy := None) == after.records[copy.address].(deletedBy := None)
  {
    var s, t := ServerTable(before, v), ServerTable(after, v);
    forall m | m in s
      ensures m in t
    {
      var a := FindById(before.records, m.0).value;
      RecordHeld(after.records, a);
    }
    forall m | m in t && Changed(s, t, m)
      ensures t[m].address in after.records && Wrote(before, after, t[m].address, m.1)
    {
      var a := FindById(after.records, m.0).value;
      if m in before.members {
        assert exists b :: b in before.records && before.records[b].id == m.0;
        var b := FindById(before.records, m.0).value;
        assert after.records[b].id == after.records[a].id;
        assert a == b;
      }
    }
  }

  /** A write shows in the window exactly when it was made in it, or deleted something seen in it. */
  lemma StampInWindow(r: Record, now: Time, since: int)
    requires Stamped(r, now)
    ensures InWindow(r, since, true) <==> now >= since * SECONDS || (r.isDeleted && r.lastSeenAt >= since * SECONDS)
  {
  }

  /** A poll brings a lagging consumer level. */
  lemma PollCatchesUp(local: Table, c: Core, v: View, since: Option<int>)
    requires Lags(local, ServerTable(c, v), since)
    ensures local + Poll(c, v, since) == ServerTable(c, v)
  {
    hide InWindow;
  }

  datatype Act = Serve(op: Op) | PollAt(at: Time)

  /** The store, what the consumer holds, and when it last polled. */
  datatype Sync = Sync(st: Store, local: Table, last: Option<Time>)

  function Cutoff(last: Option<Time>): Option<int> { if last.Some? then Some(WholeSeconds(last.value)) else None }

  ghost function ActOn(s: Sync, act: Act, v: View): Sync {
    match act
    case Serve(op) => s.(st := Perform(s.st, op))
    case PollAt(at) => Sync(s.st, s.local + Poll(s.st.core, v, Cutoff(s.last)), Some(at))
  }

  ghost function RunSync(s: Sync, acts: seq<Act>, v: View): Sync
    decreases |acts|
  {
    if acts == [] then s else RunSync(ActOn(s, acts[0], v), acts[1..], v)
  }

  /** Only replicable operations, and none stamped before the whole second of the last poll. A clock that
      does not go back, read by a request that starts after the poll, satisfies this. */
  ghost predicate FollowedHistory(s: Sync, acts: seq<Act>, v: View)
    decreases |acts|
  {
    acts == []
    || ((acts[0].Serve? ==> Replicable(acts[0].op)
                            && (s.last.Some? ==> acts[0].op.now >= WholeSeconds(s.last.value) * SECONDS))
        && FollowedHistory(ActOn(s, acts[0], v), acts[1..], v))
  }

  ghost predicate InStep(s: Sync, v: View) {
    WellKept(s.st.core) && Lags(s.local, ServerTable(s.st.core, v), Cutoff(s.last))
  }

  /** The tables before and after one replicable operation. */
  lemma OperationGrows(st: Store, op: Op, v: View)
    requires WellKept(st.core) && Replicable(op)
    ensures WellKept(Perform(st, op).core)
    ensures var s, t := ServerTable(st.core, v), ServerTable(Perform(st, op).core, v);
      s.Keys <= t.Keys && forall m :: m in t && Changed(s, t, m) ==> Stamped(t[m].record, op.now)
  {
    hide Perform, Replicable, WellKept, ServerTable, Changed;
    PerformKeepsForm(st, op);
    OperationTouches(st, op);
    TableGrows(st.core, Perform(st, op).core, v);
  }

  lemma ServeKeepsStep(s: Sync, op: Op, v: View)
    requires InStep(s, v) && Replicable(op)
    requires s.last.Some? ==> op.now >= WholeSeconds(s.last.value) * SECONDS
    ensures InStep(ActOn(s, Serve(op), v), v)
  {
    OperationGrows(s.st, op, v);
    var before, after := ServerTable(s.st.core, v), ServerTable(Perform(s.st, op).core, v);
    hide Perform, Replicable, WellKept, ServerTable;
    if s.last.Some? {
      forall m | m in after && Changed(before, after, m)
        ensures InWindow(after[m].record, WholeSeconds(s.last.value), true)
      {
        StampInWindow(after[m].record, op.now, WholeSeconds(s.last.value));
      }
    }
    hide InWindow, Stamped, WholeSeconds;
  }

  lemma {:induction false} RunKeepsStep(s: Sync, acts: seq<Act>, v: View)
    requires InStep(s, v) && FollowedHistory(s, acts, v)
    ensures InStep(RunSync(s, acts, v), v)
    decreases |acts|
  {
    if acts != [] {
      var next := ActOn(s, acts[0], v);
      match acts[0] {
        case Serve(op) => ServeKeepsStep(s, op, v);
        case PollAt(_) =>
          PollCatchesUp(s.local, s.st.core, v, Cutoff(s.last));
          assert InStep(next, v);
      }
      hide InStep, ActOn;
      RunKeepsStep(next, acts[1..], v);
    }
  }

  /** After every poll of such a history the consumer holds exactly the server's table. */
  lemma ConsumerIsLevelAfterEveryPoll(st: Store, acts: seq<Act>, v: View, at: Time)
    requires WellKept(st.core)
    requires FollowedHistory(Sync(st, map[], None), acts, v)
    ensures var s := RunSync(Sync(st, map[], None), acts, v);
      ActOn(s, PollAt(at), v).local == ServerTable(s.st.core, v)
  {
    var start := Sync(st, map[], None);
    assert InStep(start, v);
    RunKeepsStep(start, acts, v);
    var s := RunSync(start, acts, v);
    PollCatchesUp(s.local, s.st.core, v, Cutoff(s.last));
  }

  // ---------- Exactly when one operation is missed ----------

  ghost predicate Level(s: Sync, v: View) { s.local == ServerTable(s.st.core, v) }

  /** A row replicates late only if it was deleted after a sighting the window still covers. */
  predicate DeletedAfterSighting(r: Record, since: int) { r.isDeleted && r.lastSeenAt >= since * SECONDS }

  /** One replicable operation on a level consumer, then a poll: level again exactly when the operation was
      stamped no earlier than the whole second of the last poll, or all it changed in the followed groups are
      deletions of records sighted since (nothing at all, for one). */
  lemma LevelAfterOneOperation(s: Sync, op: Op, v: View, at: Time)
    requires WellKept(s.st.core) && Level(s, v) && s.last.Some? && Replicable(op)
    ensures var since := WholeSeconds(s.last.value);
      var before, after := ServerTable(s.st.core, v), ServerTable(Perform(s.st, op).core, v);
      Level(ActOn(ActOn(s, Serve(op), v), PollAt(at), v), v)
      <==> op.now >= since * SECONDS
           || forall m :: m in after && Changed(before, after, m) ==> DeletedAfterSighting(after[m].record, since)
  {
    OperationGrows(s.st, op, v);
    var since := WholeSeconds(s.last.value);
    var before, core := ServerTable(s.st.core, v), Perform(s.st, op).core;
    hide Perform, Replicable, WellKept, WholeSeconds;
    var after := ServerTable(core, v);
    forall m | m in after && Changed(before, after, m)
      ensures InWindow(after[m].record, since, true)
         <==> op.now >= since * SECONDS || DeletedAfterSighting(after[m].record, since)
    {
      StampInWindow(after[m].record, op.now, since);
    }
    hide InWindow, Stamped, DeletedAfterSighting;
    LevelExactly(before, core, v, since);
  }

  /** Laying a poll over the earlier table gives the later one exactly when the poll holds all that changed. */
  lemma LevelExactly(before: Table, core: Core, v: View, since: int)
    requires before.Keys <= ServerTable(core, v).Keys
    ensures var after := ServerTable(core, v);
      before + Poll(core, v, Some(since)) == after
      <==> forall m :: m in after && Changed(before, after, m) ==> InWindow(after[m].record, since, true)
  {
    hide InWindow;
    var after, polled := ServerTable(core, v), before + Poll(core, v, Some(since));
    if forall m :: m in after && Changed(before, after, m) ==> InWindow(after[m].record, since, true) {
      assert forall m :: m in after ==> m in polled && polled[m] == after[m];
      assert polled == after;
    }
    if polled == after {
      forall m | m in after && Changed(before, after, m) ensures InWindow(after[m].record, since, true) {
        assert polled[m] == after[m];
      }
    }
  }

  lemma RegisterLeavesLive(c: Core, b: Address, cause: Option<string>, now: Time, g: Id, group: Group, white: bool)
    requires WellKept(c)
    ensures var after := RegisterCore(c, b, cause, now, g, group, white).0;
      forall a, h :: a in after.records && Wrote(c, after, a, h) ==> !after.records[a].isDeleted
  {
    var after := RegisterCore(c, b, cause, now, g, group, white).0;
    forall a | a in after.records && a != b ensures after.records[a].id != after.records[b].id {}
  }

  lemma UpsertLeavesLive(st: Store, me: Id, now: Time, p: UpsertPayload, white: bool)
    requires WellKept(st.core) && me in st.rights.keys
    ensures var after := Upsert(st, me, now, p, white).0.core;
      forall a, h :: a in after.records && Wrote(st.core, after, a, h) ==> !after.records[a].isDeleted
  {
    hide WellKept, RegisterCore;
    if p.target.Some? {
      forall g, group
        ensures var after := RegisterCore(st.core, Normalize(p.target.value), p.cause, now, g, group, white).0;
          forall a, h :: a in after.records && Wrote(st.core, after, a, h) ==> !after.records[a].isDeleted
      {
        RegisterLeavesLive(st.core, Normalize(p.target.value), p.cause, now, g, group, white);
      }
    }
  }

  lemma RegistrationChangesLive(st: Store, me: Id, now: Time, p: UpsertPayload, white: bool, v: View)
    requires WellKept(st.core)
    ensures var before, after := ServerTable(st.core, v), ServerTable(Perform(st, OpUpsert(me, now, p, white)).core, v);
      before.Keys <= after.Keys && forall m :: m in after && Changed(before, after, m) ==> !after[m].record.isDeleted
  {
    var op := OpUpsert(me, now, p, white);
    PerformKeepsForm(st, op);
    OperationTouches(st, op);
    if me in st.rights.keys {
      UpsertLeavesLive(st, me, now, p, white);
      hide Upsert, ServerTable, WellKept, Wrote, Changed;
      TableGrows(st.core, Perform(st, op).core, v);
    }
  }

  // ---------- The same on the store before ----------

  /** Registering a in g shows to the consumer: it follows g and the link is new, or it follows the record
      through some membership, g's included, and the sighting alters it. */
  ghost predicate ShowsRegistration(c: Core, a: Address, cause: Option<string>, now: Time, g: Id, v: View) {
    if a !in c.records then g in v.groups
    else
      || (g in v.groups && (c.records[a].id, g) !in c.members)
      || (AsSeen(Registered(c.records[a], cause, now), v) != AsSeen(c.records[a], v)
          && exists h :: h in v.groups && (h == g || (c.records[a].id, h) in c.members))
  }

  /** A membership's copy, by the address of its record. */
  lemma TableAt(c: Core, v: View, a: Address, g: Id)
    requires WellKept(c) && a in c.records
    ensures var m := (c.records[a].id, g);
      (m in ServerTable(c, v) <==> m in c.members && g in v.groups)
      && (m in ServerTable(c, v) ==> ServerTable(c, v)[m] == Copy(a, AsSeen(c.records[a], v)))
  {
    RecordHeld(c.records, a);
  }

  lemma MemberHasRecord(c: Core, m: (Id, Id)) returns (a: Address)
    requires WellKept(c) && m in c.members
    ensures a in c.records && c.records[a].id == m.0
  {
    a :| a in c.records && c.records[a].id == m.0;
  }

  lemma RegisterEffect(c: Core, a: Address, cause: Option<string>, now: Time, g: Id, group: Group, white: bool)
    ensures var after := RegisterCore(c, a, cause, now, g, group, white).0;
      var r := if a in c.records then Registered(c.records[a], cause, now) else NewRecord(c.next, cause, now);
      after.records == c.records[a := r] && after.members == c.members + {(r.id, g)}
      && (a in c.records ==> r.id == c.records[a].id)
  {
  }

  /** A registration between two stores that changes nothing the consumer sees. */
  ghost predicate Unshown(c: Core, after: Core, a: Address, cause: Option<string>, now: Time, g: Id, v: View) {
    var r := if a in c.records then Registered(c.records[a], cause, now) else NewRecord(c.next, cause, now);
    && WellKept(c) && WellKept(after) && !ShowsRegistration(c, a, cause, now, g, v)
    && after.records == c.records[a := r] && after.members == c.members + {(r.id, g)}
    && (a in c.records ==> r.id == c.records[a].id)
  }

  /** One membership of one record. */
  lemma UnshownAt(c: Core, after: Core, a: Address, cause: Option<string>, now: Time, g: Id, v: View, b: Address, h: Id)
    requires b in after.records
    ensures Unshown(c, after, a, cause, now, g, v) && (after.records[b].id, h) in after.members ==>
      var m := (after.records[b].id, h); var (s, t) := (ServerTable(c, v), ServerTable(after, v));
      (m in s <==> m in t) && (m in s && m in t ==> s[m] == t[m])
  {
    if Unshown(c, after, a, cause, now, g, v) && (after.records[b].id, h) in after.members {
      TableAt(after, v, b, h);
      if b in c.records { TableAt(c, v, b, h); } else { NewIdIsUnlinked(c); }
      hide WellKept, Registered, AsSeen, ServerTable;
      if b != a { assert after.records[b].id != after.records[a].id by { IdsDiffer(after, a, b); } }
      if b !in c.records {
        assert h == g && (after.records[b].id, h) !in ServerTable(c, v) by { TableInMembers(c, v); }
      }
    }
  }

  lemma IdsDiffer(c: Core, a: Address, b: Address)
    requires WellKept(c) && a in c.records && b in c.records && a != b
    ensures c.records[a].id != c.records[b].id
  {
  }

  lemma TableInMembers(c: Core, v: View)
    ensures ServerTable(c, v).Keys <= c.members
  {
  }

  lemma TablesAgree(s: Table, t: Table, members: set<(Id, Id)>)
    requires s.Keys <= members && t.Keys <= members
    requires forall m :: m in members ==> (m in s <==> m in t) && (m in s && m in t ==> s[m] == t[m])
    ensures s == t
  {
  }

  lemma UnshownLeavesTable(c: Core, a: Address, cause: Option<string>, now: Time, g: Id, group: Group, white: bool,
                           v: View)
    requires WellKept(c) && Canonical(a) && !ShowsRegistration(c, a, cause, now, g, v)
    ensures ServerTable(RegisterCore(c, a, cause, now, g, group, white).0, v) == ServerTable(c, v)
  {
    hide RegisterCore, WellKept, Registered, ServerTable, ShowsRegistration;
    var after := RegisterCore(c, a, cause, now, g, group, white).0;
    RegisterKeepsForm(c, a, cause, now, g, group, white);
    RegisterEffect(c, a, cause, now, g, group, white);
    assert Unshown(c, after, a, cause, now, g, v);
    hide *;
    TableInMembers(c, v);
    TableInMembers(after, v);
    forall m | m in after.members
      ensures var (s, t) := (ServerTable(c, v), ServerTable(after, v));
        (m in s <==> m in t) && (m in s && m in t ==> s[m] == t[m])
    {
      var b := MemberHasRecord(after, m);
      UnshownAt(c, after, a, cause, now, g, v, b, m.1);
    }
    TablesAgree(ServerTable(after, v), ServerTable(c, v), after.members);
  }

  lemma ShownChangesTable(c: Core, a: Address, cause: Option<string>, now: Time, g: Id, group: Group, white: bool,
                          v: View)
    requires WellKept(c) && Canonical(a) && ShowsRegistration(c, a, cause, now, g, v)
    ensures ServerTable(RegisterCore(c, a, cause, now, g, group, white).0, v) != ServerTable(c, v)
  {
    var after := RegisterCore(c, a, cause, now, g, group, white).0;
    RegisterKeepsForm(c, a, cause, now, g, group, white);
    RegisterEffect(c, a, cause, now, g, group, white);
    NewIdIsUnlinked(c);
    TableInMembers(c, v);
    hide WellKept, Registered, AsSeen, RegisterCore, ServerTable;
    if a !in c.records || (g in v.groups && (c.records[a].id, g) !in c.members) {
      TableAt(after, v, a, g);
      assert (after.records[a].id, g) !in c.members;
    } else {
      var h :| h in v.groups && (h == g || (c.records[a].id, h) in c.members);
      TableAt(after, v, a, h);
      TableAt(c, v, a, h);
    }
  }

  /** Where a ban or whitelist request that passes its checks goes. */
  ghost function TargetGroup(st: Store, p: UpsertPayload): Id {
    var resolved := ResolveGroup(st.rights.groups, p.groupId, p.groupName);
    if resolved.Ok? && resolved.value.Some? then resolved.value.value else st.rights.next
  }

  /** The request is admitted, its address is not locked, and the consumer sees what it registers. */
  ghost predicate ShowsRequest(st: Store, me: Id, now: Time, p: UpsertPayload, white: bool, v: View) {
    && me in st.rights.keys && Upsert(st, me, now, p, white).1 == Done
    && ShowsRegistration(st.core, Normalize(p.target.value), p.cause, now, TargetGroup(st, p), v)
  }

  lemma RequestRegisters(st: Store, me: Id, now: Time, p: UpsertPayload, white: bool)
    requires me in st.rights.keys
    ensures var (after, o, _) := Upsert(st, me, now, p, white);
      if o != Done then after.core == st.core
      else
        p.target.Some? && TargetGroup(st, p) in after.rights.groups
        && after.core == RegisterCore(st.core, Normalize(p.target.value), p.cause, now, TargetGroup(st, p),
                                      after.rights.groups[TargetGroup(st, p)], white).0
  {
    hide RegisterCore, Bannable, MayWrite, TypeMatches;
  }

  lemma RequestShowsExactly(st: Store, me: Id, now: Time, p: UpsertPayload, white: bool, v: View)
    requires WellKept(st.core)
    ensures ServerTable(Perform(st, OpUpsert(me, now, p, white)).core, v) == ServerTable(st.core, v)
       <==> !ShowsRequest(st, me, now, p, white, v)
  {
    if me in st.rights.keys {
      RequestRegisters(st, me, now, p, white);
      var (after, o, _) := Upsert(st, me, now, p, white);
      hide WellKept, Upsert, RegisterCore, ServerTable, ShowsRegistration, TargetGroup;
      if o == Done {
        var a, g := Normalize(p.target.value), TargetGroup(st, p);
        assert Canonical(a);
        if ShowsRegistration(st.core, a, p.cause, now, g, v) {
          ShownChangesTable(st.core, a, p.cause, now, g, after.rights.groups[g], white, v);
        } else {
          UnshownLeavesTable(st.core, a, p.cause, now, g, after.rights.groups[g], white, v);
        }
      }
    }
  }

  /** For a ban or whitelist request, on the store it finds: missed exactly when it is admitted, the consumer
      sees what it registers, and its stamp is from before the second of the last poll. */
  lemma LevelAfterOneRegistration(s: Sync, me: Id, now: Time, p: UpsertPayload, white: bool, v: View, at: Time)
    requires WellKept(s.st.core) && Level(s, v) && s.last.Some?
    ensures Level(ActOn(ActOn(s, Serve(OpUpsert(me, now, p, white)), v), PollAt(at), v), v)
       <==> now >= WholeSeconds(s.last.value) * SECONDS || !ShowsRequest(s.st, me, now, p, white, v)
  {
    var op := OpUpsert(me, now, p, white);
    hide Perform, ServerTable, WellKept, WholeSeconds, Level, ActOn, ShowsRequest;
    LevelAfterOneOperation(s, op, v, at);
    RegistrationChangesLive(s.st, me, now, p, white, v);
    RequestShowsExactly(s.st, me, now, p, white, v);
    var before, after := ServerTable(s.st.core, v), ServerTable(Perform(s.st, op).core, v);
    if forall m :: m in after ==> !Changed(before, after, m) { assert before == after; }
  }

  // An empty store with its master and one whitelist, followed by the master.

  function ToyStore(): Store {
    Store(Tables(map[1 := Key("master", true, NO_SCOPES, None, None)], map[2 := Group("g", "whitelist", None)],
                 map[], map[], 3),
          Core(map[], {}, 0))
  }

  function ToyUpsert(): Op { OpUpsert(1, 0, UpsertPayload(Some(Network(V4, 7, 32)), Some(2), None, None), true) }

  lemma ToyUpsertRegisters()
    ensures Perform(ToyStore(), ToyUpsert()).core == Core(map[Host(V4, 7) := NewRecord(0, None, 0)], {(0, 2)}, 1)
  {
    assert Normalize(Network(V4, 7, 32)) == Host(V4, 7);
    assert Perform(ToyStore(), ToyUpsert()) == Register(ToyStore(), 0, ToyUpsert().upsert, true, 2).0;
    hide Perform;
  }

  /** Such a run: the consumer polls in second 5, a whitelisting stamped in second 0 commits, and the poll in
      second 9 does not bring it. */
  lemma StaleStampIsMissed()
    ensures var v := View({2}, true);
      var polled := ActOn(Sync(ToyStore(), map[], None), PollAt(5 * SECONDS), v);
      var after := ActOn(ActOn(polled, Serve(ToyUpsert()), v), PollAt(9 * SECONDS), v);
      Level(polled, v) && after.local == map[] && (0, 2) in ServerTable(after.st.core, v)
  {
    ToyUpsertRegisters();
    var v := View({2}, true);
    var core := Core(map[Host(V4, 7) := NewRecord(0, None, 0)], {(0, 2)}, 1);
    hide Perform;
    assert FindById(core.records, 0) == Some(Host(V4, 7)) by { assert Host(V4, 7) in core.records; }
    assert (0, 2) in ServerTable(core, v);
    assert Poll(core, v, Some(5)) == map[];
    assert Poll(ToyStore().core, v, None) == map[] == ServerTable(ToyStore().core, v);
  }
}
