/** `POST /api/records/batch` (src/api/records.rs): many records into one group as one transaction. */
module Batch {
  import opened Common
  import opened Lineage
  import opened Guards
  import opened Rights
  import opened Addresses
  import opened Records

  const MAX_BATCH_RECORDS := 10_000

  datatype Mode = UpsertMode | FullReplace

  /** One submitted record; `target` is what its text parses as. */
  datatype Entry = Entry(
    target: Option<Network>, cause: Option<string>, isDeleted: Option<bool>,
    createdAt: Option<Time>, updatedAt: Option<Time>, lastSeenAt: Option<Time>, deletedAt: Option<Time>)

  datatype Payload = Payload(groupName: string, mode: Mode, entries: seq<Entry>, skipWebhooks: bool)

  /** An entry under its canonical address. */
  datatype Item = Item(address: Address, entry: Entry)

  datatype Summary = Summary(created: nat, updated: nat, restored: nat, lockedSkipped: nat, softDeleted: nat,
                             linked: nat)

  const NOTHING := Summary(0, 0, 0, 0, 0, 0)

  /** Who writes, when, and into which group. */
  datatype Context = Context(me: Id, now: Time, g: Id, group: Group, skipWebhooks: bool) {
    function IsWhitelist(): bool { group.groupType == "whitelist" }
  }

  datatype Progress = Progress(core: Core, summary: Summary, events: seq<Event>)

  // ---------- One entry ----------

  function UpdatedBy(r: Record, e: Entry, me: Id, now: Time): Record {
    var seen := r.(lastSeenAt := GetOr(e.lastSeenAt, now), updatedAt := GetOr(e.updatedAt, now),
                   cause := if e.cause.Some? then e.cause else r.cause);
    if e.isDeleted == Some(true) then
      seen.(isDeleted := true, deletedAt := Some(GetOr(e.deletedAt, now)), deletedBy := Some(me))
    else if r.isDeleted then seen.(isDeleted := false, deletedAt := None, deletedBy := None)
    else seen
  }

  function InsertedBy(id: Id, e: Entry, me: Id, now: Time): Record {
    var deleted := GetOr(e.isDeleted, false);
    Record(id, e.cause, false, GetOr(e.createdAt, now), GetOr(e.updatedAt, now), GetOr(e.lastSeenAt, now), deleted,
           if deleted then Some(GetOr(e.deletedAt, now)) else None, if deleted then Some(me) else None)
  }

  /** The record write of an entry whose address is not locked. */
  function WriteEntry(c: Core, item: Item, ctx: Context): (after: Core)
    ensures item.address in after.records
  {
    var a := item.address;
    if a in c.records then c.(records := c.records[a := UpdatedBy(c.records[a], item.entry, ctx.me, ctx.now)])
    else c.(records := c.records[a := InsertedBy(c.next, item.entry, ctx.me, ctx.now)], next := c.next + 1)
  }

  function CountEntry(s: Summary, c: Core, item: Item, newLink: bool): Summary {
    var a := item.address;
    var linked := s.linked + if newLink then 1 else 0;
    if a !in c.records then s.(created := s.created + 1, linked := linked)
    else
      var restores := item.entry.isDeleted != Some(true) && c.records[a].isDeleted;
      s.(updated := s.updated + 1, restored := s.restored + (if restores then 1 else 0), linked := linked)
  }

  function EntryStep(p: Progress, item: Item, ctx: Context): Progress {
    var a := item.address;
    if Locked(p.core, a) then p.(summary := p.summary.(lockedSkipped := p.summary.lockedSkipped + 1))
    else
      var written := WriteEntry(p.core, item, ctx);
      var newLink := !Linked(written, a, ctx.g);
      var event := Event(if newLink then IP_ADD else IP_UPDATE, a, ctx.IsWhitelist(), ctx.g, ctx.group.name,
                         item.entry.cause);
      Progress(Link(written, a, ctx.g), CountEntry(p.summary, p.core, item, newLink),
               if ctx.skipWebhooks then p.events else p.events + [event])
  }

  /** The entry loop. */
  function Fold(c: Core, items: seq<Item>, ctx: Context): Progress {
    if items == [] then Progress(c, NOTHING, [])
    else EntryStep(Fold(c, items[..|items| - 1], ctx), items[|items| - 1], ctx)
  }

  // ---------- The sweep ----------

  function Listed(items: seq<Item>): set<Address> { set i | 0 <= i < |items| :: items[i].address }

  /** Live unlocked members the batch does not list. */
  function Swept(c: Core, listed: set<Address>, g: Id): set<Address> {
    set a | a in c.records && Linked(c, a, g) && !c.records[a].isDeleted && !c.records[a].isLocked && a !in listed
  }

  function SweepRecords(c: Core, swept: set<Address>, ctx: Context): Core {
    c.(records := map a | a in c.records ::
         if a in swept then SoftDeleted(c.records[a], ctx.me, ctx.now) else c.records[a])
  }

  function SweepEvent(a: Address, ctx: Context): Event {
    Event(IP_DELETE, a, ctx.IsWhitelist(), ctx.g, ctx.group.name,
          Some("Removed via batch full_replace synchronisation"))
  }

  // ---------- The handler ----------

  predicate AllParse(entries: seq<Entry>) { forall i :: 0 <= i < |entries| ==> entries[i].target.Some? }

  function Items(entries: seq<Entry>): seq<Item>
    requires AllParse(entries)
  {
    seq(|entries|, i requires 0 <= i < |entries| => Item(Normalize(entries[i].target.value), entries[i]))
  }

  predicate Distinct(items: seq<Item>) {
    forall i, j :: 0 <= i < j < |items| ==> items[i].address != items[j].address
  }

  /** Group lookup and authorization; a missing group is made, without a row, before the transaction. */
  ghost function Admit(db: Tables, me: Id, p: Payload): (r: Result<(Tables, Id), Refusal>)
    requires me in db.keys
    ensures r.Ok? ==> r.value.1 in r.value.0.groups
  {
    var found := FindByName(db.groups, p.groupName);
    if found.Some? then
      var row := Row(db.rows, me, found.value);
      if !db.keys[me].isMaster && row.None? then Err(Forbidden)
      else if !db.keys[me].isMaster && !row.value.write then Err(Forbidden)
      else if !db.keys[me].isMaster && p.mode.FullReplace? && !row.value.delete then Err(Forbidden)
      else Ok((db, found.value))
    else
      var (made, o) := TouchGroup(db, me, p.groupName, "banlist", false);
      if o != Done then Err(Forbidden) else Ok((made, db.next))
  }

  /** `swept` are the addresses that raise an IP_DELETE each, in whatever order the rows came back. */
  datatype Reply = Reply(store: Store, outcome: Result<Summary, Refusal>, events: seq<Event>, swept: set<Address>)

  /** The transaction, on an admitted batch. */
  function Commit(st: Store, items: seq<Item>, mode: Mode, ctx: Context): Reply {
    var folded := Fold(st.core, items, ctx);
    if mode.UpsertMode? then Reply(st.(core := folded.core), Ok(folded.summary), folded.events, {})
    else
      var swept := Swept(folded.core, Listed(items), ctx.g);
      Reply(st.(core := SweepRecords(folded.core, swept, ctx)), Ok(folded.summary.(softDeleted := |swept|)),
            folded.events, swept)
  }

  ghost function BatchRecords(st: Store, me: Id, now: Time, p: Payload): Reply
    requires me in st.rights.keys
  {
    if |p.entries| > MAX_BATCH_RECORDS then Reply(st, Err(InvalidInput), [], {})
    else if !AllParse(p.entries) || !Distinct(Items(p.entries)) then Reply(st, Err(InvalidInput), [], {})
    else
      var admitted := Admit(st.rights, me, p);
      if admitted.Err? then Reply(st, Err(admitted.error), [], {})
      else
        var (rights, g) := admitted.value;
        var group := rights.groups[g];
        var items := Items(p.entries);
        if group.groupType != "whitelist" && exists i :: 0 <= i < |items| && !BannableAddress(items[i].address) then
          Reply(st.(rights := rights), Err(InvalidInput), [], {})
        else
          Commit(st.(rights := rights), items, p.mode, Context(me, now, g, group, p.skipWebhooks))
  }

  // ---------- What the entry loop does to each address ----------

  lemma FoldLast(c: Core, items: seq<Item>, item: Item, ctx: Context)
    ensures Fold(c, items + [item], ctx) == EntryStep(Fold(c, items, ctx), item, ctx)
  {
    assert (items + [item])[..|items|] == items;
  }

  lemma ListedLast(items: seq<Item>, item: Item)
    ensures Listed(items + [item]) == Listed(items) + {item.address}
  {
    forall a | a in Listed(items)
      ensures a in Listed(items + [item])
    {
      var i :| 0 <= i < |items| && items[i].address == a;
      assert (items + [item])[i] == items[i];
    }
    assert (items + [item])[|items|] == item;
  }

  /** The row an address ends with, given the row it had. */
  ghost predicate RowAfter(before: Core, after: Core, item: Item, ctx: Context) {
    var a := item.address;
    && a in after.records
    && (Locked(before, a) ==> after.records[a] == before.records[a])
    && (a in before.records && !Locked(before, a) ==>
          after.records[a] == UpdatedBy(before.records[a], item.entry, ctx.me, ctx.now))
    && (a !in before.records ==>
          after.records[a] == InsertedBy(after.records[a].id, item.entry, ctx.me, ctx.now)
          && after.records[a].id >= before.next)
  }

  ghost predicate RowsAfter(before: Core, after: Core, items: seq<Item>, ctx: Context) {
    && (forall i :: 0 <= i < |items| ==> RowAfter(before, after, items[i], ctx))
    && (forall a :: a !in Listed(items) ==> (a in after.records <==> a in before.records))
    && (forall a :: a !in Listed(items) && a in before.records ==> after.records[a] == before.records[a])
    && (forall a :: a in before.records ==> a in after.records && after.records[a].id == before.records[a].id)
  }

  ghost predicate LinksAfter(before: Core, after: Core, items: seq<Item>, g: Id) {
    && (forall i :: 0 <= i < |items| && !Locked(before, items[i].address) ==>
          items[i].address in after.records && Linked(after, items[i].address, g))
    && (forall a, h :: a in before.records && (h != g || a !in Listed(items) || Locked(before, a)) ==>
          ((before.records[a].id, h) in after.members <==> (before.records[a].id, h) in before.members))
    && before.members <= after.members
  }

  lemma WriteEntryKeepsForm(c: Core, item: Item, ctx: Context)
    requires WellKept(c) && Canonical(item.address) && !Locked(c, item.address)
    ensures WellKept(Link(WriteEntry(c, item, ctx), item.address, ctx.g))
  {
    hide WellKept;
    var a := item.address;
    if a in c.records {
      MarkedAt(c, a);
      RewriteKeepsForm(c, a, UpdatedBy(c.records[a], item.entry, ctx.me, ctx.now));
    } else {
      InsertKeepsForm(c, a, InsertedBy(c.next, item.entry, ctx.me, ctx.now));
    }
    LinkKeepsForm(WriteEntry(c, item, ctx), a, ctx.g);
  }

  ghost predicate CanonicalItems(items: seq<Item>) { forall i :: 0 <= i < |items| ==> Canonical(items[i].address) }

  lemma {:induction false} FoldKeepsForm(c: Core, items: seq<Item>, ctx: Context)
    requires WellKept(c) && CanonicalItems(items)
    ensures WellKept(Fold(c, items, ctx).core) && Fold(c, items, ctx).core.next >= c.next
    decreases |items|
  {
    hide WellKept;
    if items != [] {
      var init, last := items[..|items| - 1], items[|items| - 1];
      FoldKeepsForm(c, init, ctx);
      if !Locked(Fold(c, init, ctx).core, last.address) { WriteEntryKeepsForm(Fold(c, init, ctx).core, last, ctx); }
    }
  }

  /** One more entry, on an address the loop has not met. */
  lemma StepRows(before: Core, mid: Progress, items: seq<Item>, item: Item, ctx: Context)
    requires RowsAfter(before, mid.core, items, ctx) && item.address !in Listed(items) && mid.core.next >= before.next
    ensures RowsAfter(before, EntryStep(mid, item, ctx).core, items + [item], ctx)
  {
    ListedLast(items, item);
    var after := EntryStep(mid, item, ctx).core;
    var all := items + [item];
    forall i | 0 <= i < |all|
      ensures RowAfter(before, after, all[i], ctx)
    {
      if i < |items| {
        assert items[i].address in Listed(items);
        assert RowAfter(before, mid.core, items[i], ctx);
      }
    }
  }

  lemma StepLinks(before: Core, mid: Progress, items: seq<Item>, item: Item, ctx: Context)
    requires RowsAfter(before, mid.core, items, ctx) && LinksAfter(before, mid.core, items, ctx.g)
    requires item.address !in Listed(items) && IdsDistinct(mid.core.records) && IdsIssued(before.records, before.next)
    requires mid.core.next >= before.next
    ensures LinksAfter(before, EntryStep(mid, item, ctx).core, items + [item], ctx.g)
  {
    hide RowAfter;
    ListedLast(items, item);
    var after := EntryStep(mid, item, ctx).core;
    var all := items + [item];
    forall i | 0 <= i < |all| && !Locked(before, all[i].address)
      ensures all[i].address in after.records && Linked(after, all[i].address, ctx.g)
    {
      if i < |items| { assert items[i].address in Listed(items); }
    }
    forall a | a in before.records && a != item.address
      ensures after.records[item.address].id != before.records[a].id
    {
      assert mid.core.records[a].id == before.records[a].id;
    }
  }

  lemma {:induction false} FoldEffect(c: Core, items: seq<Item>, ctx: Context)
    requires WellKept(c) && CanonicalItems(items) && Distinct(items)
    ensures var after := Fold(c, items, ctx).core;
      RowsAfter(c, after, items, ctx) && LinksAfter(c, after, items, ctx.g)
    decreases |items|
  {
    if items != [] {
      var init, last := items[..|items| - 1], items[|items| - 1];
      assert init + [last] == items;
      FoldEffect(c, init, ctx);
      FoldKeepsForm(c, init, ctx);
      var mid := Fold(c, init, ctx);
      assert last.address !in Listed(init);
      assert IdsDistinct(mid.core.records) && IdsIssued(c.records, c.next);
      hide RowsAfter, LinksAfter, EntryStep, WellKept;
      StepRows(c, mid, init, last, ctx);
      StepLinks(c, mid, init, last, ctx);
    }
  }

  /** Every entry is counted once: created, updated or skipped; the loop sweeps nothing. */
  lemma {:induction false} FoldCounts(c: Core, items: seq<Item>, ctx: Context)
    ensures var s := Fold(c, items, ctx).summary;
      s.created + s.updated + s.lockedSkipped == |items| && s.softDeleted == 0
    decreases |items|
  {
    if items != [] { FoldCounts(c, items[..|items| - 1], ctx); }
  }

  lemma ItemsAreCanonical(entries: seq<Entry>)
    requires AllParse(entries)
    ensures CanonicalItems(Items(entries)) && |Items(entries)| == |entries|
  {
    forall i | 0 <= i < |entries|
      ensures Canonical(Items(entries)[i].address)
    {
      var n: Network := entries[i].target.value;
      assert Normalize(n) == Items(entries)[i].address;
    }
  }

  lemma SweepKeepsForm(c: Core, swept: set<Address>, ctx: Context)
    requires WellKept(c)
    ensures WellKept(SweepRecords(c, swept, ctx))
  {
    var after := SweepRecords(c, swept, ctx).records;
    forall m | m in c.members
      ensures exists a :: a in after && after[a].id == m.0
    {
      var a :| a in c.records && c.records[a].id == m.0;
      assert a in after && after[a].id == m.0;
    }
  }

  lemma BatchKeepsForm(st: Store, me: Id, now: Time, p: Payload)
    requires WellKept(st.core) && me in st.rights.keys
    ensures WellKept(BatchRecords(st, me, now, p).store.core)
  {
    hide WellKept, Fold, SweepRecords, Swept, Admit, Distinct, BannableAddress;
    if AllParse(p.entries) {
      ItemsAreCanonical(p.entries);
      forall ctx ensures WellKept(Fold(st.core, Items(p.entries), ctx).core) {
        FoldKeepsForm(st.core, Items(p.entries), ctx);
      }
      forall c, swept, ctx | WellKept(c) ensures WellKept(SweepRecords(c, swept, ctx))
        { SweepKeepsForm(c, swept, ctx); }
    }
  }

  // ---------- full_replace ----------

  /** Every live unlocked member is listed. */
  ghost predicate OnlyListedLive(after: Core, items: seq<Item>, g: Id) {
    forall a :: a in after.records && Linked(after, a, g) && !after.records[a].isDeleted && !after.records[a].isLocked
      ==> a in Listed(items)
  }

  /** Every listed unlocked address is a member, deleted exactly when its entry says so. */
  ghost predicate ListedAsAsked(before: Core, after: Core, items: seq<Item>, g: Id) {
    forall i :: 0 <= i < |items| && !Locked(before, items[i].address) ==>
      var a := items[i].address;
      a in after.records && Linked(after, a, g) && !after.records[a].isLocked
      && (after.records[a].isDeleted <==> items[i].entry.isDeleted == Some(true))
  }

  /** Locked records and records of other groups are as they were, memberships included. */
  ghost predicate OthersUntouched(before: Core, after: Core, items: seq<Item>, g: Id) {
    forall a :: a in before.records
                && (before.records[a].isLocked || (a !in Listed(items) && !Linked(before, a, g))) ==>
      a in after.records && after.records[a] == before.records[a]
      && forall h :: ((before.records[a].id, h) in after.members <==> (before.records[a].id, h) in before.members)
  }

  /** No record is lost or changes its id or creation time, and only listed addresses are new. */
  ghost predicate NothingLost(before: Core, after: Core, items: seq<Item>) {
    && (forall a :: a in before.records ==>
          a in after.records && after.records[a].id == before.records[a].id
          && after.records[a].createdAt == before.records[a].createdAt)
    && (forall a :: a in after.records && a !in before.records ==> a in Listed(items))
    && before.members <= after.members
  }

  /** The final state of an admitted full_replace over the state it started from. */
  ghost predicate Replaced(before: Core, after: Core, items: seq<Item>, g: Id) {
    && OnlyListedLive(after, items, g)
    && ListedAsAsked(before, after, items, g)
    && OthersUntouched(before, after, items, g)
    && NothingLost(before, after, items)
  }

  lemma SweepLeavesListed(before: Core, mid: Core, items: seq<Item>, ctx: Context)
    requires RowsAfter(before, mid, items, ctx) && LinksAfter(before, mid, items, ctx.g)
    ensures var after := SweepRecords(mid, Swept(mid, Listed(items), ctx.g), ctx);
      OnlyListedLive(after, items, ctx.g) && ListedAsAsked(before, after, items, ctx.g)
  {
    var after := SweepRecords(mid, Swept(mid, Listed(items), ctx.g), ctx);
    forall i | 0 <= i < |items| && !Locked(before, items[i].address)
      ensures var a := items[i].address;
        a in after.records && Linked(after, a, ctx.g) && !after.records[a].isLocked
        && (after.records[a].isDeleted <==> items[i].entry.isDeleted == Some(true))
    {
      assert RowAfter(before, mid, items[i], ctx) && items[i].address in Listed(items);
    }
  }

  /** The loop leaves a record's creation time alone, and all of a locked record. */
  lemma LoopKeeps(before: Core, mid: Core, items: seq<Item>, ctx: Context, a: Address)
    requires RowsAfter(before, mid, items, ctx) && a in before.records
    ensures a in mid.records && mid.records[a].id == before.records[a].id
    ensures mid.records[a].createdAt == before.records[a].createdAt
    ensures before.records[a].isLocked || a !in Listed(items) ==> mid.records[a] == before.records[a]
  {
    if a in Listed(items) {
      var i :| 0 <= i < |items| && items[i].address == a;
      assert RowAfter(before, mid, items[i], ctx);
    }
  }

  lemma SweepLeavesOthers(before: Core, mid: Core, items: seq<Item>, ctx: Context)
    requires RowsAfter(before, mid, items, ctx) && LinksAfter(before, mid, items, ctx.g)
    ensures var after := SweepRecords(mid, Swept(mid, Listed(items), ctx.g), ctx);
      OthersUntouched(before, after, items, ctx.g) && NothingLost(before, after, items)
  {
    forall a | a in before.records
      ensures a in mid.records && mid.records[a].id == before.records[a].id
      ensures mid.records[a].createdAt == before.records[a].createdAt
      ensures before.records[a].isLocked || a !in Listed(items) ==> mid.records[a] == before.records[a]
    {
      LoopKeeps(before, mid, items, ctx, a);
    }
    hide RowAfter, Listed;
  }

  lemma CommitReplaces(st: Store, items: seq<Item>, ctx: Context)
    requires WellKept(st.core) && CanonicalItems(items) && Distinct(items)
    ensures Replaced(st.core, Commit(st, items, FullReplace, ctx).store.core, items, ctx.g)
  {
    FoldEffect(st.core, items, ctx);
    var mid := Fold(st.core, items, ctx).core;
    hide Fold, WellKept, CanonicalItems, RowsAfter, LinksAfter, OnlyListedLive, ListedAsAsked, OthersUntouched,
         NothingLost, SweepRecords, Swept;
    SweepLeavesListed(st.core, mid, items, ctx);
    SweepLeavesOthers(st.core, mid, items, ctx);
  }

  lemma CommitCounts(st: Store, items: seq<Item>, mode: Mode, ctx: Context)
    ensures var s := Commit(st, items, mode, ctx).outcome.value;
      s.created + s.updated + s.lockedSkipped == |items|
  {
    FoldCounts(st.core, items, ctx);
  }

  /** A state the batch has nothing left to do in: everything listed is there, linked and as wanted. */
  ghost predicate Settled(c: Core, items: seq<Item>, g: Id) {
    forall i :: 0 <= i < |items| ==>
      var a := items[i].address;
      a in c.records && (!Locked(c, a) ==>
        Linked(c, a, g) && (c.records[a].isDeleted ==> items[i].entry.isDeleted == Some(true)))
  }

  lemma {:induction false} FoldOnSettled(c: Core, items: seq<Item>, ctx: Context)
    requires WellKept(c) && CanonicalItems(items) && Distinct(items) && Settled(c, items, ctx.g)
    ensures var p := Fold(c, items, ctx);
      p.summary.created == 0 && p.summary.restored == 0 && p.summary.linked == 0
      && p.core.members == c.members && p.core.records.Keys == c.records.Keys
    decreases |items|
  {
    if items != [] {
      var init, last := items[..|items| - 1], items[|items| - 1];
      FoldOnSettled(c, init, ctx);
      FoldEffect(c, init, ctx);
      assert last.address !in Listed(init);
    }
  }

  lemma ReplacedIsSettled(before: Core, after: Core, items: seq<Item>, g: Id)
    requires Replaced(before, after, items, g)
    requires forall a :: a in after.records && a !in before.records ==> !after.records[a].isLocked
    ensures Settled(after, items, g)
  {
    forall i | 0 <= i < |items|
      ensures var a := items[i].address;
        a in after.records && (!Locked(after, a) ==>
          Linked(after, a, g) && (after.records[a].isDeleted ==> items[i].entry.isDeleted == Some(true)))
    {
      if Locked(before, items[i].address) { assert items[i].address in after.records; }
    }
  }

  lemma NewRecordsAreUnlocked(st: Store, items: seq<Item>, ctx: Context)
    requires WellKept(st.core) && CanonicalItems(items) && Distinct(items)
    ensures var after := Commit(st, items, FullReplace, ctx).store.core;
      forall a :: a in after.records && a !in st.core.records ==> !after.records[a].isLocked
  {
    FoldEffect(st.core, items, ctx);
    var mid := Fold(st.core, items, ctx).core;
    hide Fold, WellKept, CanonicalItems, LinksAfter;
    forall a | a in mid.records && a !in st.core.records
      ensures !mid.records[a].isLocked
    {
      var i :| 0 <= i < |items| && items[i].address == a;
      assert RowAfter(st.core, mid, items[i], ctx);
    }
  }

  /** The same full_replace once more, later: nothing to create, restore, link or sweep. */
  lemma CommitTwice(st: Store, items: seq<Item>, ctx: Context, later: Context)
    requires WellKept(st.core) && CanonicalItems(items) && Distinct(items) && later.g == ctx.g
    ensures var first := Commit(st, items, FullReplace, ctx).store;
      var again := Commit(first, items, FullReplace, later);
      && again.outcome.value.created == 0 && again.outcome.value.restored == 0
      && again.outcome.value.linked == 0 && again.outcome.value.softDeleted == 0
      && again.swept == {}
      && again.store.core.records.Keys == first.core.records.Keys
      && again.store.core.members == first.core.members
  {
    var first := Commit(st, items, FullReplace, ctx).store;
    CommitReplaces(st, items, ctx);
    NewRecordsAreUnlocked(st, items, ctx);
    ReplacedIsSettled(st.core, first.core, items, ctx.g);
    FoldKeepsForm(st.core, items, ctx);
    SweepKeepsForm(Fold(st.core, items, ctx).core, Swept(Fold(st.core, items, ctx).core, Listed(items), ctx.g), ctx);
    FoldOnSettled(first.core, items, later);
    FoldEffect(first.core, items, later);
    NothingToSweep(first.core, items, later);
  }

  lemma NothingToSweep(c: Core, items: seq<Item>, ctx: Context)
    requires OnlyListedLive(c, items, ctx.g)
    requires RowsAfter(c, Fold(c, items, ctx).core, items, ctx) && Fold(c, items, ctx).core.members == c.members
    requires Fold(c, items, ctx).core.records.Keys == c.records.Keys
    ensures Swept(Fold(c, items, ctx).core, Listed(items), ctx.g) == {}
  {
    hide Fold, RowAfter;
  }

  /** What a committed full_replace promises, and what happens when it is sent again. The repeat is
      admitted except when the first one made the group for a caller that is not the master: that caller
      gets no row on the group it made. */
  lemma FullReplaceIsExactAndIdempotent(st: Store, me: Id, now: Time, p: Payload, later: Time)
    requires WellKept(st.core) && me in st.rights.keys && p.mode.FullReplace?
    requires BatchRecords(st, me, now, p).outcome.Ok?
    requires forall r :: r in st.rights.rows ==> r.1 < st.rights.next
    ensures var first := BatchRecords(st, me, now, p);
      var again := BatchRecords(first.store, me, later, p);
      var g := Admit(st.rights, me, p).value.1;
      && Replaced(st.core, first.store.core, Items(p.entries), g)
      && first.outcome.value.created + first.outcome.value.updated + first.outcome.value.lockedSkipped == |p.entries|
      && (again.outcome.Ok? <==> st.rights.keys[me].isMaster || FindByName(st.rights.groups, p.groupName).Some?)
      && (again.outcome.Ok? ==>
            again.outcome.value.created == 0 && again.outcome.value.restored == 0
            && again.outcome.value.linked == 0 && again.outcome.value.softDeleted == 0
            && again.store.core.records.Keys == first.store.core.records.Keys
            && again.store.core.members == first.store.core.members)
  {
    var items := Items(p.entries);
    ItemsAreCanonical(p.entries);
    var (rights, g) := Admit(st.rights, me, p).value;
    var ctx := Context(me, now, g, rights.groups[g], p.skipWebhooks);
    var admitted := st.(rights := rights);
    AdmitAgain(st.rights, me, p);
    hide Commit, Admit, Replaced, Distinct;
    CommitKeepsRights(admitted, items, FullReplace, ctx);
    RepeatCommits(st, Commit(admitted, items, FullReplace, ctx).store, me, now, later, p);
    hide BatchRecords;
    CommitReplaces(admitted, items, ctx);
    CommitCounts(admitted, items, FullReplace, ctx);
    CommitTwice(admitted, items, ctx, ctx.(now := later));
    CommitKeepsRights(Commit(admitted, items, FullReplace, ctx).store, items, FullReplace, ctx.(now := later));
  }

  /** What a committed batch was checked for holds again on any store with the rights it left, admission
      aside. */
  lemma RepeatCommits(st: Store, after: Store, me: Id, now: Time, later: Time, p: Payload)
    requires me in st.rights.keys && BatchRecords(st, me, now, p).outcome.Ok?
    requires var (rights, _) := Admit(st.rights, me, p).value; after.rights == rights && me in rights.keys
    requires Admit(after.rights, me, p).Ok? ==> Admit(after.rights, me, p) == Admit(st.rights, me, p)
    ensures var (rights, g) := Admit(st.rights, me, p).value;
      BatchRecords(after, me, later, p)
      == if Admit(rights, me, p).Err? then Reply(after, Err(Admit(rights, me, p).error), [], {})
         else Commit(after, Items(p.entries), p.mode, Context(me, later, g, rights.groups[g], p.skipWebhooks))
  {
    hide Commit, Admit, Distinct;
    assert after.(rights := after.rights) == after;
  }

  lemma CommitKeepsRights(st: Store, items: seq<Item>, mode: Mode, ctx: Context)
    ensures Commit(st, items, mode, ctx).store.rights == st.rights && Commit(st, items, mode, ctx).outcome.Ok?
  {
  }

  lemma AdmitAgain(db: Tables, me: Id, p: Payload)
    requires me in db.keys && Admit(db, me, p).Ok?
    requires forall r :: r in db.rows ==> r.1 < db.next
    ensures var (made, g) := Admit(db, me, p).value;
      me in made.keys
      && (db.keys[me].isMaster || FindByName(db.groups, p.groupName).Some? ==> Admit(made, me, p) == Ok((made, g)))
      && (!db.keys[me].isMaster && FindByName(db.groups, p.groupName).None? ==> Admit(made, me, p).Err?)
  {
    var (made, g) := Admit(db, me, p).value;
    if FindByName(db.groups, p.groupName).None? {
      assert made.groups[g].name == p.groupName;
      assert FindByName(made.groups, p.groupName) == Some(g);
      assert (me, g) !in db.rows;
    }
  }

  /** The refused repeat, concretely: a key that may create groups replaces a group nobody has made yet with
      nothing, and is forbidden to do it again. */
  lemma RepeatIsRefused(now: Time, later: Time)
    ensures var db := Tables(map[1 := Key("writer", false, Scopes(false, true, false), None, None)],
                            map[], map[], map[], 2);
      var p := Payload("g", FullReplace, [], false);
      var first := BatchRecords(Store(db, Core(map[], {}, 0)), 1, now, p);
      first.outcome.Ok? && BatchRecords(first.store, 1, later, p).outcome == Err(Forbidden)
  {
    var db := Tables(map[1 := Key("writer", false, Scopes(false, true, false), None, None)], map[], map[], map[], 2);
    var p := Payload("g", FullReplace, [], false);
    var st := Store(db, Core(map[], {}, 0));
    assert Admit(db, 1, p).Ok? && Items(p.entries) == [];
    var (made, g) := Admit(db, 1, p).value;
    CommitKeepsRights(st.(rights := made), [], FullReplace, Context(1, now, g, made.groups[g], false));
    AdmitAgain(db, 1, p);
    hide Commit;
    assert Admit(made, 1, p) == Err(Forbidden);
  }
}
