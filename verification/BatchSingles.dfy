/** Bulk synchronisation agrees with one-at-a-time writes: a plain batch upsert and a ban or whitelist
    request per entry, in any order, leave the same records and raise the same events. */
module BatchSingles {
  import opened Common
  import opened Lineage
  import opened Guards
  import opened Rights
  import opened Addresses
  import opened Records
  import opened Batch

  // ---------- Stores up to record ids ----------

  datatype View = View(rows: map<Address, Record>, links: set<(Address, Id)>)

  function Erase(r: Record): Record { r.(id := 0) }

  /** The tables by address, with record ids forgotten. */
  function ViewOf(c: Core): View {
    View(map a | a in c.records :: Erase(c.records[a]),
         set a, m | a in c.records && m in c.members && m.0 == c.records[a].id :: (a, m.1))
  }

  function RowOf(v: View, item: Item, now: Time): Record {
    if item.address in v.rows then Registered(v.rows[item.address], item.entry.cause, now)
    else NewRecord(0, item.entry.cause, now)
  }

  function EventOf(v: View, item: Item, ctx: Context): Event {
    Event(if (item.address, ctx.g) in v.links then IP_UPDATE else IP_ADD,
          item.address, ctx.IsWhitelist(), ctx.g, ctx.group.name, item.entry.cause)
  }

  lemma LinksByAddress(c: Core, a: Address, g: Id)
    requires a in c.records
    ensures (a, g) in ViewOf(c).links <==> Linked(c, a, g)
  {
  }

  // ---------- Registration as the common step ----------

  function RegisterItem(c: Core, item: Item, ctx: Context): (Core, Event) {
    RegisterCore(c, item.address, item.entry.cause, ctx.now, ctx.g, ctx.group, ctx.IsWhitelist())
  }

  function RegisterAll(c: Core, items: seq<Item>, ctx: Context): (Core, seq<Event>) {
    if items == [] then (c, [])
    else
      var (init, events) := RegisterAll(c, items[..|items| - 1], ctx);
      var (after, event) := RegisterItem(init, items[|items| - 1], ctx);
      (after, events + [event])
  }

  predicate Plain(e: Entry) {
    e.isDeleted.None? && e.createdAt.None? && e.updatedAt.None? && e.lastSeenAt.None? && e.deletedAt.None?
  }

  ghost predicate Unlocked(c: Core, items: seq<Item>) { forall i :: 0 <= i < |items| ==> !Locked(c, items[i].address) }

  lemma RegisterLocksNothing(c: Core, item: Item, ctx: Context, b: Address)
    requires !Locked(c, item.address)
    ensures Locked(RegisterItem(c, item, ctx).0, b) <==> Locked(c, b)
  {
  }

  lemma {:induction false} RegisterAllLocksNothing(c: Core, items: seq<Item>, ctx: Context, b: Address)
    requires Unlocked(c, items)
    ensures Locked(RegisterAll(c, items, ctx).0, b) <==> Locked(c, b)
    decreases |items|
  {
    if items != [] {
      var init, last := items[..|items| - 1], items[|items| - 1];
      RegisterAllLocksNothing(c, init, ctx, b);
      RegisterAllLocksNothing(c, init, ctx, last.address);
      hide RegisterItem;
      RegisterLocksNothing(RegisterAll(c, init, ctx).0, last, ctx, b);
    }
  }

  /** The batch's step on a plain entry is a registration. */
  lemma PlainEntryRegisters(p: Progress, item: Item, ctx: Context)
    requires Plain(item.entry) && !Locked(p.core, item.address) && !ctx.skipWebhooks
    ensures EntryStep(p, item, ctx).core == RegisterItem(p.core, item, ctx).0
    ensures EntryStep(p, item, ctx).events == p.events + [RegisterItem(p.core, item, ctx).1]
  {
  }

  lemma {:induction false} BatchRegisters(c: Core, items: seq<Item>, ctx: Context)
    requires Unlocked(c, items) && !ctx.skipWebhooks && forall i :: 0 <= i < |items| ==> Plain(items[i].entry)
    ensures Fold(c, items, ctx).core == RegisterAll(c, items, ctx).0
    ensures Fold(c, items, ctx).events == RegisterAll(c, items, ctx).1
    decreases |items|
  {
    if items != [] {
      var init, last := items[..|items| - 1], items[|items| - 1];
      BatchRegisters(c, init, ctx);
      RegisterAllLocksNothing(c, init, ctx, last.address);
      hide EntryStep, RegisterItem;
      PlainEntryRegisters(Fold(c, init, ctx), last, ctx);
    }
  }

  // ---------- One request per entry ----------

  /** The requests in order, each on the store the previous one left; the flag says all succeeded. */
  ghost function Singles(st: Store, me: Id, now: Time, name: string, isWhitelist: bool, entries: seq<Entry>)
    : (Store, seq<Event>, bool)
  {
    if entries == [] then (st, [], true)
    else
      var (mid, events, ok) := Singles(st, me, now, name, isWhitelist, entries[..|entries| - 1]);
      var e := entries[|entries| - 1];
      if me !in mid.rights.keys then (mid, events, false)
      else
        var (after, o, raised) := Upsert(mid, me, now, UpsertPayload(e.target, None, Some(name), e.cause), isWhitelist);
        (after, events + raised, ok && o == Done)
  }

  /** The caller may write to the existing group and the endpoint fits its type. */
  ghost predicate Ready(db: Tables, me: Id, name: string, ctx: Context) {
    && me in db.keys && FindByName(db.groups, name) == Some(ctx.g) && db.groups[ctx.g] == ctx.group
    && MayWrite(db, me, ctx.g)
  }

  lemma SingleRegisters(st: Store, me: Id, name: string, e: Entry, ctx: Context)
    requires Ready(st.rights, me, name, ctx) && e.target.Some?
    requires ctx.IsWhitelist() || BannableAddress(Normalize(e.target.value))
    requires !Locked(st.core, Normalize(e.target.value))
    ensures var (core, event) := RegisterItem(st.core, Item(Normalize(e.target.value), e), ctx);
      Upsert(st, me, ctx.now, UpsertPayload(e.target, None, Some(name), e.cause), ctx.IsWhitelist())
      == (st.(core := core), Done, [event])
  {
    hide BannableAddress, Bannable, RegisterCore;
    BannableSurvivesNormalizing(e.target.value);
    TypeFits(ctx.group.groupType);
  }

  lemma TypeFits(groupType: string)
    ensures TypeMatches(groupType, groupType == "whitelist")
  {
    assert "whitelist"[0] != "banlist"[0];
  }

  ghost predicate EntriesAllowed(entries: seq<Entry>, ctx: Context) {
    forall i :: 0 <= i < |entries| ==>
      entries[i].target.Some? && (ctx.IsWhitelist() || BannableAddress(Normalize(entries[i].target.value)))
  }

  lemma ItemsLast(entries: seq<Entry>)
    requires AllParse(entries) && entries != []
    ensures var n := |entries| - 1;
      AllParse(entries[..n]) && Items(entries)[..n] == Items(entries[..n])
      && Items(entries)[n] == Item(Normalize(entries[n].target.value), entries[n])
  {
  }

  lemma {:induction false} SinglesRegister(st: Store, me: Id, name: string, entries: seq<Entry>, ctx: Context)
    requires Ready(st.rights, me, name, ctx) && AllParse(entries) && EntriesAllowed(entries, ctx)
    requires Unlocked(st.core, Items(entries))
    ensures var (core, events) := RegisterAll(st.core, Items(entries), ctx);
      Singles(st, me, ctx.now, name, ctx.IsWhitelist(), entries) == (st.(core := core), events, true)
    decreases |entries|
  {
    if entries != [] {
      var n := |entries| - 1;
      ItemsLast(entries);
      SinglesRegister(st, me, name, entries[..n], ctx);
      RegisterAllLocksNothing(st.core, Items(entries[..n]), ctx, Items(entries)[n].address);
      hide RegisterItem, Upsert, BannableAddress;
      SingleRegisters(st.(core := RegisterAll(st.core, Items(entries[..n]), ctx).0), me, name, entries[n], ctx);
    }
  }

  // ---------- What registrations do, address by address ----------

  /** The view after registering a set of distinct items. It does not mention their order. */
  ghost predicate Sees(before: View, after: View, items: seq<Item>, ctx: Context) {
    && (forall i :: 0 <= i < |items| ==>
          items[i].address in after.rows && after.rows[items[i].address] == RowOf(before, items[i], ctx.now))
    && (forall a :: a !in Listed(items) ==> (a in after.rows <==> a in before.rows))
    && (forall a :: a !in Listed(items) && a in before.rows ==> after.rows[a] == before.rows[a])
    && (forall a, h :: (a, h) in after.links <==> (a, h) in before.links || (h == ctx.g && a in Listed(items)))
  }

  lemma SameLinks(c: Core, d: Core)
    requires c.members == d.members
    requires forall a :: a in c.records ==> a in d.records && d.records[a].id == c.records[a].id
    requires forall a, h :: a in d.records && a !in c.records ==> (d.records[a].id, h) !in d.members
    ensures ViewOf(d).links == ViewOf(c).links
  {
    forall l: (Address, Id)
      ensures l in ViewOf(d).links <==> l in ViewOf(c).links
    {
      if l.0 in d.records { LinksByAddress(d, l.0, l.1); }
      if l.0 in c.records { LinksByAddress(c, l.0, l.1); }
    }
  }

  lemma RowsSeen(c: Core, item: Item, ctx: Context)
    ensures ViewOf(PutRecord(c, item.address, item.entry.cause, ctx.now)).rows
         == ViewOf(c).rows[item.address := RowOf(ViewOf(c), item, ctx.now)]
  {
    var a := item.address;
    var before, after := ViewOf(c).rows, ViewOf(PutRecord(c, a, item.entry.cause, ctx.now)).rows;
    assert after.Keys == before.Keys + {a};
    forall b | b in after
      ensures after[b] == before[a := RowOf(ViewOf(c), item, ctx.now)][b]
    {
    }
  }

  lemma PutSeen(c: Core, item: Item, ctx: Context)
    requires WellKept(c)
    ensures var put := PutRecord(c, item.address, item.entry.cause, ctx.now); var v := ViewOf(c);
      && ViewOf(put).rows == v.rows[item.address := RowOf(v, item, ctx.now)]
      && ViewOf(put).links == v.links
  {
    hide ViewOf, RowOf;
    RowsSeen(c, item, ctx);
    NewIdIsUnlinked(c);
    SameLinks(c, PutRecord(c, item.address, item.entry.cause, ctx.now));
  }

  lemma LinkSeen(c: Core, a: Address, g: Id)
    requires IdsDistinct(c.records) && a in c.records
    ensures ViewOf(Link(c, a, g)) == ViewOf(c).(links := ViewOf(c).links + {(a, g)})
  {
    var after := Link(c, a, g);
    assert ViewOf(after).rows == ViewOf(c).rows;
    forall l: (Address, Id)
      ensures l in ViewOf(after).links <==> l in ViewOf(c).links + {(a, g)}
    {
      if l.0 in c.records {
        LinksByAddress(after, l.0, l.1);
        LinksByAddress(c, l.0, l.1);
      }
    }
  }

  lemma RegisterSeen(c: Core, item: Item, ctx: Context)
    requires WellKept(c)
    ensures var (after, event) := RegisterItem(c, item, ctx); var v := ViewOf(c);
      && ViewOf(after).rows == v.rows[item.address := RowOf(v, item, ctx.now)]
      && ViewOf(after).links == v.links + {(item.address, ctx.g)}
      && event == EventOf(v, item, ctx)
  {
    var put := PutRecord(c, item.address, item.entry.cause, ctx.now);
    PutSeen(c, item, ctx);
    assert IdsDistinct(put.records);
    LinkSeen(put, item.address, ctx.g);
    LinksByAddress(put, item.address, ctx.g);
    hide WellKept, ViewOf, PutRecord, RowOf;
  }

  lemma SeesOneMore(before: View, mid: View, after: View, items: seq<Item>, item: Item, ctx: Context)
    requires Sees(before, mid, items, ctx) && item.address !in Listed(items)
    requires after.rows == mid.rows[item.address := RowOf(mid, item, ctx.now)]
    requires after.links == mid.links + {(item.address, ctx.g)}
    ensures Sees(before, after, items + [item], ctx) && EventOf(mid, item, ctx) == EventOf(before, item, ctx)
  {
    ListedLast(items, item);
    var all := items + [item];
    forall i | 0 <= i < |all|
      ensures all[i].address in after.rows && after.rows[all[i].address] == RowOf(before, all[i], ctx.now)
    {
      if i < |items| { assert items[i].address in Listed(items); }
    }
  }

  lemma {:induction false} RegisterAllSees(c: Core, items: seq<Item>, ctx: Context)
    requires WellKept(c) && CanonicalItems(items) && Distinct(items)
    ensures var (after, events) := RegisterAll(c, items, ctx);
      && WellKept(after) && Sees(ViewOf(c), ViewOf(after), items, ctx)
      && |events| == |items| && forall i :: 0 <= i < |items| ==> events[i] == EventOf(ViewOf(c), items[i], ctx)
    decreases |items|
  {
    hide WellKept, Sees, RegisterItem, ViewOf, EventOf;
    if items == [] {
      SeesNothing(ViewOf(c), ctx);
    } else {
      var init, last := items[..|items| - 1], items[|items| - 1];
      assert init + [last] == items;
      RegisterAllSees(c, init, ctx);
      var mid := RegisterAll(c, init, ctx).0;
      assert last.address !in Listed(init);
      RegisterSeen(mid, last, ctx);
      RegisterItemKeepsForm(mid, last, ctx);
      SeesOneMore(ViewOf(c), ViewOf(mid), ViewOf(RegisterItem(mid, last, ctx).0), init, last, ctx);
    }
  }

  lemma SeesNothing(v: View, ctx: Context)
    ensures Sees(v, v, [], ctx)
  {
  }

  lemma RegisterItemKeepsForm(c: Core, item: Item, ctx: Context)
    requires WellKept(c) && Canonical(item.address)
    ensures WellKept(RegisterItem(c, item, ctx).0)
  {
    RegisterKeepsForm(c, item.address, item.entry.cause, ctx.now, ctx.g, ctx.group, ctx.IsWhitelist());
  }

  // ---------- Any order ----------

  /** `order` lists every index below n once. */
  ghost predicate Permutation(order: seq<nat>, n: nat) {
    && |order| == n
    && (forall i :: 0 <= i < n ==> order[i] < n)
    && (forall i, j :: 0 <= i < j < n ==> order[i] != order[j])
    && (forall k :: 0 <= k < n ==> Placed(order, k))
  }

  ghost predicate Placed(order: seq<nat>, k: nat) { exists i :: 0 <= i < |order| && order[i] == k }

  ghost predicate Reorders<T>(s: seq<T>, t: seq<T>, order: seq<nat>) {
    && |s| == |t| && Permutation(order, |t|)
    && forall i :: 0 <= i < |s| ==> s[i] == t[order[i]]
  }

  lemma ReorderedListsSame(s: seq<Item>, t: seq<Item>, order: seq<nat>)
    requires Reorders(s, t, order)
    ensures Listed(s) == Listed(t)
  {
    forall a | a in Listed(t)
      ensures a in Listed(s)
    {
      var k :| 0 <= k < |t| && t[k].address == a;
      assert Placed(order, k);
      var i :| 0 <= i < |order| && order[i] == k;
      assert s[i].address == a;
    }
    forall a | a in Listed(s)
      ensures a in Listed(t)
    {
      var i :| 0 <= i < |s| && s[i].address == a;
      assert t[order[i]].address == a;
    }
  }

  /** The view a set of items leaves is unique. */
  lemma SeesIsDetermined(before: View, after: View, other: View, s: seq<Item>, t: seq<Item>, order: seq<nat>,
                         ctx: Context)
    requires Sees(before, after, s, ctx) && Sees(before, other, t, ctx) && Reorders(s, t, order)
    ensures after == other
  {
    ReorderedListsSame(s, t, order);
    forall a
      ensures a in after.rows <==> a in other.rows
      ensures a in after.rows ==> after.rows[a] == other.rows[a]
    {
      if a in Listed(s) {
        var i :| 0 <= i < |s| && s[i].address == a;
        assert t[order[i]].address == a;
      }
    }
    assert after.rows == other.rows;
    forall l: (Address, Id)
      ensures l in after.links <==> l in other.links
    {
      assert (l.0, l.1) == l;
    }
  }

  /** A committed plain upsert into an existing group, none of whose addresses is locked, against one
      ban or whitelist request per entry at the same clock value. In the order given the stores are
      identical; in any order every request succeeds, the stores are the same up to record ids, and the
      events are the batch's, reordered as the entries are. */
  lemma BatchIsSinglesInAnyOrder(st: Store, me: Id, now: Time, p: Payload, entries: seq<Entry>, order: seq<nat>)
    requires WellKept(st.core) && me in st.rights.keys
    requires p.mode.UpsertMode? && !p.skipWebhooks && FindByName(st.rights.groups, p.groupName).Some?
    requires BatchRecords(st, me, now, p).outcome.Ok?
    requires forall i :: 0 <= i < |p.entries| ==> Plain(p.entries[i])
    requires forall i :: 0 <= i < |p.entries| && p.entries[i].target.Some? ==>
      !Locked(st.core, Normalize(p.entries[i].target.value))
    requires Reorders(entries, p.entries, order)
    ensures var g := FindByName(st.rights.groups, p.groupName).value;
      var batch := BatchRecords(st, me, now, p);
      var (after, events, ok) := Singles(st, me, now, p.groupName,
                                            st.rights.groups[g].groupType == "whitelist", entries);
      && ok && after.rights == batch.store.rights
      && ViewOf(after.core) == ViewOf(batch.store.core)
      && |events| == |batch.events| == |order|
      && (forall i :: 0 <= i < |events| && order[i] < |batch.events| ==> events[i] == batch.events[order[i]])
      && (entries == p.entries ==> after == batch.store && events == batch.events)
  {
    var g := FindByName(st.rights.groups, p.groupName).value;
    var ctx := Context(me, now, g, st.rights.groups[g], false);
    BatchIsFold(st, me, now, p, ctx);
    ItemsAreCanonical(p.entries);
    EntriesReorder(entries, p.entries, order, st.core, ctx);
    BatchRegisters(st.core, Items(p.entries), ctx);
    SinglesRegister(st, me, p.groupName, entries, ctx);
    hide BatchRecords, Singles, Fold, RegisterAll, ViewOf, EventOf, Items;
    AnyOrder(st.core, Items(entries), Items(p.entries), order, ctx);
  }

  lemma AnyOrder(c: Core, s: seq<Item>, t: seq<Item>, order: seq<nat>, ctx: Context)
    requires WellKept(c) && CanonicalItems(s) && CanonicalItems(t) && Distinct(s) && Distinct(t)
    requires Reorders(s, t, order)
    ensures var (cs, es) := RegisterAll(c, s, ctx); var (ct, et) := RegisterAll(c, t, ctx);
      ViewOf(cs) == ViewOf(ct) && |es| == |et| == |order|
      && forall i :: 0 <= i < |es| && order[i] < |et| ==> es[i] == et[order[i]]
  {
    RegisterAllSees(c, s, ctx);
    RegisterAllSees(c, t, ctx);
    hide WellKept, Sees, RegisterAll, ViewOf, EventOf;
    SeesIsDetermined(ViewOf(c), ViewOf(RegisterAll(c, s, ctx).0), ViewOf(RegisterAll(c, t, ctx).0), s, t, order, ctx);
  }

  lemma EntriesReorder(s: seq<Entry>, t: seq<Entry>, order: seq<nat>, c: Core, ctx: Context)
    requires Reorders(s, t, order) && AllParse(t) && Distinct(Items(t)) && EntriesAllowed(t, ctx)
    requires Unlocked(c, Items(t))
    ensures AllParse(s) && EntriesAllowed(s, ctx) && Unlocked(c, Items(s))
    ensures Reorders(Items(s), Items(t), order) && Distinct(Items(s)) && CanonicalItems(Items(s))
  {
    assert AllParse(s);
    ItemsAreCanonical(s);
    forall i | 0 <= i < |s|
      ensures Items(s)[i] == Items(t)[order[i]]
    {
    }
    hide Items, BannableAddress;
    forall i, j | 0 <= i < j < |s|
      ensures Items(s)[i].address != Items(s)[j].address
    {
      assert order[i] != order[j];
      assert Items(t)[order[i]].address != Items(t)[order[j]].address;
    }
  }

  lemma BatchIsFold(st: Store, me: Id, now: Time, p: Payload, ctx: Context)
    requires me in st.rights.keys && p.mode.UpsertMode? && !p.skipWebhooks
    requires FindByName(st.rights.groups, p.groupName) == Some(ctx.g) && BatchRecords(st, me, now, p).outcome.Ok?
    requires ctx == Context(me, now, ctx.g, st.rights.groups[ctx.g], false)
    ensures AllParse(p.entries) && Distinct(Items(p.entries)) && EntriesAllowed(p.entries, ctx)
    ensures Ready(st.rights, me, p.groupName, ctx)
    ensures var folded := Fold(st.core, Items(p.entries), ctx);
      BatchRecords(st, me, now, p).store == st.(core := folded.core)
      && BatchRecords(st, me, now, p).events == folded.events
  {
    hide Fold, BannableAddress, Distinct;
    var items := Items(p.entries);
    forall i | 0 <= i < |p.entries|
      ensures ctx.IsWhitelist() || BannableAddress(Normalize(p.entries[i].target.value))
    {
      assert items[i].address == Normalize(p.entries[i].target.value);
    }
  }

  // ---------- Refusals ----------

  /** The request one entry stands for, alone on the store. */
  ghost function SingleOutcome(st: Store, me: Id, now: Time, name: string, isWhitelist: bool, e: Entry): Outcome
    requires me in st.rights.keys
  {
    Upsert(st, me, now, UpsertPayload(e.target, None, Some(name), e.cause), isWhitelist).1
  }

  lemma SingleSucceedsExactly(st: Store, me: Id, now: Time, name: string, e: Entry)
    requires me in st.rights.keys && FindByName(st.rights.groups, name).Some?
    requires e.target.Some? ==> !Locked(st.core, Normalize(e.target.value))
    ensures var g := FindByName(st.rights.groups, name).value;
      var white := st.rights.groups[g].groupType == "whitelist";
      SingleOutcome(st, me, now, name, white, e) == Done
      <==> e.target.Some? && (white || Bannable(e.target.value)) && MayWrite(st.rights, me, g)
  {
    hide Bannable, MayWrite, RegisterCore, Normalize;
    TypeFits(st.rights.groups[FindByName(st.rights.groups, name).value].groupType);
  }

  lemma BatchCommitsExactly(st: Store, me: Id, now: Time, p: Payload)
    requires me in st.rights.keys && p.mode.UpsertMode? && FindByName(st.rights.groups, p.groupName).Some?
    requires |p.entries| <= MAX_BATCH_RECORDS && (AllParse(p.entries) ==> Distinct(Items(p.entries)))
    ensures var g := FindByName(st.rights.groups, p.groupName).value;
      BatchRecords(st, me, now, p).outcome.Ok?
      <==> AllParse(p.entries) && MayWrite(st.rights, me, g)
           && (st.rights.groups[g].groupType == "whitelist"
               || forall i :: 0 <= i < |p.entries| && p.entries[i].target.Some? ==> Bannable(p.entries[i].target.value))
  {
    hide Bannable, BannableAddress, Normalize, Distinct, Fold;
    if AllParse(p.entries) {
      var items := Items(p.entries);
      forall i | 0 <= i < |items|
        ensures BannableAddress(items[i].address) <==> Bannable(p.entries[i].target.value)
      {
        BannableSurvivesNormalizing(p.entries[i].target.value);
      }
    }
  }

  /** No batch is refused that its requests would not have been: within the size limit, with distinct
      addresses and none locked, a batch into an existing group is committed exactly when each of its
      entries, sent alone, would be. */
  lemma BatchCommitsWhenSinglesDo(st: Store, me: Id, now: Time, p: Payload)
    requires me in st.rights.keys && p.mode.UpsertMode? && FindByName(st.rights.groups, p.groupName).Some?
    requires 0 < |p.entries| <= MAX_BATCH_RECORDS && (AllParse(p.entries) ==> Distinct(Items(p.entries)))
    requires forall i :: 0 <= i < |p.entries| && p.entries[i].target.Some? ==>
      !Locked(st.core, Normalize(p.entries[i].target.value))
    ensures var white := st.rights.groups[FindByName(st.rights.groups, p.groupName).value].groupType == "whitelist";
      BatchRecords(st, me, now, p).outcome.Ok?
      <==> forall i :: 0 <= i < |p.entries| ==> SingleOutcome(st, me, now, p.groupName, white, p.entries[i]) == Done
  {
    var g := FindByName(st.rights.groups, p.groupName).value;
    var white := st.rights.groups[g].groupType == "whitelist";
    BatchCommitsExactly(st, me, now, p);
    hide SingleOutcome, Bannable, Normalize, Distinct, BatchRecords, MayWrite;
    forall i | 0 <= i < |p.entries|
      ensures SingleOutcome(st, me, now, p.groupName, white, p.entries[i]) == Done
         <==> p.entries[i].target.Some? && (white || Bannable(p.entries[i].target.value)) && MayWrite(st.rights, me, g)
    {
      SingleSucceedsExactly(st, me, now, p.groupName, p.entries[i]);
    }
    assert SingleOutcome(st, me, now, p.groupName, white, p.entries[0]) == Done ==> MayWrite(st.rights, me, g);
  }
}
