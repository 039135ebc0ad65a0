/** What the counters in the answer of `POST /api/records/batch` (src/api/records.rs) count. */
module BatchCounts {
  import opened Common
  import opened Lineage
  import opened Guards
  import opened Rights
  import opened Addresses
  import opened Records
  import opened Batch

  // Each condition is on one entry and on the records as the request finds them.

  ghost predicate IsSkipped(c: Core, item: Item) {
    item.address in c.records && c.records[item.address].isLocked
  }

  ghost predicate IsCreated(c: Core, item: Item) { item.address !in c.records }

  ghost predicate IsUpdated(c: Core, item: Item) {
    item.address in c.records && !c.records[item.address].isLocked
  }

  ghost predicate IsRestored(c: Core, item: Item) {
    IsUpdated(c, item) && c.records[item.address].isDeleted && item.entry.isDeleted != Some(true)
  }

  ghost predicate IsLinked(c: Core, item: Item, g: Id) {
    IsCreated(c, item) || (IsUpdated(c, item) && (c.records[item.address].id, g) !in c.members)
  }

  /** The entries that meet a condition. */
  ghost function Those(items: seq<Item>, condition: Item -> bool): set<nat> {
    set i: nat | i < |items| && condition(items[i])
  }

  lemma OneMoreOfThose(items: seq<Item>, condition: Item -> bool)
    requires items != []
    ensures var init, last := items[..|items| - 1], items[|items| - 1];
      |Those(items, condition)| == |Those(init, condition)| + if condition(last) then 1 else 0
  {
    var init, last := items[..|items| - 1], |items| - 1;
    assert Those(items, condition) == Those(init, condition) + if condition(items[last]) then {last as nat} else {};
  }

  ghost predicate Counts(s: Summary, c: Core, items: seq<Item>, g: Id) {
    && s.lockedSkipped == |Those(items, item => IsSkipped(c, item))|
    && s.created == |Those(items, item => IsCreated(c, item))|
    && s.updated == |Those(items, item => IsUpdated(c, item))|
    && s.restored == |Those(items, item => IsRestored(c, item))|
    && s.linked == |Those(items, item => IsLinked(c, item, g))|
  }

  /** The loop meets each address as the request found it. */
  lemma MetAsFound(c: Core, init: seq<Item>, item: Item, ctx: Context)
    requires WellKept(c) && CanonicalItems(init) && Distinct(init) && item.address !in Listed(init)
    ensures var (mid, a) := (Fold(c, init, ctx).core, item.address);
      && (a in mid.records <==> a in c.records)
      && (a in c.records ==> mid.records[a] == c.records[a]
                             && (Linked(mid, a, ctx.g) <==> Linked(c, a, ctx.g)))
      && (forall m :: m in mid.members ==> m.0 != mid.next)
  {
    FoldEffect(c, init, ctx);
    FoldKeepsForm(c, init, ctx);
    NewIdIsUnlinked(Fold(c, init, ctx).core);
    hide Fold, WellKept, RowAfter, Listed;
  }

  /** What one more entry adds to each counter. */
  ghost predicate Grows(s: Summary, t: Summary, c: Core, item: Item, g: Id) {
    && t.lockedSkipped == s.lockedSkipped + (if IsSkipped(c, item) then 1 else 0)
    && t.created == s.created + (if IsCreated(c, item) then 1 else 0)
    && t.updated == s.updated + (if IsUpdated(c, item) then 1 else 0)
    && t.restored == s.restored + (if IsRestored(c, item) then 1 else 0)
    && t.linked == s.linked + (if IsLinked(c, item, g) then 1 else 0)
  }

  lemma StepCounts(c: Core, p: Progress, item: Item, ctx: Context)
    requires item.address in p.core.records <==> item.address in c.records
    requires var a := item.address;
      a in c.records ==> p.core.records[a] == c.records[a] && (Linked(p.core, a, ctx.g) <==> Linked(c, a, ctx.g))
    requires forall m :: m in p.core.members ==> m.0 != p.core.next
    ensures Grows(p.summary, EntryStep(p, item, ctx).summary, c, item, ctx.g)
  {
  }

  lemma CountsGrow(s: Summary, t: Summary, c: Core, items: seq<Item>, g: Id)
    requires items != []
    requires Counts(s, c, items[..|items| - 1], g) && Grows(s, t, c, items[|items| - 1], g)
    ensures Counts(t, c, items, g)
  {
    OneMoreOfThose(items, item => IsSkipped(c, item));
    OneMoreOfThose(items, item => IsCreated(c, item));
    OneMoreOfThose(items, item => IsUpdated(c, item));
    OneMoreOfThose(items, item => IsRestored(c, item));
    OneMoreOfThose(items, item => IsLinked(c, item, g));
    hide Those, IsSkipped, IsCreated, IsUpdated, IsRestored, IsLinked;
  }

  /** Every counter is the number of entries that meet its condition. */
  lemma {:induction false} CountersCount(c: Core, items: seq<Item>, ctx: Context)
    requires WellKept(c) && CanonicalItems(items) && Distinct(items)
    ensures Counts(Fold(c, items, ctx).summary, c, items, ctx.g)
    decreases |items|
  {
    if items != [] {
      var init, last := items[..|items| - 1], items[|items| - 1];
      assert CanonicalItems(init) && Distinct(init) && last.address !in Listed(init);
      CountersCount(c, init, ctx);
      MetAsFound(c, init, last, ctx);
      StepCounts(c, Fold(c, init, ctx), last, ctx);
      FoldLast(c, init, last, ctx);
      assert init + [last] == items;
      hide Fold, EntryStep, WellKept, Distinct, CanonicalItems, Counts, Grows;
      CountsGrow(Fold(c, init, ctx).summary, Fold(c, items, ctx).summary, c, items, ctx.g);
    }
  }

  // ---------- The events of the loop ----------

  /** An addition or update of a listed address, in the batch's group and with its entry's cause. */
  ghost predicate Tells(e: Event, items: seq<Item>, ctx: Context) {
    && e.action != IP_DELETE && e.group == ctx.g && e.groupName == ctx.group.name
    && (e.isWhitelist <==> ctx.group.groupType == "whitelist")
    && exists i :: 0 <= i < |items| && items[i].address == e.address && items[i].entry.cause == e.cause
  }

  lemma TellsOfMore(e: Event, items: seq<Item>, item: Item, ctx: Context)
    requires Tells(e, items, ctx)
    ensures Tells(e, items + [item], ctx)
  {
    var i :| 0 <= i < |items| && items[i].address == e.address && items[i].entry.cause == e.cause;
    assert (items + [item])[i] == items[i];
  }

  /** One event for each entry that is not skipped, or none at all if the batch asks for silence. */
  lemma {:induction false} EventsAreTold(c: Core, items: seq<Item>, ctx: Context)
    ensures var p := Fold(c, items, ctx);
      && |p.events| == (if ctx.skipWebhooks then 0 else p.summary.created + p.summary.updated)
      && forall e :: e in p.events ==> Tells(e, items, ctx)
    decreases |items|
  {
    if items != [] {
      var init, last := items[..|items| - 1], items[|items| - 1];
      EventsAreTold(c, init, ctx);
      FoldLast(c, init, last, ctx);
      assert init + [last] == items && items[|items| - 1] == last;
      var p, q := Fold(c, init, ctx), Fold(c, items, ctx);
      hide Fold, WriteEntry, Tells;
      forall e | e in q.events ensures Tells(e, items, ctx) {
        if e in p.events {
          TellsOfMore(e, init, last, ctx);
        } else {
          LastIsTold(p, items, last, ctx, e);
        }
      }
    }
  }

  lemma LastIsTold(p: Progress, items: seq<Item>, last: Item, ctx: Context, e: Event)
    requires items != [] && items[|items| - 1] == last && e in EntryStep(p, last, ctx).events && e !in p.events
    ensures Tells(e, items, ctx)
  {
  }
}
