/** The handlers of src/api/records.rs and the purge of src/retention.rs as they run: checks, then row
    writes one at a time. Each is tied to its step in `Records` or `Batch`. */
module RecordService {
  import opened Common
  import opened Lineage
  import opened Guards
  import opened Rights
  import opened RightsRuns
  import opened Addresses
  import opened Records
  import opened Batch

  /** One IP_DELETE per swept address, and nothing else. */
  ghost predicate SweepEvents(events: seq<Event>, swept: set<Address>, ctx: Context) {
    && (forall i, j :: 0 <= i < j < |events| ==> events[i].address != events[j].address)
    && (forall i :: 0 <= i < |events| ==> events[i].address in swept && events[i] == SweepEvent(events[i].address, ctx))
    && (forall a :: a in swept ==> SweepEvent(a, ctx) in events)
  }

  /** As many as are swept, each a deletion from the batch's group, with the reason every sweep gives. */
  lemma SweepsAreTold(events: seq<Event>, swept: set<Address>, ctx: Context)
    requires SweepEvents(events, swept, ctx)
    ensures |events| == |swept|
    ensures forall e :: e in events ==>
      && e.action == IP_DELETE && e.address in swept && e.group == ctx.g && e.groupName == ctx.group.name
      && (e.isWhitelist <==> ctx.group.groupType == "whitelist")
      && e.cause == Some("Removed via batch full_replace synchronisation")
  {
    var told := set i | 0 <= i < |events| :: events[i].address;
    assert told == swept by {
      forall a | a in swept ensures a in told {
        var i :| 0 <= i < |events| && events[i] == SweepEvent(a, ctx);
        assert events[i].address == a;
      }
    }
    EachToldOnce(events);
  }

  lemma {:induction false} EachToldOnce(events: seq<Event>)
    requires forall i, j :: 0 <= i < j < |events| ==> events[i].address != events[j].address
    ensures |set i | 0 <= i < |events| :: events[i].address| == |events|
  {
    var told := set i | 0 <= i < |events| :: events[i].address;
    if events != [] {
      var init, last := events[..|events| - 1], events[|events| - 1];
      EachToldOnce(init);
      assert told == (set i | 0 <= i < |init| :: init[i].address) + {last.address};
    }
  }

  lemma SweepEventAdded(events: seq<Event>, swept: set<Address>, ctx: Context, a: Address)
    requires SweepEvents(events, swept, ctx) && a !in swept
    ensures SweepEvents(events + [SweepEvent(a, ctx)], swept + {a}, ctx)
  {
    var more := events + [SweepEvent(a, ctx)];
    assert forall e :: e in more <==> e in events || e == SweepEvent(a, ctx);
  }

  lemma SweepNothing(c: Core, ctx: Context)
    ensures SweepRecords(c, {}, ctx) == c
  {
    assert SweepRecords(c, {}, ctx).records == c.records;
  }

  lemma SweepOneMore(c: Core, swept: set<Address>, ctx: Context, a: Address)
    requires a in c.records && a !in swept
    ensures var now := SweepRecords(c, swept, ctx);
      a in now.records && now.records[a] == c.records[a]
      && SweepRecords(c, swept + {a}, ctx)
          == now.(records := now.records[a := SoftDeleted(c.records[a], ctx.me, ctx.now)])
  {
    var now := SweepRecords(c, swept, ctx);
    assert SweepRecords(c, swept + {a}, ctx).records == now.records[a := SoftDeleted(c.records[a], ctx.me, ctx.now)];
  }

  lemma ItemsGrow(entries: seq<Entry>, i: nat)
    requires i < |entries| && AllParse(entries[..i + 1])
    ensures AllParse(entries[..i])
    ensures Items(entries[..i + 1]) == Items(entries[..i]) + [Item(Normalize(entries[i].target.value), entries[i])]
  {
  }

  class RecordStore {
    var rights: Tables
    var records: map<Address, Record>
    var members: set<(Id, Id)>
    var nextRecord: Id

    ghost function Rows(): Core
      reads this
    {
      Core(records, members, nextRecord)
    }

    ghost function St(): Store
      reads this
    {
      Store(rights, Rows())
    }

    /** Unique names and unique record ids: what lookups rely on. */
    ghost predicate Valid()
      reads this
    {
      NamesUnique(rights.groups) && IdsDistinct(records)
    }

    method ResolveGroupRef(id: Option<Id>, name: Option<string>) returns (r: Result<Option<Id>, Refusal>)
      requires Valid()
      ensures r == ResolveGroup(rights.groups, id, name)
    {
      if id.Some? && name.Some? { return Err(InvalidInput); }
      if id.None? && name.None? { return Err(InvalidInput); }
      if id.Some? { return Ok(if id.value in rights.groups then id else None); }
      if g :| g in rights.groups && rights.groups[g].name == name.value { return Ok(Some(g)); }
      return Ok(None);
    }

    method FindRecord(id: Id) returns (r: Option<Address>)
      requires Valid()
      ensures r == FindById(records, id)
    {
      if a :| a in records && records[a].id == id { return Some(a); }
      return None;
    }

    /** The group a request named but nobody has made yet, and the creator's row on it. */
    method MakeGroup(me: Id, name: string, groupType: string, provisions: bool) returns (o: Outcome, g: Id)
      requires Valid() && me in rights.keys && FindByName(rights.groups, name).None?
      modifies this`rights
      ensures Valid() && (rights, o) == TouchGroup(old(rights), me, name, groupType, provisions)
      ensures rights.keys == old(rights.keys) && g == old(rights.next) && (o == Done ==> g in rights.groups)
    {
      g := rights.next;
      if !rights.keys[me].isMaster && !rights.keys[me].scopes.createGroups { return Refused(Forbidden), g; }
      rights := InsertGroup(rights, me, name, groupType);
      if provisions && !rights.keys[me].isMaster {
        rights := ProvisionRow(rights, me, g);
      }
      return Done, g;
    }

    /** `handle_ip_upsert`. */
    method HandleIpUpsert(me: Id, now: Time, p: UpsertPayload, isWhitelist: bool)
      returns (o: Outcome, events: seq<Event>)
      requires Valid() && WellKept(Rows()) && me in rights.keys
      modifies this
      ensures var (after, outcome, raised) := Upsert(old(St()), me, now, p, isWhitelist);
        St() == after && o == outcome && events == raised
      ensures Valid() && WellKept(Rows())
    {
      ghost var before := St();
      UpsertKeepsForm(before, me, now, p, isWhitelist);
      hide WellKept, TouchGroup, Bannable, MayWrite, Normalize, RegisterCore;
      events := [];
      if p.target.None? { return Refused(InvalidInput), []; }
      if !isWhitelist && !Bannable(p.target.value) { return Refused(InvalidInput), []; }
      var resolved := ResolveGroupRef(p.groupId, p.groupName);
      if resolved.Err? { return Refused(resolved.error), []; }
      var g: Id;
      if resolved.value.Some? {
        g := resolved.value.value;
        if !MayWrite(rights, me, g) { return Refused(Forbidden), []; }
        var groupType := rights.groups[g].groupType;
        if isWhitelist && groupType == "banlist" { return Refused(InvalidInput), []; }
        if !isWhitelist && groupType == "whitelist" { return Refused(InvalidInput), []; }
      } else if p.groupName.Some? {
        o, g := MakeGroup(me, p.groupName.value, if isWhitelist then "whitelist" else "banlist", true);
        if o != Done { return o, []; }
      } else {
        return Refused(NotFound), [];
      }
      var a := Normalize(p.target.value);
      if a in records && records[a].isLocked { return Refused(Forbidden), []; }
      var event := WriteRegistration(a, p.cause, now, g, isWhitelist);
      WellKeptIsDistinct(Rows());
      return Done, [event];
    }

    /** The transaction of one registration. */
    method WriteRegistration(a: Address, cause: Option<string>, now: Time, g: Id, isWhitelist: bool)
      returns (event: Event)
      requires g in rights.groups
      modifies this`records, this`members, this`nextRecord
      ensures (Rows(), event) == RegisterCore(old(Rows()), a, cause, now, g, rights.groups[g], isWhitelist)
    {
      if a in records {
        var record := records[a];
        var wasDeleted := record.isDeleted;
        record := record.(lastSeenAt := now, updatedAt := now);
        if wasDeleted { record := record.(isDeleted := false, deletedAt := None, deletedBy := None); }
        if cause.Some? { record := record.(cause := cause); }
        records := records[a := record];
      } else {
        records := records[a := NewRecord(nextRecord, cause, now)];
        nextRecord := nextRecord + 1;
      }
      var link := (records[a].id, g);
      var action := if link in members then IP_UPDATE else IP_ADD;
      members := members + {link};
      event := Event(action, a, isWhitelist, g, rights.groups[g].name, cause);
    }

    /** `delete_ip_record`. */
    method DeleteIpRecord(me: Id, now: Time, id: Id, hard: bool) returns (o: Outcome)
      requires Valid() && me in rights.keys
      modifies this`records, this`members
      ensures Valid() && (St(), o) == DeleteRecord(old(St()), me, id, hard, now)
    {
      var found := FindRecord(id);
      if found.None? { return Refused(NotFound); }
      var a := found.value;
      var record := records[a];
      if !MayDelete(Store(rights, Core(records, members, nextRecord)), me, id) { return Refused(Forbidden); }
      if record.isLocked { return Refused(Forbidden); }
      if hard && !rights.keys[me].isMaster { return Refused(Forbidden); }
      if hard {
        members := MembersWithout(members, {record.id});
        records := records - {a};
        return Done;
      }
      if record.isDeleted { return Done; }
      records := records[a := record.(isDeleted := true, deletedAt := Some(now),
                                       deletedBy := Some(me), updatedAt := now)];
      return Done;
    }

    /** `restore_ip_record`. */
    method RestoreIpRecord(me: Id, now: Time, id: Id) returns (o: Outcome)
      requires Valid() && me in rights.keys
      modifies this`records
      ensures Valid() && (St(), o) == RestoreRecord(old(St()), me, id, now)
    {
      if !rights.keys[me].isMaster { return Refused(Forbidden); }
      var found := FindRecord(id);
      if found.None? { return Refused(NotFound); }
      var record := records[found.value];
      if !record.isDeleted { return Refused(InvalidInput); }
      records := records[found.value := record.(isDeleted := false, deletedAt := None,
                                                 deletedBy := None, updatedAt := now)];
      return Done;
    }

    /** `delete_ip`: one membership. */
    method DeleteIp(me: Id, a: Address, id: Option<Id>, name: Option<string>) returns (o: Outcome, events: seq<Event>)
      requires Valid() && me in rights.keys
      modifies this`members
      ensures Valid() && (St(), o, events) == DeleteMembership(old(St()), me, a, id, name)
    {
      var resolved := ResolveGroupRef(id, name);
      if resolved.Err? { return Refused(resolved.error), []; }
      if resolved.value.None? { return Refused(NotFound), []; }
      var g := resolved.value.value;
      if !rights.keys[me].isMaster {
        var row := Row(rights.rows, me, g);
        if row.None? || !row.value.delete { return Refused(Forbidden), []; }
      }
      if a !in records { return Refused(NotFound), []; }
      if records[a].isLocked { return Refused(Forbidden), []; }
      var link := (records[a].id, g);
      if link !in members { return Refused(NotFound), []; }
      members := members - {link};
      var group := rights.groups[g];
      return Done, [Event(IP_DELETE, a, group.groupType == "whitelist", g, group.name, Some("Deleted via API"))];
    }

    /** `purge_expired_ip_records`. */
    method PurgeExpired(days: int, now: Time) returns (purged: nat)
      requires Valid()
      modifies this`records, this`members
      ensures Valid() && (Rows(), purged) == Purge(old(Rows()), days, now)
    {
      if days <= 0 { return 0; }
      var gone := set a | a in records && Expired(records[a], days, now);
      members := MembersWithout(members, IdsOf(records, gone));
      records := records - gone;
      return |gone|;
    }

    // ---------- batch_records ----------

    /** Parses and canonicalises everything before any lock is taken; a repeated address is refused. */
    method Canonicalise(entries: seq<Entry>) returns (r: Option<seq<Item>>)
      ensures r.Some? <==> AllParse(entries) && Distinct(Items(entries))
      ensures r.Some? ==> r.value == Items(entries)
    {
      hide Normalize;
      var items: seq<Item> := [];
      var seen: set<Address> := {};
      for i := 0 to |entries|
        invariant AllParse(entries[..i]) && items == Items(entries[..i]) && Distinct(items)
        invariant seen == Listed(items)
      {
        if entries[i].target.None? { return None; }
        var a := Normalize(entries[i].target.value);
        if a in seen {
          DuplicateFound(entries, items, i);
          return None;
        }
        assert AllParse(entries[..i + 1]);
        ItemsGrow(entries, i);
        ListedLast(items, Item(a, entries[i]));
        forall k | 0 <= k < |items| ensures items[k].address != a { assert items[k].address in Listed(items); }
        items := items + [Item(a, entries[i])];
        seen := seen + {a};
      }
      assert entries[..|entries|] == entries;
      return Some(items);
    }

    method AdmitBatch(me: Id, p: Payload) returns (r: Result<Id, Refusal>)
      requires Valid() && me in rights.keys
      modifies this`rights
      ensures Valid() && me in rights.keys
      ensures r.Err? ==> Admit(old(rights), me, p) == Err(r.error) && rights == old(rights)
      ensures r.Ok? ==> Admit(old(rights), me, p) == Ok((rights, r.value)) && r.value in rights.groups
    {
      var found := ResolveGroupRef(None, Some(p.groupName));
      if found.value.Some? {
        var g := found.value.value;
        if !rights.keys[me].isMaster {
          var row := Row(rights.rows, me, g);
          if row.None? { return Err(Forbidden); }
          if !row.value.write { return Err(Forbidden); }
          if p.mode.FullReplace? && !row.value.delete { return Err(Forbidden); }
        }
        return Ok(g);
      }
      var o, g := MakeGroup(me, p.groupName, "banlist", false);
      if o != Done { return Err(Forbidden); }
      return Ok(g);
    }

    method BatchRecords(me: Id, now: Time, p: Payload) returns (outcome: Result<Summary, Refusal>, events: seq<Event>)
      requires Valid() && WellKept(Rows()) && me in rights.keys
      modifies this
      ensures var reply := Batch.BatchRecords(old(St()), me, now, p);
        && St() == reply.store && outcome == reply.outcome && reply.events <= events
        && (outcome.Err? ==> events == [])
        && (outcome.Ok? ==>
              var g := Admit(old(rights), me, p).value.1;
              SweepEvents(events[|reply.events|..], if p.skipWebhooks then {} else reply.swept,
                          Context(me, now, g, rights.groups[g], p.skipWebhooks)))
      ensures Valid() && WellKept(Rows())
    {
      ghost var before := St();
      BatchKeepsForm(before, me, now, p);
      hide WellKept, Admit, BannableAddress, Fold, Swept, SweepRecords, SweepEvents, Distinct, Items,
           AllParse, NamesUnique, IdsDistinct;
      if |p.entries| > MAX_BATCH_RECORDS { return Err(InvalidInput), []; }
      var canonical := Canonicalise(p.entries);
      if canonical.None? { return Err(InvalidInput), []; }
      var items := canonical.value;
      var admitted := AdmitBatch(me, p);
      if admitted.Err? { return Err(admitted.error), []; }
      var g := admitted.value;
      var group := rights.groups[g];
      if group.groupType != "whitelist" && exists i :: 0 <= i < |items| && !BannableAddress(items[i].address) {
        WellKeptIsDistinct(Rows());
        return Err(InvalidInput), [];
      }
      var ctx := Context(me, now, g, group, p.skipWebhooks);
      var summary;
      summary, events := CommitBatch(items, p.mode, ctx);
      outcome := Ok(summary);
    }

    /** The transaction of an admitted batch. */
    method CommitBatch(items: seq<Item>, mode: Mode, ctx: Context) returns (summary: Summary, events: seq<Event>)
      requires Valid()
      modifies this`records, this`members, this`nextRecord
      ensures var reply := Commit(old(St()), items, mode, ctx);
        && St() == reply.store && reply.outcome == Ok(summary) && reply.events <= events
        && SweepEvents(events[|reply.events|..], if ctx.skipWebhooks then {} else reply.swept, ctx)
    {
      hide Fold, Swept, SweepRecords, SweepEvents;
      summary, events := ProcessEntries(items, ctx);
      if mode.FullReplace? {
        var swept, sweepEvents := SweepUnlisted(set i | 0 <= i < |items| :: items[i].address, ctx);
        summary := summary.(softDeleted := swept);
        assert (events + sweepEvents)[|events|..] == sweepEvents;
        events := events + sweepEvents;
      } else {
        assert events[|events|..] == [];
        NoSweepEvents(ctx);
      }
    }

    /** The entry loop. */
    method ProcessEntries(items: seq<Item>, ctx: Context) returns (summary: Summary, events: seq<Event>)
      modifies this`records, this`members, this`nextRecord
      ensures Progress(Rows(), summary, events) == Fold(old(Rows()), items, ctx)
    {
      hide Fold;
      ghost var before := Rows();
      summary, events := NOTHING, [];
      FoldEmpty(before, ctx);
      for i := 0 to |items|
        invariant Progress(Rows(), summary, events) == Fold(before, items[..i], ctx)
      {
        var a, input := items[i].address, items[i].entry;
        assert items[..i + 1] == items[..i] + [items[i]];
        FoldLast(before, items[..i], items[i], ctx);
        if a in records && records[a].isLocked {
          summary := summary.(lockedSkipped := summary.lockedSkipped + 1);
          continue;
        }
        summary := WriteRow(a, input, ctx, summary);
        var link := (records[a].id, ctx.g);
        var linked := if link in members then 0 else 1;
        members := members + {link};
        summary := summary.(linked := summary.linked + linked);
        if !ctx.skipWebhooks {
          var action := if linked > 0 then IP_ADD else IP_UPDATE;
          events := events + [Event(action, a, ctx.group.groupType == "whitelist", ctx.g, ctx.group.name, input.cause)];
        }
      }
      assert items[..|items|] == items;
    }

    /** One record of the loop: update in place or insert. */
    method WriteRow(a: Address, input: Entry, ctx: Context, summary: Summary) returns (s: Summary)
      requires !(a in records && records[a].isLocked)
      modifies this`records, this`nextRecord
      ensures Rows() == WriteEntry(old(Rows()), Item(a, input), ctx)
      ensures s == CountEntry(summary, old(Rows()), Item(a, input), false)
    {
      s := summary;
      if a in records {
        var record := records[a];
        var wasDeleted := record.isDeleted;
        record := record.(lastSeenAt := GetOr(input.lastSeenAt, ctx.now), updatedAt := GetOr(input.updatedAt, ctx.now));
        if input.cause.Some? { record := record.(cause := input.cause); }
        if input.isDeleted == Some(true) {
          record := record.(isDeleted := true, deletedAt := Some(GetOr(input.deletedAt, ctx.now)),
                            deletedBy := Some(ctx.me));
        } else if wasDeleted {
          record := record.(isDeleted := false, deletedAt := None, deletedBy := None);
          s := s.(restored := s.restored + 1);
        }
        records := records[a := record];
        s := s.(updated := s.updated + 1);
      } else {
        records := records[a := InsertedBy(nextRecord, input, ctx.me, ctx.now)];
        nextRecord := nextRecord + 1;
        s := s.(created := s.created + 1);
      }
    }

    /** The full_replace sweep, candidate by candidate, in whatever order they come. */
    method SweepUnlisted(listed: set<Address>, ctx: Context) returns (count: nat, events: seq<Event>)
      modifies this`records
      ensures var swept := Swept(old(Rows()), listed, ctx.g);
        && Rows() == SweepRecords(old(Rows()), swept, ctx) && count == |swept|
        && SweepEvents(events, if ctx.skipWebhooks then {} else swept, ctx)
    {
      hide SweepRecords, SweepEvents, SweepLeft, Swept;
      ghost var before := Rows();
      var candidates := set a | a in records && (records[a].id, ctx.g) in members
                                && !records[a].isDeleted && !records[a].isLocked;
      ghost var done: set<Address> := {};
      count, events := 0, [];
      SweepStart(before, listed, ctx.g, candidates);
      SweepNothing(before, ctx);
      NoSweepEvents(ctx);
      while candidates != {}
        invariant SweepLeft(before, listed, ctx.g, done, candidates)
        invariant Rows() == SweepRecords(before, done, ctx) && count == |done|
        invariant SweepEvents(events, if ctx.skipWebhooks then {} else done, ctx)
        decreases candidates
      {
        var a :| a in candidates;
        SweepTake(before, listed, ctx.g, done, candidates, a);
        candidates := candidates - {a};
        if a in listed { continue; }
        SweepOneMore(before, done, ctx, a);
        records := records[a := records[a].(isDeleted := true, deletedAt := Some(ctx.now), deletedBy := Some(ctx.me),
                                            updatedAt := ctx.now)];
        count := count + 1;
        if !ctx.skipWebhooks {
          SweepEventAdded(events, done, ctx, a);
          events := events + [SweepEvent(a, ctx)];
        }
        done := done + {a};
      }
      SweepDone(before, listed, ctx.g, done);
    }
  }

  /** Half way: what is swept is what was swept and the unlisted candidates still to come. */
  ghost predicate SweepLeft(before: Core, listed: set<Address>, g: Id, done: set<Address>, candidates: set<Address>) {
    && done !! candidates && candidates <= before.records.Keys
    && Swept(before, listed, g) == done + (candidates - listed)
  }

  lemma SweepStart(before: Core, listed: set<Address>, g: Id, candidates: set<Address>)
    requires candidates == set a | a in before.records && (before.records[a].id, g) in before.members
                                   && !before.records[a].isDeleted && !before.records[a].isLocked
    ensures SweepLeft(before, listed, g, {}, candidates)
  {
    assert Swept(before, listed, g) == candidates - listed;
  }

  lemma SweepTake(before: Core, listed: set<Address>, g: Id, done: set<Address>, candidates: set<Address>, a: Address)
    requires SweepLeft(before, listed, g, done, candidates) && a in candidates
    ensures a in before.records && a !in done
    ensures SweepLeft(before, listed, g, if a in listed then done else done + {a}, candidates - {a})
  {
    hide Swept;
    var more := if a in listed then done else done + {a};
    assert done + (candidates - listed) == more + (candidates - {a} - listed);
  }

  lemma SweepDone(before: Core, listed: set<Address>, g: Id, done: set<Address>)
    requires SweepLeft(before, listed, g, done, {})
    ensures Swept(before, listed, g) == done
  {
  }

  lemma WellKeptIsDistinct(c: Core)
    requires WellKept(c)
    ensures IdsDistinct(c.records)
  {
  }

  lemma FoldEmpty(c: Core, ctx: Context)
    ensures Fold(c, [], ctx) == Progress(c, NOTHING, [])
  {
  }

  lemma NoSweepEvents(ctx: Context)
    ensures SweepEvents([], {}, ctx)
  {
  }

  lemma DuplicateFound(entries: seq<Entry>, items: seq<Item>, i: nat)
    requires i < |entries| && AllParse(entries[..i]) && items == Items(entries[..i]) && entries[i].target.Some?
    requires Normalize(entries[i].target.value) in Listed(items)
    ensures AllParse(entries) ==> !Distinct(Items(entries))
  {
    var k :| 0 <= k < |items| && items[k].address == Normalize(entries[i].target.value);
    if AllParse(entries) {
      assert Items(entries)[k].address == Items(entries)[i].address;
    }
  }
}
