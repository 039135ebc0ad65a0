/** What each record request does, and who may make it (src/api/records.rs), in terms of the tables alone. */
module RecordEffects {
  import opened Common
  import opened Lineage
  import opened Guards
  import opened Rights
  import opened RightsRuns
  import opened Addresses
  import opened Records
  import opened Batch

  /** The row of the key on the group has this verb, or the key needs none. */
  predicate MayWriteTo(db: Tables, me: Id, g: Id)
    requires me in db.keys
  {
    db.keys[me].isMaster || ((me, g) in db.rows && db.rows[(me, g)].write)
  }

  predicate MayDeleteFrom(db: Tables, me: Id, g: Id)
    requires me in db.keys
  {
    db.keys[me].isMaster || ((me, g) in db.rows && db.rows[(me, g)].delete)
  }

  /** The group named by id or by name, by one of the two. */
  predicate Chosen(groups: map<Id, Group>, id: Option<Id>, name: Option<string>, g: Id) {
    g in groups && ((id == Some(g) && name.None?) || (id.None? && name == Some(groups[g].name)))
  }

  lemma ChosenIsResolved(groups: map<Id, Group>, id: Option<Id>, name: Option<string>, g: Id)
    requires NamesUnique(groups) && Chosen(groups, id, name, g)
    ensures ResolveGroup(groups, id, name) == Ok(Some(g))
  {
  }

  // ---------- Ban and whitelist requests ----------

  /** Everything but the record at a and its link to g is as it was, and that record is live and just seen. */
  ghost predicate Sighted(before: Core, after: Core, a: Address, g: Id, cause: Option<string>, now: Time) {
    && after.records.Keys == before.records.Keys + {a}
    && (forall b :: b in before.records && b != a ==> after.records[b] == before.records[b])
    && var r := after.records[a];
       && after.members == before.members + {(r.id, g)}
       && !r.isDeleted && r.deletedAt.None? && r.deletedBy.None? && r.lastSeenAt == now && r.updatedAt == now
       && if a in before.records then
            var was := before.records[a];
            && r.id == was.id && r.createdAt == was.createdAt && r.isLocked == was.isLocked
            && r.cause == (if cause.Some? then cause else was.cause) && after.next == before.next
          else
            && r.id == before.next && r.createdAt == now && !r.isLocked && r.cause == cause
            && after.next == before.next + 1
  }

  lemma RegisterSights(c: Core, a: Address, cause: Option<string>, now: Time, g: Id, group: Group, white: bool)
    requires WellKept(c)
    ensures var (after, event) := RegisterCore(c, a, cause, now, g, group, white);
      && Sighted(c, after, a, g, cause, now) && event == Event(event.action, a, white, g, group.name, cause)
  {
    if a in c.records { MarkedAt(c, a); }
    hide WellKept;
  }

  /** Into a group that exists: the request is carried out exactly when its address can be read and, to be banned,
      is one that may be, the caller may write to the group, the group is of the right type, and the record is not
      locked. Then that record is sighted and linked, and nothing else happens. */
  lemma RegistrationDoes(st: Store, me: Id, now: Time, p: UpsertPayload, white: bool, g: Id)
    requires me in st.rights.keys && NamesUnique(st.rights.groups) && WellKept(st.core)
    requires Chosen(st.rights.groups, p.groupId, p.groupName, g)
    ensures var ((after, o, events), group) := (Upsert(st, me, now, p, white), st.rights.groups[g]);
      && (o == Done <==>
            && p.target.Some? && (white || Bannable(p.target.value)) && MayWriteTo(st.rights, me, g)
            && group.groupType != (if white then "banlist" else "whitelist")
            && var a := Normalize(p.target.value); a in st.core.records ==> !st.core.records[a].isLocked)
      && (o != Done ==> after == st && events == [])
      && (o == Done ==>
            var a := Normalize(p.target.value);
            && after.rights == st.rights && Sighted(st.core, after.core, a, g, p.cause, now)
            && (if a in st.core.records && (st.core.records[a].id, g) in st.core.members
                then events == [Event(IP_UPDATE, a, white, g, group.name, p.cause)]
                else events == [Event(IP_ADD, a, white, g, group.name, p.cause)]))
  {
    ChosenIsResolved(st.rights.groups, p.groupId, p.groupName, g);
    if p.target.Some? {
      var a := Normalize(p.target.value);
      RegisterSights(st.core, a, p.cause, now, g, st.rights.groups[g], white);
      NewRecordIsLinked(st.core, a, p.cause, now, g, st.rights.groups[g], white);
    }
    hide Bannable, Normalize, RegisterCore, Sighted, NamesUnique, WellKept;
  }

  lemma NewRecordIsLinked(c: Core, a: Address, cause: Option<string>, now: Time, g: Id, group: Group, white: bool)
    requires WellKept(c)
    ensures RegisterCore(c, a, cause, now, g, group, white).1.action
         == if a in c.records && (c.records[a].id, g) in c.members then IP_UPDATE else IP_ADD
  {
    assert forall m :: m in c.members ==> m.0 < c.next by {
      forall m | m in c.members ensures m.0 < c.next { var b :| b in c.records && c.records[b].id == m.0; }
    }
  }

  // ---------- Deletion and restore by id ----------

  /** A deletion is carried out exactly when the record is not locked and the caller may delete from some group it
      is in, or is the master, who alone may delete for good. */
  lemma DeletionDoes(st: Store, me: Id, id: Id, hard: bool, now: Time, a: Address)
    requires me in st.rights.keys && IdsDistinct(st.core.records)
    requires a in st.core.records && st.core.records[a].id == id
    ensures var ((after, o), r) := (DeleteRecord(st, me, id, hard, now), st.core.records[a]);
      && (o == Done <==>
            && !r.isLocked
            && (st.rights.keys[me].isMaster
                || (!hard && exists g :: (id, g) in st.core.members && MayDeleteFrom(st.rights, me, g))))
      && after.rights == st.rights && after.core.next == st.core.next
      && (o != Done ==> after == st)
      && (o == Done && hard ==>
            && after.core.records == st.core.records - {a}
            && forall m :: m in after.core.members <==> m in st.core.members && m.0 != id)
      && (o == Done && !hard ==>
            && after.core.members == st.core.members && after.core.records.Keys == st.core.records.Keys
            && (forall b :: b in st.core.records && b != a ==> after.core.records[b] == st.core.records[b])
            && after.core.records[a] == if r.isDeleted then r
                                        else r.(isDeleted := true, deletedAt := Some(now), deletedBy := Some(me),
                                                updatedAt := now))
  {
    RecordHeld(st.core.records, a);
    assert MayDelete(st, me, id) <==>
      st.rights.keys[me].isMaster || exists g :: (id, g) in st.core.members && MayDeleteFrom(st.rights, me, g) by {
      DeletersAre(st, me, id);
    }
    hide MayDelete, MayDeleteFrom, IdsDistinct;
  }

  lemma DeletersAre(st: Store, me: Id, id: Id)
    requires me in st.rights.keys
    ensures MayDelete(st, me, id) <==>
      st.rights.keys[me].isMaster || exists g :: (id, g) in st.core.members && MayDeleteFrom(st.rights, me, g)
  {
    if !st.rights.keys[me].isMaster && exists g :: (id, g) in st.core.members && MayDeleteFrom(st.rights, me, g) {
      var g :| (id, g) in st.core.members && MayDeleteFrom(st.rights, me, g);
      assert (id, g).0 == id && Row(st.rights.rows, me, (id, g).1).Some?;
    }
    if MayDelete(st, me, id) && !st.rights.keys[me].isMaster {
      var m :| m in st.core.members && m.0 == id && Row(st.rights.rows, me, m.1).Some?
               && Row(st.rights.rows, me, m.1).value.delete;
      assert (id, m.1) in st.core.members && MayDeleteFrom(st.rights, me, m.1);
    }
  }

  /** The master alone restores, and only what is deleted. */
  lemma RestoreDoes(st: Store, me: Id, id: Id, now: Time, a: Address)
    requires me in st.rights.keys && IdsDistinct(st.core.records)
    requires a in st.core.records && st.core.records[a].id == id
    ensures var ((after, o), r) := (RestoreRecord(st, me, id, now), st.core.records[a]);
      && (o == Done <==> st.rights.keys[me].isMaster && r.isDeleted)
      && after == if o != Done then st
                  else st.(core := st.core.(records := st.core.records[
                         a := r.(isDeleted := false, deletedAt := None, deletedBy := None, updatedAt := now)]))
  {
    RecordHeld(st.core.records, a);
  }

  // ---------- Taking a record out of a group ----------

  lemma UnlinkingDoes(st: Store, me: Id, a: Address, id: Option<Id>, name: Option<string>, g: Id)
    requires me in st.rights.keys && NamesUnique(st.rights.groups) && Chosen(st.rights.groups, id, name, g)
    ensures var ((after, o, events), group) := (DeleteMembership(st, me, a, id, name), st.rights.groups[g]);
      && (o == Done <==>
            && MayDeleteFrom(st.rights, me, g) && a in st.core.records && !st.core.records[a].isLocked
            && (st.core.records[a].id, g) in st.core.members)
      && (o != Done ==> after == st && events == [])
      && (o == Done ==>
            && after == st.(core := st.core.(members := after.core.members))
            && (forall m :: m in after.core.members <==> m in st.core.members && m != (st.core.records[a].id, g))
            && events == [Event(IP_DELETE, a, group.groupType == "whitelist", g, group.name, Some("Deleted via API"))])
  {
    ChosenIsResolved(st.rights.groups, id, name, g);
  }

  // ---------- One entry of a batch ----------

  /** What an entry makes of a record: each time it gives or else now, its cause or else the old one, and deleted
      or live as it says, live if it says nothing. */
  lemma EntryWrites(r: Record, e: Entry, me: Id, now: Time, id: Id)
    requires DeletionMarked(r)
    ensures var after := UpdatedBy(r, e, me, now);
      && after.id == r.id && after.createdAt == r.createdAt && after.isLocked == r.isLocked
      && after.lastSeenAt == GetOr(e.lastSeenAt, now) && after.updatedAt == GetOr(e.updatedAt, now)
      && after.cause == (if e.cause.Some? then e.cause else r.cause)
      && (after.isDeleted <==> e.isDeleted == Some(true))
      && after.deletedAt == (if e.isDeleted == Some(true) then Some(GetOr(e.deletedAt, now)) else None)
      && after.deletedBy == (if e.isDeleted == Some(true) then Some(me) else None)
    ensures var made := InsertedBy(id, e, me, now);
      && made.id == id && !made.isLocked && made.cause == e.cause
      && made.createdAt == GetOr(e.createdAt, now) && made.lastSeenAt == GetOr(e.lastSeenAt, now)
      && made.updatedAt == GetOr(e.updatedAt, now) && (made.isDeleted <==> e.isDeleted == Some(true))
      && made.deletedAt == (if e.isDeleted == Some(true) then Some(GetOr(e.deletedAt, now)) else None)
      && made.deletedBy == (if e.isDeleted == Some(true) then Some(me) else None)
  {
  }

  // ---------- Groups made on the way ----------

  ghost predicate NewName(groups: map<Id, Group>, name: string) { forall g :: g in groups ==> groups[g].name != name }

  /** A name that no group has makes one, of the type the request wants and owned by its maker, unless that is the
      master. A single request gives a maker that is not the master read, write and delete on it, a batch nothing. */
  ghost predicate MadeGroup(before: Tables, after: Tables, me: Id, name: string, kind: string, withRow: bool)
    requires me in before.keys
  {
    var isMaster := before.keys[me].isMaster;
    && after.keys == before.keys && after.hooks == before.hooks && after.next == before.next + 1
    && after.groups == before.groups[before.next := Group(name, kind, if isMaster then None else Some(me))]
    && after.rows == if withRow && !isMaster then before.rows[(me, before.next) := Verbs(true, true, true, false)]
                     else before.rows
  }

  lemma TouchMakes(db: Tables, me: Id, name: string, kind: string, provisions: bool)
    requires me in db.keys && NewName(db.groups, name) && (me, db.next) !in db.rows
    ensures var (after, o) := TouchGroup(db, me, name, kind, provisions);
      && (o == Done <==> db.keys[me].isMaster || db.keys[me].scopes.createGroups)
      && if o == Done then MadeGroup(db, after, me, name, kind, provisions) else after == db && o == Refused(Forbidden)
  {
  }

  /** Into a new group: the caller must be the master or have the right to make groups. A locked record refuses the
      request and leaves the group behind. */
  lemma RegistrationMakesTheGroup(st: Store, me: Id, now: Time, p: UpsertPayload, white: bool)
    requires me in st.rights.keys && WellKept(st.core) && (me, st.rights.next) !in st.rights.rows
    requires p.target.Some? && p.groupId.None? && p.groupName.Some? && NewName(st.rights.groups, p.groupName.value)
    ensures var ((after, o, events), a) := (Upsert(st, me, now, p, white), Normalize(p.target.value));
      var mayMake := (white || Bannable(p.target.value))
                     && (st.rights.keys[me].isMaster || st.rights.keys[me].scopes.createGroups);
      && (o == Done <==> mayMake && (a in st.core.records ==> !st.core.records[a].isLocked))
      && (if mayMake then MadeGroup(st.rights, after.rights, me, p.groupName.value,
                                    if white then "whitelist" else "banlist", true)
          else after == st)
      && (o == Done ==> Sighted(st.core, after.core, a, st.rights.next, p.cause, now) && |events| == 1)
      && (o != Done ==> after.core == st.core && events == [])
  {
    var kind, a := if white then "whitelist" else "banlist", Normalize(p.target.value);
    TouchMakes(st.rights, me, p.groupName.value, kind, true);
    var made := TouchGroup(st.rights, me, p.groupName.value, kind, true).0;
    if st.rights.next in made.groups {
      RegisterSights(st.core, a, p.cause, now, st.rights.next, made.groups[st.rights.next], white);
    }
    hide Bannable, Normalize, RegisterCore, Sighted, WellKept, TouchGroup, MadeGroup;
  }

  // ---------- When a batch is committed ----------

  /** The entries of a batch can be stored: not too many, all readable, no address twice. */
  ghost predicate Storable(p: Payload) {
    && |p.entries| <= 10_000 && (forall i :: 0 <= i < |p.entries| ==> p.entries[i].target.Some?)
    && forall i, j :: 0 <= i < j < |p.entries| && p.entries[i].target.Some? && p.entries[j].target.Some? ==>
      Normalize(p.entries[i].target.value) != Normalize(p.entries[j].target.value)
  }

  ghost predicate AllBannable(p: Payload) {
    forall i :: 0 <= i < |p.entries| && p.entries[i].target.Some? ==> Bannable(p.entries[i].target.value)
  }

  lemma StorableIs(p: Payload)
    ensures Storable(p) <==> |p.entries| <= MAX_BATCH_RECORDS && AllParse(p.entries) && Distinct(Items(p.entries))
    ensures AllParse(p.entries) ==>
      (AllBannable(p) <==> forall i :: 0 <= i < |Items(p.entries)| ==> BannableAddress(Items(p.entries)[i].address))
  {
    if AllParse(p.entries) {
      forall i | 0 <= i < |p.entries| {
        BannableSurvivesNormalizing(p.entries[i].target.value);
      }
      var items := Items(p.entries);
      hide Normalize, Bannable, BannableAddress;
      assert forall i :: 0 <= i < |items| ==> items[i].address == Normalize(p.entries[i].target.value);
    }
  }

  /** Into a group that exists a batch is committed exactly when its entries can be stored, the caller may write to
      the group, and delete from it to replace it, and, unless it is a whitelist, every address may be banned. */
  lemma BatchIsCommittedExactly(st: Store, me: Id, now: Time, p: Payload, g: Id)
    requires me in st.rights.keys && NamesUnique(st.rights.groups)
    requires g in st.rights.groups && st.rights.groups[g].name == p.groupName
    ensures var reply := BatchRecords(st, me, now, p);
      && (reply.outcome.Ok? <==>
            && Storable(p) && MayWriteTo(st.rights, me, g) && (p.mode.FullReplace? ==> MayDeleteFrom(st.rights, me, g))
            && (st.rights.groups[g].groupType == "whitelist" || AllBannable(p)))
      && reply.store.rights == st.rights && (reply.outcome.Err? ==> reply.store == st && reply.events == [])
  {
    StorableIs(p);
    assert FindByName(st.rights.groups, p.groupName) == Some(g);
    hide Storable, AllBannable, AllParse, Distinct, Items, BannableAddress, Fold, Swept, NamesUnique;
    assert st.(rights := st.rights) == st;
  }

  /** Into a new one exactly when the caller may make groups; the group stays if only its addresses were refused. */
  lemma BatchMakesTheGroup(st: Store, me: Id, now: Time, p: Payload)
    requires me in st.rights.keys && NewName(st.rights.groups, p.groupName)
    requires (me, st.rights.next) !in st.rights.rows
    ensures var reply := BatchRecords(st, me, now, p);
      var mayMake := Storable(p) && (st.rights.keys[me].isMaster || st.rights.keys[me].scopes.createGroups);
      && (reply.outcome.Ok? <==> mayMake && AllBannable(p))
      && (if mayMake then MadeGroup(st.rights, reply.store.rights, me, p.groupName, "banlist", false)
          else reply.store == st)
      && (reply.outcome.Err? ==> reply.store.core == st.core && reply.events == [])
  {
    StorableIs(p);
    TouchMakes(st.rights, me, p.groupName, "banlist", false);
    assert FindByName(st.rights.groups, p.groupName) == None;
    hide Storable, AllBannable, AllParse, Distinct, Items, BannableAddress, Fold, Swept, TouchGroup;
  }
}
