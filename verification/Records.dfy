/** IP records, their group memberships, and what each single-record handler of src/api/records.rs and
    the purge of src/retention.rs do to them, as one atomic step. */
module Records {
  import opened Common
  import opened Lineage
  import opened Guards
  import opened Rights
  import opened Addresses

  /** Microseconds since the epoch. */
  type Time = int

  const SECONDS := 1_000_000
  const DAYS := 86_400 * SECONDS

  datatype Record = Record(
    id: Id, cause: Option<string>, isLocked: bool,
    createdAt: Time, updatedAt: Time, lastSeenAt: Time,
    isDeleted: bool, deletedAt: Option<Time>, deletedBy: Option<Id>)

  /** `records` is keyed by its unique column; `members` holds (record id, group id). */
  datatype Core = Core(records: map<Address, Record>, members: set<(Id, Id)>, next: Id)

  datatype Store = Store(rights: Tables, core: Core)

  datatype Action = IP_ADD | IP_UPDATE | IP_DELETE

  datatype Event = Event(action: Action, address: Address, isWhitelist: bool, group: Id, groupName: string,
                         cause: Option<string>)

  ghost function FindById(records: map<Address, Record>, id: Id): (r: Option<Address>)
    ensures r.Some? ==> r.value in records && records[r.value].id == id
    ensures r.None? ==> forall a :: a in records ==> records[a].id != id
  {
    if a :| a in records && records[a].id == id then Some(a) else None
  }

  // ---------- Registration ----------

  function NewRecord(id: Id, cause: Option<string>, now: Time): Record {
    Record(id, cause, false, now, now, now, false, None, None)
  }

  /** A re-registration is a sighting; it brings a deleted record back as if never deleted. */
  function Registered(r: Record, cause: Option<string>, now: Time): Record {
    var seen := r.(lastSeenAt := now, updatedAt := now);
    var live := if r.isDeleted then seen.(isDeleted := false, deletedAt := None, deletedBy := None) else seen;
    if cause.Some? then live.(cause := cause) else live
  }

  predicate Locked(c: Core, a: Address) { a in c.records && c.records[a].isLocked }

  function PutRecord(c: Core, a: Address, cause: Option<string>, now: Time): (after: Core)
    ensures a in after.records
  {
    if a in c.records then c.(records := c.records[a := Registered(c.records[a], cause, now)])
    else c.(records := c.records[a := NewRecord(c.next, cause, now)], next := c.next + 1)
  }

  function Linked(c: Core, a: Address, g: Id): bool
    requires a in c.records
  {
    (c.records[a].id, g) in c.members
  }

  function Link(c: Core, a: Address, g: Id): Core
    requires a in c.records
  {
    c.(members := c.members + {(c.records[a].id, g)})
  }

  /** The transaction of a registration, and the event that follows its commit. */
  function RegisterCore(c: Core, a: Address, cause: Option<string>, now: Time, g: Id, group: Group, isWhitelist: bool)
    : (Core, Event)
  {
    var put := PutRecord(c, a, cause, now);
    var action := if Linked(put, a, g) then IP_UPDATE else IP_ADD;
    (Link(put, a, g), Event(action, a, isWhitelist, g, group.name, cause))
  }

  // ---------- handle_ip_upsert ----------

  /** `target` is what the submitted text parses as. */
  datatype UpsertPayload = UpsertPayload(target: Option<Network>, groupId: Option<Id>,
                                         groupName: Option<string>, cause: Option<string>)

  ghost function ResolveGroup(groups: map<Id, Group>, id: Option<Id>,
                              name: Option<string>): Result<Option<Id>, Refusal> {
    if id.Some? == name.Some? then Err(InvalidInput)
    else if id.Some? then Ok(if id.value in groups then id else None)
    else Ok(FindByName(groups, name.value))
  }

  function MayWrite(db: Tables, me: Id, g: Id): bool
    requires me in db.keys
  {
    db.keys[me].isMaster || (Row(db.rows, me, g).Some? && Row(db.rows, me, g).value.write)
  }

  predicate TypeMatches(groupType: string, isWhitelist: bool) {
    !(isWhitelist && groupType == "banlist") && !(!isWhitelist && groupType == "whitelist")
  }

  ghost function Upsert(st: Store, me: Id, now: Time, p: UpsertPayload, isWhitelist: bool): (Store, Outcome, seq<Event>)
    requires me in st.rights.keys
  {
    var groups := st.rights.groups;
    var resolved := ResolveGroup(groups, p.groupId, p.groupName);
    if p.target.None? then (st, Refused(InvalidInput), [])
    else if !isWhitelist && !Bannable(p.target.value) then (st, Refused(InvalidInput), [])
    else if resolved.Err? then (st, Refused(resolved.error), [])
    else if resolved.value.Some? then
      var g := resolved.value.value;
      if !MayWrite(st.rights, me, g) then (st, Refused(Forbidden), [])
      else if !TypeMatches(groups[g].groupType, isWhitelist) then (st, Refused(InvalidInput), [])
      else Register(st, now, p, isWhitelist, g)
    else if p.groupName.None? then (st, Refused(NotFound), [])
    else
      var (rights, o) := TouchGroup(st.rights, me, p.groupName.value,
                                    if isWhitelist then "whitelist" else "banlist", true);
      if o != Done then (st, o, []) else Register(st.(rights := rights), now, p, isWhitelist, st.rights.next)
  }

  /** A locked record aborts the transaction; a group made for the request stays. */
  ghost function Register(st: Store, now: Time, p: UpsertPayload, isWhitelist: bool, g: Id): (Store, Outcome,
      seq<Event>)
    requires p.target.Some? && g in st.rights.groups
  {
    var a := Normalize(p.target.value);
    if Locked(st.core, a) then (st, Refused(Forbidden), [])
    else
      var (core, event) := RegisterCore(st.core, a, p.cause, now, g, st.rights.groups[g], isWhitelist);
      (st.(core := core), Done, [event])
  }

  // ---------- Soft delete, restore, membership removal, purge ----------

  predicate MayDelete(st: Store, me: Id, id: Id)
    requires me in st.rights.keys
  {
    st.rights.keys[me].isMaster
    || exists m :: m in st.core.members && m.0 == id
                   && Row(st.rights.rows, me, m.1).Some? && Row(st.rights.rows, me, m.1).value.delete
  }

  function SoftDeleted(r: Record, me: Id, now: Time): Record {
    r.(isDeleted := true, deletedAt := Some(now), deletedBy := Some(me), updatedAt := now)
  }

  function Restored(r: Record, now: Time): Record {
    r.(isDeleted := false, deletedAt := None, deletedBy := None, updatedAt := now)
  }

  function IdsOf(records: map<Address, Record>, some: set<Address>): set<Id> {
    set a | a in records && a in some :: records[a].id
  }

  function MembersWithout(members: set<(Id, Id)>, ids: set<Id>): set<(Id, Id)> { set m | m in members && m.0 !in ids }

  /** Memberships follow their record by foreign key. */
  function DropRecord(c: Core, a: Address): Core
    requires a in c.records
  {
    c.(records := c.records - {a}, members := MembersWithout(c.members, {c.records[a].id}))
  }

  ghost function DeleteRecord(st: Store, me: Id, id: Id, hard: bool, now: Time): (Store, Outcome)
    requires me in st.rights.keys
  {
    var found := FindById(st.core.records, id);
    if found.None? then (st, Refused(NotFound))
    else
      var a := found.value;
      var r := st.core.records[a];
      if !MayDelete(st, me, id) then (st, Refused(Forbidden))
      else if r.isLocked then (st, Refused(Forbidden))
      else if hard && !st.rights.keys[me].isMaster then (st, Refused(Forbidden))
      else if hard then (st.(core := DropRecord(st.core, a)), Done)
      else if r.isDeleted then (st, Done)
      else (st.(core := st.core.(records := st.core.records[a := SoftDeleted(r, me, now)])), Done)
  }

  ghost function RestoreRecord(st: Store, me: Id, id: Id, now: Time): (Store, Outcome)
    requires me in st.rights.keys
  {
    var found := FindById(st.core.records, id);
    if !st.rights.keys[me].isMaster then (st, Refused(Forbidden))
    else if found.None? then (st, Refused(NotFound))
    else
      var r := st.core.records[found.value];
      if !r.isDeleted then (st, Refused(InvalidInput))
      else (st.(core := st.core.(records := st.core.records[found.value := Restored(r, now)])), Done)
  }

  /** `DELETE /api/ips`: one membership, not the record. */
  ghost function DeleteMembership(st: Store, me: Id, a: Address, id: Option<Id>, name: Option<string>): (Store,
                                  Outcome, seq<Event>)
    requires me in st.rights.keys
  {
    var resolved := ResolveGroup(st.rights.groups, id, name);
    if resolved.Err? then (st, Refused(resolved.error), [])
    else if resolved.value.None? then (st, Refused(NotFound), [])
    else
      var g := resolved.value.value;
      var row := Row(st.rights.rows, me, g);
      if !st.rights.keys[me].isMaster && !(row.Some? && row.value.delete) then (st, Refused(Forbidden), [])
      else if a !in st.core.records then (st, Refused(NotFound), [])
      else if st.core.records[a].isLocked then (st, Refused(Forbidden), [])
      else if !Linked(st.core, a, g) then (st, Refused(NotFound), [])
      else
        var members := st.core.members - {(st.core.records[a].id, g)};
        (st.(core := st.core.(members := members)), Done,
         [Event(IP_DELETE, a, st.rights.groups[g].groupType == "whitelist", g,
               st.rights.groups[g].name, Some("Deleted via API"))])
  }

  /** What the retention sweep removes: the flag AND a recorded deletion before the threshold. */
  predicate Expired(r: Record, days: int, now: Time) {
    r.isDeleted && r.deletedAt.Some? && r.deletedAt.value < now - days * DAYS
  }

  function Purge(c: Core, days: int, now: Time): (Core, nat) {
    if days <= 0 then (c, 0)
    else
      var gone := set a | a in c.records && Expired(c.records[a], days, now);
      (c.(records := c.records - gone, members := MembersWithout(c.members, IdsOf(c.records, gone))), |gone|)
  }

  // ---------- The invariant ----------

  /** The three deletion fields are set or unset together. */
  predicate DeletionMarked(r: Record) {
    (r.isDeleted <==> r.deletedAt.Some?) && (r.isDeleted <==> r.deletedBy.Some?)
  }

  ghost predicate AllMarked(records: map<Address, Record>) { forall a :: a in records ==> DeletionMarked(records[a]) }

  ghost predicate AllCanonical(records: map<Address, Record>) { forall a :: a in records ==> Canonical(a) }

  ghost predicate IdsDistinct(records: map<Address, Record>) {
    forall a, b :: a in records && b in records && records[a].id == records[b].id ==> a == b
  }

  ghost predicate IdsIssued(records: map<Address, Record>, next: Id) {
    forall a :: a in records ==> records[a].id < next
  }

  ghost predicate MembersHold(records: map<Address, Record>, members: set<(Id, Id)>) {
    forall m :: m in members ==> exists a :: a in records && records[a].id == m.0
  }

  ghost predicate WellKept(c: Core) {
    && AllMarked(c.records) && AllCanonical(c.records) && IdsDistinct(c.records)
    && IdsIssued(c.records, c.next) && MembersHold(c.records, c.members)
  }

  lemma RecordHeld(records: map<Address, Record>, a: Address)
    requires IdsDistinct(records) && a in records
    ensures FindById(records, records[a].id) == Some(a)
  {
  }

  lemma NewIdIsUnlinked(c: Core)
    requires WellKept(c)
    ensures forall m :: m in c.members ==> m.0 != c.next
  {
    forall m | m in c.members
      ensures m.0 != c.next
    {
      var a :| a in c.records && c.records[a].id == m.0;
    }
  }

  /** Rewriting one record in place keeps its id, and with it the references. */
  lemma RewriteKeepsForm(c: Core, a: Address, r: Record)
    requires WellKept(c) && a in c.records && r.id == c.records[a].id && DeletionMarked(r)
    ensures WellKept(c.(records := c.records[a := r]))
  {
    var after := c.records[a := r];
    forall m | m in c.members
      ensures exists b :: b in after && after[b].id == m.0
    {
      var b :| b in c.records && c.records[b].id == m.0;
      assert b in after && after[b].id == m.0;
    }
  }

  lemma InsertKeepsForm(c: Core, a: Address, r: Record)
    requires WellKept(c) && a !in c.records && Canonical(a) && r.id == c.next && DeletionMarked(r)
    ensures WellKept(c.(records := c.records[a := r], next := c.next + 1))
  {
    var after := c.records[a := r];
    forall m | m in c.members
      ensures exists b :: b in after && after[b].id == m.0
    {
      var b :| b in c.records && c.records[b].id == m.0;
      assert b in after && after[b].id == m.0;
    }
  }

  lemma LinkKeepsForm(c: Core, a: Address, g: Id)
    requires WellKept(c) && a in c.records
    ensures WellKept(Link(c, a, g))
  {
  }

  lemma RegisterKeepsForm(c: Core, a: Address, cause: Option<string>, now: Time, g: Id, group: Group, isWhitelist: bool)
    requires WellKept(c) && Canonical(a)
    ensures WellKept(RegisterCore(c, a, cause, now, g, group, isWhitelist).0)
  {
    hide WellKept;
    if a in c.records {
      MarkedAt(c, a);
      RewriteKeepsForm(c, a, Registered(c.records[a], cause, now));
    } else {
      InsertKeepsForm(c, a, NewRecord(c.next, cause, now));
    }
    LinkKeepsForm(PutRecord(c, a, cause, now), a, g);
  }

  lemma MarkedAt(c: Core, a: Address)
    requires WellKept(c) && a in c.records
    ensures DeletionMarked(c.records[a])
  {
  }

  lemma DropsKeepForm(c: Core, gone: set<Address>)
    requires WellKept(c)
    ensures WellKept(c.(records := c.records - gone, members := MembersWithout(c.members, IdsOf(c.records, gone))))
  {
    var goneIds := IdsOf(c.records, gone);
    var left := c.records - gone;
    forall m | m in MembersWithout(c.members, goneIds)
      ensures exists a :: a in left && left[a].id == m.0
    {
      var a :| a in c.records && c.records[a].id == m.0;
      assert a in left;
    }
  }

  lemma DropKeepsForm(c: Core, a: Address)
    requires WellKept(c) && a in c.records
    ensures WellKept(DropRecord(c, a))
  {
    hide WellKept;
    assert IdsOf(c.records, {a}) == {c.records[a].id};
    DropsKeepForm(c, {a});
  }

  lemma FewerMembersKeepForm(c: Core, members: set<(Id, Id)>)
    requires WellKept(c) && members <= c.members
    ensures WellKept(c.(members := members))
  {
  }

  lemma UpsertKeepsForm(st: Store, me: Id, now: Time, p: UpsertPayload, isWhitelist: bool)
    requires WellKept(st.core) && me in st.rights.keys
    ensures WellKept(Upsert(st, me, now, p, isWhitelist).0.core)
  {
    hide WellKept, RegisterCore;
    if p.target.Some? {
      var a := Normalize(p.target.value);
      assert Canonical(a);
      forall g, group ensures WellKept(RegisterCore(st.core, a, p.cause, now, g, group, isWhitelist).0) {
        RegisterKeepsForm(st.core, a, p.cause, now, g, group, isWhitelist);
      }
    }
  }

  lemma DeletionsKeepForm(st: Store, me: Id, id: Id, hard: bool, now: Time)
    requires WellKept(st.core) && me in st.rights.keys
    ensures WellKept(DeleteRecord(st, me, id, hard, now).0.core)
    ensures WellKept(RestoreRecord(st, me, id, now).0.core)
  {
    hide WellKept, MayDelete;
    var found := FindById(st.core.records, id);
    if found.Some? {
      var a := found.value;
      RewriteKeepsForm(st.core, a, SoftDeleted(st.core.records[a], me, now));
      RewriteKeepsForm(st.core, a, Restored(st.core.records[a], now));
      MarkedAt(st.core, a);
      DropKeepsForm(st.core, a);
    }
  }

  lemma MembershipRemovalKeepsForm(st: Store, me: Id, a: Address, id: Option<Id>, name: Option<string>)
    requires WellKept(st.core) && me in st.rights.keys
    ensures WellKept(DeleteMembership(st, me, a, id, name).0.core)
  {
    hide WellKept;
    var after := DeleteMembership(st, me, a, id, name).0.core;
    FewerMembersKeepForm(st.core, after.members);
    assert st.core.(members := st.core.members) == st.core;
  }

  lemma PurgeKeepsForm(c: Core, days: int, now: Time)
    requires WellKept(c)
    ensures WellKept(Purge(c, days, now).0)
  {
    hide WellKept;
    var gone := set a | a in c.records && Expired(c.records[a], days, now);
    DropsKeepForm(c, gone);
  }

  /** A purge removes exactly the records whose recorded deletion lies before the retention window, so
      never a live one, and no membership of a record that stays. */
  lemma PurgeRemovesExactlyTheExpired(c: Core, days: int, now: Time)
    requires WellKept(c) && days > 0
    ensures var (after, count) := Purge(c, days, now);
      && (forall a :: a in c.records ==>
            (a !in after.records <==>
             c.records[a].isDeleted && c.records[a].deletedAt.value < now - days * 86_400_000_000))
      && (forall a :: a in after.records ==> a in c.records && after.records[a] == c.records[a])
      && (forall a, g :: a in after.records ==>
           ((c.records[a].id, g) in after.members <==> (c.records[a].id, g) in c.members))
      && count == |c.records| - |after.records|
    ensures forall off: int :: off <= 0 ==> Purge(c, off, now) == (c, 0)
  {
    var gone := set a | a in c.records && Expired(c.records[a], days, now);
    var after := Purge(c, days, now).0;
    assert after.records.Keys == c.records.Keys - gone;
    forall a | a in c.records ensures DeletionMarked(c.records[a]) {}
    assert |c.records.Keys - gone| == |c.records.Keys| - |gone|;
  }
}
