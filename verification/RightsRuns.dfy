/** What every run of requests keeps true of the rights tables. */
module RightsRuns {
  import opened Common
  import opened Lineage
  import opened Guards
  import opened Rights

  // ---------- The invariant: lineage, ownership and references ----------

  ghost predicate LiveOwner(keys: map<Id, Key>, owner: Option<Id>) {
    owner.Some? ==> owner.value in keys && !keys[owner.value].isMaster
  }

  ghost predicate SoleMaster(keys: map<Id, Key>, master: Id) {
    && master in keys && keys[master].isMaster && keys[master].parent.None?
    && forall k :: k in keys && keys[k].isMaster ==> k == master
  }

  ghost predicate OwnersLive(keys: map<Id, Key>, groups: map<Id, Group>, hooks: map<Id, Hook>) {
    && (forall g :: g in groups ==> LiveOwner(keys, groups[g].owner))
    && (forall h :: h in hooks ==> LiveOwner(keys, hooks[h].owner))
  }

  ghost predicate RowsHold(keys: map<Id, Key>, groups: map<Id, Group>, rows: map<(Id, Id), Verbs>) {
    forall r :: r in rows ==> r.0 in keys && r.1 in groups
  }

  ghost predicate HooksHold(groups: map<Id, Group>, hooks: map<Id, Hook>) {
    forall h :: h in hooks ==> hooks[h].group in groups
  }

  ghost predicate NamesUnique(groups: map<Id, Group>) {
    forall g, h :: g in groups && h in groups && groups[g].name == groups[h].name ==> g == h
  }

  ghost predicate IdsBelow(ids: set<Id>, next: Id) { forall i :: i in ids ==> i < next }

  ghost predicate WellFormed(db: Tables, master: Id) {
    && Forest(db.keys)
    && SoleMaster(db.keys, master)
    && OwnersLive(db.keys, db.groups, db.hooks)
    && RowsHold(db.keys, db.groups, db.rows)
    && HooksHold(db.groups, db.hooks)
    && NamesUnique(db.groups)
    && IdsBelow(db.keys.Keys, db.next) && IdsBelow(db.groups.Keys, db.next) && IdsBelow(db.hooks.Keys, db.next)
  }

  lemma InsertGroupKeepsForm(db: Tables, master: Id, me: Id, name: string, kind: string)
    requires WellFormed(db, master) && me in db.keys && FindByName(db.groups, name).None?
    ensures WellFormed(InsertGroup(db, me, name, kind), master)
  {
  }

  lemma CreateKeyKeepsForm(db: Tables, master: Id, me: Id, p: CreateKeyPayload)
    requires WellFormed(db, master) && me in db.keys
    ensures WellFormed(CreateKey(db, me, p).0, master)
  {
    var (after, o) := CreateKey(db, me, p);
    if o.Done? { ForestGrows(db.keys, db.next, after.keys[db.next]); }
  }

  lemma UpdateKeyKeepsForm(db: Tables, master: Id, me: Id, id: Id, p: UpdateKeyPayload)
    requires WellFormed(db, master) && me in db.keys
    ensures WellFormed(UpdateKey(db, me, id, p).0, master)
  {
    hide Forest;
    var (after, o) := UpdateKey(db, me, id, p);
    if o.Done? { ForestKeepsParents(db.keys, id, after.keys[id]); }
  }

  /** The tables a cascade leaves, whatever the doomed set, as long as it spares the master. */
  lemma CascadeKeepsReferences(db: Tables, master: Id, doomed: set<Id>, res: map<(EntityKind, Id), Resolution>)
    requires WellFormed(db, master) && res.Keys == Inventory(db, doomed) && master !in doomed
    ensures var after := Cascade(db, doomed, res);
      SoleMaster(after.keys, master) && RowsHold(after.keys, after.groups, after.rows)
      && HooksHold(after.groups, after.hooks)
  {
    hide Forest, Inventory, OwnersLive, NamesUnique, IdsBelow, GroupDeleted, Heir, OwnedBy;
  }

  lemma CascadeKeepsNames(db: Tables, master: Id, doomed: set<Id>, res: map<(EntityKind, Id), Resolution>)
    requires WellFormed(db, master) && res.Keys == Inventory(db, doomed)
    ensures var after := Cascade(db, doomed, res);
      NamesUnique(after.groups) && IdsBelow(after.keys.Keys, after.next)
      && IdsBelow(after.groups.Keys, after.next) && IdsBelow(after.hooks.Keys, after.next)
  {
    hide Forest, SoleMaster, Inventory, OwnersLive, RowsHold, HooksHold, GroupDeleted, Heir, OwnedBy;
  }

  lemma CascadeKeepsOwners(db: Tables, master: Id, doomed: set<Id>, res: map<(EntityKind, Id), Resolution>)
    requires WellFormed(db, master) && res.Keys == Inventory(db, doomed) && master !in doomed
    requires ReassignmentsValid(db.keys, doomed, res)
    ensures var after := Cascade(db, doomed, res); OwnersLive(after.keys, after.groups, after.hooks)
  {
    hide Forest, RowsHold, HooksHold, NamesUnique, IdsBelow;
    var after := Cascade(db, doomed, res);
    forall g | g in after.groups
      ensures LiveOwner(after.keys, after.groups[g].owner)
    {
      if OwnedBy(db.groups[g].owner, doomed) { assert (GROUP, g) in res; }
    }
    forall h | h in after.hooks
      ensures LiveOwner(after.keys, after.hooks[h].owner)
    {
      if OwnedBy(db.hooks[h].owner, doomed) { assert (WEBHOOK, h) in res; }
    }
  }

  lemma CascadeKeepsForm(db: Tables, master: Id, me: Id, id: Id, entries: seq<ResolutionEntry>)
    requires WellFormed(db, master) && me in db.keys
    ensures WellFormed(DeleteKey(db, me, id, entries).0, master)
  {
    hide Cascade, Inventory, ReassignmentsValid, ResolutionMap, Subtree, NoDuplicates;
    if DeleteKey(db, me, id, entries).1.Done? {
      var doomed := Subtree(db.keys, id);
      var res := ResolutionMap(entries);
      ForestLosesSubtree(db.keys, id);
      MasterIsInNoSubtree(db.keys, master, id);
      CascadeKeepsReferences(db, master, doomed, res);
      CascadeKeepsNames(db, master, doomed, res);
      CascadeKeepsOwners(db, master, doomed, res);
      CascadeKeys(db, doomed, res);
    }
  }

  lemma CascadeKeys(db: Tables, doomed: set<Id>, res: map<(EntityKind, Id), Resolution>)
    requires res.Keys == Inventory(db, doomed)
    ensures Cascade(db, doomed, res).keys == db.keys - doomed
  {
  }

  lemma MasterIsInNoSubtree(keys: map<Id, Key>, master: Id, id: Id)
    requires SoleMaster(keys, master) && id != master
    ensures master !in Subtree(keys, id)
  {
    if Descends(keys, id, master) { RootDescendsFromItself(keys, id, master); }
    SubtreeIsDescendants(keys, id, master);
  }

  lemma WriteRowKeepsForm(db: Tables, master: Id, me: Id, target: Id, g: Id, v: Verbs)
    requires WellFormed(db, master) && me in db.keys && target in db.keys && g in db.groups
    ensures WellFormed(WriteRow(db, me, target, g, v).0, master)
  {
    hide Forest, SoleMaster, OwnersLive, NamesUnique, IdsBelow, GuardDelegatedGrant, GuardGroupManage, Widens;
  }

  lemma SetPermissionKeepsForm(db: Tables, master: Id, me: Id, target: Id, ident: Option<Identifier>,
                               name: Option<string>, v: Verbs)
    requires WellFormed(db, master) && me in db.keys
    ensures WellFormed(SetPermission(db, me, target, ident, name, v).0, master)
  {
    hide WellFormed, WriteRow, MayAdministerAnyGroup;
    var found := FindFlexible(db.groups, ident, name);
    if target in db.keys && found.Ok? {
      if found.value.Some? {
        WriteRowKeepsForm(db, master, me, target, found.value.value, v);
      } else if name.Some? {
        InsertGroupKeepsForm(db, master, me, name.value, "banlist");
        WriteRowKeepsForm(InsertGroup(db, me, name.value, "banlist"), master, me, target, db.next, v);
      }
    }
  }

  lemma RevokeKeepsForm(db: Tables, master: Id, me: Id, target: Id, from: Identifier)
    requires WellFormed(db, master) && me in db.keys
    ensures WellFormed(RevokePermission(db, me, target, from).0, master)
  {
    hide Forest, SoleMaster, OwnersLive, NamesUnique, IdsBelow, MayAdministerAnyGroup, FindByIdentifier;
  }

  lemma ProvisionKeepsForm(db: Tables, master: Id, me: Id, g: Id)
    requires WellFormed(db, master) && me in db.keys && g in db.groups
    ensures WellFormed(ProvisionRow(db, me, g), master)
  {
    hide Forest, SoleMaster, OwnersLive, NamesUnique, IdsBelow;
  }

  lemma CreateGroupKeepsForm(db: Tables, master: Id, me: Id, name: string, groupType: Option<string>)
    requires WellFormed(db, master) && me in db.keys
    ensures WellFormed(CreateGroup(db, me, name, groupType).0, master)
  {
    hide WellFormed, ProvisionRow;
    var kind := if groupType == Some("whitelist") then "whitelist" else "banlist";
    if FindByName(db.groups, name).None? {
      InsertGroupKeepsForm(db, master, me, name, kind);
      ProvisionKeepsForm(InsertGroup(db, me, name, kind), master, me, db.next);
    }
  }

  lemma TouchGroupKeepsForm(db: Tables, master: Id, me: Id, name: string, kind: string, provisions: bool)
    requires WellFormed(db, master) && me in db.keys
    ensures WellFormed(TouchGroup(db, me, name, kind, provisions).0, master)
  {
    hide WellFormed, ProvisionRow;
    if FindByName(db.groups, name).None? {
      InsertGroupKeepsForm(db, master, me, name, kind);
      ProvisionKeepsForm(InsertGroup(db, me, name, kind), master, me, db.next);
    }
  }

  lemma DeleteGroupKeepsForm(db: Tables, master: Id, me: Id, g: Id)
    requires WellFormed(db, master) && me in db.keys
    ensures WellFormed(DeleteGroup(db, me, g).0, master)
  {
    hide Forest, SoleMaster;
  }

  lemma ReassignGroupKeepsForm(db: Tables, master: Id, me: Id, id: Id, owner: Option<Id>)
    requires WellFormed(db, master) && me in db.keys
    ensures WellFormed(ReassignGroup(db, me, id, owner).0, master)
  {
    hide Forest, SoleMaster;
  }

  lemma ReassignHookKeepsForm(db: Tables, master: Id, me: Id, id: Id, owner: Option<Id>)
    requires WellFormed(db, master) && me in db.keys
    ensures WellFormed(ReassignHook(db, me, id, owner).0, master)
  {
    hide Forest, SoleMaster, NamesUnique, RowsHold;
  }

  lemma CreateHookKeepsForm(db: Tables, master: Id, me: Id, name: string, g: Id, ok: bool)
    requires WellFormed(db, master) && me in db.keys
    ensures WellFormed(CreateHook(db, me, name, g, ok).0, master)
  {
    hide Forest, NamesUnique;
  }

  lemma DeleteHookKeepsForm(db: Tables, master: Id, me: Id, h: Id)
    requires WellFormed(db, master) && me in db.keys
    ensures WellFormed(DeleteHook(db, me, h).0, master)
  {
    hide Forest, SoleMaster, NamesUnique;
  }

  lemma StepKeepsForm(db: Tables, master: Id, c: Call)
    requires WellFormed(db, master)
    ensures WellFormed(Next(db, c), master)
  {
    if c.caller in db.keys {
      var me := c.caller;
      hide WellFormed, CreateKey, UpdateKey, DeleteKey, SetPermission, RevokePermission, CreateGroup, DeleteGroup,
           ReassignGroup, TouchGroup, CreateHook, DeleteHook, ReassignHook;
      match c.request
      case ReqCreateKey(p) => CreateKeyKeepsForm(db, master, me, p);
      case ReqUpdateKey(id, p) => UpdateKeyKeepsForm(db, master, me, id, p);
      case ReqDeleteKey(id, entries) => CascadeKeepsForm(db, master, me, id, entries);
      case ReqSetPermission(id, ident, name, v) => SetPermissionKeepsForm(db, master, me, id, ident, name, v);
      case ReqRevokePermission(id, from) => RevokeKeepsForm(db, master, me, id, from);
      case ReqCreateGroup(name, kind) => CreateGroupKeepsForm(db, master, me, name, kind);
      case ReqDeleteGroup(id) => DeleteGroupKeepsForm(db, master, me, id);
      case ReqReassignGroup(id, owner) => ReassignGroupKeepsForm(db, master, me, id, owner);
      case ReqTouchGroup(name, kind, provisions) => TouchGroupKeepsForm(db, master, me, name, kind, provisions);
      case ReqCreateHook(name, g, ok) => CreateHookKeepsForm(db, master, me, name, g, ok);
      case ReqDeleteHook(id) => DeleteHookKeepsForm(db, master, me, id);
      case ReqReassignHook(id, owner) => ReassignHookKeepsForm(db, master, me, id, owner);
      case ReqOther =>
    }
  }

  /** Over every run, by whatever callers: the parent links stay a forest of living keys under one
      parentless master, and every owner is absent or a living key that is not the master. */
  lemma {:induction false} RunKeepsForm(db: Tables, master: Id, calls: seq<Call>)
    requires WellFormed(db, master)
    ensures WellFormed(Run(db, calls), master)
    decreases |calls|
  {
    if calls != [] {
      StepKeepsForm(db, master, calls[0]);
      RunKeepsForm(Next(db, calls[0]), master, calls[1..]);
    }
  }

  /** Hence no cascade takes the master or its own caller, and the refusal that suspects a cycle is never
      given. */
  lemma CascadeSparesMasterAndCaller(start: Tables, master: Id, calls: seq<Call>, me: Id, id: Id,
                                     entries: seq<ResolutionEntry>)
    requires WellFormed(start, master) && me in Run(start, calls).keys
    ensures var (after, outcome) := DeleteKey(Run(start, calls), me, id, entries);
      && outcome != Refused(CycleSuspected)
      && master in after.keys && me in after.keys
      && after.keys == (if outcome == Done then Run(start, calls).keys - Subtree(Run(start, calls).keys, id)
                        else Run(start, calls).keys)
  {
    RunKeepsForm(start, master, calls);
    var db := Run(start, calls);
    if id in db.keys && id != me && Administers(db.keys, me, id) && !db.keys[id].isMaster {
      MasterIsInNoSubtree(db.keys, master, id);
      SubtreeIsDescendants(db.keys, id, me);
      SubtreeIsDescendants(db.keys, me, id);
      if Descends(db.keys, id, me) && me != master { ForestIsAntisymmetric(db.keys, me, id); }
    }
  }

  // ---------- Data is never destroyed implicitly ----------

  lemma {:induction false} ResolutionMapNames(entries: seq<ResolutionEntry>, e: (EntityKind, Id))
    requires e in ResolutionMap(entries)
    ensures exists i :: 0 <= i < |entries| && (entries[i].entityType, entries[i].id) == e
                        && entries[i].resolution == ResolutionMap(entries)[e]
    decreases |entries|
  {
    var last := |entries| - 1;
    if (entries[last].entityType, entries[last].id) != e {
      ResolutionMapNames(entries[..last], e);
      var i :| 0 <= i < last && (entries[i].entityType, entries[i].id) == e
               && entries[i].resolution == ResolutionMap(entries[..last])[e];
    }
  }

  lemma ResolutionIsNamed(entries: seq<ResolutionEntry>, e: (EntityKind, Id))
    requires e in ResolutionMap(entries)
    ensures ResolutionEntry(e.0, e.1, ResolutionMap(entries)[e]) in entries
  {
    ResolutionMapNames(entries, e);
    var i :| 0 <= i < |entries| && (entries[i].entityType, entries[i].id) == e
             && entries[i].resolution == ResolutionMap(entries)[e];
    assert entries[i] == ResolutionEntry(e.0, e.1, ResolutionMap(entries)[e]);
  }

  /** A committed key deletion destroys a group only if the request names that group with `delete`, gives
      away only what the request names with `reassign`, and leaves every other group as it was. */
  lemma CascadeNeverDestroysImplicitly(db: Tables, me: Id, id: Id, entries: seq<ResolutionEntry>, g: Id)
    requires me in db.keys && g in db.groups && DeleteKey(db, me, id, entries).1 == Done
    ensures var after := DeleteKey(db, me, id, entries).0;
      && (g !in after.groups ==> ResolutionEntry(GROUP, g, Delete) in entries)
      && (g in after.groups && after.groups[g] != db.groups[g] ==>
            && after.groups[g].owner.Some?
            && after.groups[g] == db.groups[g].(owner := after.groups[g].owner)
            && ResolutionEntry(GROUP, g, Reassign(after.groups[g].owner.value)) in entries
            && after.groups[g].owner.value in after.keys)
  {
    var doomed := Subtree(db.keys, id);
    if (GROUP, g) in ResolutionMap(entries) { ResolutionIsNamed(entries, (GROUP, g)); }
    assert OwnedBy(db.groups[g].owner, doomed) <==> (GROUP, g) in Inventory(db, doomed);
  }

  /** The same of webhooks: one goes only if it is named with `delete`, or the group it belongs to is; one
      changes hands only as named, and is otherwise as it was. */
  lemma CascadeNeverDestroysHooksImplicitly(db: Tables, me: Id, id: Id, entries: seq<ResolutionEntry>, h: Id)
    requires me in db.keys && h in db.hooks && DeleteKey(db, me, id, entries).1 == Done
    ensures var after := DeleteKey(db, me, id, entries).0;
      && (h !in after.hooks ==>
            ResolutionEntry(WEBHOOK, h, Delete) in entries
            || ResolutionEntry(GROUP, db.hooks[h].group, Delete) in entries)
      && (h in after.hooks && after.hooks[h] != db.hooks[h] ==>
            && after.hooks[h].owner.Some?
            && after.hooks[h] == db.hooks[h].(owner := after.hooks[h].owner)
            && ResolutionEntry(WEBHOOK, h, Reassign(after.hooks[h].owner.value)) in entries
            && after.hooks[h].owner.value in after.keys)
  {
    var doomed, g := Subtree(db.keys, id), db.hooks[h].group;
    if (WEBHOOK, h) in ResolutionMap(entries) { ResolutionIsNamed(entries, (WEBHOOK, h)); }
    if (GROUP, g) in ResolutionMap(entries) { ResolutionIsNamed(entries, (GROUP, g)); }
    assert OwnedBy(db.hooks[h].owner, doomed) <==> (WEBHOOK, h) in Inventory(db, doomed);
    if g in db.groups { assert OwnedBy(db.groups[g].owner, doomed) <==> (GROUP, g) in Inventory(db, doomed); }
  }

  // ---------- Rights never grow without the master ----------

  datatype Verb = Read | Write | DeleteVerb | Manage

  predicate Holds(v: Verbs, verb: Verb) {
    match verb
    case Read => v.read
    case Write => v.write
    case DeleteVerb => v.delete
    case Manage => v.manage
  }

  /** Some key holds the verb on the group. */
  ghost predicate SomeoneHolds(db: Tables, g: Id, verb: Verb) {
    exists r :: r in db.rows && r.1 == g && Holds(db.rows[r], verb)
  }

  ghost predicate NonMasterCalls(db: Tables, calls: seq<Call>)
    decreases |calls|
  {
    calls == []
    || ((calls[0].caller in db.keys ==> !db.keys[calls[0].caller].isMaster)
        && NonMasterCalls(Next(db, calls[0]), calls[1..]))
  }

  /** One row, measured against the start of the run. */
  ghost predicate RowBounded(start: Tables, g: Id, v: Verbs) {
    && (g < start.next ==> forall verb :: Holds(v, verb) ==> SomeoneHolds(start, g, verb))
    && (g >= start.next ==> !v.manage)
  }

  ghost predicate KeyBounded(start: Tables, k: Id, key: Key) {
    if k < start.next then k in start.keys && ScopesWithin(key.scopes, start.keys[k].scopes)
                           && key.isMaster == start.keys[k].isMaster
    else key.scopes == NO_SCOPES && !key.isMaster
  }

  /** How far a state may be from the start of the run. */
  ghost predicate Bounded(start: Tables, db: Tables) {
    && start.next <= db.next
    && (forall r :: r in db.rows ==> RowBounded(start, r.1, db.rows[r]))
    && (forall k :: k in db.keys ==> KeyBounded(start, k, db.keys[k]))
  }

  lemma GrantWithinBound(start: Tables, g: Id, held: Verbs, v: Verbs)
    requires RowBounded(start, g, held) && !Exceeds(v, held)
    ensures RowBounded(start, g, v)
  {
    forall verb | Holds(v, verb) ensures Holds(held, verb) {}
  }

  lemma WriteRowBounded(start: Tables, db: Tables, me: Id, target: Id, g: Id, v: Verbs)
    requires Bounded(start, db) && me in db.keys && !db.keys[me].isMaster
    ensures Bounded(start, WriteRow(db, me, target, g, v).0)
  {
    var (after, o) := WriteRow(db, me, target, g, v);
    if o == Done {
      if Widens(v, Row(db.rows, target, g)) {
        GrantWithinBound(start, g, db.rows[(me, g)], v);
      } else {
        GrantWithinBound(start, g, db.rows[(target, g)], v);
      }
    }
  }

  lemma KeyStepsBounded(start: Tables, db: Tables, me: Id, p: CreateKeyPayload, id: Id, u: UpdateKeyPayload,
                        entries: seq<ResolutionEntry>)
    requires Bounded(start, db) && me in db.keys && !db.keys[me].isMaster
    ensures Bounded(start, CreateKey(db, me, p).0)
    ensures Bounded(start, UpdateKey(db, me, id, u).0)
    ensures Bounded(start, DeleteKey(db, me, id, entries).0)
  {
    hide RowBounded, Subtree, ResolutionMap;
  }

  lemma PermissionStepsBounded(start: Tables, db: Tables, me: Id, target: Id, ident: Option<Identifier>,
                               name: Option<string>, v: Verbs, from: Identifier)
    requires Bounded(start, db) && me in db.keys && !db.keys[me].isMaster
    ensures Bounded(start, SetPermission(db, me, target, ident, name, v).0)
    ensures Bounded(start, RevokePermission(db, me, target, from).0)
  {
    hide RowBounded, KeyBounded, WriteRow;
    var found := FindFlexible(db.groups, ident, name);
    if found.Ok? && found.value.Some? {
      WriteRowBounded(start, db, me, target, found.value.value, v);
    } else if name.Some? {
      WriteRowBounded(start, InsertGroup(db, me, name.value, "banlist"), me, target, db.next, v);
    }
  }

  lemma GroupStepsBounded(start: Tables, db: Tables, me: Id, name: string, kind: string,
                          groupType: Option<string>, g: Id, owner: Option<Id>, provisions: bool)
    requires Bounded(start, db) && me in db.keys && !db.keys[me].isMaster
    ensures Bounded(start, CreateGroup(db, me, name, groupType).0)
    ensures Bounded(start, DeleteGroup(db, me, g).0)
    ensures Bounded(start, ReassignGroup(db, me, g, owner).0)
    ensures Bounded(start, TouchGroup(db, me, name, kind, provisions).0)
  {
    hide KeyBounded, SomeoneHolds;
  }

  lemma StepBounded(start: Tables, db: Tables, c: Call)
    requires Bounded(start, db) && (c.caller in db.keys ==> !db.keys[c.caller].isMaster)
    ensures Bounded(start, Next(db, c))
  {
    if c.caller in db.keys {
      hide RowBounded, KeyBounded, CreateKey, UpdateKey, DeleteKey, SetPermission, RevokePermission, CreateGroup,
           DeleteGroup, ReassignGroup, TouchGroup;
      var noCreate := CreateKeyPayload("", None, ScopeChange(None, None, None));
      var noUpdate := UpdateKeyPayload(None, None, ScopeChange(None, None, None));
      match c.request
      case ReqCreateKey(p) => KeyStepsBounded(start, db, c.caller, p, 0, noUpdate, []);
      case ReqUpdateKey(id, p) => KeyStepsBounded(start, db, c.caller, noCreate, id, p, []);
      case ReqDeleteKey(id, entries) => KeyStepsBounded(start, db, c.caller, noCreate, id, noUpdate, entries);
      case ReqSetPermission(id, ident, name, v) =>
        PermissionStepsBounded(start, db, c.caller, id, ident, name, v, Identifier("", None));
      case ReqRevokePermission(id, from) =>
        PermissionStepsBounded(start, db, c.caller, id, None, None, AUTO_ROW, from);
      case ReqCreateGroup(name, kind) => GroupStepsBounded(start, db, c.caller, name, "", kind, 0, None, false);
      case ReqDeleteGroup(id) => GroupStepsBounded(start, db, c.caller, "", "", None, id, None, false);
      case ReqReassignGroup(id, owner) => GroupStepsBounded(start, db, c.caller, "", "", None, id, owner, false);
      case ReqTouchGroup(name, kind, provisions) =>
        GroupStepsBounded(start, db, c.caller, name, kind, None, 0, None, provisions);
      case ReqCreateHook(_, _, _) =>
      case ReqDeleteHook(_) =>
      case ReqReassignHook(_, _) =>
      case ReqOther =>
    }
  }

  lemma {:induction false} RunBounded(start: Tables, db: Tables, calls: seq<Call>)
    requires Bounded(start, db) && NonMasterCalls(db, calls)
    ensures Bounded(start, Run(db, calls))
    decreases |calls|
  {
    if calls != [] {
      StepBounded(start, db, calls[0]);
      RunBounded(start, Next(db, calls[0]), calls[1..]);
    }
  }

  /** Whatever non-master keys request, in any order and number: no group that existed gains a verb that
      no key held on it, no existing key gains a global scope or mastery, keys born in the run hold no
      scope, and nobody manages a group born in the run. */
  lemma NonMastersNeverAmplify(start: Tables, master: Id, calls: seq<Call>)
    requires WellFormed(start, master) && NonMasterCalls(start, calls)
    ensures var end := Run(start, calls);
      && (forall g, verb :: g in start.groups && SomeoneHolds(end, g, verb) ==> SomeoneHolds(start, g, verb))
      && (forall k :: k in end.keys && k in start.keys ==>
            ScopesWithin(end.keys[k].scopes, start.keys[k].scopes) && end.keys[k].isMaster == start.keys[k].isMaster)
      && (forall k :: k in end.keys && k !in start.keys ==> end.keys[k].scopes == NO_SCOPES && !end.keys[k].isMaster)
      && (forall g :: g in end.groups && g !in start.groups ==> !SomeoneHolds(end, g, Manage))
  {
    forall r | r in start.rows ensures RowBounded(start, r.1, start.rows[r]) {}
    RunBounded(start, start, calls);
    var end := Run(start, calls);
    forall g, verb | g in start.groups && SomeoneHolds(end, g, verb)
      ensures SomeoneHolds(start, g, verb)
    {
      var r :| r in end.rows && r.1 == g && Holds(end.rows[r], verb);
      assert RowBounded(start, r.1, end.rows[r]);
    }
    forall g | g in end.groups && g !in start.groups
      ensures !SomeoneHolds(end, g, Manage)
    {
      assert !SomeoneHolds(start, g, Manage);
      forall r | r in end.rows && r.1 == g
        ensures !Holds(end.rows[r], Manage)
      {
        assert RowBounded(start, r.1, end.rows[r]);
      }
    }
  }
}
