/** What each request on the rights tables does, and who may make it (src/api/keys.rs, src/api/groups.rs), in
    terms of the tables alone. */
module RightsEffects {
  import opened Common
  import opened Lineage
  import opened Guards
  import opened Rights
  import opened RightsRuns
  import opened KeyListing

  /** Both halves of the right to administer a group. */
  predicate Administrator(db: Tables, me: Id, g: Id) {
    me in db.keys
    && (db.keys[me].isMaster || (db.keys[me].scopes.manageKeys && (me, g) in db.rows && db.rows[(me, g)].manage))
  }

  /** What an identifier in a path stands for: an id first, a name otherwise. */
  predicate Means(groups: map<Id, Group>, ident: Identifier, g: Id) {
    g in groups
    && if ident.uuid.Some? && ident.uuid.value in groups then ident.uuid == Some(g) else groups[g].name == ident.text
  }

  lemma MeaningIsFound(groups: map<Id, Group>, ident: Identifier, g: Id)
    requires NamesUnique(groups)
    ensures Means(groups, ident, g) <==> FindByIdentifier(groups, ident) == Some(g)
  {
  }

  // ---------- Permission rows ----------

  /** A revocation takes the named key's row on the named group and nothing else. It is made exactly when
      that row exists and the caller is the master or manages that very group. */
  lemma RevocationTakesTheRow(db: Tables, me: Id, target: Id, from: Identifier, g: Id)
    requires NamesUnique(db.groups) && me in db.keys && Means(db.groups, from, g)
    ensures var (after, o) := RevokePermission(db, me, target, from);
      && (o == Done <==> (target, g) in db.rows && Administrator(db, me, g))
      && (o == Done ==>
            && (forall only, p :: p in KeyPermissions(after, target, only) ==> p.group != g)
            && (forall r :: r in after.rows <==> r in db.rows && r != (target, g))
            && (forall r :: r in after.rows ==> after.rows[r] == db.rows[r])
            && after.(rows := db.rows) == db)
      && (o != Done ==> after == db)
  {
    MeaningIsFound(db.groups, from, g);
  }

  /** A key whose row on a group was taken has none there until a request writes one for it. */
  lemma {:induction false} RevokedStaysRevoked(db: Tables, calls: seq<Call>, k: Id, g: Id)
    requires (k, g) !in db.rows && g < db.next
    requires forall i :: 0 <= i < |calls| && calls[i].request.ReqSetPermission? ==> calls[i].request.id != k
    ensures (k, g) !in Run(db, calls).rows
    decreases |calls|
  {
    if calls != [] {
      assert calls[0].request.ReqSetPermission? ==> calls[0].request.id != k;
      StepWritesNoRow(db, calls[0], k, g);
      hide Next;
      RevokedStaysRevoked(Next(db, calls[0]), calls[1..], k, g);
    }
  }

  lemma GrantElsewhere(db: Tables, me: Id, target: Id, ident: Option<Identifier>, name: Option<string>, v: Verbs,
                       k: Id, g: Id)
    requires me in db.keys && (k, g) !in db.rows && g < db.next && target != k
    ensures var after := SetPermission(db, me, target, ident, name, v).0; (k, g) !in after.rows && g < after.next
  {
    hide FindFlexible, GuardDelegatedGrant, GuardGroupManage, MayAdministerAnyGroup, Widens;
  }

  lemma DeletionsWriteNoRow(db: Tables, me: Id, target: Id, entries: seq<ResolutionEntry>, from: Identifier,
                            k: Id, g: Id)
    requires me in db.keys && (k, g) !in db.rows && g < db.next
    ensures var after := DeleteKey(db, me, target, entries).0; (k, g) !in after.rows && g < after.next
    ensures var after := RevokePermission(db, me, target, from).0; (k, g) !in after.rows && g < after.next
  {
    hide Subtree, Preflight, ResolutionMap, FindByIdentifier, MayAdministerAnyGroup;
  }

  lemma StepWritesNoRow(db: Tables, c: Call, k: Id, g: Id)
    requires (k, g) !in db.rows && g < db.next && (c.request.ReqSetPermission? ==> c.request.id != k)
    ensures (k, g) !in Next(db, c).rows && g < Next(db, c).next
  {
    hide FindByName, SetPermission, DeleteKey, RevokePermission, UpdateKey, GuardScopeElevation;
    if c.caller in db.keys {
      match c.request
      case ReqSetPermission(id, ident, name, v) => GrantElsewhere(db, c.caller, id, ident, name, v, k, g);
      case ReqDeleteKey(id, entries) => DeletionsWriteNoRow(db, c.caller, id, entries, Identifier("", None), k, g);
      case ReqRevokePermission(id, from) => DeletionsWriteNoRow(db, c.caller, id, [], from, k, g);
      case ReqUpdateKey(id, p) => UpdateWritesTheFieldsGiven(db, c.caller, id, p);
      case _ =>
    }
  }

  /** Which group a grant goes to: the one meant, or a new one when a name is given that none has. */
  ghost predicate GrantGoesTo(db: Tables, ident: Option<Identifier>, name: Option<string>, g: Id) {
    if ident.Some? then name.None? && Means(db.groups, ident.value, g)
    else name.Some? && if g in db.groups then db.groups[g].name == name.value
                       else g == db.next && forall h :: h in db.groups ==> db.groups[h].name != name.value
  }

  /** No verb beyond those of the other row. */
  predicate Within(v: Verbs, w: Verbs) {
    (v.read ==> w.read) && (v.write ==> w.write) && (v.delete ==> w.delete) && (v.manage ==> w.manage)
  }

  /** A grant sets exactly the row it names to exactly the verbs it gives. To a group that exists it is made
      exactly when the target is a living non-master, the verbs that change something come with read, and the
      caller is the master, or manages that group and either gives only what it holds or only takes away. */
  lemma GrantSetsTheRow(db: Tables, me: Id, target: Id, ident: Option<Identifier>, name: Option<string>, v: Verbs,
                         g: Id)
    requires NamesUnique(db.groups) && me in db.keys && GrantGoesTo(db, ident, name, g) && g in db.groups
    ensures var (after, o) := SetPermission(db, me, target, ident, name, v);
      && (o == Done <==>
            && target in db.keys && !db.keys[target].isMaster && (v.write || v.delete ==> v.read)
            && Administrator(db, me, g)
            && (db.keys[me].isMaster || Within(v, db.rows[(me, g)])
                || ((target, g) in db.rows && Within(v, db.rows[(target, g)]))))
      && (o == Done ==> after == db.(rows := db.rows[(target, g) := v]))
      && (o != Done ==> after == db)
  {
    if ident.Some? { MeaningIsFound(db.groups, ident.value, g); }
  }

  /** A grant to a new name makes the group, even when the row is then refused: for a non-master it always
      is, since nobody manages a group just made. */
  lemma GrantMakesTheGroup(db: Tables, me: Id, target: Id, name: string, v: Verbs)
    requires me in db.keys && (forall h :: h in db.groups ==> db.groups[h].name != name)
    requires RowsHold(db.keys, db.groups, db.rows) && IdsBelow(db.groups.Keys, db.next)
    ensures var (after, o) := SetPermission(db, me, target, None, Some(name), v);
      && (o == Done <==> target in db.keys && !db.keys[target].isMaster && (v.write || v.delete ==> v.read)
                         && db.keys[me].isMaster)
      && (o == Done ==>
            after == db.(groups := db.groups[db.next := Group(name, "banlist", None)], next := db.next + 1,
                         rows := db.rows[(target, db.next) := v]))
      && after.keys == db.keys && after.hooks == db.hooks && (o != Done ==> after.rows == db.rows)
  {
    assert (me, db.next) !in db.rows;
  }

  // ---------- Keys ----------

  /** What one optional field of an update leaves. */
  function Updated<T>(given: Option<T>, was: T): T { if given.Some? then given.value else was }

  predicate AsksForScope(c: ScopeChange) {
    c.manageKeys == Some(true) || c.createGroups == Some(true) || c.manageWebhooks == Some(true)
  }

  /** A created key is the caller's child, has what was asked for and no more, and nothing else changes. A
      non-master makes keys without scopes only. */
  lemma CreationMakesAChild(db: Tables, me: Id, p: CreateKeyPayload)
    requires me in db.keys && db.next !in db.keys
    ensures var (after, o) := CreateKey(db, me, p);
      && (o == Done <==>
            && (db.keys[me].isMaster || (db.keys[me].scopes.manageKeys && !AsksForScope(p.scopes)))
            && (p.boundIps.Some? ==> p.boundIps.value.parses))
      && (o != Done ==> after == db)
      && (o == Done ==>
            && after == db.(keys := after.keys, next := db.next + 1)
            && after.keys.Keys == db.keys.Keys + {db.next} && (forall k :: k in db.keys ==> after.keys[k] == db.keys[k])
            && var key := after.keys[db.next];
               && key.name == p.name && key.parent == Some(me) && !key.isMaster
               && (key.scopes.manageKeys <==> p.scopes.manageKeys == Some(true))
               && (key.scopes.createGroups <==> p.scopes.createGroups == Some(true))
               && (key.scopes.manageWebhooks <==> p.scopes.manageWebhooks == Some(true))
               && key.boundIps == if p.boundIps.Some? then Some(p.boundIps.value.text) else None)
  {
  }

  /** An update writes the fields given, keeps the others, and touches one key. A non-master updates keys
      below it and raises no scope; of the master only its networks change, and only by itself. */
  lemma UpdateWritesTheFieldsGiven(db: Tables, me: Id, id: Id, p: UpdateKeyPayload)
    requires me in db.keys
    ensures var (after, o) := UpdateKey(db, me, id, p);
      && (o == Done <==>
            && id in db.keys && (p.boundIps.Some? ==> p.boundIps.value.parses)
            && (db.keys[me].isMaster
                || (db.keys[me].scopes.manageKeys && Descends(db.keys, me, id) && !db.keys[id].isMaster
                    && (p.scopes.manageKeys == Some(true) ==> db.keys[id].scopes.manageKeys)
                    && (p.scopes.createGroups == Some(true) ==> db.keys[id].scopes.createGroups)
                    && (p.scopes.manageWebhooks == Some(true) ==> db.keys[id].scopes.manageWebhooks)))
            && (db.keys[id].isMaster ==> me == id && p.name.None? && p.scopes == ScopeChange(None, None, None)))
      && (o != Done ==> after == db)
      && (o == Done ==>
            && after == db.(keys := after.keys) && after.keys.Keys == db.keys.Keys
            && (forall k :: k in db.keys && k != id ==> after.keys[k] == db.keys[k])
            && var (key, was) := (after.keys[id], db.keys[id]);
               && key.name == Updated(p.name, was.name)
               && key.scopes.manageKeys == Updated(p.scopes.manageKeys, was.scopes.manageKeys)
               && key.scopes.createGroups == Updated(p.scopes.createGroups, was.scopes.createGroups)
               && key.scopes.manageWebhooks == Updated(p.scopes.manageWebhooks, was.scopes.manageWebhooks)
               && (p.boundIps.Some? ==> key.boundIps == Some(p.boundIps.value.text))
               && (p.boundIps.None? ==> key.boundIps == was.boundIps)
               && key.parent == was.parent && key.isMaster == was.isMaster)
  {
    SubtreeIsDescendants(db.keys, me, id);
    hide Subtree, Descends;
  }

  // ---------- Groups ----------

  /** A created group has the name and type asked for and belongs to its creator, unless that is the master; a
      creator that is not the master may read, write and delete in it. */
  lemma CreationMakesAGroup(db: Tables, me: Id, name: string, groupType: Option<string>)
    requires me in db.keys && db.next !in db.groups && (me, db.next) !in db.rows
    ensures var (after, o) := CreateGroup(db, me, name, groupType);
      && (o == Done <==>
            && (db.keys[me].isMaster || db.keys[me].scopes.createGroups)
            && forall g :: g in db.groups ==> db.groups[g].name != name)
      && (o != Done ==> after == db)
      && (o == Done ==>
            && after == db.(groups := after.groups, rows := after.rows, next := db.next + 1)
            && after.groups.Keys == db.groups.Keys + {db.next}
            && (forall g :: g in db.groups ==> after.groups[g] == db.groups[g])
            && after.groups[db.next].name == name
            && after.groups[db.next].groupType == (if groupType == Some("whitelist") then "whitelist" else "banlist")
            && after.groups[db.next].owner == (if db.keys[me].isMaster then None else Some(me))
            && (forall r :: r in db.rows ==> r in after.rows && after.rows[r] == db.rows[r])
            && (forall r :: r in after.rows && r !in db.rows ==>
                  r == (me, db.next) && after.rows[r] == Verbs(true, true, true, false))
            && (db.keys[me].isMaster <==> after.rows == db.rows))
  {
    hide FindByName;
  }

  /** A deleted group goes with its rows and webhooks, and with nothing else; by the master or its owner. */
  lemma DeletionTakesTheGroup(db: Tables, me: Id, g: Id)
    requires me in db.keys
    ensures var (after, o) := DeleteGroup(db, me, g);
      && (o == Done <==> g in db.groups && (db.keys[me].isMaster || db.groups[g].owner == Some(me)))
      && (o != Done ==> after == db)
      && (o == Done ==>
            && after == db.(groups := after.groups, rows := after.rows, hooks := after.hooks)
            && (forall x :: x in after.groups <==> x in db.groups && x != g)
            && (forall x :: x in after.groups ==> after.groups[x] == db.groups[x])
            && (forall r :: r in after.rows <==> r in db.rows && r.1 != g)
            && (forall r :: r in after.rows ==> after.rows[r] == db.rows[r])
            && (forall h :: h in after.hooks <==> h in db.hooks && db.hooks[h].group != g)
            && (forall h :: h in after.hooks ==> after.hooks[h] == db.hooks[h]))
  {
  }

  predicate FitToOwn(keys: map<Id, Key>, owner: Option<Id>) {
    owner.Some? ==> owner.value in keys && !keys[owner.value].isMaster
  }

  /** Only the master hands a group or a webhook on: to nobody, or to a living key other than itself. */
  lemma HandingOnSetsTheOwner(db: Tables, me: Id, x: Id, owner: Option<Id>)
    requires me in db.keys
    ensures var (after, o) := ReassignGroup(db, me, x, owner);
      && (o == Done <==> db.keys[me].isMaster && x in db.groups && FitToOwn(db.keys, owner))
      && after == if o == Done then db.(groups := db.groups[x := db.groups[x].(owner := owner)]) else db
    ensures var (after, o) := ReassignHook(db, me, x, owner);
      && (o == Done <==> db.keys[me].isMaster && x in db.hooks && FitToOwn(db.keys, owner))
      && after == if o == Done then db.(hooks := db.hooks[x := db.hooks[x].(owner := owner)]) else db
  {
  }

  // ---------- The pre-flight of a key deletion ----------

  predicate NamesEntity(entries: seq<ResolutionEntry>, kind: EntityKind, id: Id) {
    exists i :: 0 <= i < |entries| && entries[i].entityType == kind && entries[i].id == id
  }

  /** What an entry may name: a group or webhook owned by a doomed key. */
  predicate InDoomedHands(db: Tables, doomed: set<Id>, kind: EntityKind, id: Id) {
    match kind
    case GROUP => id in db.groups && db.groups[id].owner.Some? && db.groups[id].owner.value in doomed
    case WEBHOOK => id in db.hooks && db.hooks[id].owner.Some? && db.hooks[id].owner.value in doomed
    case OTHER(_) => false
  }

  lemma {:induction false} NamedIsMapped(entries: seq<ResolutionEntry>, kind: EntityKind, id: Id)
    ensures NamesEntity(entries, kind, id) <==> (kind, id) in ResolutionMap(entries)
    decreases |entries|
  {
    if entries != [] {
      var init, last := entries[..|entries| - 1], |entries| - 1;
      NamedIsMapped(init, kind, id);
      assert forall i :: 0 <= i < last ==> init[i] == entries[i];
    }
  }

  lemma {:induction false} MappedAsLast(entries: seq<ResolutionEntry>, i: nat)
    requires NoDuplicates(entries) && i < |entries|
    ensures (entries[i].entityType, entries[i].id) in ResolutionMap(entries)
    ensures ResolutionMap(entries)[(entries[i].entityType, entries[i].id)] == entries[i].resolution
    decreases |entries|
  {
    var init, last := entries[..|entries| - 1], |entries| - 1;
    if i < last {
      assert NoDuplicates(init);
      MappedAsLast(init, i);
      assert (entries[i].entityType, entries[i].id) != (entries[last].entityType, entries[last].id);
    }
  }

  predicate HeirsFit(db: Tables, doomed: set<Id>, entries: seq<ResolutionEntry>) {
    forall i :: 0 <= i < |entries| && entries[i].resolution.Reassign? ==>
      var heir := entries[i].resolution.owner;
      heir in db.keys && !db.keys[heir].isMaster && heir !in doomed
  }

  lemma HeirsAreTheMaps(db: Tables, doomed: set<Id>, entries: seq<ResolutionEntry>)
    requires NoDuplicates(entries)
    ensures HeirsFit(db, doomed, entries) <==> ReassignmentsValid(db.keys, doomed, ResolutionMap(entries))
  {
    var res := ResolutionMap(entries);
    hide ResolutionMap, NoDuplicates;
    if ReassignmentsValid(db.keys, doomed, res) {
      forall i: nat | i < |entries| && entries[i].resolution.Reassign?
        ensures var heir := entries[i].resolution.owner; heir in db.keys && !db.keys[heir].isMaster && heir !in doomed
      {
        MappedAsLast(entries, i);
      }
    }
    if HeirsFit(db, doomed, entries) {
      forall e | e in res && res[e].Reassign?
        ensures ResolveOwnerAssignment(db.keys, Some(res[e].owner)).Ok? && res[e].owner !in doomed
      {
        ResolutionMapNames(entries, e);
        var i: nat :| i < |entries| && entries[i].resolution == res[e];
        assert entries[i].resolution.Reassign?;
      }
    }
  }

  lemma InventoryIsNamed(db: Tables, doomed: set<Id>, entries: seq<ResolutionEntry>)
    ensures ResolutionMap(entries).Keys == Inventory(db, doomed)
       <==> forall kind, id :: NamesEntity(entries, kind, id) <==> InDoomedHands(db, doomed, kind, id)
  {
    var res, inventory := ResolutionMap(entries), Inventory(db, doomed);
    forall kind, id: Id
      ensures NamesEntity(entries, kind, id) <==> (kind, id) in res
      ensures InDoomedHands(db, doomed, kind, id) <==> (kind, id) in inventory
    {
      NamedIsMapped(entries, kind, id);
      InventoryHolds(db, doomed, kind, id);
    }
    hide NamesEntity, InDoomedHands, Inventory, ResolutionMap;
    if forall kind, id :: NamesEntity(entries, kind, id) <==> InDoomedHands(db, doomed, kind, id) {
      forall e: (EntityKind, Id) ensures e in res <==> e in inventory {
        assert e == (e.0, e.1) && (NamesEntity(entries, e.0, e.1) <==> InDoomedHands(db, doomed, e.0, e.1));
      }
      assert res.Keys == inventory;
    }
  }

  /** The check passes exactly when no entity is named twice, every entity in doomed hands is named and nothing
      else is, and every heir named is a living key that is neither the master nor doomed. */
  lemma PreflightExactly(db: Tables, doomed: set<Id>, entries: seq<ResolutionEntry>)
    ensures Preflight(db, doomed, entries) == Done <==>
      && (forall i, j :: 0 <= i < j < |entries| ==>
            entries[i].entityType != entries[j].entityType || entries[i].id != entries[j].id)
      && (forall kind, id :: NamesEntity(entries, kind, id) <==> InDoomedHands(db, doomed, kind, id))
      && HeirsFit(db, doomed, entries)
  {
    InventoryIsNamed(db, doomed, entries);
    if NoDuplicates(entries) { HeirsAreTheMaps(db, doomed, entries); }
    var res, inventory := ResolutionMap(entries), Inventory(db, doomed);
    assert NoDuplicates(entries) <==> forall i, j :: 0 <= i < j < |entries| ==>
      entries[i].entityType != entries[j].entityType || entries[i].id != entries[j].id;
    assert res.Keys == inventory <==> inventory <= res.Keys && res.Keys <= inventory;
    assert entries == [] ==> res == map[];
    hide NamesEntity, InDoomedHands, Inventory, ResolutionMap, HeirsFit, NoDuplicates, ReassignmentsValid;
  }

  lemma InventoryHolds(db: Tables, doomed: set<Id>, kind: EntityKind, id: Id)
    ensures InDoomedHands(db, doomed, kind, id) <==> (kind, id) in Inventory(db, doomed)
  {
  }

  /** A key is deleted exactly by the master or a manager above it, never by itself, never the master, never
      from below, and only with a sound set of resolutions. */
  lemma DeletionIsAdmittedExactly(db: Tables, me: Id, id: Id, entries: seq<ResolutionEntry>)
    requires me in db.keys
    ensures var (after, o) := DeleteKey(db, me, id, entries);
      && (o == Done <==>
            && id in db.keys && id != me && !db.keys[id].isMaster && !Descends(db.keys, id, me)
            && (db.keys[me].isMaster || (db.keys[me].scopes.manageKeys && Descends(db.keys, me, id)))
            && Preflight(db, Subtree(db.keys, id), entries) == Done)
      && (o != Done ==> after == db)
  {
    SubtreeIsDescendants(db.keys, me, id);
    SubtreeIsDescendants(db.keys, id, me);
    hide Subtree, Descends, Preflight, Cascade;
  }

  /** Each entry of a committed deletion is carried out, and rows go with their key or their group only. */
  lemma DeletionCarriesOutEachEntry(db: Tables, me: Id, id: Id, entries: seq<ResolutionEntry>, i: nat)
    requires me in db.keys && DeleteKey(db, me, id, entries).1 == Done && i < |entries|
    ensures var after, e := DeleteKey(db, me, id, entries).0, entries[i];
      && (e.entityType.GROUP? ==>
            match e.resolution
            case Delete => e.id !in after.groups
            case Reassign(heir) => e.id in after.groups && after.groups[e.id].owner == Some(heir))
      && (e.entityType.WEBHOOK? ==>
            match e.resolution
            case Delete => e.id !in after.hooks
            case Reassign(heir) => e.id in after.hooks ==> after.hooks[e.id].owner == Some(heir))
  {
    var doomed, e := Subtree(db.keys, id), entries[i];
    assert NoDuplicates(entries);
    MappedAsLast(entries, i);
    InventoryHolds(db, doomed, e.entityType, e.id);
    hide Subtree, ResolutionMap, Inventory;
  }

  lemma DeletionTakesRowsWithThem(db: Tables, me: Id, id: Id, entries: seq<ResolutionEntry>, r: (Id, Id))
    requires RowsHold(db.keys, db.groups, db.rows) && me in db.keys && DeleteKey(db, me, id, entries).1 == Done
    ensures var after := DeleteKey(db, me, id, entries).0;
      && (r in after.rows <==> r in db.rows && r.0 in after.keys && r.1 in after.groups)
      && (r in after.rows ==> after.rows[r] == db.rows[r])
      && (forall k :: k in after.keys <==> k in db.keys && !Descends(db.keys, id, k))
      && (forall k :: k in after.keys ==> after.keys[k] == db.keys[k])
  {
    forall k ensures k in Subtree(db.keys, id) <==> Descends(db.keys, id, k) { SubtreeIsDescendants(db.keys, id, k); }
    hide Subtree, Descends, ResolutionMap, Preflight, Inventory;
  }

  // ---------- Webhooks ----------

  /** A non-master makes webhooks on groups it may read, and deletes its own. */
  lemma WebhooksAreMadeAndDeleted(db: Tables, me: Id, name: string, x: Id, settingsValid: bool)
    requires me in db.keys && db.next !in db.hooks
    ensures var (after, o) := CreateHook(db, me, name, x, settingsValid);
      && (o == Done <==>
            && settingsValid && x in db.groups
            && (db.keys[me].isMaster
                || (db.keys[me].scopes.manageWebhooks && (me, x) in db.rows && db.rows[(me, x)].read)))
      && after == if o != Done then db
                  else db.(next := db.next + 1,
                           hooks := db.hooks[db.next := Hook(name, x, if db.keys[me].isMaster then None else Some(me))])
    ensures var (after, o) := DeleteHook(db, me, x);
      && (o == Done <==>
            && x in db.hooks
            && (db.keys[me].isMaster || (db.keys[me].scopes.manageWebhooks && db.hooks[x].owner == Some(me))))
      && after == if o == Done then db.(hooks := db.hooks - {x}) else db
  {
  }
}
