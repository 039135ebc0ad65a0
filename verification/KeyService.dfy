/** The handlers of src/api/keys.rs and src/api/groups.rs as they run: checks first, then row writes.
    Each is tied to its step in `Rights`. */
module KeyService {
  import opened Common
  import opened Lineage
  import opened Guards
  import opened Rights
  import opened RightsRuns

  // ---------- Applying a resolution map one entity at a time ----------

  ghost predicate Gone(done: set<(EntityKind, Id)>, res: map<(EntityKind, Id), Resolution>, e: (EntityKind, Id)) {
    e in done && e in res && res[e].Delete?
  }

  ghost function Owner(done: set<(EntityKind, Id)>, res: map<(EntityKind, Id), Resolution>, e: (EntityKind,
                       Id), owner: Option<Id>)
    : Option<Id>
  {
    if e in done && e in res && res[e].Reassign? then Some(res[e].owner) else owner
  }

  // The three tables once the entities of `done` have been resolved.

  ghost function GroupsAfter(groups: map<Id, Group>, done: set<(EntityKind, Id)>,
                             res: map<(EntityKind, Id), Resolution>)
    : map<Id, Group>
  {
    map g | g in groups && !Gone(done, res, (GROUP, g)) ::
      groups[g].(owner := Owner(done, res, (GROUP, g), groups[g].owner))
  }

  ghost function RowsAfter(rows: map<(Id, Id), Verbs>, done: set<(EntityKind, Id)>, res: map<(EntityKind, Id),
                           Resolution>)
    : map<(Id, Id), Verbs>
  {
    map r | r in rows && !Gone(done, res, (GROUP, r.1)) :: rows[r]
  }

  ghost function HooksAfter(hooks: map<Id, Hook>, done: set<(EntityKind, Id)>, res: map<(EntityKind, Id), Resolution>)
    : map<Id, Hook>
  {
    map h | h in hooks && !Gone(done, res, (GROUP, hooks[h].group)) && !Gone(done, res, (WEBHOOK, h)) ::
      hooks[h].(owner := Owner(done, res, (WEBHOOK, h), hooks[h].owner))
  }

  lemma NothingApplied(groups: map<Id, Group>, rows: map<(Id, Id), Verbs>, hooks: map<Id, Hook>,
                       res: map<(EntityKind, Id), Resolution>)
    ensures GroupsAfter(groups, {}, res) == groups
    ensures RowsAfter(rows, {}, res) == rows
    ensures HooksAfter(hooks, {}, res) == hooks
  {
  }

  lemma GroupsStep(groups: map<Id, Group>, done: set<(EntityKind, Id)>, res: map<(EntityKind, Id), Resolution>,
                   e: (EntityKind, Id))
    requires e in res && e !in done && e.0 in {GROUP, WEBHOOK}
    ensures var now, after := GroupsAfter(groups, done, res), GroupsAfter(groups, done + {e}, res);
      && (e.0 == WEBHOOK ==> after == now)
      && (e.0 == GROUP && res[e].Delete? ==> after == now - {e.1})
      && (e.0 == GROUP && res[e].Reassign? && e.1 in groups ==>
            e.1 in now && after == now[e.1 := now[e.1].(owner := Some(res[e].owner))])
  {
    var now, after := GroupsAfter(groups, done, res), GroupsAfter(groups, done + {e}, res);
    if e.0 == WEBHOOK {
      assert after == now;
    } else if res[e].Delete? {
      assert after == now - {e.1};
    }
  }

  lemma RowsStep(rows: map<(Id, Id), Verbs>, done: set<(EntityKind, Id)>, res: map<(EntityKind, Id),
                 Resolution>, e: (EntityKind, Id))
    requires e in res && e.0 in {GROUP, WEBHOOK}
    ensures var now, after := RowsAfter(rows, done, res), RowsAfter(rows, done + {e}, res);
      after == if e.0 == GROUP && res[e].Delete? then map r | r in now && r.1 != e.1 :: now[r] else now
  {
  }

  lemma HooksStepGroup(hooks: map<Id, Hook>, done: set<(EntityKind, Id)>, res: map<(EntityKind, Id), Resolution>, g: Id)
    requires (GROUP, g) in res && (GROUP, g) !in done
    ensures var now, after := HooksAfter(hooks, done, res), HooksAfter(hooks, done + {(GROUP, g)}, res);
      after == if res[(GROUP, g)].Delete? then map h | h in now && now[h].group != g :: now[h] else now
  {
  }

  lemma HooksStepHook(hooks: map<Id, Hook>, done: set<(EntityKind, Id)>, res: map<(EntityKind, Id), Resolution>, h: Id)
    requires (WEBHOOK, h) in res && (WEBHOOK, h) !in done
    ensures var now: map<Id, Hook> := HooksAfter(hooks, done, res);
            var after := HooksAfter(hooks, done + {(WEBHOOK, h)}, res);
      && (res[(WEBHOOK, h)].Delete? ==> after == now - {h})
      && (res[(WEBHOOK, h)].Reassign? ==>
            after == if h in now then now[h := now[h].(owner := Some(res[(WEBHOOK, h)].owner))] else now)
  {
    var now: map<Id, Hook> := HooksAfter(hooks, done, res);
    var after := HooksAfter(hooks, done + {(WEBHOOK, h)}, res);
    if res[(WEBHOOK, h)].Delete? {
      assert after == now - {h};
    } else if h in now {
      assert after == now[h := now[h].(owner := Some(res[(WEBHOOK, h)].owner))];
    } else {
      assert after == now;
    }
  }

  lemma InventoryNames(db: Tables, doomed: set<Id>, res: map<(EntityKind, Id), Resolution>)
    requires res.Keys == Inventory(db, doomed)
    ensures forall g :: g in db.groups ==> ((GROUP, g) in res <==> OwnedBy(db.groups[g].owner, doomed))
    ensures forall h :: h in db.hooks ==> ((WEBHOOK, h) in res <==> OwnedBy(db.hooks[h].owner, doomed))
    ensures forall e :: e in res ==> (e.0 == GROUP && e.1 in db.groups) || (e.0 == WEBHOOK && e.1 in db.hooks)
  {
    forall g | g in db.groups
      ensures (GROUP, g) in res <==> OwnedBy(db.groups[g].owner, doomed)
    {
      assert (GROUP, g) in res.Keys <==> (GROUP, g) in Inventory(db, doomed);
    }
    forall h | h in db.hooks
      ensures (WEBHOOK, h) in res <==> OwnedBy(db.hooks[h].owner, doomed)
    {
      assert (WEBHOOK, h) in res.Keys <==> (WEBHOOK, h) in Inventory(db, doomed);
    }
    forall e | e in res
      ensures (e.0 == GROUP && e.1 in db.groups) || (e.0 == WEBHOOK && e.1 in db.hooks)
    {
      assert e in res.Keys;
    }
  }

  lemma GoneIsDeleted(db: Tables, doomed: set<Id>, res: map<(EntityKind, Id), Resolution>, g: Id)
    requires res.Keys == Inventory(db, doomed)
    ensures Gone(res.Keys, res, (GROUP, g)) <==> g in db.groups && GroupDeleted(db, doomed, res, g)
  {
    InventoryNames(db, doomed, res);
    hide Inventory;
  }

  /** Resolving everything and dropping the doomed keys with their rows is the cascade. */
  lemma AllAppliedIsCascade(db: Tables, doomed: set<Id>, res: map<(EntityKind, Id), Resolution>)
    requires res.Keys == Inventory(db, doomed)
    ensures var rows := RowsAfter(db.rows, res.Keys, res); var end := Cascade(db, doomed, res);
      && end.groups == GroupsAfter(db.groups, res.Keys, res)
      && end.hooks == HooksAfter(db.hooks, res.Keys, res)
      && end.rows == (map r | r in rows && r.0 !in doomed :: rows[r])
      && end.keys == db.keys - doomed && end.next == db.next
  {
    InventoryNames(db, doomed, res);
    forall g ensures Gone(res.Keys, res, (GROUP, g)) <==> g in db.groups && GroupDeleted(db, doomed, res, g) {
      GoneIsDeleted(db, doomed, res, g);
    }
    AppliedGroups(db, doomed, res);
    AppliedRows(db, doomed, res);
    AppliedHooks(db, doomed, res);
  }

  lemma AppliedGroups(db: Tables, doomed: set<Id>, res: map<(EntityKind, Id), Resolution>)
    requires res.Keys == Inventory(db, doomed)
    requires forall g :: g in db.groups ==> ((GROUP, g) in res <==> OwnedBy(db.groups[g].owner, doomed))
    requires forall g :: Gone(res.Keys, res, (GROUP, g)) <==> g in db.groups && GroupDeleted(db, doomed, res, g)
    ensures Cascade(db, doomed, res).groups == GroupsAfter(db.groups, res.Keys, res)
  {
    hide Inventory, GroupDeleted, Gone;
  }

  lemma AppliedRows(db: Tables, doomed: set<Id>, res: map<(EntityKind, Id), Resolution>)
    requires res.Keys == Inventory(db, doomed)
    requires forall g :: Gone(res.Keys, res, (GROUP, g)) <==> g in db.groups && GroupDeleted(db, doomed, res, g)
    ensures var rows := RowsAfter(db.rows, res.Keys, res);
      Cascade(db, doomed, res).rows == (map r | r in rows && r.0 !in doomed :: rows[r])
  {
    hide Inventory, GroupDeleted, Gone;
  }

  lemma AppliedHooks(db: Tables, doomed: set<Id>, res: map<(EntityKind, Id), Resolution>)
    requires res.Keys == Inventory(db, doomed)
    requires forall h :: h in db.hooks ==> ((WEBHOOK, h) in res <==> OwnedBy(db.hooks[h].owner, doomed))
    requires forall g :: Gone(res.Keys, res, (GROUP, g)) <==> g in db.groups && GroupDeleted(db, doomed, res, g)
    ensures Cascade(db, doomed, res).hooks == HooksAfter(db.hooks, res.Keys, res)
  {
    hide Inventory, GroupDeleted;
    var end, all := Cascade(db, doomed, res).hooks, HooksAfter(db.hooks, res.Keys, res);
    forall h
      ensures h in end <==> h in all
      ensures h in all ==> end[h] == all[h]
    {
      if h in db.hooks {
        assert Gone(res.Keys, res, (WEBHOOK, h)) <==> OwnedBy(db.hooks[h].owner, doomed) && res[(WEBHOOK, h)].Delete?;
      }
    }
  }

  lemma ResolutionMapGrows(entries: seq<ResolutionEntry>, i: nat)
    requires i < |entries|
    ensures ResolutionMap(entries[..i + 1])
         == ResolutionMap(entries[..i])[(entries[i].entityType, entries[i].id) := entries[i].resolution]
  {
    assert entries[..i + 1][..i] == entries[..i];
  }

  /** One line of the pre-flight inventory. */
  datatype OwnedEntity = OwnedEntity(entityType: EntityKind, id: Id, name: string, owner: Id, ownerName: string)

  function Ident(e: OwnedEntity): (EntityKind, Id) { (e.entityType, e.id) }

  ghost predicate Lists(inv: seq<OwnedEntity>, entities: set<(EntityKind, Id)>) {
    && (forall i :: 0 <= i < |inv| ==> Ident(inv[i]) in entities)
    && (forall e :: e in entities ==> exists i :: 0 <= i < |inv| && Ident(inv[i]) == e)
    && (forall i, j :: 0 <= i < j < |inv| ==> Ident(inv[i]) != Ident(inv[j]))
  }

  ghost function Prefix(inv: seq<OwnedEntity>, n: nat): set<(EntityKind, Id)>
    requires n <= |inv|
  {
    set i | 0 <= i < n :: Ident(inv[i])
  }

  /** What the database itself guarantees: foreign keys, unique names, fresh ids. */
  ghost predicate SchemaHolds(db: Tables) {
    && RowsHold(db.keys, db.groups, db.rows) && HooksHold(db.groups, db.hooks) && NamesUnique(db.groups)
    && IdsBelow(db.keys.Keys, db.next) && IdsBelow(db.groups.Keys, db.next) && IdsBelow(db.hooks.Keys, db.next)
  }

  lemma CascadeKeepsSchema(db: Tables, doomed: set<Id>, res: map<(EntityKind, Id), Resolution>)
    requires SchemaHolds(db) && res.Keys == Inventory(db, doomed)
    ensures SchemaHolds(Cascade(db, doomed, res))
  {
    hide Inventory, OwnedBy;
  }

  class Vault {
    var keys: map<Id, Key>
    var groups: map<Id, Group>
    var rows: map<(Id, Id), Verbs>
    var hooks: map<Id, Hook>
    var next: Id

    ghost function Db(): Tables
      reads this
    {
      Tables(keys, groups, rows, hooks, next)
    }

    ghost predicate Valid()
      reads this
    {
      SchemaHolds(Db())
    }

    lemma ValidIsSchema()
      ensures Valid() <==> SchemaHolds(Db())
    {
    }

    method FindGroupByName(name: string) returns (r: Option<Id>)
      requires Valid()
      ensures r == FindByName(groups, name)
    {
      if g :| g in groups && groups[g].name == name {
        return Some(g);
      }
      return None;
    }

    method ResolveGroupByIdentifier(ident: Identifier) returns (r: Option<Id>)
      requires Valid()
      ensures r == FindByIdentifier(groups, ident)
    {
      if ident.uuid.Some? && ident.uuid.value in groups { return ident.uuid; }
      r := FindGroupByName(ident.text);
    }

    /** Inserts unless the name is taken, then re-reads by name. */
    method GetOrCreateGroup(me: Id, name: string, groupType: string) returns (g: Id)
      requires Valid() && me in keys
      modifies this
      ensures Valid() && keys == old(keys) && FindByName(groups, name) == Some(g)
      ensures old(FindByName(groups, name)) == Some(g) ==> Db() == old(Db())
      ensures old(FindByName(groups, name)).None? ==>
        g == old(next) && Db() == InsertGroup(old(Db()), me, name, groupType)
    {
      var found := FindGroupByName(name);
      if found.None? {
        groups := groups[next := Group(name, groupType, ResourceOwner(me, keys[me]))];
        next := next + 1;
        assert next - 1 in groups && groups[next - 1].name == name;
      }
      found := FindGroupByName(name);
      g := found.value;
    }

    method FindAdministrableKey(me: Id, target: Id) returns (found: bool)
      requires me in keys
      ensures found <==> target in keys && Administers(keys, me, target)
    {
      if target !in keys { return false; }
      if keys[me].isMaster { return true; }
      var subtree := CollectKeySubtree(keys, me);
      return target in subtree;
    }

    method CreateApiKey(me: Id, p: CreateKeyPayload) returns (o: Outcome)
      requires Valid() && me in keys
      modifies this
      ensures Valid() && (Db(), o) == CreateKey(old(Db()), me, p)
    {
      var caller := keys[me];
      if !caller.isMaster && !caller.scopes.manageKeys { return Refused(Forbidden); }
      o := GuardScopeElevation(caller, p.scopes, NO_SCOPES);
      if o != Done { return; }
      if p.boundIps.Some? && !p.boundIps.value.parses { return Refused(InvalidInput); }
      keys := keys[next := Key(p.name, false, ApplyScopes(p.scopes, NO_SCOPES), Some(me), CidrText(p.boundIps))];
      next := next + 1;
    }

    method UpdateApiKey(me: Id, id: Id, p: UpdateKeyPayload) returns (o: Outcome)
      requires Valid() && me in keys
      modifies this
      ensures Valid() && (Db(), o) == UpdateKey(old(Db()), me, id, p)
    {
      var caller := keys[me];
      if !caller.isMaster && !caller.scopes.manageKeys { return Refused(Forbidden); }
      var found := FindAdministrableKey(me, id);
      if !found { return Refused(NotFound); }
      var target := keys[id];
      o := GuardMasterTarget(caller, target);
      if o != Done { return; }
      if target.isMaster {
        var touchesOtherFields := p.name.Some? || p.scopes.manageKeys.Some? || p.scopes.manageWebhooks.Some?
                                  || p.scopes.createGroups.Some?;
        if touchesOtherFields {
          o := GuardMasterImmutable(target);
          if o != Done { return; }
        }
        if me != id { return Refused(Forbidden); }
      }
      o := GuardScopeElevation(caller, p.scopes, target.scopes);
      if o != Done { return; }
      if p.boundIps.Some? && !p.boundIps.value.parses { return Refused(InvalidInput); }
      if p.name.Some? { target := target.(name := p.name.value); }
      if p.boundIps.Some? { target := target.(boundIps := Some(p.boundIps.value.text)); }
      target := target.(scopes := ApplyScopes(p.scopes, target.scopes));
      keys := keys[id := target];
    }

    ghost predicate Named(inventory: seq<OwnedEntity>, subtree: set<Id>)
      reads this
    {
      forall e :: e in inventory ==>
        e.owner in subtree && e.ownerName == OwnerName(e.owner)
        && (e.entityType == GROUP ==> e.id in groups && e.name == groups[e.id].name)
        && (e.entityType == WEBHOOK ==> e.id in hooks && e.name == hooks[e.id].name)
    }

    function OwnerName(owner: Id): string
      reads this
    {
      if owner in keys then keys[owner].name else "<deleted>"
    }

    method InventoryGroups(subtree: set<Id>) returns (inventory: seq<OwnedEntity>)
      ensures Lists(inventory, Tagged(GROUP, OwnedGroups(groups, subtree)))
      ensures Named(inventory, subtree)
    {
      inventory := [];
      var owned := OwnedGroups(groups, subtree);
      ghost var all := owned;
      while owned != {}
        invariant owned <= all
        invariant Lists(inventory, Tagged(GROUP, all - owned))
        invariant Named(inventory, subtree)
        decreases owned
      {
        var g :| g in owned;
        var owner := groups[g].owner.value;
        var entity := OwnedEntity(GROUP, g, groups[g].name, owner, OwnerName(owner));
        ListsGrows(inventory, Tagged(GROUP, all - owned), entity);
        assert Tagged(GROUP, all - (owned - {g})) == Tagged(GROUP, all - owned) + {(GROUP, g)};
        owned := owned - {g};
        inventory := inventory + [entity];
      }
      assert all - {} == all;
    }

    method InventoryHooks(subtree: set<Id>) returns (inventory: seq<OwnedEntity>)
      ensures Lists(inventory, Tagged(WEBHOOK, OwnedHooks(hooks, subtree)))
      ensures Named(inventory, subtree)
    {
      inventory := [];
      var owned := OwnedHooks(hooks, subtree);
      ghost var all := owned;
      while owned != {}
        invariant owned <= all
        invariant Lists(inventory, Tagged(WEBHOOK, all - owned))
        invariant Named(inventory, subtree)
        decreases owned
      {
        var h :| h in owned;
        var owner := hooks[h].owner.value;
        var entity := OwnedEntity(WEBHOOK, h, hooks[h].name, owner, OwnerName(owner));
        ListsGrows(inventory, Tagged(WEBHOOK, all - owned), entity);
        assert Tagged(WEBHOOK, all - (owned - {h})) == Tagged(WEBHOOK, all - owned) + {(WEBHOOK, h)};
        owned := owned - {h};
        inventory := inventory + [entity];
      }
      assert all - {} == all;
    }

    /** Every group, then every webhook, owned inside the subtree, with its owner's name. */
    method InventoryOwnedEntities(subtree: set<Id>) returns (inventory: seq<OwnedEntity>)
      ensures Lists(inventory, Inventory(Db(), subtree))
      ensures Named(inventory, subtree)
    {
      var gs := InventoryGroups(subtree);
      var hs := InventoryHooks(subtree);
      inventory := gs + hs;
      ListsConcat(gs, Tagged(GROUP, OwnedGroups(groups, subtree)), hs, Tagged(WEBHOOK, OwnedHooks(hooks, subtree)));
    }

    method DeleteApiKey(me: Id, id: Id, entries: seq<ResolutionEntry>)
      returns (o: Outcome, deletedEntities: nat, reassignedEntities: nat)
      requires Valid() && me in keys
      modifies this
      ensures Valid() && (Db(), o) == DeleteKey(old(Db()), me, id, entries)
      ensures o == Done ==> deletedEntities + reassignedEntities == |entries|
    {
      hide DeleteSubtree, Subtree, Valid;
      var caller := keys[me];
      if !caller.isMaster && !caller.scopes.manageKeys { return Refused(Forbidden), 0, 0; }
      if id == me { return Refused(Forbidden), 0, 0; }
      var found := FindAdministrableKey(me, id);
      if !found { return Refused(NotFound), 0, 0; }
      if GuardMasterTarget(caller, keys[id]) != Done || GuardMasterImmutable(keys[id]) != Done {
        return Refused(Forbidden), 0, 0;
      }
      var subtree := CollectKeySubtree(keys, id);
      if me in subtree { return Refused(CycleSuspected), 0, 0; }
      o, deletedEntities, reassignedEntities := DeleteCollected(subtree, entries);
    }

    method DeleteCollected(subtree: set<Id>, entries: seq<ResolutionEntry>)
      returns (o: Outcome, deletedEntities: nat, reassignedEntities: nat)
      requires Valid()
      modifies this
      ensures Valid() && (Db(), o) == DeleteSubtree(old(Db()), subtree, entries)
      ensures o == Done ==> deletedEntities + reassignedEntities == |entries|
    {
      hide Cascade, Inventory, ResolutionMap, GroupsAfter, RowsAfter, HooksAfter, Lists, Named, Valid, SchemaHolds,
           Preflight;
      ghost var before := Db();
      ValidIsSchema();
      var inventory := InventoryOwnedEntities(subtree);
      var resolutions: map<(EntityKind, Id), Resolution>;
      o, resolutions := CheckResolutions(inventory, subtree, entries);
      if o != Done { return o, 0, 0; }
      InventoryNames(before, subtree, resolutions);
      CascadeKeepsSchema(before, subtree, resolutions);
      deletedEntities, reassignedEntities := ApplyResolutions(inventory, resolutions);
      ListsCount(inventory, resolutions.Keys);
      AllAppliedIsCascade(before, subtree, resolutions);
      keys := keys - subtree;
      rows := map r | r in rows && r.0 !in subtree :: rows[r];
      assert Db() == Cascade(before, subtree, resolutions);
      ValidIsSchema();
    }

    /** Every inventoried entity exactly once, nothing else, and every heir fit to inherit. */
    method CheckResolutions(inventory: seq<OwnedEntity>, subtree: set<Id>, entries: seq<ResolutionEntry>)
      returns (o: Outcome, resolutions: map<(EntityKind, Id), Resolution>)
      requires Lists(inventory, Inventory(Db(), subtree))
      ensures o == Preflight(Db(), subtree, entries)
      ensures o == Done ==> resolutions == ResolutionMap(entries) && |resolutions| == |entries|
    {
      hide Inventory, ReassignmentsValid, ResolutionMap, NoDuplicates, Lists;
      resolutions := map[];
      ListsEmpty(inventory, Inventory(Db(), subtree));
      if inventory != [] && entries == [] { return Refused(Unresolved), resolutions; }
      var built := BuildResolutions(entries);
      if built.None? { return Refused(InvalidInput), resolutions; }
      resolutions := built.value;
      ListsMembers(inventory, Inventory(Db(), subtree), resolutions.Keys);
      if exists i :: 0 <= i < |inventory| && Ident(inventory[i]) !in resolutions {
        return Refused(Unresolved), resolutions;
      }
      var inventoried := set e | e in inventory :: Ident(e);
      if !(resolutions.Keys <= inventoried) { return Refused(InvalidInput), resolutions; }
      if !ReassignmentsValid(keys, subtree, resolutions) { return Refused(InvalidInput), resolutions; }
      return Done, resolutions;
    }

    /** The resolution map, unless two entries name one entity. */
    method BuildResolutions(entries: seq<ResolutionEntry>) returns (r: Option<map<(EntityKind, Id), Resolution>>)
      ensures r.Some? <==> NoDuplicates(entries)
      ensures r.Some? ==> r.value == ResolutionMap(entries) && |r.value| == |entries|
    {
      hide ResolutionMap;
      var resolutions: map<(EntityKind, Id), Resolution> := map[];
      ResolutionMapStarts();
      for i := 0 to |entries|
        invariant NoDuplicates(entries[..i])
        invariant resolutions == ResolutionMap(entries[..i])
        invariant forall e :: e in resolutions <==>
                    exists j :: 0 <= j < i && (entries[j].entityType, entries[j].id) == e
        invariant |resolutions| == i
      {
        var e := (entries[i].entityType, entries[i].id);
        if e in resolutions { return None; }
        ResolutionMapGrows(entries, i);
        resolutions := resolutions[e := entries[i].resolution];
      }
      assert entries[..|entries|] == entries;
      return Some(resolutions);
    }

    /** The write loop of a key deletion. */
    method ApplyResolutions(inventory: seq<OwnedEntity>, resolutions: map<(EntityKind, Id), Resolution>)
      returns (deleted: nat, reassigned: nat)
      requires Lists(inventory, resolutions.Keys)
      requires forall e :: e in resolutions ==>
        (e.0 == GROUP && e.1 in groups) || (e.0 == WEBHOOK && e.1 in hooks)
      modifies this`groups, this`rows, this`hooks
      ensures groups == GroupsAfter(old(groups), resolutions.Keys, resolutions)
      ensures rows == RowsAfter(old(rows), resolutions.Keys, resolutions)
      ensures hooks == HooksAfter(old(hooks), resolutions.Keys, resolutions)
      ensures deleted + reassigned == |inventory|
    {
      hide GroupsAfter, RowsAfter, HooksAfter;
      ghost var groups0, rows0, hooks0 := groups, rows, hooks;
      NothingApplied(groups, rows, hooks, resolutions);
      deleted, reassigned := 0, 0;
      assert Prefix(inventory, 0) == {};
      for i := 0 to |inventory|
        invariant groups == GroupsAfter(groups0, Prefix(inventory, i), resolutions)
        invariant rows == RowsAfter(rows0, Prefix(inventory, i), resolutions)
        invariant hooks == HooksAfter(hooks0, Prefix(inventory, i), resolutions)
        invariant deleted + reassigned == i
      {
        var e := Ident(inventory[i]);
        assert Prefix(inventory, i + 1) == Prefix(inventory, i) + {e};
        GroupsStep(groups0, Prefix(inventory, i), resolutions, e);
        RowsStep(rows0, Prefix(inventory, i), resolutions, e);
        if e.0 == GROUP {
          HooksStepGroup(hooks0, Prefix(inventory, i), resolutions, e.1);
        } else {
          HooksStepHook(hooks0, Prefix(inventory, i), resolutions, e.1);
        }
        match resolutions[e]
        case Delete =>
          if e.0 == GROUP {
            groups := groups - {e.1};
            rows := map r | r in rows && r.1 != e.1 :: rows[r];
            hooks := map h | h in hooks && hooks[h].group != e.1 :: hooks[h];
          } else {
            hooks := hooks - {e.1};
          }
          deleted := deleted + 1;
        case Reassign(owner) =>
          if e.0 == GROUP {
            groups := groups[e.1 := groups[e.1].(owner := Some(owner))];
          } else if e.1 in hooks {
            hooks := hooks[e.1 := hooks[e.1].(owner := Some(owner))];
          }
          reassigned := reassigned + 1;
      }
      assert Prefix(inventory, |inventory|) == resolutions.Keys;
    }

    method UpdateKeyGroupPermissions(me: Id, id: Id, ident: Option<Identifier>, name: Option<string>, v: Verbs)
      returns (o: Outcome)
      requires Valid() && me in keys
      modifies this
      ensures Valid() && (Db(), o) == SetPermission(old(Db()), me, id, ident, name, v)
    {
      hide WriteRow, MayAdministerAnyGroup;
      if !MayAdministerAnyGroup(Tables(keys, groups, rows, hooks, next), me) { return Refused(Forbidden); }
      if id !in keys { return Refused(NotFound); }
      if keys[id].isMaster { return Refused(InvalidInput); }
      if (v.write || v.delete) && !v.read { return Refused(InvalidInput); }
      if ident.Some? == name.Some? { return Refused(InvalidInput); }
      var existing: Option<Id>;
      if ident.Some? {
        existing := ResolveGroupByIdentifier(ident.value);
      } else {
        existing := FindGroupByName(name.value);
      }
      var group: Id;
      if existing.Some? {
        group := existing.value;
      } else if name.Some? {
        if !keys[me].isMaster && !keys[me].scopes.createGroups { return Refused(Forbidden); }
        group := GetOrCreateGroup(me, name.value, "banlist");
      } else {
        return Refused(NotFound);
      }
      o := WritePermission(me, id, group, v);
    }

    /** The guard on a row of a known group, and the write. */
    method WritePermission(me: Id, id: Id, group: Id, v: Verbs) returns (o: Outcome)
      requires Valid() && me in keys && id in keys && group in groups
      modifies this`rows
      ensures Valid() && (Db(), o) == WriteRow(old(Db()), me, id, group, v)
    {
      var callerPerm := Row(rows, me, group);
      var targetPerm := Row(rows, id, group);
      if Widens(v, targetPerm) {
        o := GuardDelegatedGrant(keys[me], callerPerm, v);
      } else {
        o := GuardGroupManage(keys[me], callerPerm);
      }
      if o != Done { return; }
      rows := rows[(id, group) := v];
    }

    method RevokeKeyGroupPermission(me: Id, id: Id, ident: Identifier) returns (o: Outcome)
      requires Valid() && me in keys
      modifies this
      ensures Valid() && (Db(), o) == RevokePermission(old(Db()), me, id, ident)
    {
      if !MayAdministerAnyGroup(Tables(keys, groups, rows, hooks, next), me) { return Refused(Forbidden); }
      var group := ResolveGroupByIdentifier(ident);
      if group.None? { return Refused(NotFound); }
      if Row(rows, id, group.value).None? { return Refused(NotFound); }
      o := GuardGroupManage(keys[me], Row(rows, me, group.value));
      if o != Done { return; }
      rows := rows - {(id, group.value)};
    }

    method CreateIpGroup(me: Id, name: string, groupType: Option<string>) returns (o: Outcome)
      requires Valid() && me in keys
      modifies this
      ensures Valid() && (Db(), o) == CreateGroup(old(Db()), me, name, groupType)
    {
      if !keys[me].isMaster && !keys[me].scopes.createGroups { return Refused(Forbidden); }
      var kind := if groupType == Some("whitelist") then "whitelist" else "banlist";
      var taken := FindGroupByName(name);
      if taken.Some? { return Refused(NameTaken); }
      var id := next;
      groups := groups[id := Group(name, kind, ResourceOwner(me, keys[me]))];
      next := next + 1;
      if !keys[me].isMaster { rows := rows[(me, id) := AUTO_ROW]; }
      return Done;
    }

    method DeleteIpGroup(me: Id, id: Id) returns (o: Outcome)
      requires Valid() && me in keys
      modifies this
      ensures Valid() && (Db(), o) == DeleteGroup(old(Db()), me, id)
    {
      if id !in groups { return Refused(NotFound); }
      o := GuardLifecycle(me, keys[me], groups[id].owner);
      if o != Done { return; }
      groups := groups - {id};
      rows := map r | r in rows && r.1 != id :: rows[r];
      hooks := map h | h in hooks && hooks[h].group != id :: hooks[h];
    }

    method ReassignGroupOwner(me: Id, id: Id, requested: Option<Id>) returns (o: Outcome)
      requires Valid() && me in keys
      modifies this
      ensures Valid() && (Db(), o) == ReassignGroup(old(Db()), me, id, requested)
    {
      if !keys[me].isMaster { return Refused(Forbidden); }
      if id !in groups { return Refused(NotFound); }
      var owner := ResolveOwnerAssignment(keys, requested);
      if owner.Err? { return Refused(owner.error); }
      groups := groups[id := groups[id].(owner := owner.value)];
      return Done;
    }
  }

  lemma ListsGrows(inv: seq<OwnedEntity>, listed: set<(EntityKind, Id)>, e: OwnedEntity)
    requires Lists(inv, listed) && Ident(e) !in listed
    ensures Lists(inv + [e], listed + {Ident(e)})
  {
    forall x | x in listed + {Ident(e)}
      ensures exists i :: 0 <= i < |inv + [e]| && Ident((inv + [e])[i]) == x
    {
      if x == Ident(e) {
        assert (inv + [e])[|inv|] == e;
      } else {
        var i :| 0 <= i < |inv| && Ident(inv[i]) == x;
        assert (inv + [e])[i] == inv[i];
      }
    }
  }

  lemma {:induction false} ListsCount(inv: seq<OwnedEntity>, entities: set<(EntityKind, Id)>)
    requires Lists(inv, entities)
    ensures |inv| == |entities|
    decreases |inv|
  {
    if inv != [] {
      var last := |inv| - 1;
      var rest := entities - {Ident(inv[last])};
      forall e | e in rest
        ensures exists i :: 0 <= i < last && Ident(inv[..last][i]) == e
      {
        var i :| 0 <= i < |inv| && Ident(inv[i]) == e;
        assert inv[..last][i] == inv[i];
      }
      ListsCount(inv[..last], rest);
    } else {
      assert entities == {};
    }
  }

  lemma ListsEmpty(inv: seq<OwnedEntity>, entities: set<(EntityKind, Id)>)
    requires Lists(inv, entities)
    ensures inv == [] <==> entities == {}
  {
    if inv != [] { assert Ident(inv[0]) in entities; }
  }

  lemma ListsMembers(inv: seq<OwnedEntity>, entities: set<(EntityKind, Id)>, named: set<(EntityKind, Id)>)
    requires Lists(inv, entities)
    ensures (set e | e in inv :: Ident(e)) == entities
    ensures (forall i :: 0 <= i < |inv| ==> Ident(inv[i]) in named) <==> entities <= named
  {
    forall e | e in entities
      ensures e in set x | x in inv :: Ident(x)
    {
      var i :| 0 <= i < |inv| && Ident(inv[i]) == e;
      assert inv[i] in inv;
    }
  }

  lemma ListsConcat(a: seq<OwnedEntity>, s: set<(EntityKind, Id)>, b: seq<OwnedEntity>, t: set<(EntityKind, Id)>)
    requires Lists(a, s) && Lists(b, t) && s !! t
    ensures Lists(a + b, s + t)
  {
    forall e | e in s + t
      ensures exists i :: 0 <= i < |a + b| && Ident((a + b)[i]) == e
    {
      if e in s {
        var i :| 0 <= i < |a| && Ident(a[i]) == e;
        assert (a + b)[i] == a[i];
      } else {
        var i :| 0 <= i < |b| && Ident(b[i]) == e;
        assert (a + b)[|a| + i] == b[i];
      }
    }
  }

  lemma ResolutionMapStarts()
    ensures ResolutionMap([]) == map[]
  {
  }
}
