/** The rights tables and what each handler of src/api/keys.rs, src/api/groups.rs and
    src/api/webhooks.rs does to them, as one atomic step. */
module Rights {
  import opened Common
  import opened Lineage
  import opened Guards

  datatype Group = Group(name: string, groupType: string, owner: Option<Id>)
  datatype Hook = Hook(name: string, group: Id, owner: Option<Id>)

  /** `rows` is keyed by (key, group), the unique index of the junction table. `next` supplies ids that
      were never used before. */
  datatype Tables = Tables(
    keys: map<Id, Key>,
    groups: map<Id, Group>,
    rows: map<(Id, Id), Verbs>,
    hooks: map<Id, Hook>,
    next: Id)

  function Row(rows: map<(Id, Id), Verbs>, key: Id, group: Id): Option<Verbs> {
    if (key, group) in rows then Some(rows[(key, group)]) else None
  }

  // ---------- Group lookup ----------

  ghost function FindByName(groups: map<Id, Group>, name: string): (r: Option<Id>)
    ensures r.Some? ==> r.value in groups && groups[r.value].name == name
    ensures r.None? ==> forall g :: g in groups ==> groups[g].name != name
  {
    if g :| g in groups && groups[g].name == name then Some(g) else None
  }

  /** A path or payload identifier: its text, and the id it parses as, if it does. */
  datatype Identifier = Identifier(text: string, uuid: Option<Id>)

  ghost function FindByIdentifier(groups: map<Id, Group>, ident: Identifier): Option<Id> {
    if ident.uuid.Some? && ident.uuid.value in groups then ident.uuid
    else FindByName(groups, ident.text)
  }

  ghost function FindFlexible(groups: map<Id, Group>, ident: Option<Identifier>, name: Option<string>)
    : Result<Option<Id>, Refusal>
  {
    if ident.Some? && name.Some? then Err(InvalidInput)
    else if ident.Some? then Ok(FindByIdentifier(groups, ident.value))
    else if name.Some? then Ok(FindByName(groups, name.value))
    else Err(InvalidInput)
  }

  // ---------- Keys ----------

  /** `bound_ips` as submitted, with the verdict of the CIDR parser on it. */
  datatype CidrList = CidrList(text: string, parses: bool)

  datatype CreateKeyPayload = CreateKeyPayload(name: string, boundIps: Option<CidrList>, scopes: ScopeChange)

  datatype UpdateKeyPayload = UpdateKeyPayload(name: Option<string>, boundIps: Option<CidrList>, scopes: ScopeChange)

  const NO_SCOPES := Scopes(false, false, false)

  function CidrText(c: Option<CidrList>): Option<string> { if c.Some? then Some(c.value.text) else None }

  function CreateKey(db: Tables, me: Id, p: CreateKeyPayload): (Tables, Outcome)
    requires me in db.keys
  {
    var caller := db.keys[me];
    if !caller.isMaster && !caller.scopes.manageKeys then (db, Refused(Forbidden))
    else if GuardScopeElevation(caller, p.scopes, NO_SCOPES) != Done then (db, Refused(Forbidden))
    else if p.boundIps.Some? && !p.boundIps.value.parses then (db, Refused(InvalidInput))
    else
      var key := Key(p.name, false, ApplyScopes(p.scopes, NO_SCOPES), Some(me), CidrText(p.boundIps));
      (db.(keys := db.keys[db.next := key], next := db.next + 1), Done)
  }

  ghost predicate Administers(keys: map<Id, Key>, me: Id, target: Id)
    requires me in keys
  {
    keys[me].isMaster || target in Subtree(keys, me)
  }

  ghost function UpdateKey(db: Tables, me: Id, id: Id, p: UpdateKeyPayload): (Tables, Outcome)
    requires me in db.keys
  {
    var caller := db.keys[me];
    if !caller.isMaster && !caller.scopes.manageKeys then (db, Refused(Forbidden))
    else if id !in db.keys || !Administers(db.keys, me, id) then (db, Refused(NotFound))
    else
      var target := db.keys[id];
      if GuardMasterTarget(caller, target) != Done then (db, Refused(Forbidden))
      else if target.isMaster
              && (p.name.Some? || p.scopes.manageKeys.Some? || p.scopes.manageWebhooks.Some?
                  || p.scopes.createGroups.Some?)
        then (db, Refused(Forbidden))
      else if target.isMaster && me != id then (db, Refused(Forbidden))
      else if GuardScopeElevation(caller, p.scopes, target.scopes) != Done then (db, Refused(Forbidden))
      else if p.boundIps.Some? && !p.boundIps.value.parses then (db, Refused(InvalidInput))
      else
        var key := target.(name := GetOr(p.name, target.name),
                           boundIps := if p.boundIps.Some? then CidrText(p.boundIps) else target.boundIps,
                           scopes := ApplyScopes(p.scopes, target.scopes));
        (db.(keys := db.keys[id := key]), Done)
  }

  // ---------- Key deletion ----------

  datatype Resolution = Delete | Reassign(owner: Id)

  datatype ResolutionEntry = ResolutionEntry(entityType: EntityKind, id: Id, resolution: Resolution)

  /** The `entity_type` text of a resolution entry: two values mean something, any other names nothing. */
  datatype EntityKind = GROUP | WEBHOOK | OTHER(text: string)

  predicate NoDuplicates(entries: seq<ResolutionEntry>) {
    forall i, j :: 0 <= i < j < |entries| ==>
      (entries[i].entityType, entries[i].id) != (entries[j].entityType, entries[j].id)
  }

  ghost function ResolutionMap(entries: seq<ResolutionEntry>): map<(EntityKind, Id), Resolution> {
    if entries == [] then map[]
    else ResolutionMap(entries[..|entries| - 1])[(entries[|entries| - 1].entityType, entries[|entries| - 1].id)
                                                  := entries[|entries| - 1].resolution]
  }

  predicate OwnedBy(owner: Option<Id>, doomed: set<Id>) { owner.Some? && owner.value in doomed }

  function Tagged(kind: EntityKind, ids: set<Id>): set<(EntityKind, Id)> { set i | i in ids :: (kind, i) }

  function OwnedGroups(groups: map<Id, Group>, doomed: set<Id>): set<Id> {
    set g | g in groups && OwnedBy(groups[g].owner, doomed)
  }

  function OwnedHooks(hooks: map<Id, Hook>, doomed: set<Id>): set<Id> {
    set h | h in hooks && OwnedBy(hooks[h].owner, doomed)
  }

  /** Every group and webhook owned inside the doomed subtree. */
  function Inventory(db: Tables, doomed: set<Id>): set<(EntityKind, Id)> {
    Tagged(GROUP, OwnedGroups(db.groups, doomed)) + Tagged(WEBHOOK, OwnedHooks(db.hooks, doomed))
  }

  predicate ReassignmentsValid(keys: map<Id, Key>, doomed: set<Id>, res: map<(EntityKind, Id), Resolution>) {
    forall e :: e in res && res[e].Reassign? ==>
      ResolveOwnerAssignment(keys, Some(res[e].owner)).Ok? && res[e].owner !in doomed
  }

  ghost predicate GroupDeleted(db: Tables, doomed: set<Id>, res: map<(EntityKind, Id), Resolution>, g: Id)
    requires g in db.groups && res.Keys == Inventory(db, doomed)
  {
    OwnedBy(db.groups[g].owner, doomed) && res[(GROUP, g)].Delete?
  }

  ghost function Heir(owner: Option<Id>, doomed: set<Id>, res: map<(EntityKind, Id), Resolution>,
                      e: (EntityKind, Id)): Option<Id> {
    if OwnedBy(owner, doomed) && e in res && res[e].Reassign? then Some(res[e].owner) else owner
  }

  /** The tables after a cascade: doomed keys gone with their rows, every owned entity deleted or handed
      on as its resolution says, and what a deleted group takes with it by foreign key. */
  ghost function Cascade(db: Tables, doomed: set<Id>, res: map<(EntityKind, Id), Resolution>): Tables
    requires res.Keys == Inventory(db, doomed)
  {
    var goneGroups := set g | g in db.groups && GroupDeleted(db, doomed, res, g);
    db.(keys := db.keys - doomed,
        groups := map g | g in db.groups && g !in goneGroups ::
          db.groups[g].(owner := Heir(db.groups[g].owner, doomed, res, (GROUP, g))),
        rows := map r | r in db.rows && r.0 !in doomed && r.1 !in goneGroups :: db.rows[r],
        hooks := map h | h in db.hooks && db.hooks[h].group !in goneGroups
                         && !(OwnedBy(db.hooks[h].owner, doomed) && res[(WEBHOOK, h)].Delete?) ::
          db.hooks[h].(owner := Heir(db.hooks[h].owner, doomed, res, (WEBHOOK, h))))
  }

  /** The pre-flight check: the inventory must be resolved entry by entry, and by nothing else. */
  ghost function Preflight(db: Tables, doomed: set<Id>, entries: seq<ResolutionEntry>): (o: Outcome)
    ensures o == Done ==> ResolutionMap(entries).Keys == Inventory(db, doomed)
  {
    var inventory := Inventory(db, doomed);
    var res := ResolutionMap(entries);
    if inventory != {} && entries == [] then Refused(Unresolved)
    else if !NoDuplicates(entries) then Refused(InvalidInput)
    else if !(inventory <= res.Keys) then Refused(Unresolved)
    else if !(res.Keys <= inventory) then Refused(InvalidInput)
    else if !ReassignmentsValid(db.keys, doomed, res) then Refused(InvalidInput)
    else Done
  }

  /** From the subtree on. Nothing is written before the check is over. */
  ghost function DeleteSubtree(db: Tables, doomed: set<Id>, entries: seq<ResolutionEntry>): (Tables, Outcome) {
    var o := Preflight(db, doomed, entries);
    if o != Done then (db, o) else (Cascade(db, doomed, ResolutionMap(entries)), Done)
  }

  ghost function DeleteKey(db: Tables, me: Id, id: Id, entries: seq<ResolutionEntry>): (Tables, Outcome)
    requires me in db.keys
  {
    var caller := db.keys[me];
    if !caller.isMaster && !caller.scopes.manageKeys then (db, Refused(Forbidden))
    else if id == me then (db, Refused(Forbidden))
    else if id !in db.keys || !Administers(db.keys, me, id) then (db, Refused(NotFound))
    else if GuardMasterTarget(caller, db.keys[id]) != Done || GuardMasterImmutable(db.keys[id]) != Done
      then (db, Refused(Forbidden))
    else if me in Subtree(db.keys, id) then (db, Refused(CycleSuspected))
    else DeleteSubtree(db, Subtree(db.keys, id), entries)
  }

  // ---------- Permission rows ----------

  predicate MayAdministerAnyGroup(db: Tables, me: Id)
    requires me in db.keys
  {
    db.keys[me].isMaster
    || (db.keys[me].scopes.manageKeys && exists r :: r in db.rows && r.0 == me && db.rows[r].manage)
  }

  /** `get_or_create_group` when the name is free: a new id, owned by a non-master creator. */
  function InsertGroup(db: Tables, me: Id, name: string, groupType: string): Tables
    requires me in db.keys
  {
    db.(groups := db.groups[db.next := Group(name, groupType, ResourceOwner(me, db.keys[me]))], next := db.next + 1)
  }

  /** The row written once the group is known. A lowering is a revocation whatever route it took. */
  function WriteRow(db: Tables, me: Id, target: Id, group: Id, v: Verbs): (Tables, Outcome)
    requires me in db.keys
  {
    var mine := Row(db.rows, me, group);
    var verdict := if Widens(v, Row(db.rows, target, group)) then GuardDelegatedGrant(db.keys[me], mine, v)
                   else GuardGroupManage(db.keys[me], mine);
    if verdict != Done then (db, verdict) else (db.(rows := db.rows[(target, group) := v]), Done)
  }

  ghost function SetPermission(db: Tables, me: Id, target: Id, ident: Option<Identifier>, name: Option<string>,
                               v: Verbs): (Tables, Outcome)
    requires me in db.keys
  {
    var caller := db.keys[me];
    if !MayAdministerAnyGroup(db, me) then (db, Refused(Forbidden))
    else if target !in db.keys then (db, Refused(NotFound))
    else if db.keys[target].isMaster then (db, Refused(InvalidInput))
    else if (v.write || v.delete) && !v.read then (db, Refused(InvalidInput))
    else
      var found := FindFlexible(db.groups, ident, name);
      if found.Err? then (db, Refused(found.error))
      else if found.value.Some? then WriteRow(db, me, target, found.value.value, v)
      else if name.None? then (db, Refused(NotFound))
      else if !caller.isMaster && !caller.scopes.createGroups then (db, Refused(Forbidden))
      else WriteRow(InsertGroup(db, me, name.value, "banlist"), me, target, db.next, v)
  }

  ghost function RevokePermission(db: Tables, me: Id, target: Id, ident: Identifier): (Tables, Outcome)
    requires me in db.keys
  {
    if !MayAdministerAnyGroup(db, me) then (db, Refused(Forbidden))
    else
      var found := FindByIdentifier(db.groups, ident);
      if found.None? then (db, Refused(NotFound))
      else if Row(db.rows, target, found.value).None? then (db, Refused(NotFound))
      else
        var verdict := GuardGroupManage(db.keys[me], Row(db.rows, me, found.value));
        if verdict != Done then (db, verdict)
        else (db.(rows := db.rows - {(target, found.value)}), Done)
  }

  // ---------- Groups ----------

  const AUTO_ROW := Verbs(true, true, true, false)

  /** A non-master creator gets read, write and delete on its group, never `can_manage`. */
  function ProvisionRow(db: Tables, me: Id, group: Id): Tables
    requires me in db.keys
  {
    if db.keys[me].isMaster || (me, group) in db.rows then db
    else db.(rows := db.rows[(me, group) := AUTO_ROW])
  }

  ghost function CreateGroup(db: Tables, me: Id, name: string, groupType: Option<string>): (Tables, Outcome)
    requires me in db.keys
  {
    if !db.keys[me].isMaster && !db.keys[me].scopes.createGroups then (db, Refused(Forbidden))
    else if FindByName(db.groups, name).Some? then (db, Refused(NameTaken))
    else
      var kind := if groupType == Some("whitelist") then "whitelist" else "banlist";
      (ProvisionRow(InsertGroup(db, me, name, kind), me, db.next), Done)
  }

  /** Rows and webhooks follow their group by foreign key. */
  function DropGroup(db: Tables, g: Id): Tables {
    db.(groups := db.groups - {g},
        rows := map r | r in db.rows && r.1 != g :: db.rows[r],
        hooks := map h | h in db.hooks && db.hooks[h].group != g :: db.hooks[h])
  }

  function DeleteGroup(db: Tables, me: Id, g: Id): (Tables, Outcome)
    requires me in db.keys
  {
    if g !in db.groups then (db, Refused(NotFound))
    else if GuardLifecycle(me, db.keys[me], db.groups[g].owner) != Done then (db, Refused(Forbidden))
    else (DropGroup(db, g), Done)
  }

  function ReassignGroup(db: Tables, me: Id, g: Id, requested: Option<Id>): (Tables, Outcome)
    requires me in db.keys
  {
    if !db.keys[me].isMaster then (db, Refused(Forbidden))
    else if g !in db.groups then (db, Refused(NotFound))
    else
      var owner := ResolveOwnerAssignment(db.keys, requested);
      if owner.Err? then (db, Refused(owner.error))
      else (db.(groups := db.groups[g := db.groups[g].(owner := owner.value)]), Done)
  }

  /** The part of a ban, whitelist or batch request that touches these tables: a named group that does
      not exist yet. Only the single-record path provisions a row for its creator. */
  ghost function TouchGroup(db: Tables, me: Id, name: string, groupType: string, provisions: bool): (Tables, Outcome)
    requires me in db.keys
  {
    if FindByName(db.groups, name).Some? then (db, Done)
    else if !db.keys[me].isMaster && !db.keys[me].scopes.createGroups then (db, Refused(Forbidden))
    else
      var made := InsertGroup(db, me, name, groupType);
      (if provisions then ProvisionRow(made, me, db.next) else made, Done)
  }

  // ---------- Webhooks, as a second owned table ----------

  /** `settingsValid` is the verdict of the checks on URL, events and authentication mode. */
  function CreateHook(db: Tables, me: Id, name: string, g: Id, settingsValid: bool): (Tables, Outcome)
    requires me in db.keys
  {
    var caller := db.keys[me];
    var mine := Row(db.rows, me, g);
    if !caller.isMaster && !caller.scopes.manageWebhooks then (db, Refused(Forbidden))
    else if !caller.isMaster && !(mine.Some? && mine.value.read) then (db, Refused(Forbidden))
    else if !settingsValid then (db, Refused(InvalidInput))
    else if g !in db.groups then (db, Refused(Internal))
    else (db.(hooks := db.hooks[db.next := Hook(name, g, ResourceOwner(me, caller))], next := db.next + 1), Done)
  }

  function DeleteHook(db: Tables, me: Id, h: Id): (Tables, Outcome)
    requires me in db.keys
  {
    var caller := db.keys[me];
    if !caller.isMaster && !caller.scopes.manageWebhooks then (db, Refused(Forbidden))
    else if h !in db.hooks then (db, Refused(NotFound))
    else if !caller.isMaster && db.hooks[h].owner != Some(me) then (db, Refused(NotFound))
    else (db.(hooks := db.hooks - {h}), Done)
  }

  function ReassignHook(db: Tables, me: Id, h: Id, requested: Option<Id>): (Tables, Outcome)
    requires me in db.keys
  {
    if !db.keys[me].isMaster then (db, Refused(Forbidden))
    else if h !in db.hooks then (db, Refused(NotFound))
    else
      var owner := ResolveOwnerAssignment(db.keys, requested);
      if owner.Err? then (db, Refused(owner.error))
      else (db.(hooks := db.hooks[h := db.hooks[h].(owner := owner.value)]), Done)
  }

  // ---------- Requests and runs ----------

  datatype Request =
    | ReqCreateKey(create: CreateKeyPayload)
    | ReqUpdateKey(id: Id, update: UpdateKeyPayload)
    | ReqDeleteKey(id: Id, entries: seq<ResolutionEntry>)
    | ReqSetPermission(id: Id, ident: Option<Identifier>, groupName: Option<string>, verbs: Verbs)
    | ReqRevokePermission(id: Id, from: Identifier)
    | ReqCreateGroup(name: string, groupType: Option<string>)
    | ReqDeleteGroup(id: Id)
    | ReqReassignGroup(id: Id, owner: Option<Id>)
    | ReqTouchGroup(name: string, kind: string, provisions: bool)
    | ReqCreateHook(name: string, group: Id, settingsValid: bool)
    | ReqDeleteHook(id: Id)
    | ReqReassignHook(id: Id, owner: Option<Id>)
    | ReqOther  // reads, rotations and record writes leave these tables alone

  ghost function Handle(db: Tables, me: Id, req: Request): (Tables, Outcome)
    requires me in db.keys
  {
    match req
    case ReqCreateKey(p) => CreateKey(db, me, p)
    case ReqUpdateKey(id, p) => UpdateKey(db, me, id, p)
    case ReqDeleteKey(id, entries) => DeleteKey(db, me, id, entries)
    case ReqSetPermission(id, ident, name, v) => SetPermission(db, me, id, ident, name, v)
    case ReqRevokePermission(id, ident) => RevokePermission(db, me, id, ident)
    case ReqCreateGroup(name, kind) => CreateGroup(db, me, name, kind)
    case ReqDeleteGroup(id) => DeleteGroup(db, me, id)
    case ReqReassignGroup(id, owner) => ReassignGroup(db, me, id, owner)
    case ReqTouchGroup(name, kind, provisions) => TouchGroup(db, me, name, kind, provisions)
    case ReqCreateHook(name, g, ok) => CreateHook(db, me, name, g, ok)
    case ReqDeleteHook(id) => DeleteHook(db, me, id)
    case ReqReassignHook(id, owner) => ReassignHook(db, me, id, owner)
    case ReqOther => (db, Done)
  }

  datatype Call = Call(caller: Id, request: Request)

  /** A caller whose key is gone is turned away before any handler. */
  ghost function Next(db: Tables, c: Call): Tables {
    if c.caller in db.keys then Handle(db, c.caller, c.request).0 else db
  }

  ghost function Run(db: Tables, calls: seq<Call>): Tables
    decreases |calls|
  {
    if calls == [] then db else Run(Next(db, calls[0]), calls[1..])
  }
}
