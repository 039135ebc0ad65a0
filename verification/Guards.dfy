/** The permission decisions of src/api/guards.rs over key and permission values. */
module Guards {
  import opened Common
  import opened Lineage

  /** One key's row on one group. */
  datatype Verbs = Verbs(read: bool, write: bool, delete: bool, manage: bool)

  datatype Refusal =
    | Forbidden
    | NotFound
    | InvalidInput
    | NameTaken            // 409: a group of that name exists
    | CycleSuspected       // 409: the caller sits below the key it deletes
    | Unresolved           // 409 with the inventory
    | Internal

  datatype Outcome = Done | Refused(why: Refusal)

  /** R2: both halves, or the master. */
  predicate Manages(caller: Key, perm: Option<Verbs>) {
    caller.isMaster || (caller.scopes.manageKeys && perm.Some? && perm.value.manage)
  }

  function GuardGroupManage(caller: Key, perm: Option<Verbs>): Outcome {
    if Manages(caller, perm) then Done else Refused(Forbidden)
  }

  /** Some verb is requested that is not held. */
  predicate Exceeds(requested: Verbs, held: Verbs) {
    || (requested.read && !held.read)
    || (requested.write && !held.write)
    || (requested.delete && !held.delete)
    || (requested.manage && !held.manage)
  }

  /** Creating a row is a grant whatever it holds. */
  predicate Widens(requested: Verbs, target: Option<Verbs>) {
    target.None? || Exceeds(requested, target.value)
  }

  function GuardDelegatedGrant(caller: Key, perm: Option<Verbs>, requested: Verbs): Outcome {
    if !Manages(caller, perm) then Refused(Forbidden)
    else if caller.isMaster then Done
    else if perm.None? then Refused(Forbidden)
    else if Exceeds(requested, perm.value) then Refused(Forbidden)
    else Done
  }

  /** A partial update of the global scopes. */
  datatype ScopeChange = ScopeChange(manageKeys: Option<bool>, createGroups: Option<bool>, manageWebhooks: Option<bool>)

  predicate Raises(requested: Option<bool>, held: bool) { requested == Some(true) && !held }

  function GuardScopeElevation(caller: Key, c: ScopeChange, held: Scopes): Outcome {
    if caller.isMaster then Done
    else if Raises(c.manageKeys, held.manageKeys) || Raises(c.createGroups, held.createGroups)
            || Raises(c.manageWebhooks, held.manageWebhooks) then Refused(Forbidden)
    else Done
  }

  function ApplyScopes(c: ScopeChange, held: Scopes): Scopes {
    Scopes(GetOr(c.manageKeys, held.manageKeys), GetOr(c.createGroups, held.createGroups),
           GetOr(c.manageWebhooks, held.manageWebhooks))
  }

  predicate ScopesWithin(s: Scopes, bound: Scopes) {
    && (s.manageKeys ==> bound.manageKeys)
    && (s.createGroups ==> bound.createGroups)
    && (s.manageWebhooks ==> bound.manageWebhooks)
  }

  /** A change the guard lets a non-master make never raises a scope. */
  lemma ElevationGuardIsTight(caller: Key, c: ScopeChange, held: Scopes)
    requires !caller.isMaster
    ensures GuardScopeElevation(caller, c, held) == Done <==> ScopesWithin(ApplyScopes(c, held), held)
  {
  }

  /** A grant the guard lets a non-master make is within its own row, and a manager may always confer
      what it holds. */
  lemma GrantGuardIsTight(caller: Key, perm: Option<Verbs>, requested: Verbs)
    requires !caller.isMaster
    ensures GuardDelegatedGrant(caller, perm, requested) == Done
       <==> perm.Some? && Manages(caller, perm) && !Exceeds(requested, perm.value)
  {
  }

  /** Master-created resources are unowned. */
  function ResourceOwner(me: Id, caller: Key): Option<Id> {
    if caller.isMaster then None else Some(me)
  }

  function GuardLifecycle(me: Id, caller: Key, owner: Option<Id>): Outcome {
    if caller.isMaster || owner == Some(me) then Done else Refused(Forbidden)
  }

  function ResolveOwnerAssignment(keys: map<Id, Key>, requested: Option<Id>): Result<Option<Id>, Refusal> {
    if requested.None? then Ok(None)
    else if requested.value !in keys then Err(InvalidInput)
    else if keys[requested.value].isMaster then Err(InvalidInput)
    else Ok(requested)
  }

  function GuardMasterTarget(caller: Key, target: Key): Outcome {
    if target.isMaster && !caller.isMaster then Refused(Forbidden) else Done
  }

  function GuardMasterImmutable(target: Key): Outcome {
    if target.isMaster then Refused(Forbidden) else Done
  }
}
