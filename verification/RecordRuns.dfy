/** What every run of requests keeps true of the record store. */
module RecordRuns {
  import opened Common
  import opened Lineage
  import opened Guards
  import opened Rights
  import opened Addresses
  import opened Records
  import opened Batch

  datatype Op =
    | OpUpsert(me: Id, now: Time, upsert: UpsertPayload, isWhitelist: bool)
    | OpBatch(me: Id, now: Time, batch: Payload)
    | OpDelete(me: Id, now: Time, id: Id, hard: bool)
    | OpRestore(me: Id, now: Time, id: Id)
    | OpUnlink(me: Id, now: Time, target: Network, groupId: Option<Id>, groupName: Option<string>)
    | OpPurge(now: Time, days: int)
    | OpRights(call: Call)

  /** A rights request may delete groups; their memberships follow by foreign key. */
  ghost function RightsStep(st: Store, c: Call): Store {
    var after := Next(st.rights, c);
    Store(after, st.core.(members := set m | m in st.core.members
                                       && (m.1 in st.rights.groups ==> m.1 in after.groups)))
  }

  /** A caller whose key is gone changes nothing. */
  ghost function Perform(st: Store, op: Op): Store {
    match op
    case OpUpsert(me, now, p, white) => if me in st.rights.keys then Upsert(st, me, now, p, white).0 else st
    case OpBatch(me, now, p) => if me in st.rights.keys then BatchRecords(st, me, now, p).store else st
    case OpDelete(me, now, id, hard) => if me in st.rights.keys then DeleteRecord(st, me, id, hard, now).0 else st
    case OpRestore(me, now, id) => if me in st.rights.keys then RestoreRecord(st, me, id, now).0 else st
    case OpUnlink(me, _, target, id, name) =>
      if me in st.rights.keys then DeleteMembership(st, me, Normalize(target), id, name).0 else st
    case OpPurge(now, days) => st.(core := Purge(st.core, days, now).0)
    case OpRights(c) => RightsStep(st, c)
  }

  ghost function RunOps(st: Store, ops: seq<Op>): Store
    decreases |ops|
  {
    if ops == [] then st else RunOps(Perform(st, ops[0]), ops[1..])
  }

  lemma PerformKeepsForm(st: Store, op: Op)
    requires WellKept(st.core)
    ensures WellKept(Perform(st, op).core)
  {
    hide WellKept, Upsert, BatchRecords, DeleteRecord, RestoreRecord, DeleteMembership, Purge, Next;
    match op
    case OpUpsert(me, now, p, white) => if me in st.rights.keys { UpsertKeepsForm(st, me, now, p, white); }
    case OpBatch(me, now, p) => if me in st.rights.keys { BatchKeepsForm(st, me, now, p); }
    case OpDelete(me, now, id, hard) => if me in st.rights.keys { DeletionsKeepForm(st, me, id, hard, now); }
    case OpRestore(me, now, id) => if me in st.rights.keys { DeletionsKeepForm(st, me, id, false, now); }
    case OpUnlink(me, _, target, id, name) =>
      if me in st.rights.keys { MembershipRemovalKeepsForm(st, me, Normalize(target), id, name); }
    case OpPurge(now, days) => PurgeKeepsForm(st.core, days, now);
    case OpRights(c) => FewerMembersKeepForm(st.core, RightsStep(st, c).core.members);
  }

  lemma {:induction false} RunKeepsWellKept(st: Store, ops: seq<Op>)
    requires WellKept(st.core)
    ensures WellKept(RunOps(st, ops).core)
    decreases |ops|
  {
    hide WellKept, Perform;
    if ops != [] {
      PerformKeepsForm(st, ops[0]);
      RunKeepsWellKept(Perform(st, ops[0]), ops[1..]);
    }
  }

  /** Over every run from a well-kept store: no two records denote one address range, and a record's
      deleted flag, deletion time and deleter are set or unset together. */
  lemma NoTwoRecordsShareARange(st: Store, ops: seq<Op>, a: Address, b: Address)
    requires WellKept(st.core)
    requires a in RunOps(st, ops).core.records && b in RunOps(st, ops).core.records
    ensures Fits(AsNetwork(a)) && Fits(AsNetwork(b)) && (a != b ==> !SameRange(AsNetwork(a), AsNetwork(b)))
    ensures DeletionMarked(RunOps(st, ops).core.records[a])
  {
    RunKeepsWellKept(st, ops);
    NormalizeIsIdempotent(a);
    NormalizeIsIdempotent(b);
    if a != b { CanonicalAddressesAreDistinctRanges(a, b); }
  }

  // ---------- The administrative lock ----------

  /** The record at a is as it was, and in no group it was not in. */
  ghost predicate Stands(before: Core, after: Core, a: Address) {
    && a in before.records && a in after.records && after.records[a] == before.records[a]
    && forall g :: (before.records[a].id, g) in after.members ==> (before.records[a].id, g) in before.members
  }

  ghost predicate LiveLocked(c: Core, a: Address) { Locked(c, a) && !c.records[a].isDeleted }

  lemma RegisterSparesOthers(c: Core, b: Address, cause: Option<string>, now: Time, g: Id, group: Group,
                             white: bool, a: Address)
    requires WellKept(c) && a in c.records && a != b
    ensures Stands(c, RegisterCore(c, b, cause, now, g, group, white).0, a)
  {
  }

  lemma RegisterSparesLocked(st: Store, now: Time, p: UpsertPayload, white: bool, g: Id, a: Address)
    requires WellKept(st.core) && LiveLocked(st.core, a) && p.target.Some? && g in st.rights.groups
    ensures Stands(st.core, Register(st, now, p, white, g).0.core, a)
  {
    hide WellKept, RegisterCore;
    var b := Normalize(p.target.value);
    if b != a { RegisterSparesOthers(st.core, b, p.cause, now, g, st.rights.groups[g], white, a); }
  }

  lemma UpsertSparesLocked(st: Store, me: Id, now: Time, p: UpsertPayload, white: bool, a: Address)
    requires WellKept(st.core) && LiveLocked(st.core, a) && me in st.rights.keys
    ensures Stands(st.core, Upsert(st, me, now, p, white).0.core, a)
  {
    hide WellKept, Register, LiveLocked, MayWrite, Bannable, TypeMatches;
    if p.target.Some? {
      var resolved := ResolveGroup(st.rights.groups, p.groupId, p.groupName);
      if resolved.Ok? && resolved.value.Some? {
        RegisterSparesLocked(st, now, p, white, resolved.value.value, a);
      } else if resolved.Ok? && p.groupName.Some? {
        var (rights, o) := TouchGroup(st.rights, me, p.groupName.value, if white then "whitelist" else "banlist", true);
        if o == Done { RegisterSparesLocked(st.(rights := rights), now, p, white, st.rights.next, a); }
      }
    }
    LockedIsHeld(st.core, a);
  }

  lemma LockedIsHeld(c: Core, a: Address)
    requires LiveLocked(c, a)
    ensures a in c.records
  {
  }

  lemma CommitSparesLocked(st: Store, items: seq<Item>, mode: Mode, ctx: Context, a: Address)
    requires WellKept(st.core) && LiveLocked(st.core, a) && CanonicalItems(items) && Distinct(items)
    ensures Stands(st.core, Commit(st, items, mode, ctx).store.core, a)
  {
    FoldEffect(st.core, items, ctx);
    var mid := Fold(st.core, items, ctx).core;
    LoopKeeps(st.core, mid, items, ctx, a);
    hide Fold, WellKept, RowsAfter;
  }

  lemma BatchSparesLocked(st: Store, me: Id, now: Time, p: Payload, a: Address)
    requires WellKept(st.core) && LiveLocked(st.core, a) && me in st.rights.keys
    ensures Stands(st.core, BatchRecords(st, me, now, p).store.core, a)
  {
    hide WellKept, Commit, Admit, BannableAddress, Items, Distinct;
    var admitted := Admit(st.rights, me, p);
    if AllParse(p.entries) && Distinct(Items(p.entries)) && admitted.Ok? {
      var (rights, g) := admitted.value;
      ItemsAreCanonical(p.entries);
      CommitSparesLocked(st.(rights := rights), Items(p.entries), p.mode,
                         Context(me, now, g, rights.groups[g], p.skipWebhooks), a);
    }
  }

  lemma PerformSparesLocked(st: Store, op: Op, a: Address)
    requires WellKept(st.core) && LiveLocked(st.core, a)
    ensures Stands(st.core, Perform(st, op).core, a)
  {
    hide Upsert, BatchRecords, Next;
    match op
    case OpUpsert(me, now, p, white) => if me in st.rights.keys { UpsertSparesLocked(st, me, now, p, white, a); }
    case OpBatch(me, now, p) => if me in st.rights.keys { BatchSparesLocked(st, me, now, p, a); }
    case _ =>
  }

  /** A live locked record stands over every run, whoever calls, the master included: nothing updates,
      deletes, sweeps, purges or moves it. */
  lemma {:induction false} LockedRecordsStand(st: Store, ops: seq<Op>, a: Address)
    requires WellKept(st.core) && LiveLocked(st.core, a)
    ensures Stands(st.core, RunOps(st, ops).core, a)
    decreases |ops|
  {
    if ops != [] {
      PerformKeepsForm(st, ops[0]);
      PerformSparesLocked(st, ops[0], a);
      hide WellKept, Perform;
      LockedRecordsStand(Perform(st, ops[0]), ops[1..], a);
    }
  }

  /** Restore undoes a soft delete: all that remains of the two is the time of the last change. */
  lemma RestoreUndoesDelete(st: Store, me: Id, id: Id, deleted: Time, restored: Time)
    requires WellKept(st.core) && me in st.rights.keys && st.rights.keys[me].isMaster
    requires var a := FindById(st.core.records, id);
      a.Some? && !st.core.records[a.value].isLocked && !st.core.records[a.value].isDeleted
    ensures var a := FindById(st.core.records, id).value;
      var (gone, done) := DeleteRecord(st, me, id, false, deleted);
      done == Done && gone.core.records[a].isDeleted
      && RestoreRecord(gone, me, id, restored)
         == (st.(core := st.core.(records := st.core.records[a := st.core.records[a].(updatedAt := restored)])), Done)
  {
    var a := FindById(st.core.records, id).value;
    var gone := DeleteRecord(st, me, id, false, deleted).0;
    assert IdsDistinct(gone.core.records);
    RecordHeld(gone.core.records, a);
    var back := RestoreRecord(gone, me, id, restored).0;
    assert back.core.records == st.core.records[a := st.core.records[a].(updatedAt := restored)];
  }
}
