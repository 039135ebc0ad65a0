/** What the rights tables mean for the records (src/api/records.rs, src/api/guards.rs): without the verb on a
    group, nothing in it can be taken away, and nothing put into it, by any run of requests. */
module RecordRights {
  import opened Common
  import opened Lineage
  import opened Guards
  import opened Rights
  import opened RightsRuns
  import opened Addresses
  import opened Records
  import opened Batch
  import opened RecordRuns

  // ---------- One batch ----------

  /** A batch that a non-master commits into a group that exists had the caller's write on it, and its delete
      if it replaces; into a new one it had the right to make groups. */
  lemma BatchNeedsItsVerbs(st: Store, me: Id, now: Time, p: Payload)
    requires me in st.rights.keys && !st.rights.keys[me].isMaster && BatchRecords(st, me, now, p).outcome.Ok?
    requires NamesUnique(st.rights.groups)
    ensures forall g :: g in st.rights.groups && st.rights.groups[g].name == p.groupName ==>
      && (me, g) in st.rights.rows && st.rights.rows[(me, g)].write
      && (p.mode.FullReplace? ==> st.rights.rows[(me, g)].delete)
    ensures (forall g :: g in st.rights.groups ==> st.rights.groups[g].name != p.groupName) ==>
      st.rights.keys[me].scopes.createGroups
  {
    hide AllParse, Distinct, Items, BannableAddress, Commit;
  }

  // ---------- Runs by non-masters ----------

  ghost predicate NonMaster(db: Tables, me: Id) { me in db.keys ==> !db.keys[me].isMaster }

  /** The purge is the service's own. */
  ghost predicate ByNonMaster(st: Store, op: Op) {
    match op
    case OpUpsert(me, _, _, _) => NonMaster(st.rights, me)
    case OpBatch(me, _, _) => NonMaster(st.rights, me)
    case OpDelete(me, _, _, _) => NonMaster(st.rights, me)
    case OpRestore(me, _, _) => NonMaster(st.rights, me)
    case OpUnlink(me, _, _, _, _) => NonMaster(st.rights, me)
    case OpPurge(_, _) => true
    case OpRights(c) => NonMaster(st.rights, c.caller)
  }

  ghost predicate NonMasterOps(st: Store, ops: seq<Op>)
    decreases |ops|
  {
    ops == [] || (ByNonMaster(st, ops[0]) && NonMasterOps(Perform(st, ops[0]), ops[1..]))
  }

  /** The group exists, or did, and no key holds the verb on it. */
  ghost predicate Nobody(db: Tables, g: Id, verb: Verb) { g < db.next && !SomeoneHolds(db, g, verb) }

  lemma NobodyStays(db: Tables, master: Id, c: Call, g: Id, verb: Verb)
    requires WellFormed(db, master) && Nobody(db, g, verb) && NonMaster(db, c.caller)
    ensures WellFormed(Next(db, c), master) && Nobody(Next(db, c), g, verb)
  {
    StepKeepsForm(db, master, c);
    BoundedByItself(db, master);
    StepBounded(db, db, c);
    NobodyWithinBound(db, Next(db, c), g, verb);
  }

  lemma BoundedByItself(db: Tables, master: Id)
    requires WellFormed(db, master)
    ensures Bounded(db, db)
  {
    forall r | r in db.rows ensures RowBounded(db, r.1, db.rows[r]) {}
  }

  lemma NobodyWithinBound(start: Tables, db: Tables, g: Id, verb: Verb)
    requires Bounded(start, db) && Nobody(start, g, verb)
    ensures Nobody(db, g, verb)
  {
    forall r | r in db.rows && r.1 == g ensures !Holds(db.rows[r], verb) {
      assert RowBounded(start, r.1, db.rows[r]);
    }
  }

  /** The group a request makes on the way is one more request on the rights tables. */
  lemma TouchIsACall(db: Tables, me: Id, name: string, kind: string, provisions: bool)
    requires me in db.keys
    ensures TouchGroup(db, me, name, kind, provisions).0 == Next(db, Call(me, ReqTouchGroup(name, kind, provisions)))
  {
  }

  /** Whatever an operation does to the rights tables, one request by its caller does. */
  ghost predicate RightsBy(before: Tables, after: Tables, c: Call) {
    after == before || (NonMaster(before, c.caller) && after == Next(before, c))
  }

  lemma RightsOfUpsert(st: Store, me: Id, now: Time, p: UpsertPayload, white: bool) returns (c: Call)
    requires me in st.rights.keys && !st.rights.keys[me].isMaster
    ensures RightsBy(st.rights, Upsert(st, me, now, p, white).0.rights, c)
  {
    var name, kind := GetOr(p.groupName, ""), if white then "whitelist" else "banlist";
    c := Call(me, ReqTouchGroup(name, kind, true));
    TouchIsACall(st.rights, me, name, kind, true);
    hide TouchGroup, RegisterCore, Next, MayWrite, Bannable, TypeMatches, Normalize;
  }

  lemma RightsOfBatch(st: Store, me: Id, now: Time, p: Payload) returns (c: Call)
    requires me in st.rights.keys && !st.rights.keys[me].isMaster
    ensures RightsBy(st.rights, BatchRecords(st, me, now, p).store.rights, c)
  {
    c := Call(me, ReqTouchGroup(p.groupName, "banlist", false));
    TouchIsACall(st.rights, me, p.groupName, "banlist", false);
    hide TouchGroup, Fold, Swept, Next, AllParse, Distinct, Items, BannableAddress;
  }

  lemma RightsOf(st: Store, op: Op) returns (c: Call)
    requires ByNonMaster(st, op)
    ensures RightsBy(st.rights, Perform(st, op).rights, c)
  {
    c := Call(0, ReqOther);
    hide Upsert, BatchRecords, Next;
    match op
    case OpUpsert(me, now, p, white) => if me in st.rights.keys { c := RightsOfUpsert(st, me, now, p, white); }
    case OpBatch(me, now, p) => if me in st.rights.keys { c := RightsOfBatch(st, me, now, p); }
    case OpRights(call) => c := call;
    case _ =>
  }

  lemma NobodyStaysBy(st: Store, master: Id, op: Op, g: Id, verb: Verb)
    requires WellFormed(st.rights, master) && Nobody(st.rights, g, verb) && ByNonMaster(st, op)
    ensures WellFormed(Perform(st, op).rights, master) && Nobody(Perform(st, op).rights, g, verb)
  {
    hide WellFormed, Nobody, Perform, Next;
    var c := RightsOf(st, op);
    if NonMaster(st.rights, c.caller) { NobodyStays(st.rights, master, c, g, verb); }
  }

  lemma FormStaysBy(st: Store, master: Id, op: Op)
    requires WellFormed(st.rights, master) && ByNonMaster(st, op)
    ensures WellFormed(Perform(st, op).rights, master)
  {
    hide WellFormed, Perform, Next;
    var c := RightsOf(st, op);
    StepKeepsForm(st.rights, master, c);
  }

  // ---------- Without delete nothing goes ----------

  /** The request gives or takes back this address itself. */
  ghost predicate Mentions(op: Op, a: Address) {
    match op
    case OpUpsert(_, _, p, _) => p.target.Some? && Normalize(p.target.value) == a
    case OpBatch(_, _, p) =>
      exists i :: 0 <= i < |p.entries| && p.entries[i].target.Some? && Normalize(p.entries[i].target.value) == a
    case _ => false
  }

  /** Nobody may delete from any group the record is in. */
  ghost predicate OutOfReach(st: Store, a: Address) {
    a in st.core.records
    && forall g :: (st.core.records[a].id, g) in st.core.members ==> Nobody(st.rights, g, DeleteVerb)
  }

  lemma UpsertSparesOthers(st: Store, me: Id, now: Time, p: UpsertPayload, white: bool, a: Address)
    requires WellKept(st.core) && a in st.core.records && me in st.rights.keys
    requires p.target.Some? ==> Normalize(p.target.value) != a
    ensures Stands(st.core, Upsert(st, me, now, p, white).0.core, a)
  {
    hide WellKept, Register, MayWrite, Bannable, TypeMatches;
    var resolved := ResolveGroup(st.rights.groups, p.groupId, p.groupName);
    if p.target.Some? && resolved.Ok? {
      if resolved.value.Some? {
        RegisterSparesUnnamed(st, now, p, white, resolved.value.value, a);
      } else if p.groupName.Some? {
        var (rights, o) := TouchGroup(st.rights, me, p.groupName.value, if white then "whitelist" else "banlist", true);
        if o == Done { RegisterSparesUnnamed(st.(rights := rights), now, p, white, st.rights.next, a); }
      }
    }
  }

  lemma RegisterSparesUnnamed(st: Store, now: Time, p: UpsertPayload, white: bool, g: Id, a: Address)
    requires WellKept(st.core) && a in st.core.records && g in st.rights.groups
    requires p.target.Some? && Normalize(p.target.value) != a
    ensures Stands(st.core, Register(st, now, p, white, g).0.core, a)
  {
    hide WellKept, RegisterCore;
    RegisterSparesOthers(st.core, Normalize(p.target.value), p.cause, now, g, st.rights.groups[g], white, a);
  }

  lemma CommitSparesUnlisted(st: Store, items: seq<Item>, mode: Mode, ctx: Context, a: Address)
    requires WellKept(st.core) && CanonicalItems(items) && Distinct(items)
    requires a in st.core.records && a !in Listed(items) && (mode.FullReplace? ==> !Linked(st.core, a, ctx.g))
    ensures Stands(st.core, Commit(st, items, mode, ctx).store.core, a)
  {
    FoldEffect(st.core, items, ctx);
    var mid := Fold(st.core, items, ctx).core;
    LoopKeeps(st.core, mid, items, ctx, a);
    hide Fold, WellKept, Listed, RowAfter;
    assert forall h :: (st.core.records[a].id, h) in mid.members <==> (st.core.records[a].id, h) in st.core.members;
    assert mode.FullReplace? ==> a !in Swept(mid, Listed(items), ctx.g);
  }

  lemma BatchSparesOthers(st: Store, me: Id, now: Time, p: Payload, a: Address)
    requires WellKept(st.core) && OutOfReach(st, a) && me in st.rights.keys && !st.rights.keys[me].isMaster
    requires !Mentions(OpBatch(me, now, p), a)
    ensures Stands(st.core, BatchRecords(st, me, now, p).store.core, a)
  {
    hide WellKept, Commit, BannableAddress, Distinct, TouchGroup, Nobody;
    var admitted := Admit(st.rights, me, p);
    if AllParse(p.entries) && Distinct(Items(p.entries)) && admitted.Ok? {
      var (rights, g) := admitted.value;
      var items := Items(p.entries);
      ItemsAreCanonical(p.entries);
      assert a !in Listed(items) by {
        forall i | 0 <= i < |items| ensures items[i].address != a {
          assert Normalize(p.entries[i].target.value) != a;
        }
      }
      if p.mode.FullReplace? && Linked(st.core, a, g) { ReplacementReaches(st, me, p, a); }
      CommitSparesUnlisted(st.(rights := rights), items, p.mode,
                           Context(me, now, g, rights.groups[g], p.skipWebhooks), a);
    }
  }

  /** A replacement is admitted into the groups its caller may delete from, and new ones. */
  lemma ReplacementReaches(st: Store, me: Id, p: Payload, a: Address)
    requires OutOfReach(st, a) && me in st.rights.keys && !st.rights.keys[me].isMaster
    requires p.mode.FullReplace? && Admit(st.rights, me, p).Ok?
    ensures !Linked(st.core, a, Admit(st.rights, me, p).value.1)
  {
    var g := Admit(st.rights, me, p).value.1;
    assert !Nobody(st.rights, g, DeleteVerb) by {
      if FindByName(st.rights.groups, p.groupName).Some? {
        assert (me, g) in st.rights.rows && Holds(st.rights.rows[(me, g)], DeleteVerb);
      }
    }
  }

  lemma DeletionsSpare(st: Store, me: Id, id: Id, hard: bool, now: Time, a: Address)
    requires WellKept(st.core) && OutOfReach(st, a) && me in st.rights.keys && !st.rights.keys[me].isMaster
    ensures Stands(st.core, DeleteRecord(st, me, id, hard, now).0.core, a)
    ensures Stands(st.core, RestoreRecord(st, me, id, now).0.core, a)
  {
    assert id == st.core.records[a].id ==> !MayDelete(st, me, id) by {
      if MayDelete(st, me, id) {
        var g := DeleterHolds(st, me, id);
        assert !Nobody(st.rights, g, DeleteVerb);
      }
    }
    hide MayDelete, OutOfReach;
  }

  lemma DeleterHolds(st: Store, me: Id, id: Id) returns (g: Id)
    requires me in st.rights.keys && !st.rights.keys[me].isMaster && MayDelete(st, me, id)
    ensures (id, g) in st.core.members && SomeoneHolds(st.rights, g, DeleteVerb)
  {
    var m :| m in st.core.members && m.0 == id && Row(st.rights.rows, me, m.1).Some?
             && Row(st.rights.rows, me, m.1).value.delete;
    g := m.1;
    assert Holds(st.rights.rows[(me, g)], DeleteVerb);
  }

  /** Fewer memberships leave a record standing. */
  lemma UnlinksSpare(st: Store, op: Op, a: Address)
    requires a in st.core.records && !st.core.records[a].isDeleted && (op.OpUnlink? || op.OpPurge? || op.OpRights?)
    ensures Stands(st.core, Perform(st, op).core, a)
  {
    hide Next;
  }

  lemma PerformSparesOthers(st: Store, op: Op, a: Address)
    requires WellKept(st.core) && OutOfReach(st, a) && !st.core.records[a].isDeleted
    requires ByNonMaster(st, op) && !Mentions(op, a)
    ensures Stands(st.core, Perform(st, op).core, a)
  {
    hide WellKept, OutOfReach, Upsert, BatchRecords, DeleteRecord, RestoreRecord;
    assert a in st.core.records by { ReachesARecord(st, a); }
    match op
    case OpUpsert(me, now, p, white) => if me in st.rights.keys { UpsertSparesOthers(st, me, now, p, white, a); }
    case OpBatch(me, now, p) => if me in st.rights.keys { BatchSparesOthers(st, me, now, p, a); }
    case OpDelete(me, now, id, hard) => if me in st.rights.keys { DeletionsSpare(st, me, id, hard, now, a); }
    case OpRestore(me, now, id) => if me in st.rights.keys { DeletionsSpare(st, me, id, false, now, a); }
    case _ => UnlinksSpare(st, op, a);
  }

  lemma ReachesARecord(st: Store, a: Address)
    requires OutOfReach(st, a)
    ensures a in st.core.records
  {
  }

  lemma StaysOutOfReach(st: Store, master: Id, op: Op, a: Address)
    requires WellFormed(st.rights, master) && OutOfReach(st, a) && ByNonMaster(st, op)
    requires Stands(st.core, Perform(st, op).core, a)
    ensures OutOfReach(Perform(st, op), a)
  {
    var after := Perform(st, op);
    hide Perform, WellFormed, Nobody;
    forall g | (after.core.records[a].id, g) in after.core.members
      ensures Nobody(after.rights, g, DeleteVerb)
    {
      NobodyStaysBy(st, master, op, g, DeleteVerb);
    }
  }

  /** Over any run by non-masters, a live record in groups from which nobody may delete, and which no request
      registers, is as it was, and in no group it was not in: no deletion, no batch that replaces, no group
      change, no purge takes it. */
  lemma {:induction false} NothingGoesWithoutDelete(st: Store, master: Id, ops: seq<Op>, a: Address)
    requires WellKept(st.core) && WellFormed(st.rights, master) && OutOfReach(st, a)
    requires !st.core.records[a].isDeleted && NonMasterOps(st, ops)
    requires forall i :: 0 <= i < |ops| ==> !Mentions(ops[i], a)
    ensures Stands(st.core, RunOps(st, ops).core, a)
    decreases |ops|
  {
    if ops != [] {
      var next := Perform(st, ops[0]);
      PerformKeepsForm(st, ops[0]);
      FormStaysBy(st, master, ops[0]);
      PerformSparesOthers(st, ops[0], a);
      StaysOutOfReach(st, master, ops[0], a);
      hide WellKept, WellFormed, Perform, OutOfReach, ByNonMaster, Mentions;
      NothingGoesWithoutDelete(next, master, ops[1..], a);
    }
  }

  // ---------- Without write nothing joins ----------

  lemma {:induction false} FoldLinksInto(c: Core, items: seq<Item>, ctx: Context)
    ensures forall m :: m in Fold(c, items, ctx).core.members && m !in c.members ==> m.1 == ctx.g
    decreases |items|
  {
    if items != [] {
      FoldLinksInto(c, items[..|items| - 1], ctx);
      hide Fold, Locked;
      assert Fold(c, items, ctx) == EntryStep(Fold(c, items[..|items| - 1], ctx), items[|items| - 1], ctx) by {
        FoldLast(c, items[..|items| - 1], items[|items| - 1], ctx);
        assert items[..|items| - 1] + [items[|items| - 1]] == items;
      }
    }
  }

  lemma UpsertJoins(st: Store, me: Id, now: Time, p: UpsertPayload, white: bool, g: Id)
    requires me in st.rights.keys && !st.rights.keys[me].isMaster && Nobody(st.rights, g, Write)
    ensures forall m :: m in Upsert(st, me, now, p, white).0.core.members && m.1 == g ==> m in st.core.members
  {
    hide Register, Bannable, TypeMatches;
    assert MayWrite(st.rights, me, g) ==> Holds(st.rights.rows[(me, g)], Write);
    var resolved := ResolveGroup(st.rights.groups, p.groupId, p.groupName);
    if p.target.Some? && resolved.Ok? {
      if resolved.value.Some? {
        RegisterLinksInto(st, now, p, white, resolved.value.value);
      } else if p.groupName.Some? {
        var (rights, o) := TouchGroup(st.rights, me, p.groupName.value, if white then "whitelist" else "banlist", true);
        if o == Done { RegisterLinksInto(st.(rights := rights), now, p, white, st.rights.next); }
      }
    }
  }

  lemma RegisterLinksInto(st: Store, now: Time, p: UpsertPayload, white: bool, g: Id)
    requires p.target.Some? && g in st.rights.groups
    ensures forall m :: m in Register(st, now, p, white, g).0.core.members && m !in st.core.members ==> m.1 == g
  {
    hide Normalize;
  }

  lemma BatchJoins(st: Store, me: Id, now: Time, p: Payload, g: Id)
    requires me in st.rights.keys && !st.rights.keys[me].isMaster && Nobody(st.rights, g, Write)
    ensures forall m :: m in BatchRecords(st, me, now, p).store.core.members && m.1 == g ==> m in st.core.members
  {
    hide BannableAddress, Distinct, TouchGroup, Fold, Swept;
    var admitted := Admit(st.rights, me, p);
    if AllParse(p.entries) && admitted.Ok? {
      var (rights, h) := admitted.value;
      assert h != g by {
        if FindByName(st.rights.groups, p.groupName).Some? { assert Holds(st.rights.rows[(me, h)], Write); }
      }
      FoldLinksInto(st.core, Items(p.entries), Context(me, now, h, rights.groups[h], p.skipWebhooks));
    }
    hide Admit, AllParse, Items;
  }

  lemma OthersJoinNothing(st: Store, op: Op)
    requires !op.OpUpsert? && !op.OpBatch?
    ensures Perform(st, op).core.members <= st.core.members
  {
    hide Next, MayDelete;
  }

  lemma PerformJoins(st: Store, op: Op, g: Id)
    requires Nobody(st.rights, g, Write) && ByNonMaster(st, op)
    ensures forall m :: m in Perform(st, op).core.members && m.1 == g ==> m in st.core.members
  {
    hide Nobody, Upsert, BatchRecords;
    match op
    case OpUpsert(me, now, p, white) => if me in st.rights.keys { UpsertJoins(st, me, now, p, white, g); }
    case OpBatch(me, now, p) => if me in st.rights.keys { BatchJoins(st, me, now, p, g); }
    case _ => OthersJoinNothing(st, op);
  }

  /** Over any run by non-masters, a group on which nobody holds write gains no record. */
  lemma {:induction false} NothingJoinsWithoutWrite(st: Store, master: Id, ops: seq<Op>, g: Id)
    requires WellFormed(st.rights, master) && Nobody(st.rights, g, Write) && NonMasterOps(st, ops)
    ensures forall m :: m in RunOps(st, ops).core.members && m.1 == g ==> m in st.core.members
    decreases |ops|
  {
    if ops != [] {
      var next := Perform(st, ops[0]);
      NobodyStaysBy(st, master, ops[0], g, Write);
      PerformJoins(st, ops[0], g);
      hide WellFormed, Perform, Nobody, ByNonMaster;
      NothingJoinsWithoutWrite(next, master, ops[1..], g);
    }
  }

  // ---------- Memberships point to groups ----------

  ghost predicate Grouped(st: Store) { forall m :: m in st.core.members ==> m.1 in st.rights.groups }

  lemma UpsertKeepsGrouped(st: Store, me: Id, now: Time, p: UpsertPayload, white: bool)
    requires Grouped(st) && me in st.rights.keys
    ensures Grouped(Upsert(st, me, now, p, white).0)
  {
    hide Register, Bannable, TypeMatches, MayWrite;
    var resolved := ResolveGroup(st.rights.groups, p.groupId, p.groupName);
    if p.target.Some? && resolved.Ok? {
      if resolved.value.Some? {
        RegisterLinksInto(st, now, p, white, resolved.value.value);
        RegisterKeepsRights(st, now, p, white, resolved.value.value);
      } else if p.groupName.Some? {
        var (rights, o) := TouchGroup(st.rights, me, p.groupName.value, if white then "whitelist" else "banlist", true);
        if o == Done {
          RegisterLinksInto(st.(rights := rights), now, p, white, st.rights.next);
          RegisterKeepsRights(st.(rights := rights), now, p, white, st.rights.next);
        }
      }
    }
  }

  lemma RegisterKeepsRights(st: Store, now: Time, p: UpsertPayload, white: bool, g: Id)
    requires p.target.Some? && g in st.rights.groups
    ensures Register(st, now, p, white, g).0.rights == st.rights
  {
  }

  lemma BatchKeepsGrouped(st: Store, me: Id, now: Time, p: Payload)
    requires Grouped(st) && me in st.rights.keys
    ensures Grouped(BatchRecords(st, me, now, p).store)
  {
    hide BannableAddress, Distinct, Fold, Swept;
    var admitted := Admit(st.rights, me, p);
    if AllParse(p.entries) && admitted.Ok? {
      var (rights, g) := admitted.value;
      assert forall h :: h in st.rights.groups ==> h in rights.groups;
      FoldLinksInto(st.core, Items(p.entries), Context(me, now, g, rights.groups[g], p.skipWebhooks));
    }
    hide Admit, AllParse, Items;
  }

  lemma PerformKeepsGrouped(st: Store, op: Op)
    requires Grouped(st)
    ensures Grouped(Perform(st, op))
  {
    hide Upsert, BatchRecords, Next;
    match op
    case OpUpsert(me, now, p, white) => if me in st.rights.keys { UpsertKeepsGrouped(st, me, now, p, white); }
    case OpBatch(me, now, p) => if me in st.rights.keys { BatchKeepsGrouped(st, me, now, p); }
    case OpRights(_) =>
    case _ => OthersJoinNothing(st, op);
  }

  /** Over every run, by any callers, each membership is of a group that exists. */
  lemma {:induction false} MembershipsHaveGroups(st: Store, ops: seq<Op>)
    requires Grouped(st)
    ensures Grouped(RunOps(st, ops))
    decreases |ops|
  {
    hide Grouped, Perform;
    if ops != [] {
      PerformKeepsGrouped(st, ops[0]);
      MembershipsHaveGroups(Perform(st, ops[0]), ops[1..]);
    }
  }

  // ---------- Registering a record can expose it ----------

  const SHIELDED := Group("shielded", "whitelist", None)
  const OPEN := Group("open", "whitelist", None)

  /** Key 2 may write in both groups and delete in the second; the record is in the first alone. */
  function ToyRights(): Tables {
    Tables(map[1 := Key("master", true, NO_SCOPES, None, None), 2 := Key("writer", false, NO_SCOPES, Some(1), None)],
           map[3 := SHIELDED, 4 := OPEN],
           map[(2, 3) := Verbs(true, true, false, false), (2, 4) := Verbs(true, true, true, false)], map[], 6)
  }

  const TOY_HOST: Address := Host(V4, 1)

  function ToyStore(): Store {
    Store(ToyRights(), Core(map[TOY_HOST := Record(5, None, false, 0, 0, 0, false, None, None)], {(5, 3)}, 6))
  }

  function Exposure(): seq<Op> {
    [OpUpsert(2, 1, UpsertPayload(Some(Network(V4, 1, 32)), Some(4), None, None), true),
     OpBatch(2, 2, Payload("open", FullReplace, [], false))]
  }

  lemma ToyUpsert()
    ensures var after := Perform(ToyStore(), Exposure()[0]);
      && after.rights == ToyRights()
      && after.core == Core(map[TOY_HOST := Record(5, None, false, 0, 1, 1, false, None, None)], {(5, 3), (5, 4)}, 6)
  {
    assert Normalize(Network(V4, 1, 32)) == TOY_HOST;
  }

  lemma ToySweep(st: Store)
    requires st.rights == ToyRights() && 5 < st.core.next && st.core.records.Keys == {TOY_HOST}
    requires var r := st.core.records[TOY_HOST]; r.id == 5 && !r.isLocked && (5, 4) in st.core.members
    ensures var after := Perform(st, Exposure()[1]).core; TOY_HOST in after.records && after.records[TOY_HOST].isDeleted
  {
    var p := Payload("open", FullReplace, [], false);
    var ctx := Context(2, 2, 4, OPEN, false);
    assert FindByName(st.rights.groups, "open") == Some(4) by { assert st.rights.groups[4].name == "open"; }
    assert (2, 4) in st.rights.rows && Row(st.rights.rows, 2, 4) == Some(Verbs(true, true, true, false));
    assert Admit(st.rights, 2, p) == Ok((st.rights, 4)) && Items(p.entries) == [];
    assert BatchRecords(st, 2, 2, p) == Commit(st, [], FullReplace, ctx) by {
      hide Commit, Admit, BannableAddress;
      assert st.(rights := st.rights) == st;
    }
    assert Fold(st.core, [], ctx).core == st.core && Listed([]) == {};
  }

  lemma ToyForm()
    ensures WellFormed(ToyRights(), 1)
  {
    assert Ranked(ToyRights().keys, map[1 := 0, 2 := 1]);
  }

  lemma ToyRecords()
    ensures WellKept(ToyStore().core)
  {
    assert Normalize(Network(V4, 1, 32)) == TOY_HOST && Canonical(TOY_HOST);
    assert TOY_HOST in ToyStore().core.records;
  }

  lemma ToyReach()
    ensures OutOfReach(ToyStore(), TOY_HOST)
  {
    hide WellFormed;
    var db := ToyRights();
    assert forall r :: r in db.rows && r.1 == 3 ==> r == (2, 3);
    assert Nobody(db, 3, DeleteVerb);
  }

  /** So the registration has to be left out: a key that may write in a second group from which it may delete
      first registers the record there, and then replaces that group by nothing. No batch lists it. */
  lemma RegistrationExposes()
    ensures WellFormed(ToyRights(), 1) && WellKept(ToyStore().core) && OutOfReach(ToyStore(), TOY_HOST)
    ensures NonMasterOps(ToyStore(), Exposure()) && !Mentions(Exposure()[1], TOY_HOST)
    ensures var end := RunOps(ToyStore(), Exposure()).core;
      TOY_HOST in end.records && end.records[TOY_HOST].isDeleted
  {
    ToyForm();
    ToyRecords();
    ToyReach();
    ToyUpsert();
    hide WellFormed, WellKept, OutOfReach;
    var next := Perform(ToyStore(), Exposure()[0]);
    assert Exposure()[1..] == [Exposure()[1]] && [Exposure()[1]][1..] == [];
    ToySweep(next);
    hide Perform;
    assert RunOps(ToyStore(), Exposure()) == RunOps(next, [Exposure()[1]]);
    assert RunOps(next, [Exposure()[1]]) == RunOps(Perform(next, Exposure()[1]), []);
  }
}
