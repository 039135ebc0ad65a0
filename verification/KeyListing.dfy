/** The three visibility scopes of `GET /keys` (src/api/keys.rs): what a caller sees, and that nothing
    else can reach it. */
module KeyListing {
  import opened Common
  import opened Lineage
  import opened Guards
  import opened Rights

  datatype Permission = Permission(group: Id, groupName: string, verbs: Verbs)

  /** Everything about a key but its secrets, or the minimal form. */
  datatype Summary =
    | Full(id: Id, key: Key, permissions: set<Permission>)
    | Minimal(id: Id, name: string, permissions: set<Permission>)

  /** One key's rows, all of them or those on some groups. */
  function KeyPermissions(db: Tables, k: Id, only: Option<set<Id>>): set<Permission> {
    set r | r in db.rows && r.0 == k && r.1 in db.groups && (only.Some? ==> r.1 in only.value) ::
      Permission(r.1, db.groups[r.1].name, db.rows[r])
  }

  function FullSummary(db: Tables, k: Id): Summary
    requires k in db.keys
  {
    Full(k, db.keys[k], KeyPermissions(db, k, None))
  }

  function MinimalSummary(db: Tables, k: Id, managed: set<Id>): Summary
    requires k in db.keys
  {
    Minimal(k, db.keys[k].name, KeyPermissions(db, k, Some(managed)))
  }

  function ManagedGroups(db: Tables, me: Id): set<Id>
    requires me in db.keys
  {
    if !db.keys[me].scopes.manageKeys then {} else set r | r in db.rows && r.0 == me && db.rows[r].manage :: r.1
  }

  /** A key outside the subtree that shares a managed group. */
  ghost predicate Shares(db: Tables, managed: set<Id>, subtree: set<Id>, k: Id) {
    k !in subtree && exists g :: g in managed && (k, g) in db.rows
  }

  ghost function Listing(db: Tables, me: Id): Result<set<Summary>, Refusal>
    requires me in db.keys
  {
    if !db.keys[me].isMaster && !db.keys[me].scopes.manageKeys then Err(Forbidden)
    else if db.keys[me].isMaster then Ok(set k | k in db.keys :: FullSummary(db, k))
    else
      var subtree := Subtree(db.keys, me);
      var managed := ManagedGroups(db, me);
      Ok((set k | k in db.keys && k in subtree :: FullSummary(db, k))
         + (set k | k in db.keys && Shares(db, managed, subtree, k) :: MinimalSummary(db, k, managed)))
  }

  // ---------- Non-interference ----------

  ghost predicate SameRow(d: Tables, e: Tables, r: (Id, Id)) {
    && (r in d.rows <==> r in e.rows)
    && (r in d.rows ==> d.rows[r] == e.rows[r])
    && (r in d.rows ==> (r.1 in d.groups <==> r.1 in e.groups))
    && (r in d.rows && r.1 in d.groups && r.1 in e.groups ==> d.groups[r.1].name == e.groups[r.1].name)
  }

  /** The two databases agree on the caller's subtree (its keys, their rows and the names of the groups in
      them) and, for the groups the caller manages, on the rows and on their holders' ids and names. They
      may differ in everything else. */
  ghost predicate SameView(d: Tables, e: Tables, me: Id)
    requires me in d.keys && me in e.keys
  {
    var s := Subtree(d.keys, me);
    && s == Subtree(e.keys, me)
    && (forall k :: k in s ==> (k in d.keys <==> k in e.keys))
    && (forall k :: k in s && k in d.keys && k in e.keys ==> d.keys[k] == e.keys[k])
    && (forall r: (Id, Id) :: r.0 in s ==> SameRow(d, e, r))
    && (forall r: (Id, Id) :: r.1 in ManagedGroups(d, me) ==> SameRow(d, e, r))
    && (forall r :: r in d.rows && r.1 in ManagedGroups(d, me) ==>
          (r.0 in d.keys <==> r.0 in e.keys)
          && (r.0 in d.keys && r.0 in e.keys ==> d.keys[r.0].name == e.keys[r.0].name))
  }

  lemma SamePermissions(d: Tables, e: Tables, k: Id, only: Option<set<Id>>)
    requires forall g :: (only.Some? ==> g in only.value) ==> SameRow(d, e, (k, g))
    ensures KeyPermissions(d, k, only) == KeyPermissions(e, k, only)
  {
    forall p | p in KeyPermissions(d, k, only)
      ensures p in KeyPermissions(e, k, only)
    {
      assert SameRow(d, e, (k, p.group));
      assert (k, p.group) in e.rows;
    }
    forall p | p in KeyPermissions(e, k, only)
      ensures p in KeyPermissions(d, k, only)
    {
      assert SameRow(d, e, (k, p.group));
      assert (k, p.group) in d.rows;
    }
  }

  lemma SameManaged(d: Tables, e: Tables, me: Id)
    requires me in d.keys && me in e.keys && d.keys[me] == e.keys[me]
    requires forall r: (Id, Id) :: r.0 == me ==> SameRow(d, e, r)
    ensures ManagedGroups(d, me) == ManagedGroups(e, me)
  {
    forall g ensures g in ManagedGroups(d, me) <==> g in ManagedGroups(e, me) {
      assert SameRow(d, e, (me, g));
      if g in ManagedGroups(d, me) { assert (me, g) in e.rows; }
      if g in ManagedGroups(e, me) { assert (me, g) in d.rows; }
    }
  }

  lemma SameSharers(d: Tables, e: Tables, me: Id, managed: set<Id>, subtree: set<Id>, k: Id)
    requires forall r: (Id, Id) :: r.1 in managed ==> SameRow(d, e, r)
    ensures Shares(d, managed, subtree, k) <==> Shares(e, managed, subtree, k)
  {
    forall g | g in managed ensures (k, g) in d.rows <==> (k, g) in e.rows { assert SameRow(d, e, (k, g)); }
  }

  lemma SharedListed(d: Tables, e: Tables, me: Id, k: Id)
    requires me in d.keys && me in e.keys && SameView(d, e, me)
    requires k in d.keys && Shares(d, ManagedGroups(d, me), Subtree(d.keys, me), k)
    ensures k in e.keys
    ensures MinimalSummary(d, k, ManagedGroups(d, me)) == MinimalSummary(e, k, ManagedGroups(d, me))
  {
    var managed := ManagedGroups(d, me);
    var g :| g in managed && (k, g) in d.rows;
    assert (k, g).1 in managed;
    forall h | h in managed ensures SameRow(d, e, (k, h)) {}
    SamePermissions(d, e, k, Some(managed));
  }

  /** A key manager's listing is a function of its view: no other key, row, group or scope can reach it. */
  lemma ListingIsDeterminedByView(d: Tables, e: Tables, me: Id)
    requires me in d.keys && me in e.keys && SameView(d, e, me)
    requires !d.keys[me].isMaster
    ensures Listing(d, me) == Listing(e, me)
  {
    var s := Subtree(d.keys, me);
    assert d.keys[me] == e.keys[me];
    SameManaged(d, e, me);
    var managed := ManagedGroups(d, me);
    var full := (t: Tables) => set k | k in t.keys && k in s :: FullSummary(t, k);
    forall k | k in s && k in d.keys
      ensures FullSummary(d, k) == FullSummary(e, k)
    {
      forall g ensures SameRow(d, e, (k, g)) { assert (k, g).0 in s; }
      SamePermissions(d, e, k, None);
    }
    assert full(d) == full(e);
    forall k
      ensures Shares(d, managed, s, k) <==> Shares(e, managed, s, k)
    {
      SameSharers(d, e, me, managed, s, k);
    }
    forall k | Shares(d, managed, s, k)
      ensures k in d.keys <==> k in e.keys
    {
      var g :| g in managed && (k, g) in d.rows;
      assert (k, g).1 in managed;
    }
    forall k | k in d.keys && Shares(d, managed, s, k)
      ensures MinimalSummary(d, k, managed) == MinimalSummary(e, k, managed)
    {
      SharedListed(d, e, me, k);
    }
    assert (set k | k in d.keys && Shares(d, managed, s, k) :: MinimalSummary(d, k, managed))
        == (set k | k in e.keys && Shares(e, managed, s, k) :: MinimalSummary(e, k, managed));
  }

  // ---------- Who is listed ----------

  /** The permissions are the key's rows, under the names of their groups. */
  ghost predicate ShowsRows(db: Tables, k: Id, permissions: set<Permission>, managedBy: Option<Id>) {
    forall p :: p in permissions <==>
      && (k, p.group) in db.rows && p.verbs == db.rows[(k, p.group)]
      && p.group in db.groups && p.groupName == db.groups[p.group].name
      && (managedBy.Some? ==> (managedBy.value, p.group) in db.rows && db.rows[(managedBy.value, p.group)].manage)
  }

  /** The master and key managers get a listing. It shows a key in full exactly when the caller is the master or
      above it, and by id, name and the rows on the caller's managed groups exactly when it is not but has a row
      on one of those. */
  lemma WhoIsListed(db: Tables, me: Id, k: Id)
    requires me in db.keys && k in db.keys
    ensures Listing(db, me).Ok? <==> db.keys[me].isMaster || db.keys[me].scopes.manageKeys
    ensures Listing(db, me).Ok? ==>
      forall permissions :: Full(k, db.keys[k], permissions) in Listing(db, me).value <==>
        (db.keys[me].isMaster || Descends(db.keys, me, k)) && ShowsRows(db, k, permissions, None)
    ensures Listing(db, me).Ok? ==>
      forall permissions :: Minimal(k, db.keys[k].name, permissions) in Listing(db, me).value <==>
        && !db.keys[me].isMaster && !Descends(db.keys, me, k) && ShowsRows(db, k, permissions, Some(me))
        && exists g :: (me, g) in db.rows && db.rows[(me, g)].manage && (k, g) in db.rows
  {
    SubtreeIsDescendants(db.keys, me, k);
    if Listing(db, me).Ok? {
      forall permissions ensures ShowsRows(db, k, permissions, None) <==> permissions == KeyPermissions(db, k, None) {
        RowsShown(db, k, permissions, None, None);
      }
      if !db.keys[me].isMaster {
        var managed := ManagedGroups(db, me);
        forall permissions
          ensures ShowsRows(db, k, permissions, Some(me)) <==> permissions == KeyPermissions(db, k, Some(managed))
        {
          RowsShown(db, k, permissions, Some(me), Some(managed));
        }
        assert forall g :: g in managed <==> (me, g) in db.rows && db.rows[(me, g)].manage;
      }
    }
    hide Subtree, Descends, KeyPermissions, ShowsRows, ManagedGroups;
  }

  lemma RowsShown(db: Tables, k: Id, permissions: set<Permission>, managedBy: Option<Id>, only: Option<set<Id>>)
    requires managedBy.Some? <==> only.Some?
    requires only.Some? ==> forall g :: g in only.value <==>
      (managedBy.value, g) in db.rows && db.rows[(managedBy.value, g)].manage
    ensures ShowsRows(db, k, permissions, managedBy) <==> permissions == KeyPermissions(db, k, only)
  {
    var shown := KeyPermissions(db, k, only);
    assert ShowsRows(db, k, shown, managedBy) by {
      forall p: Permission
        ensures p in shown <==>
          && (k, p.group) in db.rows && p.verbs == db.rows[(k, p.group)]
          && p.group in db.groups && p.groupName == db.groups[p.group].name
          && (managedBy.Some? ==> (managedBy.value, p.group) in db.rows && db.rows[(managedBy.value, p.group)].manage)
      {
        if (k, p.group) in db.rows && p.group in db.groups { assert (k, p.group).0 == k && (k, p.group).1 == p.group; }
      }
    }
    hide KeyPermissions;
    if ShowsRows(db, k, permissions, managedBy) {
      forall p ensures p in permissions <==> p in shown {}
    }
  }

  // ---------- The handler ----------

  ghost predicate Distinct(summaries: seq<Summary>) {
    forall i, j :: 0 <= i < j < |summaries| ==> summaries[i].id != summaries[j].id
  }

  ghost function Elements<T>(s: seq<T>): set<T> { set x | x in s }

  ghost function Ids(s: seq<Summary>): set<Id> { set x | x in s :: x.id }

  lemma AppendSummary(s: seq<Summary>, x: Summary)
    requires Distinct(s) && x.id !in Ids(s)
    ensures Distinct(s + [x]) && Ids(s + [x]) == Ids(s) + {x.id} && Elements(s + [x]) == Elements(s) + {x}
  {
    forall i | 0 <= i < |s| ensures s[i].id != x.id { assert s[i] in s; }
    assert forall y :: y in s + [x] <==> y in s || y == x;
    forall i ensures i in Ids(s + [x]) <==> i in Ids(s) + {x.id} {
      if i == x.id { assert x in s + [x]; }
      if i in Ids(s) { var y :| y in s && y.id == i; assert y in s + [x]; }
    }
  }

  /** Every listed key in the full form. */
  method FullSummaries(db: Tables, ids: set<Id>) returns (summaries: seq<Summary>)
    ensures Elements(summaries) == set k | k in db.keys && k in ids :: FullSummary(db, k)
    ensures Distinct(summaries) && Ids(summaries) == set k | k in db.keys && k in ids
  {
    summaries := [];
    var left := ids;
    while left != {}
      invariant left <= ids
      invariant Elements(summaries) == set k | k in db.keys && k in ids - left :: FullSummary(db, k)
      invariant Distinct(summaries) && Ids(summaries) == set k | k in db.keys && k in ids - left
      decreases left
    {
      var id :| id in left;
      if id in db.keys {
        AppendSummary(summaries, FullSummary(db, id));
        summaries := summaries + [FullSummary(db, id)];
      }
      left := left - {id};
    }
  }

  /** Who holds a row on a managed group, once per row, so possibly with repetitions. */
  method SharedHolders(db: Tables, managed: set<Id>, subtree: set<Id>) returns (shared: seq<Id>)
    ensures forall k :: k in shared <==> Shares(db, managed, subtree, k)
  {
    shared := [];
    var left := set r | r in db.rows && r.1 in managed;
    ghost var all := left;
    while left != {}
      invariant left <= all
      invariant forall k :: k in shared <==> k !in subtree && exists r :: r in all - left && r.0 == k
      decreases left
    {
      var r :| r in left;
      ghost var shared0, left0 := shared, left;
      if r.0 !in subtree { shared := shared + [r.0]; }
      left := left - {r};
      forall k
        ensures k in shared <==> k !in subtree && exists q :: q in all - left && q.0 == k
      {
        assert all - left == all - left0 + {r};
        if k in shared && k !in shared0 { assert r in all - left && r.0 == k; }
        if k in shared0 { var q :| q in all - left0 && q.0 == k; assert q in all - left; }
      }
    }
    forall k
      ensures k in shared <==> Shares(db, managed, subtree, k)
    {
      if Shares(db, managed, subtree, k) {
        var g :| g in managed && (k, g) in db.rows;
        assert (k, g) in all - left;
      }
    }
  }

  method ListApiKeys(db: Tables, me: Id) returns (r: Result<seq<Summary>, Refusal>)
    requires me in db.keys
    ensures r.Err? ==> Listing(db, me) == Err(r.error)
    ensures r.Ok? ==> Listing(db, me) == Ok(Elements(r.value)) && Distinct(r.value)
  {
    var caller := db.keys[me];
    if !caller.isMaster && !caller.scopes.manageKeys { return Err(Forbidden); }
    if caller.isMaster {
      var everyKey := FullSummaries(db, db.keys.Keys);
      assert Elements(everyKey) == set k | k in db.keys :: FullSummary(db, k);
      return Ok(everyKey);
    }
    var subtree := CollectKeySubtree(db.keys, me);
    var managed := ManagedGroups(db, me);
    var shared := SharedHolders(db, managed, subtree);
    var summaries := FullSummaries(db, subtree);
    summaries := AppendShared(db, summaries, subtree, managed, shared);
    assert (set k | k in db.keys && k in shared :: MinimalSummary(db, k, managed))
        == (set k | k in db.keys && Shares(db, managed, subtree, k) :: MinimalSummary(db, k, managed));
    return Ok(summaries);
  }

  /** The second half of the listing: each shared holder once, in the minimal form. */
  method AppendShared(db: Tables, full: seq<Summary>, subtree: set<Id>, managed: set<Id>, shared: seq<Id>)
    returns (summaries: seq<Summary>)
    requires Distinct(full) && Ids(full) == set k | k in db.keys && k in subtree
    requires forall k :: k in shared ==> k !in subtree
    ensures Distinct(summaries)
    ensures Elements(summaries)
         == Elements(full) + set k | k in db.keys && k in shared :: MinimalSummary(db, k, managed)
  {
    hide MinimalSummary;
    summaries := full;
    var seen := set s | s in summaries :: s.id;
    for i := 0 to |shared|
      invariant Distinct(summaries) && Ids(summaries) <= seen
      invariant forall k :: k in seen <==> (k in db.keys && k in subtree) || k in shared[..i]
      invariant Elements(summaries)
             == Elements(full) + set k | k in db.keys && k in shared[..i] :: MinimalSummary(db, k, managed)
    {
      var id := shared[i];
      assert shared[..i + 1] == shared[..i] + [id] && id in shared;
      if id !in seen {
        seen := seen + {id};
        if id in db.keys {
          MinimalId(db, id, managed);
          AppendSummary(summaries, MinimalSummary(db, id, managed));
          summaries := summaries + [MinimalSummary(db, id, managed)];
        }
      }
    }
    assert shared[..|shared|] == shared;
  }

  lemma MinimalId(db: Tables, k: Id, managed: set<Id>)
    requires k in db.keys
    ensures MinimalSummary(db, k, managed).id == k
  {
  }
}
