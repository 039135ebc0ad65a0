/** Key lineage: `parent_key_id` as a graph, subtrees, and what makes the graph a forest
    (src/api/keys.rs, src/entities/api_key.rs). */
module Lineage {
  import opened Common

  type Id = nat

  /** The three global scopes, all of them master-only grants. */
  datatype Scopes = Scopes(manageKeys: bool, createGroups: bool, manageWebhooks: bool)

  datatype Key = Key(name: string, isMaster: bool, scopes: Scopes, parent: Option<Id>, boundIps: Option<string>)

  /** The key met after n steps up from x, if the chain gets that far. Lineage is untrusted: a chain may
      leave the table or go round a cycle. */
  ghost function Ancestor(keys: map<Id, Key>, x: Id, n: nat): Option<Id>
    decreases n
  {
    if n == 0 then Some(x)
    else if x in keys && keys[x].parent.Some? then Ancestor(keys, keys[x].parent.value, n - 1)
    else None
  }

  ghost predicate Descends(keys: map<Id, Key>, root: Id, x: Id) {
    exists n: nat :: Ancestor(keys, x, n) == Some(root)
  }

  /** The root and everything below it. The root counts even when no such key exists. */
  ghost function Subtree(keys: map<Id, Key>, root: Id): set<Id> {
    {root} + set x | x in keys && Descends(keys, root, x)
  }

  lemma SubtreeIsDescendants(keys: map<Id, Key>, root: Id, x: Id)
    ensures x in Subtree(keys, root) <==> Descends(keys, root, x)
  {
    assert Ancestor(keys, root, 0) == Some(root);
    if Descends(keys, root, x) {
      var n: nat :| Ancestor(keys, x, n) == Some(root);
      assert n > 0 ==> x in keys;
    }
  }

  lemma ChildDescends(keys: map<Id, Key>, root: Id, p: Id, k: Id)
    requires k in keys && keys[k].parent == Some(p) && p in Subtree(keys, root)
    ensures k in Subtree(keys, root)
  {
    SubtreeIsDescendants(keys, root, p);
    var n: nat :| Ancestor(keys, p, n) == Some(root);
    assert Ancestor(keys, k, n + 1) == Some(root);
  }

  ghost predicate ClosedDownwards(keys: map<Id, Key>, s: set<Id>) {
    forall k :: k in keys && keys[k].parent.Some? && keys[k].parent.value in s ==> k in s
  }

  lemma {:induction false} ClosedHoldsDescendant(keys: map<Id, Key>, s: set<Id>, root: Id, x: Id, n: nat)
    requires root in s && ClosedDownwards(keys, s)
    requires Ancestor(keys, x, n) == Some(root)
    ensures x in s
    decreases n
  {
    if n > 0 { ClosedHoldsDescendant(keys, s, root, keys[x].parent.value, n - 1); }
  }

  /** The subtree is the least set that holds the root and is closed under children. */
  lemma SubtreeIsLeastClosed(keys: map<Id, Key>, s: set<Id>, root: Id)
    requires root in s && ClosedDownwards(keys, s)
    ensures ClosedDownwards(keys, Subtree(keys, root)) && Subtree(keys, root) <= s
  {
    forall k | k in keys && keys[k].parent.Some? && keys[k].parent.value in Subtree(keys, root)
      ensures k in Subtree(keys, root)
    {
      ChildDescends(keys, root, keys[k].parent.value, k);
    }
    forall x | x in keys && Descends(keys, root, x)
      ensures x in s
    {
      var n: nat :| Ancestor(keys, x, n) == Some(root);
      ClosedHoldsDescendant(keys, s, root, x, n);
    }
  }

  /** Breadth-first walk with a visited set, one level at a time. It ends on every parent graph, cycles
      included, because a level that finds nobody new is the last. */
  method CollectKeySubtree(keys: map<Id, Key>, root: Id) returns (visited: set<Id>)
    ensures visited == Subtree(keys, root)
    ensures forall x :: x in visited <==> Descends(keys, root, x)
  {
    visited := {root};
    var frontier := {root};
    while frontier != {}
      invariant root in visited && frontier <= visited <= Subtree(keys, root)
      invariant forall k :: k in keys && keys[k].parent.Some? && keys[k].parent.value in visited - frontier
                            ==> k in visited
      decreases Subtree(keys, root) - visited, frontier
    {
      var children := set k | k in keys && keys[k].parent.Some? && keys[k].parent.value in frontier;
      forall k | k in children
        ensures k in Subtree(keys, root)
      {
        ChildDescends(keys, root, keys[k].parent.value, k);
      }
      var found := children - visited;
      if found != {} { var k :| k in found; assert k in Subtree(keys, root) - visited; }
      visited := visited + found;
      frontier := found;
    }
    SubtreeIsLeastClosed(keys, visited, root);
    forall x { SubtreeIsDescendants(keys, root, x); }
  }

  // ---------- Forests ----------

  ghost predicate Ranked(keys: map<Id, Key>, rank: map<Id, nat>) {
    forall k :: k in keys ==>
      && k in rank
      && (keys[k].parent.Some? ==>
            var p := keys[k].parent.value; p in keys && p in rank && rank[p] < rank[k])
  }

  /** Every parent link points to a living key of lower rank. */
  ghost predicate Forest(keys: map<Id, Key>) { exists rank :: Ranked(keys, rank) }

  lemma {:induction false} AncestorRanksLower(keys: map<Id, Key>, rank: map<Id, nat>, x: Id, n: nat)
    requires Ranked(keys, rank) && x in keys && n > 0 && Ancestor(keys, x, n).Some?
    ensures var a := Ancestor(keys, x, n).value; a in keys && rank[a] < rank[x]
    decreases n
  {
    if n > 1 { AncestorRanksLower(keys, rank, keys[x].parent.value, n - 1); }
  }

  /** In a forest nobody is a proper ancestor of itself. */
  lemma ForestHasNoCycle(keys: map<Id, Key>, x: Id, n: nat)
    requires Forest(keys) && x in keys && n > 0
    ensures Ancestor(keys, x, n) != Some(x)
  {
    if Ancestor(keys, x, n) == Some(x) {
      var rank :| Ranked(keys, rank);
      AncestorRanksLower(keys, rank, x, n);
    }
  }

  lemma {:induction false} AncestorsCompose(keys: map<Id, Key>, x: Id, y: Id, m: nat, n: nat)
    requires Ancestor(keys, x, m) == Some(y)
    ensures Ancestor(keys, x, m + n) == Ancestor(keys, y, n)
    decreases m
  {
    if m > 0 { AncestorsCompose(keys, keys[x].parent.value, y, m - 1, n); }
  }

  /** Two keys below one another are the same key. */
  lemma ForestIsAntisymmetric(keys: map<Id, Key>, x: Id, y: Id)
    requires Forest(keys) && x in keys && Descends(keys, x, y) && Descends(keys, y, x)
    ensures x == y
  {
    var m: nat :| Ancestor(keys, y, m) == Some(x);
    var n: nat :| Ancestor(keys, x, n) == Some(y);
    AncestorsCompose(keys, x, y, n, m);
    if n + m > 0 { ForestHasNoCycle(keys, x, n + m); }
  }

  /** A key without a parent is below itself only. */
  lemma RootDescendsFromItself(keys: map<Id, Key>, root: Id, x: Id)
    requires x in keys && keys[x].parent.None? && Descends(keys, root, x)
    ensures x == root
  {
    var n: nat :| Ancestor(keys, x, n) == Some(root);
  }

  lemma ForestGrows(keys: map<Id, Key>, id: Id, key: Key)
    requires Forest(keys) && id !in keys
    requires key.parent.Some? && key.parent.value in keys
    ensures Forest(keys[id := key])
  {
    var rank :| Ranked(keys, rank);
    assert Ranked(keys[id := key], rank[id := rank[key.parent.value] + 1]);
  }

  lemma ForestKeepsParents(keys: map<Id, Key>, id: Id, key: Key)
    requires Forest(keys) && id in keys && key.parent == keys[id].parent
    ensures Forest(keys[id := key])
  {
    var rank :| Ranked(keys, rank);
    assert Ranked(keys[id := key], rank);
  }

  lemma ForestLosesSubtree(keys: map<Id, Key>, root: Id)
    requires Forest(keys)
    ensures Forest(keys - Subtree(keys, root))
  {
    var rank :| Ranked(keys, rank);
    var left := keys - Subtree(keys, root);
    forall k | k in left && left[k].parent.Some?
      ensures left[k].parent.value in left
    {
      if left[k].parent.value in Subtree(keys, root) { ChildDescends(keys, root, left[k].parent.value, k); }
    }
    assert Ranked(left, rank);
  }
}
