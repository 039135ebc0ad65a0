/** Which rows `GET /api/ips` (src/api/records.rs) shows, and how its pages fit together, in terms of the tables
    and the request alone. */
module Listings {
  import opened Common
  import opened Lineage
  import opened Guards
  import opened Rights
  import opened Addresses
  import opened Records
  import opened Text
  import opened ListIps

  // ---------- Rows ----------

  /** No group is named. */
  predicate Unnamed(f: Filters) { f.groups.None? && f.groupName.None? && f.groupId.None? }

  /** What a status asks of a group's type. */
  predicate TypeAsked(f: Filters, groupType: string) {
    f.status.Some? && f.status.value != "" ==>
      (f.status.value in {"ban", "banlist"} && groupType == "banlist")
      || (f.status.value in {"white", "whitelist"} && groupType == "whitelist")
  }

  predicate KnownStatus(f: Filters) {
    f.status.Some? && f.status.value != "" ==> f.status.value in {"ban", "banlist", "white", "whitelist"}
  }

  predicate RecordAsked(f: Filters, now: Time, a: Address, r: Record) {
    && (r.isDeleted ==> f.includeDeleted) && f.ipMatches(a) && f.causeMatches(r.cause)
    && (f.maxAge.Some? ==> r.lastSeenAt >= now - f.maxAge.value * 1_000_000)
    && (f.since.Some? ==>
          var cutoff := f.since.value.seconds * 1_000_000;
          r.lastSeenAt >= cutoff || (r.isDeleted && r.deletedAt.Some? && r.deletedAt.value >= cutoff))
  }

  predicate MayRead(db: Tables, me: Id, g: Id)
    requires me in db.keys
  {
    db.keys[me].isMaster || ((me, g) in db.rows && db.rows[(me, g)].read)
  }

  lemma StatusesAre(f: Filters)
    ensures KnownStatus(f) <==> (StatusGiven(f) ==> StatusType(f.status.value).Some?)
    ensures KnownStatus(f) && StatusGiven(f) ==>
      forall groupType :: TypeAsked(f, groupType) <==> groupType == StatusType(f.status.value).value
  {
  }

  lemma ReadableAre(db: Tables, me: Id, g: Id)
    requires me in db.keys && !db.keys[me].isMaster
    ensures g in Readable(db, me) <==> MayRead(db, me, g)
  {
    if (me, g) in db.rows && db.rows[(me, g)].read { assert (me, g).0 == me && (me, g).1 == g; }
  }

  lemma ScopeIs(db: Tables, me: Id, f: Filters, g: Id)
    requires me in db.keys && Unnamed(f) && KnownStatus(f) && (StatusGiven(f) ==> StatusType(f.status.value).Some?)
    requires g in db.groups
    ensures var scope := Scope(db, me, db.keys[me].isMaster, f);
      (scope.Some? ==> g in scope.value) <==> MayRead(db, me, g) && TypeAsked(f, db.groups[g].groupType)
  {
    StatusesAre(f);
    if !db.keys[me].isMaster { ReadableAre(db, me, g); }
    hide StatusType, MayRead, TypeAsked, KnownStatus, Readable;
    if !StatusGiven(f) { NoStatusAsksNothing(f, db.groups[g].groupType); }
    assert Names(f) == {};
  }

  lemma NoStatusAsksNothing(f: Filters, groupType: string)
    requires !StatusGiven(f)
    ensures TypeAsked(f, groupType)
  {
  }

  /** Without named groups the rows are exactly the memberships of records that meet the filters in groups the
      caller may read and whose type the status asks for, each with its record and its group, and with the
      deleter for the master alone. */
  lemma RowsAreExactly(st: Store, me: Id, f: Filters, now: Time, rows: seq<Hit>, a: Address, g: Id)
    requires me in st.rights.keys && Unnamed(f) && KnownStatus(f)
    requires StatusGiven(f) ==> StatusType(f.status.value).Some?
    requires IdsDistinct(st.core.records) && a in st.core.records && g in st.rights.groups
    requires Orders(rows, st, st.rights.keys[me].isMaster, Scope(st.rights, me, st.rights.keys[me].isMaster, f), f, now)
    ensures var (r, group, isMaster) := (st.core.records[a], st.rights.groups[g], st.rights.keys[me].isMaster);
      var shown := (r.id, g) in st.core.members && MayRead(st.rights, me, g) && TypeAsked(f, group.groupType)
                   && RecordAsked(f, now, a, r);
      && (shown <==> exists hit :: hit in rows && hit.member == (r.id, g))
      && (forall hit :: hit in rows && hit.member == (r.id, g) ==>
            hit.item == ResponseRow(r.id, a, group.name, group.groupType, r.cause, r.isLocked, r.createdAt, r.updatedAt,
                                    r.lastSeenAt, r.isDeleted, r.deletedAt, if isMaster then r.deletedBy else None))
  {
    var (r, group, isMaster) := (st.core.records[a], st.rights.groups[g], st.rights.keys[me].isMaster);
    var scope := Scope(st.rights, me, isMaster, f);
    ScopeIs(st.rights, me, f, g);
    RecordHeld(st.core.records, a);
    assert Matches(f, now, a, r) <==> RecordAsked(f, now, a, r);
    hide Scope, MayRead, TypeAsked, Matches, RecordAsked;
    var hit := Hit((r.id, g), ItemOf(group, a, r, isMaster));
    assert Hits(st, isMaster, scope, f, now, hit) <==> hit in rows;
  }

  // ---------- Pages ----------

  /** The rows of an envelope. */
  function DataOf(answer: Answer): seq<ResponseRow> { if answer.Envelope? then answer.data else [] }

  function ItemsOf(rows: seq<Hit>): seq<ResponseRow> { seq(|rows|, i requires 0 <= i < |rows| => rows[i].item) }

  /** The first n pages, one after the other. */
  function Pages(f: Filters, rows: seq<Hit>, n: nat): seq<ResponseRow> {
    if n == 0 then [] else Pages(f, rows, n - 1) + DataOf(Render(f.(offset := (n - 1) * f.limit), rows))
  }

  predicate Paged(f: Filters) { f.includeTotal && !f.iplist && f.limit > 0 }

  lemma {:induction false} PagesAreAPrefix(f: Filters, rows: seq<Hit>, n: nat)
    requires Paged(f)
    ensures Pages(f, rows, n) == ItemsOf(rows[..Min(n * f.limit, |rows|)])
  {
    if n > 0 {
      PagesAreAPrefix(f, rows, n - 1);
      NextMultiple(n, f.limit);
      NextPage(f, rows, n, (n - 1) * f.limit);
    }
  }

  lemma NextMultiple(n: nat, limit: nat)
    requires n > 0
    ensures n * limit == (n - 1) * limit + limit
  {
  }

  lemma NextPage(f: Filters, rows: seq<Hit>, n: nat, from: nat)
    requires Paged(f) && n > 0 && from == (n - 1) * f.limit
    requires Pages(f, rows, n - 1) == ItemsOf(rows[..Min(from, |rows|)])
    ensures Pages(f, rows, n) == ItemsOf(rows[..Min(from + f.limit, |rows|)])
  {
    hide Render, DataOf, ItemsOf;
    PageIs(f.(offset := from), rows);
    ItemsJoin(rows, Min(from, |rows|), Min(from + f.limit, |rows|));
  }

  lemma PageIs(f: Filters, rows: seq<Hit>)
    requires Paged(f)
    ensures DataOf(Render(f, rows)) == ItemsOf(rows[Min(f.offset, |rows|)..Min(f.offset + f.limit, |rows|)])
  {
  }

  lemma ItemsJoin(rows: seq<Hit>, from: nat, to: nat)
    requires from <= to <= |rows|
    ensures ItemsOf(rows[..to]) == ItemsOf(rows[..from]) + ItemsOf(rows[from..to])
  {
    assert rows[..to] == rows[..from] + rows[from..to];
  }

  /** The pages announced are all there are and none too many: together they show every row once, in order, and
      the last of them is not empty. Every answer announces the true total. */
  lemma PagesAreTheWhole(f: Filters, rows: seq<Hit>)
    requires Paged(f)
    ensures var answer := Render(f, rows);
      && answer.Envelope? && answer.total == |rows|
      && Pages(f, rows, answer.totalPages) == ItemsOf(rows)
      && (answer.totalPages > 0 ==> |Pages(f, rows, answer.totalPages - 1)| < |rows|)
  {
    var n := Render(f, rows).totalPages;
    Ceiling(|rows|, f.limit, n);
    PagesAreAPrefix(f, rows, n);
    assert rows[..|rows|] == rows;
    if n > 0 { PagesAreAPrefix(f, rows, n - 1); }
  }

  lemma Ceiling(total: nat, limit: nat, n: nat)
    requires limit > 0 && n == (total + limit - 1) / limit
    ensures n * limit >= total && (n > 0 ==> (n - 1) * limit < total)
  {
    assert n * limit <= total + limit - 1 < n * limit + limit;
    assert (n - 1) * limit == n * limit - limit;
  }

  // ---------- Named groups ----------

  /** A list of names names what its parts name. */
  lemma ListsNameTheirParts(f: Filters, a: string, b: string)
    requires a != "" && b != ""
    ensures var n := f.(groupName := None);
      Names(n.(groups := Some(a + [','] + b))) == Names(n.(groups := Some(a))) + Names(n.(groups := Some(b)))
  {
    SplitAt(a, ',', b);
    hide Trim, Split;
  }

  /** A name without a comma names the groups of that name, in either parameter; blanks around it are dropped. */
  lemma ANameNamesItself(f: Filters, name: string)
    requires ',' !in name && Trim(name) != "" && name != ""
    ensures Names(f.(groups := Some(name), groupName := None)) == {Trim(name)}
         == Names(f.(groups := None, groupName := Some(name)))
  {
    SplitOne(name, ',');
    hide Trim, Split;
  }

  /** And then only those groups are shown. */
  lemma NamedGroupsOnly(db: Tables, me: Id, f: Filters, g: Id)
    requires me in db.keys && !StatusGiven(f) && (Names(f) != {} || f.groupId.Some?)
    ensures var scope := Scope(db, me, db.keys[me].isMaster, f);
      scope.Some? && (g in scope.value <==>
                        && (db.keys[me].isMaster || ((me, g) in db.rows && db.rows[(me, g)].read))
                        && ((g in db.groups && db.groups[g].name in Names(f)) || f.groupId == Some(g)))
  {
    if !db.keys[me].isMaster { ReadableAre(db, me, g); }
    hide Names, Readable;
  }

  // ---------- Shapes ----------

  /** The page is what lies between the offset and the limit beyond it; the address list holds its addresses, the
      other two shapes its rows in their order. */
  lemma AnswersShowThePage(f: Filters, rows: seq<Hit>)
    ensures var (from, answer) := (Min(f.offset, |rows|), Render(f, rows));
      var page := rows[from..Min(from + f.limit, |rows|)];
      && (answer.IpList? <==> f.iplist) && (answer.Envelope? <==> !f.iplist && f.includeTotal)
      && (answer.Bare? <==> !f.iplist && !f.includeTotal)
      && (answer.IpList? ==> forall a :: a in answer.addresses <==> exists hit :: hit in page && hit.item.address == a)
      && (answer.Bare? ==> answer.items == ItemsOf(page))
      && (answer.Envelope? ==> answer.data == ItemsOf(page) && answer.total == |rows|
                               && answer.limit == f.limit && answer.offset == f.offset)
  {
  }

  /** A status that means nothing is refused, to whoever can read anything. */
  lemma UnknownStatusIsRefused(st: Store, me: Id, f: Filters, now: Time, answer: Answer)
    requires me in st.rights.keys && !KnownStatus(f)
    requires st.rights.keys[me].isMaster || exists g :: MayRead(st.rights, me, g)
    ensures MayAnswer(st, me, f, now, answer) <==> answer == Failed(InvalidInput)
  {
    if !st.rights.keys[me].isMaster {
      var g :| MayRead(st.rights, me, g);
      ReadableAre(st.rights, me, g);
    }
    StatusesAre(f);
    hide StatusType, Readable, MayRead, KnownStatus;
  }

  /** To whoever can read nothing the answer is nothing, whatever is asked. */
  lemma NoReaderGetsNothing(st: Store, me: Id, f: Filters, now: Time, answer: Answer)
    requires me in st.rights.keys && !st.rights.keys[me].isMaster && forall g :: !MayRead(st.rights, me, g)
    ensures MayAnswer(st, me, f, now, answer) <==>
      answer == if f.iplist then IpList({})
                else if f.includeTotal then Envelope([], 0, f.limit, f.offset, 0) else Bare([])
  {
    forall g ensures g !in Readable(st.rights, me) { ReadableAre(st.rights, me, g); }
    hide Readable, MayRead;
    assert Readable(st.rights, me) == {};
  }
}
