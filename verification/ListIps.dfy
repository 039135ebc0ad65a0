/** `GET /api/ips` (src/api/records.rs): which rows a caller gets, and that rows of groups it cannot read
    never show, whatever it asks. */
module ListIps {
  import opened Common
  import opened Lineage
  import opened Guards
  import opened Rights
  import opened Addresses
  import opened Records
  import opened Text

  /** A cutoff in seconds, with the calendar library's verdict on whether it is a representable date. */
  datatype Since = Since(seconds: int, representable: bool)

  /** `ipMatches` and `causeMatches` are the substring tests of the database. */
  datatype Filters = Filters(
    groups: Option<string>, groupName: Option<string>, groupId: Option<Id>,
    ipMatches: Address -> bool, causeMatches: Option<string> -> bool,
    status: Option<string>, maxAge: Option<int>, since: Option<Since>,
    limit: nat, offset: nat, iplist: bool, includeDeleted: bool, includeTotal: bool)

  /** One response row. */
  datatype ResponseRow = ResponseRow(
    id: Id, address: Address, groupName: string, groupType: string, cause: Option<string>, isLocked: bool,
    createdAt: Time, updatedAt: Time, lastSeenAt: Time,
    isDeleted: bool, deletedAt: Option<Time>, deletedBy: Option<Id>)

  datatype Answer =
    | Failed(why: Refusal)
    | IpList(addresses: set<Address>)
    | Bare(items: seq<ResponseRow>)
    | Envelope(data: seq<ResponseRow>, total: nat, limit: nat, offset: nat, totalPages: nat)

  // ---------- Group constraints ----------

  function Readable(db: Tables, me: Id): set<Id> {
    set r | r in db.rows && r.0 == me && db.rows[r].read :: r.1
  }

  /** The names of `groups`, split at commas, and of `group_name`; blanks name nothing. */
  function Names(f: Filters): set<string> {
    var listed := if f.groups.Some? && f.groups.value != "" then Split(f.groups.value, ',') else [];
    (set s | s in listed && Trim(s) != "" :: Trim(s))
    + if f.groupName.Some? && Trim(f.groupName.value) != "" then {Trim(f.groupName.value)} else {}
  }

  function Named(db: Tables, f: Filters): set<Id> {
    (set g | g in db.groups && db.groups[g].name in Names(f)) + if f.groupId.Some? then {f.groupId.value} else {}
  }

  /** The group type a status asks for; None when it asks for nothing known. */
  function StatusType(status: string): Option<string> {
    if status == "ban" || status == "banlist" then Some("banlist")
    else if status == "white" || status == "whitelist" then Some("whitelist")
    else None
  }

  predicate StatusGiven(f: Filters) { f.status.Some? && f.status.value != "" }

  /** The groups left by every constraint at once; None when there is no constraint. */
  function Scope(db: Tables, me: Id, isMaster: bool, f: Filters): Option<set<Id>>
    requires StatusGiven(f) ==> StatusType(f.status.value).Some?
  {
    var named := Names(f) != {} || f.groupId.Some?;
    if isMaster && !named && !StatusGiven(f) then None
    else
      var candidates := if !isMaster then Readable(db, me) else if named then Named(db, f) else db.groups.Keys;
      Some(set g | g in candidates && (named ==> g in Named(db, f))
             && (StatusGiven(f) ==> g in db.groups && db.groups[g].groupType == StatusType(f.status.value).value))
  }

  // ---------- Row conditions ----------

  /** The differential-sync cutoff: last seen, or with `include_deleted` deleted, at or after it. */
  predicate InWindow(r: Record, since: int, includeDeleted: bool) {
    r.lastSeenAt >= since * SECONDS
    || (includeDeleted && r.isDeleted && r.deletedAt.Some? && r.deletedAt.value >= since * SECONDS)
  }

  predicate Matches(f: Filters, now: Time, a: Address, r: Record) {
    && (f.includeDeleted || !r.isDeleted)
    && f.ipMatches(a) && f.causeMatches(r.cause)
    && (f.maxAge.Some? ==> r.lastSeenAt >= now - f.maxAge.value * SECONDS)
    && (f.since.Some? ==> InWindow(r, f.since.value.seconds, f.includeDeleted))
  }

  function ItemOf(g: Group, a: Address, r: Record, isMaster: bool): ResponseRow {
    ResponseRow(r.id, a, g.name, g.groupType, r.cause, r.isLocked, r.createdAt, r.updatedAt, r.lastSeenAt,
         r.isDeleted, r.deletedAt, if isMaster then r.deletedBy else None)
  }

  /** One row per membership that passes every filter. */
  datatype Hit = Hit(member: (Id, Id), item: ResponseRow)

  ghost predicate Hits(st: Store, isMaster: bool, scope: Option<set<Id>>, f: Filters, now: Time, hit: Hit) {
    var m := hit.member;
    var found := FindById(st.core.records, m.0);
    && m in st.core.members && (scope.Some? ==> m.1 in scope.value) && m.1 in st.rights.groups && found.Some?
    && Matches(f, now, found.value, st.core.records[found.value])
    && hit.item == ItemOf(st.rights.groups[m.1], found.value, st.core.records[found.value], isMaster)
  }

  /** Latest activity first; the database may order ties as it likes. */
  ghost predicate Orders(rows: seq<Hit>, st: Store, isMaster: bool, scope: Option<set<Id>>, f: Filters, now: Time) {
    && (forall i, j :: 0 <= i < j < |rows| ==> rows[i] != rows[j] && rows[i].item.updatedAt >= rows[j].item.updatedAt)
    && (forall hit :: hit in rows <==> Hits(st, isMaster, scope, f, now, hit))
  }

  function Min(x: nat, y: nat): nat { if x < y then x else y }

  function Render(f: Filters, rows: seq<Hit>): Answer {
    var from := Min(f.offset, |rows|);
    var page := rows[from..Min(from + f.limit, |rows|)];
    if f.iplist then IpList(set h | h in page :: h.item.address)
    else
      var items := seq(|page|, i requires 0 <= i < |page| => page[i].item);
      if f.includeTotal then
        Envelope(items, |rows|, f.limit, f.offset, if f.limit == 0 then 0 else (|rows| + f.limit - 1) / f.limit)
      else Bare(items)
  }

  /** What the handler may answer. A caller that can read nothing is told "nothing" before its filters are
      even looked at, in the shape it asked for. */
  ghost predicate MayAnswer(st: Store, me: Id, f: Filters, now: Time, answer: Answer)
    requires me in st.rights.keys
  {
    var isMaster := st.rights.keys[me].isMaster;
    if !isMaster && Readable(st.rights, me) == {} then answer == Render(f, [])
    else if StatusGiven(f) && StatusType(f.status.value).None? then answer == Failed(InvalidInput)
    else
      var scope := Scope(st.rights, me, isMaster, f);
      if scope == Some({}) then answer == Render(f, [])
      else if f.since.Some? && !f.since.value.representable then answer == Failed(InvalidInput)
      else exists rows :: Orders(rows, st, isMaster, scope, f, now) && answer == Render(f, rows)
  }

  // ---------- Non-interference ----------

  /** A record as a non-master may see it: found by id, without the deleter. */
  ghost function Shown(c: Core, id: Id): Option<(Address, Record)> {
    var found := FindById(c.records, id);
    if found.None? then None else Some((found.value, c.records[found.value].(deletedBy := None)))
  }

  /** The two databases agree on the caller's rows, on the groups it can read, and on those groups'
      memberships and records, deleters aside. They may differ in everything else. */
  ghost predicate SameReadable(d: Store, e: Store, me: Id) {
    && (forall r: (Id, Id) :: r.0 == me ==> Row(d.rights.rows, r.0, r.1) == Row(e.rights.rows, r.0, r.1))
    && (forall g :: g in Readable(d.rights, me) ==>
          (g in d.rights.groups <==> g in e.rights.groups)
          && (g in d.rights.groups && g in e.rights.groups ==>
                d.rights.groups[g].name == e.rights.groups[g].name
                && d.rights.groups[g].groupType == e.rights.groups[g].groupType))
    && (forall m: (Id, Id) :: m.1 in Readable(d.rights, me) ==>
          (m in d.core.members <==> m in e.core.members)
          && (m in d.core.members ==> Shown(d.core, m.0) == Shown(e.core, m.0)))
  }

  lemma SameReadableSet(d: Tables, e: Tables, me: Id)
    requires forall r: (Id, Id) :: r.0 == me ==> Row(d.rows, r.0, r.1) == Row(e.rows, r.0, r.1)
    ensures Readable(d, me) == Readable(e, me)
  {
    forall g: Id
      ensures g in Readable(d, me) <==> g in Readable(e, me)
    {
      assert Row(d.rows, (me, g).0, (me, g).1) == Row(e.rows, (me, g).0, (me, g).1);
      if g in Readable(d, me) { assert (me, g) in e.rows; }
      if g in Readable(e, me) { assert (me, g) in d.rows; }
    }
  }

  lemma SameScope(d: Store, e: Store, me: Id, f: Filters)
    requires SameReadable(d, e, me) && (StatusGiven(f) ==> StatusType(f.status.value).Some?)
    ensures Scope(d.rights, me, false, f) == Scope(e.rights, me, false, f)
  {
    hide StatusType, Names;
    SameReadableSet(d.rights, e.rights, me);
    var s, t := Scope(d.rights, me, false, f).value, Scope(e.rights, me, false, f).value;
    forall g: Id | g in Readable(d.rights, me)
      ensures g in Named(d.rights, f) <==> g in Named(e.rights, f)
      ensures g in d.rights.groups <==> g in e.rights.groups
    {
    }
    assert s == t;
  }

  lemma SameHit(d: Store, e: Store, me: Id, scope: Option<set<Id>>, f: Filters, now: Time, hit: Hit)
    requires SameReadable(d, e, me) && scope.Some? && scope.value <= Readable(d.rights, me)
    ensures Hits(d, false, scope, f, now, hit) <==> Hits(e, false, scope, f, now, hit)
  {
    var m := hit.member;
    if m.1 in scope.value && m in d.core.members {
      assert Shown(d.core, m.0) == Shown(e.core, m.0);
    }
  }

  lemma SameOrders(d: Store, e: Store, me: Id, scope: Option<set<Id>>, f: Filters, now: Time, rows: seq<Hit>)
    requires SameReadable(d, e, me) && scope.Some? && scope.value <= Readable(d.rights, me)
    ensures Orders(rows, d, false, scope, f, now) <==> Orders(rows, e, false, scope, f, now)
  {
    forall hit ensures Hits(d, false, scope, f, now, hit) <==> Hits(e, false, scope, f, now, hit) {
      SameHit(d, e, me, scope, f, now, hit);
    }
    hide Hits, SameReadable;
  }

  /** A non-master gets the same answers from two databases that agree on what it can read, for every
      filter, even one that names unreadable groups: totals, pages and failures included. */
  lemma AnswersDependOnReadableOnly(d: Store, e: Store, me: Id, f: Filters, now: Time, answer: Answer)
    requires me in d.rights.keys && me in e.rights.keys
    requires !d.rights.keys[me].isMaster && !e.rights.keys[me].isMaster && SameReadable(d, e, me)
    ensures MayAnswer(d, me, f, now, answer) <==> MayAnswer(e, me, f, now, answer)
  {
    SameReadableSet(d.rights, e.rights, me);
    if !StatusGiven(f) || StatusType(f.status.value).Some? {
      SameScope(d, e, me, f);
      var scope := Scope(d.rights, me, false, f);
      assert scope.value <= Readable(d.rights, me);
      forall rows ensures Orders(rows, d, false, scope, f, now) <==> Orders(rows, e, false, scope, f, now) {
        SameOrders(d, e, me, scope, f, now, rows);
      }
    }
    hide Scope, Orders, Render, SameReadable, StatusType, Readable;
  }
}
