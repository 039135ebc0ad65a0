/** How a request becomes a caller (src/middleware.rs, src/master.rs): the checks in their order, and
    the master identity fixed once per process. */
module Authentication {
  import opened Common
  import opened Addresses
  import opened ClientIp
  import Replay
  import Signatures
  import Templates
  import Text

  type Id = nat
  type Digest = seq<Replay.Byte>

  datatype Refusal = Unauthorized | Forbidden | InvalidInput | Internal | DbError

  /** One api_keys row, as far as authentication reads it. */
  datatype KeyRow = KeyRow(keyHash: string, signingSecret: Option<string>, boundIps: Option<string>, isMaster: bool)

  /** The database as a query finds it: reachable or not, its rows, and whether the uniqueness index exists. */
  datatype Db = Db(reachable: bool, keys: map<Id, KeyRow>, hasIndex: bool)

  /** SHA-256 of a key, opening a sealed secret, HMAC and parsing a network. */
  datatype Primitives = Primitives(
    hash: string -> string, open: string -> Option<string>, mac: Signatures.Mac,
    parseNetwork: string -> Option<Network>)

  /** Header texts, and a body that is absent when it is unreadable or too large. */
  datatype Request = Request(
    httpMethod: string, target: string, body: Option<string>,
    timestamp: Option<string>, apiKey: Option<string>, signature: Option<string>, clientIp: Ip)

  // ---------- The checks ----------

  /** `HeaderValue::to_str` on a header that may be missing. */
  function HeaderText(h: Option<string>): Option<string> { if h.Some? && Visible(h.value) then h else None }

  function Digits(s: string): (r: Option<nat>)
    ensures r.Some? ==> s != ""
  {
    if s == "" then None
    else
      var last := s[|s| - 1];
      if !('0' <= last <= '9') then None
      else if |s| == 1 then Some((last - '0') as nat)
      else
        var init := Digits(s[..|s| - 1]);
        if init.None? then None else Some(10 * init.value + (last - '0') as nat)
  }

  const I64_MAX := 0x7FFF_FFFF_FFFF_FFFF
  const I64_MIN := -0x8000_0000_0000_0000

  /** `str::parse::<i64>`. */
  function ParseI64(s: string): Option<int> {
    var negative := s != "" && s[0] == '-';
    var digits := Digits(if s != "" && (s[0] == '-' || s[0] == '+') then s[1..] else s);
    if digits.None? then None
    else
      var n := (if negative then -1 else 1) * digits.value;
      if I64_MIN <= n <= I64_MAX then Some(n) else None
  }

  // ---------- Decimal text ----------

  function Decimal(n: nat): (s: string)
    ensures s != "" && '0' <= s[0] <= '9'
  {
    var digit := ['0' + (n % 10) as char];
    if n < 10 then digit else Decimal(n / 10) + digit
  }

  lemma {:induction false} DecimalDigits(n: nat)
    ensures Digits(Decimal(n)) == Some(n)
  {
    if n >= 10 {
      DecimalDigits(n / 10);
      var s := Decimal(n);
      assert s[..|s| - 1] == Decimal(n / 10);
    }
  }

  lemma PlainIsParsed(t: string, n: nat)
    requires t != "" && '0' <= t[0] <= '9' && Digits(t) == Some(n)
    ensures ParseI64(t) == if n <= 0x7FFF_FFFF_FFFF_FFFF then Some(n) else None
  {
    hide Digits;
  }

  lemma SignedIsParsed(t: string, n: nat)
    requires Digits(t) == Some(n)
    ensures ParseI64(['+'] + t) == if n <= 0x7FFF_FFFF_FFFF_FFFF then Some(n) else None
    ensures ParseI64(['-'] + t).Some? <==> n <= 0x8000_0000_0000_0000
    ensures ParseI64(['-'] + t).Some? ==> ParseI64(['-'] + t).value + n == 0
  {
    hide Digits;
    assert (['+'] + t)[1..] == t == (['-'] + t)[1..];
  }

  /** Every 64-bit number written in decimal reads back as itself, with its sign, and none outside is read. */
  lemma DecimalIsParsed(n: nat)
    ensures ParseI64(Decimal(n)) == if n <= 0x7FFF_FFFF_FFFF_FFFF then Some(n) else None
    ensures ParseI64(['+'] + Decimal(n)) == ParseI64(Decimal(n))
    ensures ParseI64(['-'] + Decimal(n)).Some? <==> n <= 0x8000_0000_0000_0000
    ensures ParseI64(['-'] + Decimal(n)).Some? ==> ParseI64(['-'] + Decimal(n)).value + n == 0
  {
    hide Digits, Decimal, ParseI64;
    DecimalDigits(n);
    PlainIsParsed(Decimal(n), n);
    SignedIsParsed(Decimal(n), n);
  }

  /** Nothing but decimal digits behind at most one sign is read. */
  lemma {:induction false} OnlyDigitsAreParsed(s: string)
    ensures Digits(s).Some? <==> s != "" && forall i :: 0 <= i < |s| ==> '0' <= s[i] <= '9'
  {
    if |s| > 1 { OnlyDigitsAreParsed(s[..|s| - 1]); }
  }

  function Abs(x: int): nat { if x < 0 then -x else x }

  /** `now.saturating_sub(supplied).abs()` in 64 bits. */
  function Skew(now: int, supplied: int): nat {
    Abs(if now - supplied > I64_MAX then I64_MAX else if now - supplied < I64_MIN then I64_MIN else now - supplied)
  }

  /** The raw text is returned: it is what was signed. */
  function ValidateTimestamp(header: Option<string>, now: int): (r: Result<string, Refusal>) {
    var text := HeaderText(header);
    if text.None? then Err(Unauthorized)
    else
      var raw := Text.Trim(text.value);
      var supplied := ParseI64(raw);
      if supplied.None? || Skew(now, supplied.value) > MAX_TIMESTAMP_SKEW_SECS then Err(Unauthorized) else Ok(raw)
  }

  /** Saturation never lets a stale timestamp through. */
  lemma FreshnessIsTwoSided(header: Option<string>, now: int)
    ensures ValidateTimestamp(header, now).Ok? <==>
      HeaderText(header).Some? && ParseI64(Text.Trim(header.value)).Some?
      && now - 300 <= ParseI64(Text.Trim(header.value)).value <= now + 300
  {
  }

  /** Everything decided before the database is asked. */
  function Shape(req: Request, now: int): Result<string, Refusal> {
    var timestamp := ValidateTimestamp(req.timestamp, now);
    if timestamp.Err? then timestamp
    else if HeaderText(req.apiKey).None? then Err(Unauthorized)
    else if HeaderText(req.signature).None? then Err(Unauthorized)
    else if !(Signatures.SIGNATURE_PREFIX <= Text.Trim(req.signature.value)) then Err(Unauthorized)
    else timestamp
  }

  function Message(req: Request, timestamp: string): string
    requires req.body.Some?
  {
    Templates.CanonicalV1(req.httpMethod, req.target, timestamp, req.body.value)
  }

  /** Proof of possession, against the row's own secret. */
  function Prove(p: Primitives, req: Request, timestamp: string, row: KeyRow): Result<Digest, Refusal>
    requires req.signature.Some?
  {
    if row.signingSecret.None? then Err(Unauthorized)
    else
      var secret := p.open(row.signingSecret.value);
      if secret.None? then Err(Internal)
      else if req.body.None? then Err(InvalidInput)
      else
        var digest := Signatures.VerifySignature(p.mac, secret.value, Message(req, timestamp), req.signature.value);
        if digest.None? then Err(Unauthorized) else Ok(digest.value)
  }

  function Networks(pieces: seq<string>, parse: string -> Option<Network>): Option<seq<Network>> {
    if pieces == [] then Some([])
    else
      var text := Text.Trim(pieces[0]);
      var rest := Networks(pieces[1..], parse);
      if text == "" then rest
      else
        var net := parse(text);
        if net.None? || rest.None? then None else Some([net.value] + rest.value)
  }

  /** `bound_ips`: empty means anywhere. */
  function CheckSource(p: Primitives, row: KeyRow, ip: Ip): Option<Refusal> {
    var networks := Networks(Text.Split(if row.boundIps.Some? then row.boundIps.value else "", ','), p.parseNetwork);
    if networks.None? then Some(Internal)
    else if networks.value == [] || IsTrusted(ip, networks.value) then None
    else Some(Forbidden)
  }

  predicate Blank(piece: string) { Text.Trim(piece) == "" }

  lemma {:induction false} NetworksAre(pieces: seq<string>, parse: string -> Option<Network>, ip: Ip)
    ensures Networks(pieces, parse).Some? <==> forall s :: s in pieces && !Blank(s) ==> parse(Text.Trim(s)).Some?
    ensures Networks(pieces, parse).Some? ==>
      (Networks(pieces, parse).value == [] <==> forall s :: s in pieces ==> Blank(s))
    ensures Networks(pieces, parse).Some? ==>
      (IsTrusted(ip, Networks(pieces, parse).value) <==>
       exists s :: s in pieces && !Blank(s) && Contains(parse(Text.Trim(s)).value, ip))
  {
    hide Contains, Text.Trim;
    if pieces != [] {
      NetworksAre(pieces[1..], parse, ip);
      assert forall s :: s in pieces <==> s == pieces[0] || s in pieces[1..];
      var rest := Networks(pieces[1..], parse);
      if rest.Some? && !Blank(pieces[0]) && parse(Text.Trim(pieces[0])).Some? {
        ContainedInFirst(ip, parse(Text.Trim(pieces[0])).value, rest.value);
      }
    }
  }

  lemma ContainedInFirst(ip: Ip, n: Network, rest: seq<Network>)
    ensures IsTrusted(ip, [n] + rest) <==> Contains(n, ip) || IsTrusted(ip, rest)
  {
    hide Contains;
    if Contains(n, ip) { assert Contains(([n] + rest)[0], ip); }
    if IsTrusted(ip, rest) {
      var i: nat :| i < |rest| && Contains(rest[i], ip);
      assert Contains(([n] + rest)[i + 1], ip);
    }
  }

  /** A key admits a source exactly when every entry of its list can be read and the list is empty or some
      entry covers the source. One that cannot be read is the service's fault, any other miss the caller's. */
  lemma SourceIsAdmittedExactly(p: Primitives, row: KeyRow, ip: Ip)
    ensures var pieces := Text.Split(if row.boundIps.Some? then row.boundIps.value else "", ',');
      var readable := forall s :: s in pieces && !Blank(s) ==> p.parseNetwork(Text.Trim(s)).Some?;
      && (CheckSource(p, row, ip) == None <==>
            && readable
            && ((forall s :: s in pieces ==> Blank(s))
                || exists s :: s in pieces && !Blank(s) && Contains(p.parseNetwork(Text.Trim(s)).value, ip)))
      && (CheckSource(p, row, ip) == Some(Internal) <==> !readable)
  {
    NetworksAre(Text.Split(if row.boundIps.Some? then row.boundIps.value else "", ','), p.parseNetwork, ip);
    hide Blank, Contains, Networks, IsTrusted;
  }

  // ---------- The pin ----------

  datatype PinError = NoMaster | MultipleMasters | MissingUniquenessIndex | Query

  function Masters(db: Db): set<Id> { set k | k in db.keys && db.keys[k].isMaster }

  /** `sole_master`. */
  ghost function SoleMaster(db: Db): (r: Result<Id, PinError>)
    ensures r.Ok? <==> db.reachable && exists k :: Masters(db) == {k}
    ensures r.Ok? ==> Masters(db) == {r.value}
  {
    if !db.reachable then Err(Query)
    else if exists k :: Masters(db) == {k} then (var k :| Masters(db) == {k}; Ok(k))
    else if Masters(db) == {} then Err(NoMaster)
    else Err(MultipleMasters)
  }

  /** Both queries of `pin_at_boot`, each against the database as it finds it. */
  ghost function Establish(atCount: Db, atIndex: Db): Result<Id, PinError> {
    var sole := SoleMaster(atCount);
    if sole.Err? then sole
    else if !atIndex.reachable then Err(Query)
    else if !atIndex.hasIndex then Err(MissingUniquenessIndex)
    else sole
  }

  lemma MastersAre(db: Db, only: Id)
    requires Masters(db) == {only}
    ensures forall k: Id :: k in db.keys && db.keys[k].isMaster <==> k == only
  {
    forall k: Id ensures k in db.keys && db.keys[k].isMaster <==> k == only {
      assert k in Masters(db) <==> k in {only};
    }
  }

  /** The write-once cell. */
  class MasterPin {
    var cell: Option<Id>

    constructor ()
      ensures cell == None
    {
      cell := None;
    }

    method QuerySoleMaster(db: Db) returns (r: Result<Id, PinError>)
      ensures r == SoleMaster(db)
    {
      if !db.reachable { return Err(Query); }
      var masters := set k | k in db.keys && db.keys[k].isMaster;
      assert masters == Masters(db) && forall k: Id :: k in {k};
      if masters == {} { return Err(NoMaster); }
      var only :| only in masters;
      if masters == {only} { return Ok(only); }
      assert forall k :: masters == {k} ==> k == only;
      return Err(MultipleMasters);
    }

    method PinAtBoot(atCount: Db, atIndex: Db) returns (r: Result<Id, PinError>)
      modifies this
      ensures r == if old(cell).Some? then Ok(old(cell).value) else Establish(atCount, atIndex)
      ensures old(cell).None? ==>
        (r.Ok? <==> atCount.reachable && (exists k :: Masters(atCount) == {k}) && atIndex.reachable && atIndex.hasIndex)
      ensures old(cell).None? && r.Ok? ==>
        forall k: Id :: k in atCount.keys && atCount.keys[k].isMaster <==> k == r.value
      ensures cell == if r.Ok? then Some(r.value) else None
    {
      if cell.Some? { return Ok(cell.value); }
      var sole := QuerySoleMaster(atCount);
      if sole.Err? { return sole; }
      if !atIndex.reachable { return Err(Query); }
      if !atIndex.hasIndex { return Err(MissingUniquenessIndex); }
      cell := Some(sole.value);
      MastersAre(atCount, sole.value);
      return sole;
    }

    method Resolve(atCount: Db, atIndex: Db) returns (r: Option<Id>)
      modifies this
      ensures old(cell).Some? ==> cell == old(cell)
      ensures old(cell).None? ==>
        cell == if Establish(atCount, atIndex).Ok? then Some(Establish(atCount, atIndex).value) else None
      ensures r == cell
    {
      var pinned := PinAtBoot(atCount, atIndex);
      if pinned.Ok? { return Some(pinned.value); }
      return None;
    }

    /** Demotes anyone who claims to be master and is not the pinned key. */
    method Authenticate(id: Id, row: KeyRow, atCount: Db, atIndex: Db) returns (effective: KeyRow)
      modifies this
      ensures effective == row.(isMaster := row.isMaster && cell == Some(id))
      ensures old(cell).Some? || !row.isMaster ==> cell == old(cell)
      ensures old(cell).None? && row.isMaster ==>
        cell == if Establish(atCount, atIndex).Ok? then Some(Establish(atCount, atIndex).value) else None
    {
      if !row.isMaster { return row; }
      var pinned := Resolve(atCount, atIndex);
      if pinned == Some(id) { return row; }
      return row.(isMaster := false);
    }
  }

  // ---------- One request, start to finish ----------

  /** The row a credential finds. */
  ghost predicate Holds(p: Primitives, req: Request, db: Db, id: Id) {
    && db.reachable && req.apiKey.Some?
    && id in db.keys && db.keys[id].keyHash == p.hash(req.apiKey.value)
  }

  datatype Subject = Subject(id: Id, row: KeyRow)

  /** The decision on a request whose key was found: signature, then single use, then source network, then
      the pin. The guard learns verified signatures only, under their key. */
  ghost predicate Decides(p: Primitives, req: Request, timestamp: string, who: Subject, instant: nat, window: nat,
                          before: seq<Replay.Acceptance>, after: seq<Replay.Acceptance>, cell: Option<Id>,
                          r: Result<(Id, KeyRow), Refusal>)
  {
    && req.signature.Some?
    && var proof := Prove(p, req, timestamp, who.row);
    if proof.Err? then r == Err(proof.error) && after == before
    else
      var s := Replay.SignatureId(who.id, proof.value);
      if Replay.UsedWithin(before, s, instant, window) then r == Err(Unauthorized) && after == before
      else
        && after == before + [Replay.Acceptance(s, instant)]
        && var refusal := CheckSource(p, who.row, req.clientIp);
        r == if refusal.Some? then Err(refusal.value)
             else Ok((who.id, who.row.(isMaster := who.row.isMaster && cell == Some(who.id))))
  }

  lemma ShapeSays(req: Request, now: int)
    ensures Shape(req, now).Ok? ==> req.apiKey.Some? && req.signature.Some?
    ensures Shape(req, now).Err? ==> Shape(req, now).error == Unauthorized
  {
  }

  predicate OneLine(req: Request, timestamp: string) {
    '\n' !in req.httpMethod && '\n' !in req.target && '\n' !in timestamp
  }

  /** A signature is good for one request: if two verify to the same digest under one secret, they agree in
      method, target, timestamp and body, or HMAC itself has collided. */
  lemma SignatureCoversTheWholeRequest(p: Primitives, row: KeyRow, r1: Request, t1: string, r2: Request, t2: string)
    requires r1.signature.Some? && r2.signature.Some? && OneLine(r1, t1) && OneLine(r2, t2)
    requires Prove(p, r1, t1, row).Ok? && Prove(p, r1, t1, row) == Prove(p, r2, t2, row)
    ensures r1.body.Some? && r2.body.Some? && p.open(row.signingSecret.value).Some?
    ensures var secret := p.open(row.signingSecret.value).value;
      || (r1.httpMethod == r2.httpMethod && r1.target == r2.target && t1 == t2 && r1.body == r2.body)
      || (Message(r1, t1) != Message(r2, t2) && p.mac(secret, Message(r1, t1)) == p.mac(secret, Message(r2, t2)))
  {
    Templates.CanonicalIsInjective(r1.httpMethod, r1.target, t1, r1.body.value, r2.httpMethod, r2.target, t2,
                                   r2.body.value);
  }
}
