/** One request from start to finish (src/middleware.rs): the middleware as it runs, against one state of the
    database per query. Each call is a run of the steps of `AuthRuns`. */
module Middleware {
  import opened Common
  import opened ClientIp
  import opened Authentication
  import opened AuthRuns
  import Replay
  import Signatures
  import Templates
  import Text

  /** Every answer the middleware may give, and what the guard has learnt by then. */
  ghost predicate Answers(p: Primitives, req: Request, now: int, db: Db, instant: nat, window: nat,
                          before: seq<Replay.Acceptance>, after: seq<Replay.Acceptance>, cell: Option<Id>,
                          r: Result<(Id, KeyRow), Refusal>)
  {
    if Shape(req, now).Err? then r == Err(Unauthorized) && after == before
    else if !db.reachable then r == Err(DbError) && after == before
    else if !exists k :: Holds(p, req, db, k) then r == Err(Unauthorized) && after == before
    else
      exists id :: Holds(p, req, db, id)
        && Decides(p, req, Shape(req, now).value, Subject(id, db.keys[id]), instant, window, before, after, cell, r)
  }

  /** Where an answered request stands: at its handler as the caller the answer names, or over. */
  ghost predicate Ends(p: Primitives, req: Request, now: int, db: Db, task: Progress, saw: bool,
                       r: Result<(Id, KeyRow), Refusal>)
  {
    if r.Err? then task == Ended
    else
      && Shape(req, now).Ok? && Holds(p, req, db, r.value.0) && task.Handled?
      && task.claim == Claim(req, Shape(req, now).value, now, r.value.0, db.keys[r.value.0])
      && task.isMaster == r.value.1.isMaster && task.saw == saw
  }

  /** Who is asking, as far as the request itself proves it: the checks before the guard. */
  ghost predicate Identifies(p: Primitives, req: Request, now: int, db: Db, r: Result<(Id, Digest), Refusal>) {
    if Shape(req, now).Err? then r == Err(Unauthorized)
    else if !db.reachable then r == Err(DbError)
    else if !exists k :: Holds(p, req, db, k) then r == Err(Unauthorized)
    else
      exists id: Id :: Holds(p, req, db, id) && req.signature.Some?
        && var proof := Prove(p, req, Shape(req, now).value, db.keys[id]);
           r == if proof.Err? then Err(proof.error) else Ok((id, proof.value))
  }

  lemma RefusedBeforeTheGuard(p: Primitives, req: Request, now: int, db: Db, instant: nat, window: nat,
                              before: seq<Replay.Acceptance>, cell: Option<Id>, why: Refusal)
    requires Identifies(p, req, now, db, Err(why))
    ensures Answers(p, req, now, db, instant, window, before, before, cell, Err(why))
  {
    hide Shape, Prove, CheckSource, Replay.UsedWithin;
  }

  lemma DecidedAtTheGuard(p: Primitives, req: Request, now: int, db: Db, id: Id, instant: nat, window: nat,
                          before: seq<Replay.Acceptance>, after: seq<Replay.Acceptance>, cell: Option<Id>,
                          r: Result<(Id, KeyRow), Refusal>)
    requires Shape(req, now).Ok? && Holds(p, req, db, id)
    requires Decides(p, req, Shape(req, now).value, Subject(id, db.keys[id]), instant, window, before, after, cell, r)
    ensures Answers(p, req, now, db, instant, window, before, after, cell, r)
  {
    hide Shape, Decides;
  }

  /** The first half of `auth_middleware`. `s` is any state of the service this request starts in as task t;
      `n` is where its own steps lead, other tasks standing still. */
  method Identify(p: Primitives, req: Request, now: int, atLookup: Db, ghost s: State, ghost t: nat)
    returns (r: Result<(Id, Digest), Refusal>, ghost n: State)
    requires t !in s.tasks
    ensures Identifies(p, req, now, atLookup, r)
    ensures Leads(p, s, n) && n.pin == s.pin && n.seen == s.seen
    ensures t in n.tasks && n.tasks == s.tasks[t := n.tasks[t]]
    ensures r.Err? ==> n.tasks[t] == Ended
    ensures r.Ok? ==> Shape(req, now).Ok? && Holds(p, req, atLookup, r.value.0) && req.signature.Some?
    ensures r.Ok? ==> Prove(p, req, Shape(req, now).value, atLookup.keys[r.value.0]) == Ok(r.value.1)
    ensures r.Ok? ==>
      n.tasks[t] == Proven(Claim(req, Shape(req, now).value, now, r.value.0, atLookup.keys[r.value.0]), r.value.1)
  {
    LeadsNowhere(p, s);
    hide CheckSource, Prove, Shape, Leads, AuthRuns.Next;
    var timestamp := Shape(req, now);
    ShapeSays(req, now);
    n := Shapes(p, s, s, t, req, now);
    if timestamp.Err? { return Err(timestamp.error), n; }
    if !atLookup.reachable {
      n := Looks(p, s, n, t, atLookup, 0);
      return Err(DbError), n;
    }
    var keyHash := p.hash(req.apiKey.value);
    var id: Id;
    if k :| k in atLookup.keys && atLookup.keys[k].keyHash == keyHash {
      id := k;
    } else {
      n := Looks(p, s, n, t, atLookup, 0);
      return Err(Unauthorized), n;
    }
    assert Holds(p, req, atLookup, id);
    n := Looks(p, s, n, t, atLookup, id);
    var proof := Prove(p, req, timestamp.value, atLookup.keys[id]);
    n := Proves(p, s, n, t);
    if proof.Err? { return Err(proof.error), n; }
    return Ok((id, proof.value)), n;
  }

  /** The guard's part: the proven signature is looked up and recorded. */
  method Spend(p: Primitives, guard: Replay.ReplayGuard, id: Replay.SignatureId, instant: nat,
               ghost origin: State, ghost s: State, ghost t: nat)
    returns (first: bool, ghost n: State)
    requires guard.Valid() && instant >= guard.clock && s.seen == guard.seen
    requires Leads(p, origin, s) && t in s.tasks && s.tasks[t].Proven?
    requires id == Replay.SignatureId(s.tasks[t].claim.id, s.tasks[t].digest)
    modifies guard
    ensures guard.Valid()
    ensures first <==> !Replay.UsedWithin(old(guard.history), id, instant, guard.window)
    ensures guard.history == if first then old(guard.history) + [Replay.Acceptance(id, instant)] else old(guard.history)
    ensures Leads(p, origin, n)
    ensures n == To(s, t, if first then Used(s.tasks[t].claim, s.tasks[t].digest) else Ended).(seen := guard.seen)
  {
    hide Leads, AuthRuns.Next, Replay.UsedWithin;
    first := guard.CheckAndRecord(id, instant);
    ghost var pruned := Replay.Pruned(old(guard.Kept()), guard.window, instant).seen;
    Replay.PruneSweeps(old(guard.Kept()), guard.window, instant);
    n := SpendsPruned(p, origin, s, t, first, pruned, instant + guard.window);
  }

  lemma SpendsPruned(p: Primitives, origin: State, s: State, t: nat, first: bool,
                     kept: map<Replay.SignatureId, Replay.Instant>, expires: nat) returns (n: State)
    requires Leads(p, origin, s) && t in s.tasks && s.tasks[t].Proven?
    requires s.seen - (s.seen.Keys - kept.Keys) == kept
    ensures Leads(p, origin, n)
    ensures var id := Replay.SignatureId(s.tasks[t].claim.id, s.tasks[t].digest);
      n == To(s, t, if first then Used(s.tasks[t].claim, s.tasks[t].digest) else Ended).(
             seen := if first then kept[id := expires] else kept)
  {
    hide Leads, AuthRuns.Next;
    n := Spends(p, origin, s, t, first, s.seen.Keys - kept.Keys, expires);
  }

  /** `auth_middleware`, with a run of the steps as its witness. */
  method AuthMiddleware(p: Primitives, pin: MasterPin, guard: Replay.ReplayGuard, req: Request, now: int, instant: nat,
                        atLookup: Db, atCount: Db, atIndex: Db, ghost s: State, ghost t: nat)
    returns (r: Result<(Id, KeyRow), Refusal>, ghost n: State)
    requires guard.Valid() && instant >= guard.clock
    requires s.pin == pin.cell && s.seen == guard.seen && t !in s.tasks
    modifies pin, guard
    ensures guard.Valid()
    ensures Answers(p, req, now, atLookup, instant, guard.window, old(guard.history), guard.history, pin.cell, r)
    ensures old(pin.cell).Some? || r.Err? ==> pin.cell == old(pin.cell)
    ensures pin.cell != old(pin.cell) ==>
      Establish(atCount, atIndex).Ok? && pin.cell == Some(Establish(atCount, atIndex).value)
    ensures r.Ok? && r.value.1.isMaster ==> pin.cell == Some(r.value.0)
    ensures Leads(p, s, n) && n.pin == pin.cell && n.seen == guard.seen
    ensures t in n.tasks && n.tasks == s.tasks[t := n.tasks[t]]
    ensures Ends(p, req, now, atLookup, n.tasks[t], old(pin.cell).Some?, r)
  {
    hide CheckSource, Prove, Shape, Replay.UsedWithin, Leads, Establish, AuthRuns.Next, Answers, Identifies,
         Replay.Remembers;
    var identified, proven := Identify(p, req, now, atLookup, s, t);
    n := proven;
    if identified.Err? {
      RefusedBeforeTheGuard(p, req, now, atLookup, instant, guard.window, guard.history, pin.cell, identified.error);
      return Err(identified.error), n;
    }
    var (id, digest) := identified.value;
    var found := atLookup.keys[id];
    var first, spent := Spend(p, guard, Replay.SignatureId(id, digest), instant, s, n, t);
    n := spent;
    if !first {
      r := Err(Unauthorized);
    } else {
      var source := CheckSource(p, found, req.clientIp);
      n := Binds(p, s, n, t);
      if source.Some? {
        r := Err(source.value);
      } else {
        n := Pins(p, s, n, t, atCount, atIndex);
        var effective := pin.Authenticate(id, found, atCount, atIndex);
        r := Ok((id, effective));
      }
    }
    DecidedAtTheGuard(p, req, now, atLookup, id, instant, guard.window, old(guard.history), guard.history, pin.cell, r);
  }

  // ---------- Authenticate, then authorize ----------

  /** The request proved possession of the row's secret, and used that proof up. */
  ghost predicate Spent(p: Primitives, req: Request, timestamp: string, who: Subject, instant: nat, window: nat,
                        before: seq<Replay.Acceptance>, after: seq<Replay.Acceptance>)
    requires req.signature.Some?
  {
    var proof := Prove(p, req, timestamp, who.row);
    proof.Ok? && !Replay.UsedWithin(before, Replay.SignatureId(who.id, proof.value), instant, window)
    && after == before + [Replay.Acceptance(Replay.SignatureId(who.id, proof.value), instant)]
  }

  /** A refusal for the source network is given only to a caller that held a key, signed with its secret, and
      spent that signature on the answer. */
  lemma ForbiddenOnlyAfterProof(p: Primitives, req: Request, now: int, db: Db, instant: nat, window: nat,
                                before: seq<Replay.Acceptance>, after: seq<Replay.Acceptance>, cell: Option<Id>)
    requires Answers(p, req, now, db, instant, window, before, after, cell, Err(Forbidden))
    ensures Shape(req, now).Ok? && req.signature.Some?
    ensures exists id :: Holds(p, req, db, id)
                         && Spent(p, req, Shape(req, now).value, Subject(id, db.keys[id]),
                                  instant, window, before, after)
  {
    ShapeSays(req, now);
    hide Shape, CheckSource, Replay.UsedWithin;
    var id :| Holds(p, req, db, id)
      && Decides(p, req, Shape(req, now).value, Subject(id, db.keys[id]),
                 instant, window, before, after, cell, Err(Forbidden));
    assert Holds(p, req, db, id);
  }

  /** Two databases that differ in nothing but the keys' networks. */
  ghost predicate SameButBindings(d: Db, e: Db) {
    && d.reachable == e.reachable && d.keys.Keys == e.keys.Keys
    && forall k :: k in d.keys ==> d.keys[k].(boundIps := None) == e.keys[k].(boundIps := None)
  }

  /** The request proves nothing the guard would still accept. */
  ghost predicate Unproven(p: Primitives, req: Request, now: int, db: Db, instant: nat, window: nat,
                           before: seq<Replay.Acceptance>) {
    Shape(req, now).Ok? && req.signature.Some? ==> forall id :: Holds(p, req, db, id) ==>
      var proof := Prove(p, req, Shape(req, now).value, db.keys[id]);
      proof.Err? || Replay.UsedWithin(before, Replay.SignatureId(id, proof.value), instant, window)
  }

  lemma SameProofs(p: Primitives, req: Request, timestamp: string, d: Db, e: Db)
    requires SameButBindings(d, e) && req.signature.Some?
    ensures forall id: Id :: Holds(p, req, d, id) <==> Holds(p, req, e, id)
    ensures forall id: Id :: Holds(p, req, d, id) ==>
      Prove(p, req, timestamp, d.keys[id]) == Prove(p, req, timestamp, e.keys[id])
  {
    forall id: Id | id in d.keys
      ensures Holds(p, req, d, id) <==> Holds(p, req, e, id)
      ensures Prove(p, req, timestamp, d.keys[id]) == Prove(p, req, timestamp, e.keys[id])
    {
      assert d.keys[id].(boundIps := None) == e.keys[id].(boundIps := None);
    }
  }

  lemma AnswersCarryOver(p: Primitives, req: Request, now: int, d: Db, e: Db, instant: nat, window: nat,
                         before: seq<Replay.Acceptance>, after: seq<Replay.Acceptance>, cell: Option<Id>,
                         r: Result<(Id, KeyRow), Refusal>)
    requires SameButBindings(d, e) && Unproven(p, req, now, d, instant, window, before)
    requires Answers(p, req, now, d, instant, window, before, after, cell, r)
    ensures Answers(p, req, now, e, instant, window, before, after, cell, r) && after == before
  {
    ShapeSays(req, now);
    if Shape(req, now).Ok? {
      SameProofs(p, req, Shape(req, now).value, d, e);
    }
    hide Shape, Prove, CheckSource, Replay.UsedWithin, Holds;
  }

  /** And to any other caller a key's network makes no difference: whatever answer one database may give to a
      request that proves nothing, so may the other. */
  lemma BindingIsInvisibleWithoutProof(p: Primitives, req: Request, now: int, d: Db, e: Db, instant: nat, window: nat,
                                       before: seq<Replay.Acceptance>, after: seq<Replay.Acceptance>, cell: Option<Id>,
                                       r: Result<(Id, KeyRow), Refusal>)
    requires SameButBindings(d, e) && Unproven(p, req, now, d, instant, window, before)
    ensures Answers(p, req, now, d, instant, window, before, after, cell, r)
       <==> Answers(p, req, now, e, instant, window, before, after, cell, r)
  {
    hide Answers;
    UnprovenCarriesOver(p, req, now, d, e, instant, window, before);
    if Answers(p, req, now, d, instant, window, before, after, cell, r) {
      AnswersCarryOver(p, req, now, d, e, instant, window, before, after, cell, r);
    }
    if Answers(p, req, now, e, instant, window, before, after, cell, r) {
      AnswersCarryOver(p, req, now, e, d, instant, window, before, after, cell, r);
    }
  }

  lemma UnprovenCarriesOver(p: Primitives, req: Request, now: int, d: Db, e: Db, instant: nat, window: nat,
                            before: seq<Replay.Acceptance>)
    requires SameButBindings(d, e) && Unproven(p, req, now, d, instant, window, before)
    ensures Unproven(p, req, now, e, instant, window, before) && SameButBindings(e, d)
  {
    if Shape(req, now).Ok? && req.signature.Some? {
      SameProofs(p, req, Shape(req, now).value, d, e);
    }
    hide Shape, Prove, Replay.UsedWithin, Holds;
  }

  // ---------- A request made as it should be ----------

  /** What a client sends that holds a key and its secret. */
  function SignedRequest(p: Primitives, httpMethod: string, target: string, body: string, stamp: nat, apiKey: string,
                         secret: string, from: Ip): Request
  {
    var message := Templates.CanonicalV1(httpMethod, target, Decimal(stamp), body);
    Request(httpMethod, target, Some(body), Some(Decimal(stamp)), Some(apiKey),
            Some("sha256=" + Signatures.HexEncode(p.mac(secret, message))), from)
  }

  lemma {:induction false} DecimalIsDigits(n: nat)
    ensures forall i :: 0 <= i < |Decimal(n)| ==> '0' <= Decimal(n)[i] <= '9'
  {
    if n >= 10 { DecimalIsDigits(n / 10); }
  }

  lemma StampPasses(stamp: nat, now: int)
    requires now - 300 <= stamp <= now + 300 && stamp <= 0x7FFF_FFFF_FFFF_FFFF
    ensures ValidateTimestamp(Some(Decimal(stamp)), now) == Ok(Decimal(stamp))
  {
    DecimalIsDigits(stamp);
    Signatures.TrimNothing(Decimal(stamp));
    DecimalIsParsed(stamp);
    FreshnessIsTwoSided(Some(Decimal(stamp)), now);
    hide ParseI64, Decimal;
  }

  lemma DigitIsVisible(n: nat)
    requires n < 16
    ensures ' ' <= Signatures.Digit(n) <= '~'
  {
  }

  lemma {:induction false} HexIsVisible(bytes: seq<Replay.Byte>)
    ensures Visible(Signatures.HexEncode(bytes))
  {
    if bytes != [] {
      HexIsVisible(bytes[1..]);
      var code := Signatures.HexEncode(bytes);
      var pair, rest := [Signatures.Digit(bytes[0] / 16), Signatures.Digit(bytes[0] % 16)], code[2..];
      assert rest == Signatures.HexEncode(bytes[1..]) && code == pair + rest;
      DigitIsVisible(bytes[0] / 16);
      DigitIsVisible(bytes[0] % 16);
      hide Signatures.HexEncode, Signatures.Digit;
      assert Visible(pair) && Visible(rest);
      VisibleTogether(pair, rest);
    }
  }

  lemma VisibleTogether(a: string, b: string)
    requires Visible(a) && Visible(b)
    ensures Visible(a + b)
  {
  }

  lemma SignaturePasses(p: Primitives, req: Request, secret: string, message: string)
    requires req.signature == Some("sha256=" + Signatures.HexEncode(p.mac(secret, message)))
    ensures HeaderText(req.signature).Some? && Signatures.SIGNATURE_PREFIX <= Text.Trim(req.signature.value)
    ensures Signatures.VerifySignature(p.mac, secret, message, req.signature.value) == Some(p.mac(secret, message))
  {
    Signatures.ComputedSignatureVerifies(p.mac, secret, message);
    HexIsVisible(p.mac(secret, message));
    hide Signatures.HexEncode, Signatures.HexDecode, Text.Trim;
    assert req.signature.value == Signatures.ComputeSignature(p.mac, secret, message);
    VisibleTogether("sha256=", Signatures.HexEncode(p.mac(secret, message)));
  }

  /** A request signed with the key's secret and stamped within 300 seconds, by the holder of an unbound key and
      not sent before within the guard's window, is let through as that key, and its signature is spent. */
  lemma HonestRequestsPass(p: Primitives, httpMethod: string, target: string, body: string, stamp: nat, apiKey: string,
                           secret: string, from: Ip, now: int, db: Db, id: Id, instant: nat, window: nat,
                           before: seq<Replay.Acceptance>, after: seq<Replay.Acceptance>, cell: Option<Id>,
                           r: Result<(Id, KeyRow), Refusal>)
    requires now - 300 <= stamp <= now + 300 && stamp <= 0x7FFF_FFFF_FFFF_FFFF && Visible(apiKey)
    requires db.reachable && id in db.keys && db.keys[id].boundIps.None?
    requires forall k: Id :: k in db.keys ==> (db.keys[k].keyHash == p.hash(apiKey) <==> k == id)
    requires db.keys[id].signingSecret.Some? && p.open(db.keys[id].signingSecret.value) == Some(secret)
    ensures var message := Templates.CanonicalV1(httpMethod, target, Decimal(stamp), body);
      var s := Replay.SignatureId(id, p.mac(secret, message));
      (forall h :: h in before && h.id == s ==> h.at + window <= instant) ==>
        (Answers(p, SignedRequest(p, httpMethod, target, body, stamp, apiKey, secret, from), now, db, instant, window,
                 before, after, cell, r)
         <==> && after == before + [Replay.Acceptance(s, instant)]
              && r == Ok((id, db.keys[id].(isMaster := db.keys[id].isMaster && cell == Some(id)))))
  {
    var req := SignedRequest(p, httpMethod, target, body, stamp, apiKey, secret, from);
    var message := Templates.CanonicalV1(httpMethod, target, Decimal(stamp), body);
    StampPasses(stamp, now);
    SignaturePasses(p, req, secret, message);
    assert Shape(req, now) == Ok(Decimal(stamp));
    assert Prove(p, req, Decimal(stamp), db.keys[id]) == Ok(p.mac(secret, message));
    assert CheckSource(p, db.keys[id], from) == None by { UnboundIsAnywhere(p, db.keys[id], from); }
    hide Shape, Prove, CheckSource, Decimal, Templates.CanonicalV1, ValidateTimestamp, Signatures.VerifySignature;
    assert forall k: Id :: Holds(p, req, db, k) <==> k == id;
    SoleHolderDecides(p, req, now, db, id, instant, window, before, after, cell, r);
    hide Holds, Answers;
  }

  lemma SoleHolderDecides(p: Primitives, req: Request, now: int, db: Db, id: Id, instant: nat, window: nat,
                          before: seq<Replay.Acceptance>, after: seq<Replay.Acceptance>, cell: Option<Id>,
                          r: Result<(Id, KeyRow), Refusal>)
    requires Shape(req, now).Ok? && db.reachable && id in db.keys
    requires forall k: Id :: Holds(p, req, db, k) <==> k == id
    ensures Answers(p, req, now, db, instant, window, before, after, cell, r) <==>
      Decides(p, req, Shape(req, now).value, Subject(id, db.keys[id]), instant, window, before, after, cell, r)
  {
    assert Holds(p, req, db, id);
    hide Shape, Decides;
  }

  lemma UnboundIsAnywhere(p: Primitives, row: KeyRow, ip: Ip)
    requires row.boundIps.None?
    ensures CheckSource(p, row, ip) == None
  {
    assert Text.Split("", ',') == [""] && [""][1..] == [] && Text.Trim("") == "";
    assert Networks([""], p.parseNetwork) == Some([]);
  }
}
