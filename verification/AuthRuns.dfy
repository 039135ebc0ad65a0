/** Authentication under any interleaving (src/middleware.rs, src/master.rs): requests, boots and anyone's
    edits of the database, a step being what one task does between two points where others run. */
module AuthRuns {
  import opened Common
  import opened Addresses
  import opened ClientIp
  import opened Authentication
  import Replay
  import Signatures
  import Text

  /** A credential matched to a row. */
  datatype Claim = Claim(req: Request, timestamp: string, at: int, id: Id, row: KeyRow)

  /** How far resolving the pin has come: one query, then the other, then the write. */
  datatype Stage = ToCount | ToIndex(only: Id) | ToSet(only: Id)

  /** A task between two points where others run. `saw`: the pin was already set when this request looked. */
  datatype Progress =
    | Arrived(req: Request)
    | Shaped(req: Request, timestamp: string, at: int)
    | Found(claim: Claim)
    | Proven(claim: Claim, digest: Digest)
    | Used(claim: Claim, digest: Digest)
    | Allowed(claim: Claim, digest: Digest)
    | Resolving(claim: Claim, digest: Digest, stage: Stage)
    | Booting(stage: Stage)
    | Handled(claim: Claim, digest: Digest, isMaster: bool, saw: bool)
    | Ended

  /** A signature that verified, for the record. */
  datatype Proof = Proof(claim: Claim, digest: Digest)

  datatype State = State(
    db: Db, pin: Option<Id>, seen: map<Replay.SignatureId, Replay.Instant>, tasks: map<nat, Progress>,
    proofs: seq<Proof>)

  /** `Edit` is anyone writing to the database, by whatever means. `Use` leaves to the guard which old
      entries it has swept and whether this is a first use. */
  datatype Step =
    | Edit(db: Db)
    | Arrive(task: nat, req: Request)
    | CheckShape(task: nat, now: int)
    | LookUp(task: nat, id: Id)
    | CheckProof(task: nat)
    | Use(task: nat, first: bool, swept: set<Replay.SignatureId>, expires: Replay.Instant)
    | CheckBinding(task: nat)
    | Boot(task: nat)
    | ReadCell(task: nat)
    | CountMasters(task: nat)
    | CheckIndex(task: nat)
    | SetCell(task: nat)

  function To(s: State, task: nat, p: Progress): State { s.(tasks := s.tasks[task := p]) }

  /** A task whose pin resolution ends without one: a request goes on demoted, boot fails. */
  function Unresolved(p: Progress): Progress
    requires p.Resolving? || p.Booting?
  {
    if p.Resolving? then Handled(p.claim, p.digest, false, false) else Ended
  }

  function AtStage(p: Progress, stage: Stage): Progress
    requires p.Resolving? || p.Booting?
  {
    if p.Resolving? then Resolving(p.claim, p.digest, stage) else Booting(stage)
  }

  function StageOf(s: State, task: nat): Option<Stage> {
    if task in s.tasks && (s.tasks[task].Resolving? || s.tasks[task].Booting?) then Some(s.tasks[task].stage) else None
  }

  ghost function Next(p: Primitives, s: State, step: Step): State {
    match step
    case Edit(db) => s.(db := db)
    case Arrive(task, req) => if task in s.tasks then s else To(s, task, Arrived(req))
    case CheckShape(task, now) =>
      if task in s.tasks && s.tasks[task].Arrived? then
        var req := s.tasks[task].req;
        var shape := Shape(req, now);
        To(s, task, if shape.Ok? then Shaped(req, shape.value, now) else Ended)
      else s
    case LookUp(task, id) =>
      if task in s.tasks && s.tasks[task].Shaped? then
        var now := s.tasks[task];
        if Holds(p, now.req, s.db, id) then To(s, task, Found(Claim(now.req, now.timestamp, now.at, id, s.db.keys[id])))
        else if exists k :: Holds(p, now.req, s.db, k) then s
        else To(s, task, Ended)
      else s
    case CheckProof(task) =>
      if task in s.tasks && s.tasks[task].Found? && s.tasks[task].claim.req.signature.Some? then
        var c := s.tasks[task].claim;
        var proof := Prove(p, c.req, c.timestamp, c.row);
        if proof.Ok? then To(s, task, Proven(c, proof.value)).(proofs := s.proofs + [Proof(c, proof.value)])
        else To(s, task, Ended)
      else s
    case Use(task, first, swept, expires) =>
      if task in s.tasks && s.tasks[task].Proven? then
        var now := s.tasks[task];
        var kept := s.seen - swept;
        if first then
          To(s, task, Used(now.claim, now.digest))
            .(seen := kept[Replay.SignatureId(now.claim.id, now.digest) := expires])
        else To(s, task, Ended).(seen := kept)
      else s
    case CheckBinding(task) =>
      if task in s.tasks && s.tasks[task].Used? then
        var now := s.tasks[task];
        To(s, task, if CheckSource(p, now.claim.row, now.claim.req.clientIp).None? then Allowed(now.claim, now.digest)
               else Ended)
      else s
    case Boot(task) =>
      if task in s.tasks then s else To(s, task, if s.pin.Some? then Ended else Booting(ToCount))
    case ReadCell(task) =>
      if task in s.tasks && s.tasks[task].Allowed? then
        var (c, digest) := (s.tasks[task].claim, s.tasks[task].digest);
        To(s, task, if !c.row.isMaster then Handled(c, digest, false, s.pin.Some?)
                    else if s.pin.Some? then Handled(c, digest, s.pin.value == c.id, true)
                    else Resolving(c, digest, ToCount))
      else s
    case CountMasters(task) =>
      if StageOf(s, task).Some? && StageOf(s, task).value.ToCount? then
        var sole := SoleMaster(s.db);
        To(s, task, if sole.Ok? then AtStage(s.tasks[task], ToIndex(sole.value)) else Unresolved(s.tasks[task]))
      else s
    case CheckIndex(task) =>
      if StageOf(s, task).Some? && StageOf(s, task).value.ToIndex? then
        To(s, task, if s.db.reachable && s.db.hasIndex then AtStage(s.tasks[task], ToSet(s.tasks[task].stage.only))
                    else Unresolved(s.tasks[task]))
      else s
    case SetCell(task) =>
      if StageOf(s, task).Some? && StageOf(s, task).value.ToSet? then
        var now := s.tasks[task];
        To(s, task, if now.Resolving? then Handled(now.claim, now.digest, now.stage.only == now.claim.id, false)
                    else Ended)
          .(pin := if s.pin.Some? then s.pin else Some(now.stage.only))
      else s
  }

  ghost function Run(p: Primitives, s: State, steps: seq<Step>): State {
    if steps == [] then s else Next(p, Run(p, s, steps[..|steps| - 1]), steps[|steps| - 1])
  }

  function Start(db: Db): State { State(db, None, map[], map[], []) }

  // ---------- What every task has been through ----------

  ghost predicate Matched(p: Primitives, c: Claim) {
    && Shape(c.req, c.at) == Ok(c.timestamp)
    && c.req.apiKey.Some? && c.row.keyHash == p.hash(c.req.apiKey.value)
  }

  ghost predicate Signed(p: Primitives, c: Claim, digest: Digest) {
    Matched(p, c) && c.req.signature.Some? && Prove(p, c.req, c.timestamp, c.row) == Ok(digest)
  }

  ghost predicate Admitted(p: Primitives, c: Claim, digest: Digest) {
    Signed(p, c, digest) && CheckSource(p, c.row, c.req.clientIp).None?
  }

  ghost predicate TaskSound(p: Primitives, pin: Option<Id>, t: Progress) {
    match t
    case Arrived(_) => true
    case Shaped(req, timestamp, at) => Shape(req, at) == Ok(timestamp)
    case Found(c) => Matched(p, c)
    case Proven(c, digest) => Signed(p, c, digest)
    case Used(c, digest) => Signed(p, c, digest)
    case Allowed(c, digest) => Admitted(p, c, digest)
    case Resolving(c, digest, _) => Admitted(p, c, digest) && c.row.isMaster
    case Booting(_) => true
    case Handled(c, digest, isMaster, saw) =>
      Admitted(p, c, digest) && (isMaster ==> c.row.isMaster && (saw ==> pin == Some(c.id)))
    case Ended => true
  }

  /** Verified under the key the entry names. */
  ghost predicate Vouched(p: Primitives, proofs: seq<Proof>, id: Replay.SignatureId) {
    exists i :: 0 <= i < |proofs| && proofs[i].claim.id == id.keyId && proofs[i].digest == id.digest
      && Signed(p, proofs[i].claim, proofs[i].digest)
  }

  ghost predicate Sound(p: Primitives, s: State) {
    && (forall t :: t in s.tasks ==> TaskSound(p, s.pin, s.tasks[t]))
    && ProvenVouched(p, s) && SeenVouched(p, s)
  }

  lemma VouchedStays(p: Primitives, proofs: seq<Proof>, more: Proof, id: Replay.SignatureId)
    ensures Vouched(p, proofs, id) ==> Vouched(p, proofs + [more], id)
  {
    if Vouched(p, proofs, id) {
      var i :| 0 <= i < |proofs| && proofs[i].claim.id == id.keyId && proofs[i].digest == id.digest
               && Signed(p, proofs[i].claim, proofs[i].digest);
      assert (proofs + [more])[i] == proofs[i];
    }
  }

  lemma VouchedNow(p: Primitives, proofs: seq<Proof>, c: Claim, digest: Digest)
    requires Signed(p, c, digest)
    ensures Vouched(p, proofs + [Proof(c, digest)], Replay.SignatureId(c.id, digest))
  {
    assert (proofs + [Proof(c, digest)])[|proofs|] == Proof(c, digest);
  }

  /** The step's own task stays sound. */
  lemma NextTaskSound(p: Primitives, s: State, step: Step, t: nat)
    requires Sound(p, s) && t in Next(p, s, step).tasks
    ensures TaskSound(p, Next(p, s, step).pin, Next(p, s, step).tasks[t])
  {
    hide Prove, CheckSource, SoleMaster, Vouched, Shape;
    if t in s.tasks { assert TaskSound(p, s.pin, s.tasks[t]); }
    if step.CheckShape? || step.CheckProof? {
      if t in s.tasks && s.tasks[t].Found? { ShapeSays(s.tasks[t].claim.req, s.tasks[t].claim.at); }
    }
    if step.LookUp? && t in s.tasks && s.tasks[t].Shaped? { ShapeSays(s.tasks[t].req, s.tasks[t].at); }
  }

  lemma NextVouched(p: Primitives, s: State, step: Step)
    requires Sound(p, s)
    ensures var n := Next(p, s, step);
      forall id :: Vouched(p, s.proofs, id) ==> Vouched(p, n.proofs, id)
  {
    hide Prove, CheckSource, SoleMaster, Vouched, Shape, TaskSound;
    var n := Next(p, s, step);
    if n.proofs != s.proofs {
      forall id | Vouched(p, s.proofs, id) ensures Vouched(p, n.proofs, id) {
        VouchedStays(p, s.proofs, n.proofs[|s.proofs|], id);
      }
    }
  }

  ghost predicate ProvenVouched(p: Primitives, s: State) {
    forall t :: t in s.tasks && s.tasks[t].Proven? ==>
      Vouched(p, s.proofs, Replay.SignatureId(s.tasks[t].claim.id, s.tasks[t].digest))
  }

  ghost predicate SeenVouched(p: Primitives, s: State) { forall id :: id in s.seen ==> Vouched(p, s.proofs, id) }

  lemma NextProvenVouched(p: Primitives, s: State, step: Step)
    requires Sound(p, s)
    ensures ProvenVouched(p, Next(p, s, step))
  {
    hide Prove, CheckSource, SoleMaster, Vouched, Shape, Holds, SeenVouched;
    var n := Next(p, s, step);
    NextVouched(p, s, step);
    if step.CheckProof? && n.proofs != s.proofs {
      assert TaskSound(p, s.pin, s.tasks[step.task]);
      VouchedNow(p, s.proofs, s.tasks[step.task].claim, n.tasks[step.task].digest);
    }
  }

  lemma NextSeenVouched(p: Primitives, s: State, step: Step)
    requires Sound(p, s)
    ensures SeenVouched(p, Next(p, s, step))
  {
    hide Prove, CheckSource, SoleMaster, Vouched, Shape, Holds, TaskSound;
    NextVouched(p, s, step);
  }

  lemma NextIsSound(p: Primitives, s: State, step: Step)
    requires Sound(p, s)
    ensures Sound(p, Next(p, s, step))
  {
    var n := Next(p, s, step);
    forall t | t in n.tasks ensures TaskSound(p, n.pin, n.tasks[t]) { NextTaskSound(p, s, step, t); }
    NextProvenVouched(p, s, step);
    NextSeenVouched(p, s, step);
    hide Next, TaskSound, ProvenVouched, SeenVouched;
  }

  lemma {:induction false} RunIsSound(p: Primitives, db: Db, steps: seq<Step>)
    ensures Sound(p, Run(p, Start(db), steps))
    decreases |steps|
  {
    if steps != [] {
      RunIsSound(p, db, steps[..|steps| - 1]);
      NextIsSound(p, Run(p, Start(db), steps[..|steps| - 1]), steps[|steps| - 1]);
    }
  }

  /** Over any run of requests, boots and database edits, interleaved at will: every entry of the replay
      guard comes from a signature that verified under the key it names. */
  lemma ReplayEntriesAreVerified(p: Primitives, db: Db, steps: seq<Step>, id: Replay.SignatureId)
    requires id in Run(p, Start(db), steps).seen
    ensures Vouched(p, Run(p, Start(db), steps).proofs, id)
  {
    RunIsSound(p, db, steps);
  }

  /** And every request a handler sees was fresh when it was read, presented the key's credential, proved
      possession of the key's secret, came from an allowed network, and acts as master only if its row said
      so and, when the pin was there to look at, only as the pinned key. */
  lemma HandlersSeeOnlyProvenCallers(p: Primitives, db: Db, steps: seq<Step>, t: nat)
    requires var s := Run(p, Start(db), steps); t in s.tasks && s.tasks[t].Handled?
    ensures var s := Run(p, Start(db), steps);
      var (c, isMaster) := (s.tasks[t].claim, s.tasks[t].isMaster);
      && Admitted(p, c, s.tasks[t].digest)
      && (isMaster ==> c.row.isMaster && (s.tasks[t].saw ==> s.pin == Some(c.id)))
  {
    RunIsSound(p, db, steps);
  }

  // ---------- The pin over a run ----------

  lemma {:induction false} PinNeverMoves(p: Primitives, s: State, steps: seq<Step>)
    ensures s.pin.Some? ==> Run(p, s, steps).pin == s.pin
    decreases |steps|
  {
    hide Shape, Prove, CheckSource, SoleMaster, Holds;
    if steps != [] { PinNeverMoves(p, s, steps[..|steps| - 1]); }
  }

  /** Pinned, with no request left that looked at the cell while it was empty. */
  ghost predicate Settled(s: State, pinned: Id) {
    && s.pin == Some(pinned)
    && (forall t :: t in s.tasks ==> !s.tasks[t].Resolving?)
    && (forall t :: t in s.tasks && s.tasks[t].Handled? && s.tasks[t].isMaster ==> s.tasks[t].claim.id == pinned)
  }

  lemma NextStaysSettled(p: Primitives, s: State, step: Step, pinned: Id)
    requires Settled(s, pinned)
    ensures Settled(Next(p, s, step), pinned)
  {
    hide Shape, Prove, CheckSource, SoleMaster, Holds;
  }

  /** Once the pin is set and the requests that found it empty are through, nobody but the pinned key ever
      acts as master again, whatever is written to the database. Pinning before the first request is served
      makes that every request. */
  lemma {:induction false} OnlyThePinnedKeyIsMaster(p: Primitives, s: State, steps: seq<Step>, pinned: Id)
    requires Settled(s, pinned)
    ensures Settled(Run(p, s, steps), pinned)
    decreases |steps|
  {
    if steps != [] {
      OnlyThePinnedKeyIsMaster(p, s, steps[..|steps| - 1], pinned);
      hide Next, Settled;
      NextStaysSettled(p, Run(p, s, steps[..|steps| - 1]), steps[|steps| - 1], pinned);
    }
  }

  ghost predicate Leads(p: Primitives, s: State, n: State) { exists steps :: Run(p, s, steps) == n }

  lemma LeadsNext(p: Primitives, s: State, n: State, step: Step)
    requires Leads(p, s, n)
    ensures Leads(p, s, Next(p, n, step))
  {
    var steps :| Run(p, s, steps) == n;
    assert (steps + [step])[..|steps|] == steps;
    assert Run(p, s, steps + [step]) == Next(p, n, step);
  }

  // ---------- Single steps and stretches of a run ----------

  lemma Shapes(p: Primitives, origin: State, s: State, t: nat, req: Request, now: int) returns (n: State)
    requires Leads(p, origin, s) && t !in s.tasks
    ensures Leads(p, origin, n)
    ensures n == To(s, t, if Shape(req, now).Ok? then Shaped(req, Shape(req, now).value, now) else Ended)
  {
    hide Leads, Run, Shape;
    LeadsNext(p, origin, s, Arrive(t, req));
    var s1 := Next(p, s, Arrive(t, req));
    LeadsNext(p, origin, s1, CheckShape(t, now));
    n := Next(p, s1, CheckShape(t, now));
    assert n.tasks == s.tasks[t := n.tasks[t]];
  }

  /** The lookup, against the database as it is then. */
  lemma Looks(p: Primitives, origin: State, s: State, t: nat, db: Db, id: Id) returns (n: State)
    requires Leads(p, origin, s) && t in s.tasks && s.tasks[t].Shaped?
    requires var req := s.tasks[t].req; Holds(p, req, db, id) || !exists k :: Holds(p, req, db, k)
    ensures Leads(p, origin, n)
    ensures var now := s.tasks[t];
      n == To(s.(db := db), t, if Holds(p, now.req, db, id)
                                then Found(Claim(now.req, now.timestamp, now.at, id, db.keys[id]))
                               else Ended)
  {
    hide Leads, Run;
    LeadsNext(p, origin, s, Edit(db));
    var s1 := Next(p, s, Edit(db));
    LeadsNext(p, origin, s1, LookUp(t, id));
    n := Next(p, s1, LookUp(t, id));
  }

  lemma Proves(p: Primitives, origin: State, s: State, t: nat) returns (n: State)
    requires Leads(p, origin, s) && t in s.tasks && s.tasks[t].Found? && s.tasks[t].claim.req.signature.Some?
    ensures Leads(p, origin, n)
    ensures var c := s.tasks[t].claim;
      var proof := Prove(p, c.req, c.timestamp, c.row);
      n == To(s, t, if proof.Ok? then Proven(c, proof.value) else Ended).(proofs := n.proofs)
  {
    hide Leads, Run, Prove;
    LeadsNext(p, origin, s, CheckProof(t));
    n := Next(p, s, CheckProof(t));
  }

  lemma Spends(p: Primitives, origin: State, s: State, t: nat, first: bool, swept: set<Replay.SignatureId>,
               expires: Replay.Instant)
    returns (n: State)
    requires Leads(p, origin, s) && t in s.tasks && s.tasks[t].Proven?
    ensures Leads(p, origin, n)
    ensures var (c, digest) := (s.tasks[t].claim, s.tasks[t].digest);
      n == To(s, t, if first then Used(c, digest) else Ended)
             .(seen := s.seen - swept + if first then map[Replay.SignatureId(c.id, digest) := expires] else map[])
  {
    hide Leads, Run;
    LeadsNext(p, origin, s, Use(t, first, swept, expires));
    n := Next(p, s, Use(t, first, swept, expires));
    var (c, digest) := (s.tasks[t].claim, s.tasks[t].digest);
    assert n.seen == s.seen - swept + if first then map[Replay.SignatureId(c.id, digest) := expires] else map[];
  }

  lemma Binds(p: Primitives, origin: State, s: State, t: nat) returns (n: State)
    requires Leads(p, origin, s) && t in s.tasks && s.tasks[t].Used?
    ensures Leads(p, origin, n)
    ensures var (c, digest) := (s.tasks[t].claim, s.tasks[t].digest);
      n == To(s, t, if CheckSource(p, c.row, c.req.clientIp).None? then Allowed(c, digest) else Ended)
  {
    hide Leads, Run, CheckSource;
    LeadsNext(p, origin, s, CheckBinding(t));
    n := Next(p, s, CheckBinding(t));
  }

  lemma ReadsEmptyCell(p: Primitives, origin: State, s: State, t: nat) returns (n: State)
    requires Leads(p, origin, s) && t in s.tasks && s.tasks[t].Allowed? && s.tasks[t].claim.row.isMaster && s.pin.None?
    ensures Leads(p, origin, n) && n == To(s, t, Resolving(s.tasks[t].claim, s.tasks[t].digest, ToCount))
  {
    hide Leads, Run;
    LeadsNext(p, origin, s, ReadCell(t));
    n := Next(p, s, ReadCell(t));
  }

  lemma SetsCell(p: Primitives, origin: State, s: State, t: nat) returns (n: State)
    requires Leads(p, origin, s) && t in s.tasks && s.tasks[t].Resolving?
    requires s.tasks[t].stage == ToSet(s.tasks[t].claim.id)
    ensures Leads(p, origin, n)
    ensures n == To(s, t, Handled(s.tasks[t].claim, s.tasks[t].digest, true, false)).(pin := n.pin)
  {
    hide Leads, Run;
    LeadsNext(p, origin, s, SetCell(t));
    n := Next(p, s, SetCell(t));
  }

  /** Both queries of one request, against one state of the database. */
  lemma ResolvesTo(p: Primitives, origin: State, s: State, t: nat, db: Db, only: Id) returns (n: State)
    requires Leads(p, origin, s) && t in s.tasks && s.tasks[t].Resolving? && s.tasks[t].stage.ToCount?
    requires SoleMaster(db) == Ok(only) && db.hasIndex
    ensures n == s.(db := db, tasks := s.tasks[t := Resolving(s.tasks[t].claim, s.tasks[t].digest, ToSet(only))])
    ensures Leads(p, origin, n)
  {
    assert db.reachable;
    hide SoleMaster, Leads, Run;
    LeadsNext(p, origin, s, Edit(db));
    var s1 := Next(p, s, Edit(db));
    LeadsNext(p, origin, s1, CountMasters(t));
    var s2 := Next(p, s1, CountMasters(t));
    LeadsNext(p, origin, s2, CheckIndex(t));
    n := Next(p, s2, CheckIndex(t));
    assert n.tasks == s.tasks[t := Resolving(s.tasks[t].claim, s.tasks[t].digest, ToSet(only))];
  }

  /** The two queries and the write, where the first finds no sole master or the second no index. */
  lemma FailsToResolve(p: Primitives, origin: State, s: State, t: nat, atCount: Db, atIndex: Db) returns (n: State)
    requires Leads(p, origin, s) && t in s.tasks && s.tasks[t].Resolving? && s.tasks[t].stage.ToCount?
    requires Establish(atCount, atIndex).Err?
    ensures Leads(p, origin, n)
    ensures n == To(s, t, Handled(s.tasks[t].claim, s.tasks[t].digest, false, false)).(db := n.db)
  {
    hide SoleMaster, Leads, Run;
    LeadsNext(p, origin, s, Edit(atCount));
    var s1 := Next(p, s, Edit(atCount));
    LeadsNext(p, origin, s1, CountMasters(t));
    n := Next(p, s1, CountMasters(t));
    if SoleMaster(atCount).Ok? {
      LeadsNext(p, origin, n, Edit(atIndex));
      var s2 := Next(p, n, Edit(atIndex));
      LeadsNext(p, origin, s2, CheckIndex(t));
      n := Next(p, s2, CheckIndex(t));
    }
    assert n.tasks == s.tasks[t := n.tasks[t]];
  }

  lemma Resolves(p: Primitives, origin: State, s: State, t: nat, atCount: Db, atIndex: Db) returns (n: State)
    requires Leads(p, origin, s) && t in s.tasks && s.tasks[t].Resolving? && s.tasks[t].stage.ToCount? && s.pin.None?
    requires Establish(atCount, atIndex).Ok?
    ensures Leads(p, origin, n)
    ensures var only := Establish(atCount, atIndex).value;
      n == To(s, t, Handled(s.tasks[t].claim, s.tasks[t].digest, only == s.tasks[t].claim.id, false))
        .(db := n.db, pin := Some(only))
  {
    hide SoleMaster, Leads, Run;
    LeadsNext(p, origin, s, Edit(atCount));
    var s1 := Next(p, s, Edit(atCount));
    LeadsNext(p, origin, s1, CountMasters(t));
    var s2 := Next(p, s1, CountMasters(t));
    LeadsNext(p, origin, s2, Edit(atIndex));
    var s3 := Next(p, s2, Edit(atIndex));
    LeadsNext(p, origin, s3, CheckIndex(t));
    var s4 := Next(p, s3, CheckIndex(t));
    LeadsNext(p, origin, s4, SetCell(t));
    n := Next(p, s4, SetCell(t));
    assert n.tasks == s.tasks[t := n.tasks[t]];
  }

  /** From the network check to the handler, whatever the pin. */
  lemma Pins(p: Primitives, origin: State, s: State, t: nat, atCount: Db, atIndex: Db) returns (n: State)
    requires Leads(p, origin, s) && t in s.tasks && s.tasks[t].Allowed?
    ensures Leads(p, origin, n)
    ensures var (c, digest) := (s.tasks[t].claim, s.tasks[t].digest);
      n == To(s, t, Handled(c, digest, c.row.isMaster && n.pin == Some(c.id), s.pin.Some?)).(db := n.db, pin := n.pin)
    ensures s.pin.Some? || !s.tasks[t].claim.row.isMaster ==> n.pin == s.pin
    ensures s.pin.None? && s.tasks[t].claim.row.isMaster ==>
      n.pin == if Establish(atCount, atIndex).Ok? then Some(Establish(atCount, atIndex).value) else None
  {
    hide Establish, Leads, Run;
    var c := s.tasks[t].claim;
    if s.pin.None? && c.row.isMaster {
      var s1 := ReadsEmptyCell(p, origin, s, t);
      hide Next;
      if Establish(atCount, atIndex).Ok? { n := Resolves(p, origin, s1, t, atCount, atIndex); }
      else { n := FailsToResolve(p, origin, s1, t, atCount, atIndex); }
      assert n.tasks == s.tasks[t := n.tasks[t]];
    } else {
      LeadsNext(p, origin, s, ReadCell(t));
      n := Next(p, s, ReadCell(t));
    }
  }

  // ---------- The pin, from the first start ----------

  /** Until a request arrives there is nothing but boots. */
  ghost predicate OnlyBoots(s: State) { forall t :: t in s.tasks ==> s.tasks[t].Booting? || s.tasks[t].Ended? }

  ghost predicate NothingServed(steps: seq<Step>) { forall i :: 0 <= i < |steps| ==> !steps[i].Arrive? }

  lemma {:induction false} BootOnly(p: Primitives, db: Db, boot: seq<Step>)
    requires NothingServed(boot)
    ensures OnlyBoots(Run(p, Start(db), boot))
    decreases |boot|
  {
    if boot != [] {
      BootOnly(p, db, boot[..|boot| - 1]);
      hide SoleMaster, Shape, Prove, CheckSource, Holds;
      assert !boot[|boot| - 1].Arrive?;
    }
  }

  /** The service pins before it binds its listener: whatever the boot and the edits beside it did, if they
      left a pin before the first request, nobody but that key ever acts as master. */
  lemma PinnedBeforeServing(p: Primitives, db: Db, boot: seq<Step>, rest: seq<Step>, pinned: Id)
    requires NothingServed(boot) && Run(p, Start(db), boot).pin == Some(pinned)
    ensures Settled(Run(p, Run(p, Start(db), boot), rest), pinned)
  {
    BootOnly(p, db, boot);
    OnlyThePinnedKeyIsMaster(p, Run(p, Start(db), boot), rest, pinned);
  }

  // ---------- And without that order ----------

  /** A request that would be admitted. */
  ghost predicate Passes(p: Primitives, req: Request, now: int, db: Db, id: Id) {
    && Shape(req, now).Ok? && Holds(p, req, db, id) && req.signature.Some?
    && Prove(p, req, Shape(req, now).value, db.keys[id]).Ok?
    && CheckSource(p, db.keys[id], req.clientIp).None?
  }

  /** A request from its arrival to the moment it has read an empty cell. */
  lemma RunsToTheCell(p: Primitives, origin: State, s: State, t: nat, req: Request, now: int, db: Db, id: Id)
    returns (n: State)
    requires Leads(p, origin, s) && t !in s.tasks && s.pin.None?
    requires Passes(p, req, now, db, id) && db.keys[id].isMaster
    ensures Leads(p, origin, n) && n.pin.None? && n.db == db && t in n.tasks && n.tasks == s.tasks[t := n.tasks[t]]
    ensures n.tasks[t].Resolving? && n.tasks[t].stage.ToCount? && n.tasks[t].claim.id == id
  {
    hide Leads, Run, Next, Shape, Prove, CheckSource, Holds;
    var s1 := Shapes(p, origin, s, t, req, now);
    var s2 := Looks(p, origin, s1, t, db, id);
    var s3 := Proves(p, origin, s2, t);
    var s4 := Spends(p, origin, s3, t, true, {}, 0);
    var s5 := Binds(p, origin, s4, t);
    n := ReadsEmptyCell(p, origin, s5, t);
    assert n.tasks == s.tasks[t := n.tasks[t]];
  }

  /** Resolving lazily is another matter: two requests find the cell empty, the database is edited between
      their queries, and from the first start they reach their handlers as two different masters. */
  lemma TwoMasters(p: Primitives, r1: Request, r2: Request, now: int, db1: Db, id1: Id, db2: Db, id2: Id)
    returns (n: State)
    requires id1 != id2 && db1.hasIndex && db2.hasIndex
    requires Passes(p, r1, now, db1, id1) && db1.keys[id1].isMaster && SoleMaster(db1) == Ok(id1)
    requires Passes(p, r2, now, db2, id2) && db2.keys[id2].isMaster && SoleMaster(db2) == Ok(id2)
    ensures Leads(p, Start(db1), n) && 1 in n.tasks && 2 in n.tasks
    ensures n.tasks[1].Handled? && n.tasks[1].claim.id == id1 && n.tasks[1].isMaster
    ensures n.tasks[2].Handled? && n.tasks[2].claim.id == id2 && n.tasks[2].isMaster
  {
    LeadsNowhere(p, Start(db1));
    hide SoleMaster, Leads, Run, Next, Passes, Shape, Prove, CheckSource, Holds;
    var s1 := RunsToTheCell(p, Start(db1), Start(db1), 1, r1, now, db1, id1);
    var s2 := RunsToTheCell(p, Start(db1), s1, 2, r2, now, db2, id2);
    var s3 := ResolvesTo(p, Start(db1), s2, 1, db1, id1);
    var s4 := ResolvesTo(p, Start(db1), s3, 2, db2, id2);
    var s5 := SetsCell(p, Start(db1), s4, 1);
    n := SetsCell(p, Start(db1), s5, 2);
  }

  lemma LeadsNowhere(p: Primitives, s: State)
    ensures Leads(p, s, s)
  {
    assert Run(p, s, []) == s;
  }

  // Toy inputs for one such run: identity primitives, and two keys of which one is flagged as master.

  function ToyPrimitives(): Primitives {
    Primitives(s => s, s => Some(s), (secret, message) => [], text => None)
  }

  function ToyKey(id: Id): string { if id == 1 then "a" else "b" }

  function ToyDb(master: Id): Db {
    Db(true, map k | k in {1, 2} :: KeyRow(ToyKey(k), Some(""), None, k == master), true)
  }

  function ToyRequest(id: Id): Request
    { Request("", "", Some(""), Some("0"), Some(ToyKey(id)), Some("sha256="), Ip(V4, 0)) }

  lemma ToyMaster(id: Id)
    requires id in {1, 2}
    ensures ToyDb(id).reachable && id in ToyDb(id).keys && ToyDb(id).keys[id].isMaster
    ensures SoleMaster(ToyDb(id)) == Ok(id)
  {
    assert Masters(ToyDb(id)) == {id};
    assert id in {id} && id in {SoleMaster(ToyDb(id)).value};
  }

  lemma ToyRequestPasses(id: Id)
    requires id in {1, 2}
    ensures Passes(ToyPrimitives(), ToyRequest(id), 0, ToyDb(id), id)
  {
    var p, req := ToyPrimitives(), ToyRequest(id);
    ToyTimestamp();
    ToySignature();
    assert Visible(ToyKey(id));
    assert Shape(req, 0) == Ok("0");
    assert Networks([""], p.parseNetwork) == Some([]) by { assert [""][1..] == []; }
    hide Shape, Signatures.HexPart;
    assert Prove(p, req, "0", ToyDb(id).keys[id]) == Ok([]);
  }

  /** The run exists: one edit moves the flag from key 1 to key 2. */
  lemma LazyResolutionAdmitsTwoMasters() returns (n: State)
    ensures Leads(ToyPrimitives(), Start(ToyDb(1)), n)
    ensures 1 in n.tasks && n.tasks[1].Handled? && n.tasks[1].claim.id == 1 && n.tasks[1].isMaster
    ensures 2 in n.tasks && n.tasks[2].Handled? && n.tasks[2].claim.id == 2 && n.tasks[2].isMaster
  {
    ToyMaster(1);
    ToyMaster(2);
    ToyRequestPasses(1);
    ToyRequestPasses(2);
    assert ToyDb(1).hasIndex && ToyDb(2).hasIndex;
    hide *;
    n := TwoMasters(ToyPrimitives(), ToyRequest(1), ToyRequest(2), 0, ToyDb(1), 1, ToyDb(2), 2);
  }

  lemma ToyTimestamp()
    ensures ValidateTimestamp(Some("0"), 0) == Ok("0")
  {
    Signatures.TrimNothing("0");
    assert Digits("0") == Some(0);
  }

  lemma ToySignature()
    ensures Signatures.SIGNATURE_PREFIX <= Text.Trim("sha256=") && Visible("sha256=")
    ensures Signatures.HexPart("sha256=") == Some("")
  {
    Signatures.TrimNothing("sha256=");
    Signatures.TrimNothing("");
    assert "sha256="[7..] == "";
  }
}
