/** Command execution with receipts: `execute_locked` and `validate_receipt` of
    src/app/service.rs for the profile commands, over the event stream, the stored
    projection, the profile mirror and the receipt table of one database. */
module Receipts {
  import opened Prelude
  import opened ProfileDraft
  import opened ProfileProjection
  import opened ProfileCommands
  import EventLog
  import Mirror
  import Projections = ProjectionStore
  import Reviews = ProfileReviews

  type StreamEvent = Projections.Event<Fact>
  type Envelope = EventLog.Envelope<StreamEvent>

  datatype Request = Request(correlation: nat, actor: Actor, command: Command)

  datatype Decision = Granted | Denied | DeniedByDefault | ApprovalRequired

  datatype Outcome = Outcome(commandId: nat, correlation: nat, committed: Envelope, view: View)

  /** What a receipt remembers of an execution. */
  datatype Stored =
    | Success(outcome: Outcome)
    | CapabilityDenied(denied: Capability, decision: Decision)
    | NeedsApproval(needed: Capability)

  datatype Receipt = Receipt(
    fingerprint: nat, requestJson: string, capability: Capability, decision: Decision, outcomeJson: string, eventIds: seq<nat>)

  /** Canonical serialisation of requests and outcomes, and the fingerprint digest. */
  datatype Json = Json(
    writeRequest: Request -> string, readRequest: string -> Option<Request>,
    writeOutcome: Stored -> string, readOutcome: string -> Option<Stored>, hash: string -> nat)

  ghost predicate ReadsBack(json: Json) {
    && (forall r :: json.readRequest(json.writeRequest(r)) == Some(r))
    && (forall o :: json.readOutcome(json.writeOutcome(o)) == Some(o))
  }

  datatype Database<A> = Database(
    log: seq<EventLog.Wire>, rows: Projections.Rows<A>, receipts: map<nat, Receipt>, mirror: seq<Mirror.Row>)

  /** The database and the pending profile review. */
  datatype World<A> = World(db: Database<A>, review: Reviews.Slot)

  /** Serialisation, the rest of the projection and library behaviour; `R` is whatever the
      projection holds besides installation and sessions. */
  datatype Setup<!R, !A> = Setup(
    codec: EventLog.Codec<StreamEvent>, engine: Projections.Engine<R, Fact, A>, profilesOf: R -> Profiles,
    lib: Library, json: Json, format: Mirror.Format)

  /** What one execution finds: the lifecycle, the session, the policy's answer, the binding
      catalog, which skill references resolve, whether the skill review registry (which is
      not part of this model) reserves its review, the ids and time it draws, and whether
      its transaction can commit. */
  datatype Env = Env(
    open: bool, session: nat, decision: Decision, catalog: Catalog, stored: SkillRef -> bool, skillReview: bool, drawn: Fresh,
    commits: bool)

  datatype ServiceError =
    | LifecycleFinished
    | InvalidProfile(profileError: ProfileError)
    | CommandConflict
    | ReceiptInvalid
    | RecoveryFailed
    | PersistenceFailed
    | Rejected(cause: CommandError)
    | DeniedCapability(capability: Capability, decision: Decision)
    | ApprovalNeeded(capability: Capability)

  // ---------- reading the database ----------

  function Stream<R, A>(setup: Setup<R, A>, log: seq<EventLog.Wire>): Result<seq<Envelope>, ServiceError> {
    if EventLog.Verify(setup.codec, log).Err? then Err(RecoveryFailed)
    else match EventLog.DecodeAll(setup.codec, log) case Ok(events) => Ok(events) case Err(_) => Err(RecoveryFailed)
  }

  function LoadState<R(==), A(==)>(setup: Setup<R, A>, db: Database<A>): Result<Projections.State<R>, ServiceError> {
    var events :- Stream(setup, db.log);
    match Projections.Load(setup.engine, db.rows, events) case Ok(state) => Ok(state) case Err(_) => Err(RecoveryFailed)
  }

  function StateAt<R, A>(setup: Setup<R, A>, log: seq<EventLog.Wire>, through: nat): Result<Projections.State<R>, ServiceError> {
    var events :- Stream(setup, log);
    match Projections.LoadAt(setup.engine, events, through) case Ok(state) => Ok(state) case Err(_) => Err(RecoveryFailed)
  }

  function LoadEvents<R, A>(setup: Setup<R, A>, log: seq<EventLog.Wire>, ids: seq<nat>): Result<seq<Envelope>, ServiceError> {
    if ids == [] then Ok([])
    else match EventLog.FindEvent(log, ids[0])
      case None => Err(ReceiptInvalid)
      case Some(row) =>
        match EventLog.FromWire(setup.codec, row)
        case Err(_) => Err(PersistenceFailed)
        case Ok(e) =>
          var rest :- LoadEvents(setup, log, ids[1..]);
          Ok([e] + rest)
  }

  /** `materialize_success`: one event, caused by this command for this request. */
  function MaterializeOutcome<R, A>(setup: Setup<R, A>, catalog: Catalog, commandId: nat, request: Request, events: seq<Envelope>,
      state: Projections.State<R>): Result<Outcome, ServiceError>
  {
    if |events| != 1 then Err(ReceiptInvalid)
    else
      var p := events[0].pending;
      if p.actor != request.actor || p.correlation != request.correlation || p.causation != Some(commandId) || p.about.Some?
         || !p.event.Other?
      then Err(ReceiptInvalid)
      else match Materialize(setup.lib, catalog, request.command, p.event.detail, setup.profilesOf(state.rest))
        case Err(_) => Err(ReceiptInvalid)
        case Ok(view) => Ok(Outcome(commandId, request.correlation, events[0], view))
  }

  function IntoResult(stored: Stored): Result<Outcome, ServiceError> {
    match stored
    case Success(outcome) => Ok(outcome)
    case CapabilityDenied(capability, decision) => Err(DeniedCapability(capability, decision))
    case NeedsApproval(capability) => Err(ApprovalNeeded(capability))
  }

  predicate OutcomesMatch(a: Outcome, b: Outcome) { a.(view := Normalize(a.view)) == b.(view := Normalize(b.view)) }

  const NO_CATALOG := Catalog({}, {})

  /** A stored success is rebuilt from its events and the projection of their time. */
  function ValidateSuccess<R, A>(setup: Setup<R, A>, log: seq<EventLog.Wire>, commandId: nat, receipt: Receipt, request: Request,
      outcome: Outcome): Result<(), ServiceError>
  {
    var events :- LoadEvents(setup, log, receipt.eventIds);
    if events == [] then Err(ReceiptInvalid)
    else
      var state :- StateAt(setup, log, events[|events| - 1].sequence);
      var expected :- MaterializeOutcome(setup, NO_CATALOG, commandId, request, events, state);
      if OutcomesMatch(outcome, expected) then Ok(()) else Err(ReceiptInvalid)
  }

  function ValidateReceipt<R, A>(setup: Setup<R, A>, log: seq<EventLog.Wire>, commandId: nat, receipt: Receipt, request: Request):
      Result<Stored, ServiceError>
  {
    var stored := setup.json.readRequest(receipt.requestJson);
    var requestJson := setup.json.writeRequest(request);
    if stored.None? || receipt.fingerprint != setup.json.hash(receipt.requestJson) then Err(ReceiptInvalid)
    else if stored.value != request || receipt.requestJson != requestJson || receipt.fingerprint != setup.json.hash(requestJson)
    then Err(CommandConflict)
    else if receipt.capability != RequiredCapability(request.command) then Err(ReceiptInvalid)
    else match setup.json.readOutcome(receipt.outcomeJson)
      case None => Err(ReceiptInvalid)
      case Some(execution) =>
        match (execution, receipt.decision)
        case (Success(outcome), Granted) =>
          var _ :- ValidateSuccess(setup, log, commandId, receipt, request, outcome);
          Ok(execution)
        case (CapabilityDenied(capability, decision), Denied) =>
          if receipt.eventIds == [] && capability == receipt.capability && decision == Denied then Ok(execution) else Err(ReceiptInvalid)
        case (CapabilityDenied(capability, decision), DeniedByDefault) =>
          if receipt.eventIds == [] && capability == receipt.capability && decision == DeniedByDefault then Ok(execution)
          else Err(ReceiptInvalid)
        case (NeedsApproval(capability), ApprovalRequired) =>
          if receipt.eventIds == [] && capability == receipt.capability then Ok(execution) else Err(ReceiptInvalid)
        case _ => Err(ReceiptInvalid)
  }

  // ---------- executing ----------

  /** `canonicalize_profile_payloads`. */
  function CanonicalCommand(lib: Library, c: Command): Result<Command, ProfileError> {
    match c
    case CreateAgentProfile(draft, template) =>
      var canonical :- Canonicalize(lib.foldCase, draft);
      Ok(CreateAgentProfile(canonical, template))
    case ActivateAgentProfileVersion(p, v, candidate, token, digest) =>
      var canonical :- Canonicalize(lib.foldCase, candidate);
      Ok(ActivateAgentProfileVersion(p, v, canonical, token, digest))
    case _ => Ok(c)
  }

  predicate SessionOpen(sessions: map<nat, Projections.Session>, id: nat) { id in sessions && sessions[id].ended.None? }

  function DeniedExecution(capability: Capability, decision: Decision): Stored
    requires decision != Granted
  {
    if decision == ApprovalRequired then NeedsApproval(capability) else CapabilityDenied(capability, decision)
  }

  function MakeReceipt(json: Json, request: Request, decision: Decision, stored: Stored, eventIds: seq<nat>): Receipt {
    var requestJson := json.writeRequest(request);
    Receipt(json.hash(requestJson), requestJson, RequiredCapability(request.command), decision, json.writeOutcome(stored), eventIds)
  }

  /** One receipt per command, and an event belongs to one receipt. */
  predicate ReceiptFits(receipts: map<nat, Receipt>, commandId: nat, eventIds: seq<nat>) {
    && commandId !in receipts
    && forall c, id | c in receipts && id in eventIds :: id !in receipts[c].eventIds
  }

  function PendingEvent(request: Request, commandId: nat, fact: Fact, drawn: Fresh): EventLog.Pending<StreamEvent> {
    EventLog.Pending(drawn.eventId, EventLog.EVENT_SCHEMA_VERSION, request.actor, drawn.now, request.correlation, Some(commandId),
      None, Projections.Other(fact))
  }

  function CarriedProfile(fact: Fact): Option<ProfileDiff.ProfileVersion> {
    match fact
    case AgentProfileCreated(p) => Some(p)
    case AgentProfileVersionActivated(p, _) => Some(p)
    case AgentSkillChanged(p, _, _) => Some(p)
    case _ => None
  }

  /** `insert_expected_version`, with the check of the references the version carries. */
  function MirrorProfile<R, A>(setup: Setup<R, A>, stored: SkillRef -> bool, mirror: seq<Mirror.Row>, sequence: nat, fact: Fact):
      Result<seq<Mirror.Row>, ServiceError>
  {
    match CarriedProfile(fact)
    case None => Ok(mirror)
    case Some(p) =>
      match Mirror.InsertExpected(setup.format, stored, mirror, sequence, p)
      case Ok(after) => Ok(after)
      case Err(_) => Err(PersistenceFailed)
  }

  /** Each kind of change has its own review registry. */
  function FoundBy(env: Env, c: Command, reserved: bool): Found {
    Found(if c.ChangeAgentSkill? then env.skillReview else reserved, env.stored)
  }

  /** Everything between preparing an event and committing, in order; any failure undoes all. */
  function Transact<R(==), A(==)>(setup: Setup<R, A>, db: Database<A>, env: Env, commandId: nat, request: Request,
      state: Projections.State<R>, reserved: bool): Result<(Database<A>, Outcome), ServiceError>
  {
    match Prepare(setup.lib, setup.profilesOf(state.rest), request.command, FoundBy(env, request.command, reserved), env.drawn)
    case Err(e) => Err(Rejected(e))
    case Ok(fact) =>
      var (log, appended) := EventLog.Append(setup.codec, db.log, PendingEvent(request, commandId, fact, env.drawn));
      if appended.Err? then Err(PersistenceFailed)
      else
        var e := appended.value;
        var reduced := Projections.Reduce(setup.engine, state, e);
        if reduced.Err? then Err(RecoveryFailed)
        else
          var mirror :- MirrorProfile(setup, env.stored, db.mirror, e.sequence, fact);
          var events :- Stream(setup, log);
          var rows := Projections.Store(setup.engine, db.rows, events, reduced.value);
          if rows.Err? then Err(PersistenceFailed)
          else
            var outcome :- MaterializeOutcome(setup, env.catalog, commandId, request, [e], reduced.value);
            if !ReceiptFits(db.receipts, commandId, [e.pending.eventId]) then Err(PersistenceFailed)
            else
              var receipt := MakeReceipt(setup.json, request, Granted, Success(outcome), [e.pending.eventId]);
              Ok((Database(log, rows.value, db.receipts[commandId := receipt], mirror), outcome))
  }

  /** The review an activation wants to use up. */
  function WantedReview(lib: Library, c: Command): Option<Reviews.Review> {
    if c.ActivateAgentProfileVersion? then
      Some(Reviews.Review(c.reviewToken, c.profileId, c.expectedActive, lib.candidateDigest(c.candidate), c.reviewDigest))
    else None
  }

  function ReserveFor(lib: Library, slot: Reviews.Slot, commandId: nat, c: Command): Option<Reviews.Slot> {
    match WantedReview(lib, c)
    case None => None
    case Some(review) => match Reviews.Reserve(slot, commandId, review) case Ok(reserved) => Some(reserved) case Err(_) => None
  }

  /** A granted command: reserve, transact, commit; then consume or release the review. */
  function ExecuteGranted<R(==), A(==)>(setup: Setup<R, A>, w: World<A>, env: Env, commandId: nat, request: Request,
      state: Projections.State<R>): (World<A>, Result<Outcome, ServiceError>)
  {
    var reserved := ReserveFor(setup.lib, w.review, commandId, request.command);
    var failed := w.(review := if reserved.Some? then Reviews.Release(reserved.value, commandId) else w.review);
    match Transact(setup, w.db, env, commandId, request, state, reserved.Some?)
    case Err(e) => (failed, Err(e))
    case Ok((db, outcome)) =>
      if !env.commits then (failed, Err(PersistenceFailed))
      else (World(db, if reserved.Some? then Reviews.Consume(reserved.value, commandId) else w.review), Ok(outcome))
  }

  function ExecuteDenied<R, A>(setup: Setup<R, A>, w: World<A>, env: Env, commandId: nat, request: Request):
      (World<A>, Result<Outcome, ServiceError>)
    requires env.decision != Granted
  {
    var stored := DeniedExecution(RequiredCapability(request.command), env.decision);
    var receipt := MakeReceipt(setup.json, request, env.decision, stored, []);
    if !env.commits then (w, Err(PersistenceFailed))
    else (w.(db := w.db.(receipts := w.db.receipts[commandId := receipt])), IntoResult(stored))
  }

  /** A command whose id has a receipt is answered from it. */
  function Replay<R, A>(setup: Setup<R, A>, db: Database<A>, env: Env, commandId: nat, request: Request): Result<Outcome, ServiceError>
    requires commandId in db.receipts
  {
    match ValidateReceipt(setup, db.log, commandId, db.receipts[commandId], request)
    case Err(e) => Err(e)
    case Ok(stored) => if env.commits then IntoResult(stored) else Err(PersistenceFailed)
  }

  function Execute<R(==), A(==)>(setup: Setup<R, A>, w: World<A>, env: Env, commandId: nat, given: Request):
      (World<A>, Result<Outcome, ServiceError>)
  {
    if !env.open then (w, Err(LifecycleFinished))
    else match CanonicalCommand(setup.lib, given.command)
      case Err(e) => (w, Err(InvalidProfile(e)))
      case Ok(command) =>
        var request := given.(command := command);
        if commandId in w.db.receipts then (w, Replay(setup, w.db, env, commandId, request))
        else if !SessionOpen(w.db.rows.sessions, env.session) then (w, Err(LifecycleFinished))
        else match LoadState(setup, w.db)
          case Err(e) => (w, Err(e))
          case Ok(state) =>
            if !SessionOpen(state.sessions, env.session) then (w, Err(LifecycleFinished))
            else if env.decision != Granted then ExecuteDenied(setup, w, env, commandId, request)
            else ExecuteGranted(setup, w, env, commandId, request, state)
  }

  // ---------- effects ----------

  /** A verifiable stream with one row per event id. */
  ghost predicate Healthy<R, A>(setup: Setup<R, A>, db: Database<A>) {
    EventLog.Sound(setup.codec, db.log) && EventLog.UniqueEvents(db.log)
  }

  ghost predicate LibraryReads<R, A>(setup: Setup<R, A>) {
    EventLog.Decodes(setup.codec) && ReadsBack(setup.json)
  }

  /** What a committed transaction did. */
  lemma TransactEffects<R, A>(setup: Setup<R, A>, db: Database<A>, env: Env, commandId: nat, request: Request,
      state: Projections.State<R>, reserved: bool)
    requires LibraryReads(setup) && Healthy(setup, db) && LoadState(setup, db) == Ok(state)
    requires Transact(setup, db, env, commandId, request, state, reserved).Ok?
    ensures var (after, outcome) := Transact(setup, db, env, commandId, request, state, reserved).value;
            && after.log == db.log + [EventLog.ToWire(setup.codec, outcome.committed)]
            && outcome.committed.sequence == |db.log| + 1
            && Healthy(setup, after)
            && after.receipts == db.receipts[commandId := MakeReceipt(setup.json, request, Granted, Success(outcome),
                                                            [outcome.committed.pending.eventId])]
            && commandId !in db.receipts
  {
    hide Materialize, Prepare, Projections.Store, Projections.ApplyEvent, Projections.ValidState, EventLog.FromWire, MirrorProfile,
      EventLog.Verify, EventLog.DecodeAll, Projections.Load, EventLog.Append, EventLog.Sound, EventLog.UniqueEvents,
      EventLog.ToWire, EventLog.Decodes, MakeReceipt, ReadsBack, Projections.FoldAll;
    var fact := Prepare(setup.lib, setup.profilesOf(state.rest), request.command, FoundBy(env, request.command, reserved), env.drawn).value;
    var p := PendingEvent(request, commandId, fact, env.drawn);
    EventLog.AppendKeepsSound(setup.codec, db.log, p);
    LoadedSequence(setup, db, state);
    NewSequenceIsNew(setup.codec, db.log, p);
  }

  /** The loaded state has counted every row. */
  lemma LoadedSequence<R, A>(setup: Setup<R, A>, db: Database<A>, state: Projections.State<R>)
    requires LoadState(setup, db) == Ok(state)
    ensures state.lastSequence == |db.log|
    ensures Stream(setup, db.log).Ok? && Projections.FoldAll(setup.engine, Stream(setup, db.log).value) == Ok(state)
  {
    hide EventLog.Verify, EventLog.FromWire, Projections.Reduce;
    var events := Stream(setup, db.log).value;
    EventLog.DecodeAllMeaning(setup.codec, db.log);
    Projections.LoadIsTheFold(setup.engine, db.rows, events);
    Projections.FoldCounts(setup.engine, Projections.Initial(setup.engine), events);
  }

  /** An append that answers from the stream answers with an old number. */
  lemma NewSequenceIsNew<E(!new)>(codec: EventLog.Codec<E>, log: seq<EventLog.Wire>, p: EventLog.Pending<E>)
    requires EventLog.Sound(codec, log) && EventLog.Append(codec, log, p).1.Ok?
    ensures EventLog.Append(codec, log, p).0 == log ==> EventLog.Append(codec, log, p).1.value.sequence <= |log|
  {
    EventLog.FindEventMeaning(log, p.eventId);
    if EventLog.FindEvent(log, p.eventId).Some? {
      var row := EventLog.FindEvent(log, p.eventId).value;
      var i :| 0 <= i < |log| && log[i] == row;
      assert EventLog.Linked(codec, log, i);
    }
  }

  /** The database after a command and its answer: unchanged, or with one receipt more and
      the event it answers with, or no event for a denial. */
  ghost predicate OneReceipt<R, A>(setup: Setup<R, A>, before: Database<A>, after: Database<A>, commandId: nat, granted: bool,
      r: Result<Outcome, ServiceError>)
  {
    && commandId !in before.receipts && commandId in after.receipts
    && after.receipts == before.receipts[commandId := after.receipts[commandId]]
    && if granted
       then r.Ok? && after.log == before.log + [EventLog.ToWire(setup.codec, r.value.committed)]
            && after.receipts[commandId].eventIds == [r.value.committed.pending.eventId]
       else r.Err? && after == before.(receipts := after.receipts) && after.receipts[commandId].eventIds == []
  }

  lemma GrantedEffects<R, A>(setup: Setup<R, A>, w: World<A>, env: Env, commandId: nat, request: Request, state: Projections.State<R>)
    requires LibraryReads(setup) && Healthy(setup, w.db) && LoadState(setup, w.db) == Ok(state)
    ensures var (after, r) := ExecuteGranted(setup, w, env, commandId, request, state);
            && Healthy(setup, after.db)
            && if r.Ok? then env.commits && OneReceipt(setup, w.db, after.db, commandId, true, r) else after.db == w.db
  {
    hide Transact, LibraryReads, Healthy, ReserveFor, MakeReceipt, LoadState;
    var reserved := ReserveFor(setup.lib, w.review, commandId, request.command).Some?;
    if Transact(setup, w.db, env, commandId, request, state, reserved).Ok? {
      TransactEffects(setup, w.db, env, commandId, request, state, reserved);
      var (after, outcome) := Transact(setup, w.db, env, commandId, request, state, reserved).value;
      assert after.receipts[commandId].eventIds == [outcome.committed.pending.eventId] by {
        ReceiptIds(setup.json, request, Granted, Success(outcome), [outcome.committed.pending.eventId]);
      }
    }
  }

  lemma ReceiptIds(json: Json, request: Request, decision: Decision, stored: Stored, eventIds: seq<nat>)
    ensures MakeReceipt(json, request, decision, stored, eventIds).eventIds == eventIds
  {}

  /** Every execution leaves the database as it was, or adds one receipt under its own id
      together with no event (a denial) or exactly the one event it returns. */
  lemma ExecuteEffects<R, A>(setup: Setup<R, A>, w: World<A>, env: Env, commandId: nat, given: Request)
    requires LibraryReads(setup) && Healthy(setup, w.db)
    ensures var (after, r) := Execute(setup, w, env, commandId, given);
            && Healthy(setup, after.db)
            && (after.db == w.db || (env.commits && OneReceipt(setup, w.db, after.db, commandId, env.decision == Granted, r)))
            && (r.Ok? && commandId !in w.db.receipts ==> after.db != w.db)
  {
    hide LibraryReads, EventLog.Sound, EventLog.UniqueEvents, CanonicalCommand, Replay, LoadState, ExecuteGranted, MakeReceipt;
    if CanonicalCommand(setup.lib, given.command).Ok? && LoadState(setup, w.db).Ok? {
      var request := given.(command := CanonicalCommand(setup.lib, given.command).value);
      GrantedEffects(setup, w, env, commandId, request, LoadState(setup, w.db).value);
      if env.decision != Granted {
        ReceiptIds(setup.json, request, env.decision, DeniedExecution(RequiredCapability(request.command), env.decision), []);
      }
    }
  }

  // ---------- what a receipt stands for ----------

  function DecisionOf(stored: Stored): Decision {
    match stored
    case Success(_) => Granted
    case CapabilityDenied(_, decision) => decision
    case NeedsApproval(_) => ApprovalRequired
  }

  function EventsOf(stored: Stored): seq<nat> {
    if stored.Success? then [stored.outcome.committed.pending.eventId] else []
  }

  /** The fold of the first `k + 1` rows. */
  function PastState<R, A>(setup: Setup<R, A>, log: seq<EventLog.Wire>, k: nat): Result<Projections.State<R>, ServiceError>
    requires k < |log|
  {
    var events :- Stream(setup, log[..k + 1]);
    match Projections.FoldAll(setup.engine, events) case Ok(state) => Ok(state) case Err(_) => Err(RecoveryFailed)
  }

  /** Row `k` is the success's event, and the success is what that event and the projection
      of that time materialise to under `catalog`. */
  ghost predicate SuccessAt<R, A>(setup: Setup<R, A>, log: seq<EventLog.Wire>, commandId: nat, request: Request, outcome: Outcome,
      k: nat, catalog: Catalog)
  {
    && k < |log| && EventLog.FromWire(setup.codec, log[k]) == Ok(outcome.committed) && outcome.committed.sequence == k + 1
    && PastState(setup, log, k).Ok?
    && MaterializeOutcome(setup, catalog, commandId, request, [outcome.committed], PastState(setup, log, k).value) == Ok(outcome)
  }

  /** The receipt of a command records `stored` for `request`. */
  ghost predicate RecordedAt<R, A>(setup: Setup<R, A>, db: Database<A>, commandId: nat, request: Request, stored: Stored, k: nat, catalog: Catalog) {
    && commandId in db.receipts
    && db.receipts[commandId] == MakeReceipt(setup.json, request, DecisionOf(stored), stored, EventsOf(stored))
    && (stored.Success? ==> SuccessAt(setup, db.log, commandId, request, stored.outcome, k, catalog))
    && (stored.CapabilityDenied? ==> stored.denied == RequiredCapability(request.command) && stored.decision in {Denied, DeniedByDefault})
    && (stored.NeedsApproval? ==> stored.needed == RequiredCapability(request.command))
  }

  lemma StreamPrefix<R, A>(setup: Setup<R, A>, log: seq<EventLog.Wire>, n: nat)
    requires EventLog.Sound(setup.codec, log) && n <= |log|
    ensures Stream(setup, log).Ok? && |Stream(setup, log).value| == |log|
    ensures Stream(setup, log[..n]).Ok? && Stream(setup, log[..n]).value == Stream(setup, log).value[..n]
    ensures forall i | 0 <= i < |log| :: Stream(setup, log).value[i].sequence == i + 1
  {
    hide EventLog.FromWire, EventLog.Verify;
    EventLog.VerifyMeaning(setup.codec, log);
    EventLog.PrefixVerifies(setup.codec, log, n);
    EventLog.DecodeAllMeaning(setup.codec, log);
    EventLog.DecodeAllMeaning(setup.codec, log[..n]);
    forall i | 0 <= i < |log| ensures EventLog.FromWire(setup.codec, log[i]).Ok? { assert EventLog.Linked(setup.codec, log, i); }
    var events := Stream(setup, log).value;
    forall i | 0 <= i < |log| ensures events[i].sequence == i + 1 {
      assert EventLog.Linked(setup.codec, log, i);
      EventLog.RowOfEnvelope(setup.codec, log[i], events[i]);
    }
  }

  /** Reading the projection at an event gives the fold of the rows up to it, whatever came later. */
  lemma StateAtIsPast<R, A>(setup: Setup<R, A>, log: seq<EventLog.Wire>, k: nat)
    requires EventLog.Sound(setup.codec, log) && k < |log|
    ensures StateAt(setup, log, k + 1) == PastState(setup, log, k)
  {
    hide EventLog.Sound, Stream, Projections.FoldAll;
    StreamPrefix(setup, log, k + 1);
    var events := Stream(setup, log).value;
    Projections.FilterAtMost(events, 1, k + 1);
    assert Projections.Upto(events, k + 1) == events[..k + 1];
    assert events[|events| - 1].sequence == |log|;
    assert Projections.LoadAt(setup.engine, events, k + 1) == Projections.FoldAll(setup.engine, events[..k + 1]);
  }

  lemma LoadOne<R, A>(setup: Setup<R, A>, log: seq<EventLog.Wire>, k: nat, e: Envelope)
    requires EventLog.UniqueEvents(log) && k < |log| && EventLog.FromWire(setup.codec, log[k]) == Ok(e)
    ensures LoadEvents(setup, log, [e.pending.eventId]) == Ok([e])
  {
    hide EventLog.FromWire, EventLog.FindEvent;
    EventLog.RowOfEnvelope(setup.codec, log[k], e);
    EventLog.FindEventIn(log, log[k]);
    var ids, noEvents: seq<Envelope> := [e.pending.eventId], [];
    assert ids[1..] == [] && LoadEvents(setup, log, ids[1..]) == Ok(noEvents);
    assert [e] + noEvents == [e];
  }

  lemma RebuiltOutcomeMatches<R, A>(setup: Setup<R, A>, catalog: Catalog, commandId: nat, request: Request, e: Envelope,
      state: Projections.State<R>)
    requires MaterializeOutcome(setup, catalog, commandId, request, [e], state).Ok?
    ensures MaterializeOutcome(setup, NO_CATALOG, commandId, request, [e], state).Ok?
    ensures OutcomesMatch(MaterializeOutcome(setup, catalog, commandId, request, [e], state).value,
                          MaterializeOutcome(setup, NO_CATALOG, commandId, request, [e], state).value)
  {
    hide Materialize, Normalize;
    CatalogsOnlyChangeReadiness(setup.lib, catalog, NO_CATALOG, request.command, e.pending.event.detail, setup.profilesOf(state.rest));
  }

  /** A recorded command validates to what it recorded, for its own request only. */
  lemma RecordReplays<R, A>(setup: Setup<R, A>, db: Database<A>, commandId: nat, request: Request, stored: Stored, k: nat, catalog: Catalog,
      asked: Request)
    requires LibraryReads(setup) && Healthy(setup, db) && RecordedAt(setup, db, commandId, request, stored, k, catalog)
    ensures ValidateReceipt(setup, db.log, commandId, db.receipts[commandId], asked)
            == if asked == request then Ok(stored) else Err(CommandConflict)
  {
    hide MaterializeOutcome, OutcomesMatch, EventLog.FromWire, EventLog.Sound, EventLog.UniqueEvents, EventLog.Decodes, StateAt,
      PastState, LoadEvents, ValidateSuccess;
    var json := setup.json;
    assert json.readRequest(json.writeRequest(request)) == Some(request);
    assert json.readOutcome(json.writeOutcome(stored)) == Some(stored);
    if stored.Success? { SuccessValidates(setup, db, commandId, request, stored.outcome, k, catalog); }
  }

  lemma SuccessValidates<R, A>(setup: Setup<R, A>, db: Database<A>, commandId: nat, request: Request, outcome: Outcome, k: nat, catalog: Catalog)
    requires Healthy(setup, db) && SuccessAt(setup, db.log, commandId, request, outcome, k, catalog) && commandId in db.receipts
    requires db.receipts[commandId].eventIds == [outcome.committed.pending.eventId]
    ensures ValidateSuccess(setup, db.log, commandId, db.receipts[commandId], request, outcome) == Ok(())
  {
    hide MaterializeOutcome, OutcomesMatch, EventLog.FromWire, EventLog.Sound, EventLog.UniqueEvents, StateAt, PastState, LoadEvents;
    LoadOne(setup, db.log, k, outcome.committed);
    StateAtIsPast(setup, db.log, k);
    RebuiltOutcomeMatches(setup, catalog, commandId, request, outcome.committed, PastState(setup, db.log, k).value);
  }

  // ---------- a first execution is recorded ----------

  lemma FirstSuccessIsRecorded<R, A>(setup: Setup<R, A>, db: Database<A>, env: Env, commandId: nat, request: Request,
      state: Projections.State<R>, reserved: bool)
    requires LibraryReads(setup) && Healthy(setup, db) && LoadState(setup, db) == Ok(state)
    requires Transact(setup, db, env, commandId, request, state, reserved).Ok?
    ensures var (after, outcome) := Transact(setup, db, env, commandId, request, state, reserved).value;
            RecordedAt(setup, after, commandId, request, Success(outcome), |db.log|, env.catalog)
  {
    hide Projections.Store, MakeReceipt, LoadState, Healthy;
    var (after, outcome) := Transact(setup, db, env, commandId, request, state, reserved).value;
    TransactEffects(setup, db, env, commandId, request, state, reserved);
    TransactStores(setup, db, env, commandId, request, state, reserved);
    assert after.log[..|db.log| + 1] == after.log;
    HealthyRow(setup, after, |db.log|, outcome.committed);
  }

  lemma HealthyRow<R, A>(setup: Setup<R, A>, db: Database<A>, k: nat, e: Envelope)
    requires LibraryReads(setup) && Healthy(setup, db) && k < |db.log| && db.log[k] == EventLog.ToWire(setup.codec, e)
    ensures EventLog.FromWire(setup.codec, db.log[k]) == Ok(e)
  {
    assert EventLog.Linked(setup.codec, db.log, k);
    EventLog.WireIsCanonical(setup.codec, db.log[k]);
    var read := EventLog.FromWire(setup.codec, db.log[k]).value;
    assert EventLog.ToWire(setup.codec, read) == EventLog.ToWire(setup.codec, e);
    assert setup.codec.decode(setup.codec.kind(read.pending.event), setup.codec.payload(read.pending.event)) == Some(read.pending.event);
    assert setup.codec.decode(setup.codec.kind(e.pending.event), setup.codec.payload(e.pending.event)) == Some(e.pending.event);
  }

  /** The stored projection is the fold of the stream with the new event, and the outcome is
      what it shows. */
  lemma TransactStores<R, A>(setup: Setup<R, A>, db: Database<A>, env: Env, commandId: nat, request: Request,
      state: Projections.State<R>, reserved: bool)
    requires Transact(setup, db, env, commandId, request, state, reserved).Ok?
    ensures var (after, outcome) := Transact(setup, db, env, commandId, request, state, reserved).value;
            && Stream(setup, after.log).Ok?
            && Projections.FoldAll(setup.engine, Stream(setup, after.log).value).Ok?
            && LoadState(setup, after) == Ok(Projections.FoldAll(setup.engine, Stream(setup, after.log).value).value)
            && MaterializeOutcome(setup, env.catalog, commandId, request, [outcome.committed],
                 Projections.FoldAll(setup.engine, Stream(setup, after.log).value).value) == Ok(outcome)
  {
    hide Prepare, Materialize, Projections.Store, Projections.Reduce, Projections.Load, EventLog.Append, Stream, MirrorProfile, Projections.FoldAll;
    var (after, outcome) := Transact(setup, db, env, commandId, request, state, reserved).value;
    var fact := Prepare(setup.lib, setup.profilesOf(state.rest), request.command, FoundBy(env, request.command, reserved), env.drawn).value;
    var e := EventLog.Append(setup.codec, db.log, PendingEvent(request, commandId, fact, env.drawn)).1.value;
    Projections.StoreThenLoad(setup.engine, db.rows, Stream(setup, after.log).value, Projections.Reduce(setup.engine, state, e).value);
  }

  /** Any execution that adds a receipt records its own result. */
  lemma ExecutionIsRecorded<R, A>(setup: Setup<R, A>, w: World<A>, env: Env, commandId: nat, given: Request)
    requires LibraryReads(setup) && Healthy(setup, w.db)
    requires commandId !in w.db.receipts && commandId in Execute(setup, w, env, commandId, given).0.db.receipts
    ensures CanonicalCommand(setup.lib, given.command).Ok?
    ensures exists stored, k, catalog ::
              RecordedAt(setup, Execute(setup, w, env, commandId, given).0.db, commandId,
                given.(command := CanonicalCommand(setup.lib, given.command).value), stored, k, catalog)
              && IntoResult(stored) == Execute(setup, w, env, commandId, given).1
  {
    hide Transact, LibraryReads, Healthy, ReserveFor, CanonicalCommand, Replay, LoadState, MakeReceipt, SuccessAt;
    var request := given.(command := CanonicalCommand(setup.lib, given.command).value);
    var (after, r) := Execute(setup, w, env, commandId, given);
    if env.decision == Granted {
      var state := LoadState(setup, w.db).value;
      var reserved := ReserveFor(setup.lib, w.review, commandId, request.command).Some?;
      if Transact(setup, w.db, env, commandId, request, state, reserved).Ok? {
        FirstSuccessIsRecorded(setup, w.db, env, commandId, request, state, reserved);
        assert RecordedAt(setup, after.db, commandId, request, Success(r.value), |w.db.log|, env.catalog);
        assert IntoResult(Success(r.value)) == r;
      }
    } else {
      var stored := DeniedExecution(RequiredCapability(request.command), env.decision);
      assert RecordedAt(setup, after.db, commandId, request, stored, 0, env.catalog);
    }
  }

  // ---------- runs ----------

  /** What any other transaction may do: grow the stream and the receipts. */
  ghost predicate Grows<R, A>(setup: Setup<R, A>, before: Database<A>, after: Database<A>) {
    && Healthy(setup, after) && before.log <= after.log
    && forall c | c in before.receipts :: c in after.receipts && after.receipts[c] == before.receipts[c]
  }

  /** One step: a command runs, or another transaction or another use of the review does. */
  ghost predicate Next<R, A(!new)>(setup: Setup<R, A>, w: World<A>, after: World<A>) {
    || (exists env, commandId, given :: after == Execute(setup, w, env, commandId, given).0)
    || Grows(setup, w.db, after.db)
  }

  ghost predicate Trace<R, A(!new)>(setup: Setup<R, A>, ws: seq<World<A>>) {
    forall i | 0 <= i < |ws| - 1 :: Next(setup, ws[i], ws[i + 1])
  }

  lemma NextGrows<R, A(!new)>(setup: Setup<R, A>, w: World<A>, after: World<A>)
    requires LibraryReads(setup) && Healthy(setup, w.db) && Next(setup, w, after)
    ensures Grows(setup, w.db, after.db)
  {
    hide Execute, LibraryReads, Healthy;
    if env, commandId, given :| after == Execute(setup, w, env, commandId, given).0 {
      ExecuteEffects(setup, w, env, commandId, given);
    }
  }

  lemma {:induction false} TraceGrows<R, A(!new)>(setup: Setup<R, A>, ws: seq<World<A>>)
    requires LibraryReads(setup) && ws != [] && Healthy(setup, ws[0].db) && Trace(setup, ws)
    ensures Grows(setup, ws[0].db, ws[|ws| - 1].db)
    decreases |ws|
  {
    hide LibraryReads, Healthy, Next;
    if |ws| > 1 {
      assert Next(setup, ws[0], ws[0 + 1]);
      NextGrows(setup, ws[0], ws[1]);
      forall i | 0 <= i < |ws[1..]| - 1 ensures Next(setup, ws[1..][i], ws[1..][i + 1]) {
        assert Next(setup, ws[i + 1], ws[i + 1 + 1]);
      }
      TraceGrows(setup, ws[1..]);
      assert ws[1..][|ws[1..]| - 1] == ws[|ws| - 1];
    }
  }

  lemma RecordSurvives<R, A>(setup: Setup<R, A>, before: Database<A>, after: Database<A>, commandId: nat, request: Request, stored: Stored,
      k: nat, catalog: Catalog)
    requires RecordedAt(setup, before, commandId, request, stored, k, catalog) && Grows(setup, before, after)
    ensures RecordedAt(setup, after, commandId, request, stored, k, catalog)
  {
    hide MaterializeOutcome, Stream, MakeReceipt, Healthy, EventLog.FromWire;
    if stored.Success? { assert after.log[..k + 1] == before.log[..k + 1] && after.log[k] == before.log[k]; }
  }

  /** Whatever ran since a command was first executed: executing its id again for the same
      request returns the first result and changes nothing, and for any other request it is
      a conflict that changes nothing, as long as the lifecycle is open and the reading
      transaction commits. */
  lemma ReplayReturnsTheFirstResult<R, A(!new)>(setup: Setup<R, A>, w: World<A>, env: Env, commandId: nat, given: Request,
      ws: seq<World<A>>, later: Env, again: Request)
    requires LibraryReads(setup) && Healthy(setup, w.db) && commandId !in w.db.receipts
    requires commandId in Execute(setup, w, env, commandId, given).0.db.receipts
    requires ws != [] && ws[0] == Execute(setup, w, env, commandId, given).0 && Trace(setup, ws)
    requires later.open && later.commits && CanonicalCommand(setup.lib, again.command).Ok?
    ensures CanonicalCommand(setup.lib, given.command).Ok?
    ensures var same := again.(command := CanonicalCommand(setup.lib, again.command).value)
                        == given.(command := CanonicalCommand(setup.lib, given.command).value);
            Execute(setup, ws[|ws| - 1], later, commandId, again)
            == (ws[|ws| - 1], if same then Execute(setup, w, env, commandId, given).1 else Err(CommandConflict))
  {
    hide LibraryReads, Healthy, Next, RecordedAt, ValidateReceipt, CanonicalCommand;
    var request := given.(command := CanonicalCommand(setup.lib, given.command).value);
    var asked := again.(command := CanonicalCommand(setup.lib, again.command).value);
    var first, result := ws[0], Execute(setup, w, env, commandId, given).1;
    var last := ws[|ws| - 1];
    FirstIsHealthy(setup, w, env, commandId, given);
    ExecutionIsRecorded(setup, w, env, commandId, given);
    var stored, k, catalog :| RecordedAt(setup, first.db, commandId, request, stored, k, catalog) && IntoResult(stored) == result;
    TraceGrows(setup, ws);
    RecordSurvives(setup, first.db, last.db, commandId, request, stored, k, catalog);
    RecordReplays(setup, last.db, commandId, request, stored, k, catalog, asked);
    ReplayedExecution(setup, last, later, commandId, again);
  }

  lemma FirstIsHealthy<R, A>(setup: Setup<R, A>, w: World<A>, env: Env, commandId: nat, given: Request)
    requires LibraryReads(setup) && Healthy(setup, w.db)
    ensures Healthy(setup, Execute(setup, w, env, commandId, given).0.db)
  {
    hide Execute, Healthy, LibraryReads;
    ExecuteEffects(setup, w, env, commandId, given);
  }

  lemma ReplayedExecution<R, A>(setup: Setup<R, A>, w: World<A>, env: Env, commandId: nat, given: Request)
    requires env.open && env.commits && commandId in w.db.receipts && CanonicalCommand(setup.lib, given.command).Ok?
    ensures Execute(setup, w, env, commandId, given)
            == (w, match ValidateReceipt(setup, w.db.log, commandId, w.db.receipts[commandId],
                           given.(command := CanonicalCommand(setup.lib, given.command).value))
                   case Ok(stored) => IntoResult(stored)
                   case Err(e) => Err(e))
  {}

  // ---------- the mirror follows the stream ----------

  /** An event as it was recorded about profiles. */
  function AsRecorded(): Envelope -> Mirror.Recorded {
    (e: Envelope) => Mirror.Recorded(e.sequence,
      match e.pending.event
      case Other(AgentProfileCreated(p)) => Mirror.Created(p)
      case Other(AgentProfileVersionActivated(p, previous)) => Mirror.Activated(p, previous)
      case Other(AgentSkillChanged(p, previous, Assign(_))) => Mirror.SkillAssigned(p, previous)
      case Other(AgentSkillChanged(p, previous, Upgrade(_, _))) => Mirror.SkillUpgraded(p, previous)
      case Other(AgentSkillChanged(p, previous, Unassign(_))) => Mirror.SkillUnassigned(p, previous)
      case _ => Mirror.Unrelated)
  }

  /** An event in the form the mirror is rebuilt from. */
  function Recorded(): Envelope -> Mirror.Recorded { (e: Envelope) => Mirror.RecoveryEvent(AsRecorded()(e)) }

  lemma RecordedParts(e: Envelope)
    ensures Recorded()(e).sequence == e.sequence
    ensures Mirror.Carried(Recorded()(e).event)
            == if e.pending.event.Other? then CarriedProfile(e.pending.event.detail) else None
  {
    var told := AsRecorded()(e);
    assert Recorded()(e) == Mirror.RecoveryEvent(told);
  }

  lemma RecordedIsRewritten(events: seq<Envelope>)
    ensures Map(events, Recorded()) == Mirror.RecoveryEvents(Map(events, AsRecorded()))
  {}

  /** The mirror holds exactly the rows the stream calls for, read in event order. */
  ghost predicate MirrorFollows<R, A>(setup: Setup<R, A>, db: Database<A>) {
    Stream(setup, db.log).Ok?
    && Mirror.ExpectedRows(setup.format, Map(Stream(setup, db.log).value, Recorded())) == Ok(Mirror.ReadTable(db.mirror))
  }

  /** The row one event calls for, if any. */
  function RowOf(format: Mirror.Format, e: Mirror.Recorded): seq<Mirror.Row>
    requires Mirror.Carried(e.event).Some? ==> Mirror.ExpectedRow(format, e.sequence, Mirror.Carried(e.event).value).Ok?
  {
    match Mirror.Carried(e.event) case None => [] case Some(p) => [Mirror.ExpectedRow(format, e.sequence, p).value]
  }

  lemma {:induction false} ExpectedRowsAppend(format: Mirror.Format, events: seq<Mirror.Recorded>, e: Mirror.Recorded)
    requires Mirror.ExpectedRows(format, events).Ok?
    requires Mirror.Carried(e.event).Some? ==> Mirror.ExpectedRow(format, e.sequence, Mirror.Carried(e.event).value).Ok?
    ensures Mirror.ExpectedRows(format, events + [e]) == Ok(Mirror.ExpectedRows(format, events).value + RowOf(format, e))
    decreases |events|
  {
    hide Mirror.ExpectedRow;
    if events == [] {
      assert events + [e] == [e];
      var none: seq<Mirror.Recorded>, noRows: seq<Mirror.Row> := [e][1..], [];
      assert none == [] && Mirror.ExpectedRows(format, none) == Ok(noRows);
      assert noRows + RowOf(format, e) == RowOf(format, e) && RowOf(format, e) + noRows == RowOf(format, e);
    } else {
      assert (events + [e])[0] == events[0] && (events + [e])[1..] == events[1..] + [e];
      ExpectedRowsAppend(format, events[1..], e);
      var rest := Mirror.ExpectedRows(format, events[1..]).value;
      assert RowOf(format, events[0]) + (rest + RowOf(format, e)) == (RowOf(format, events[0]) + rest) + RowOf(format, e);
    }
  }

  /** A new row goes to the end of a mirror none of whose rows has its number. */
  lemma InsertedLast(table: seq<Mirror.Row>, row: Mirror.Row)
    requires Mirror.PutExpected(table, row).Ok? && forall t | t in table :: t.sequence != row.sequence
    ensures Mirror.PutExpected(table, row).value == table + [row]
  {
    Mirror.CandidatesMeaning(table, row, row);
  }

  lemma MirrorProfileAppends<R, A>(setup: Setup<R, A>, stored: SkillRef -> bool, mirror: seq<Mirror.Row>, events: seq<Mirror.Recorded>, e: Envelope)
    requires e.pending.event.Other? && MirrorProfile(setup, stored, mirror, e.sequence, e.pending.event.detail).Ok?
    requires Mirror.ExpectedRows(setup.format, events) == Ok(Mirror.ReadTable(mirror))
    requires Mirror.NumberedFrom(events, 1) && e.sequence == |events| + 1
    ensures Mirror.ExpectedRows(setup.format, events + [Recorded()(e)])
            == Ok(Mirror.ReadTable(MirrorProfile(setup, stored, mirror, e.sequence, e.pending.event.detail).value))
    ensures CarriedProfile(e.pending.event.detail).Some? ==>
              Mirror.ExpectedRow(setup.format, e.sequence, CarriedProfile(e.pending.event.detail).value).Ok?
    ensures MirrorProfile(setup, stored, mirror, e.sequence, e.pending.event.detail).value
            == mirror + NewRows(setup.format, e.sequence, e.pending.event.detail)
  {
    hide Mirror.PutExpected, Mirror.ExpectedRows, Recorded, Mirror.Carried, Mirror.Resolves, Mirror.ReadTable;
    var fact := e.pending.event.detail;
    RecordedParts(e);
    Mirror.RowsAscend(setup.format, events, 1);
    if CarriedProfile(fact).Some? {
      var row := Mirror.ExpectedRow(setup.format, e.sequence, CarriedProfile(fact).value).value;
      SameReading(mirror);
      forall t | t in mirror ensures t.sequence < row.sequence { assert t in Mirror.ReadTable(mirror); }
      InsertedLast(mirror, row);
      Mirror.ReadAppended(mirror, row);
    }
    ExpectedRowsAppend(setup.format, events, Recorded()(e));
    assert Mirror.ReadTable(mirror) + [] == Mirror.ReadTable(mirror) && mirror + [] == mirror;
  }

  /** The rows one recorded fact adds to the mirror. */
  function NewRows(format: Mirror.Format, sequence: nat, fact: Fact): seq<Mirror.Row> {
    match CarriedProfile(fact)
    case None => []
    case Some(p) => match Mirror.ExpectedRow(format, sequence, p) case Ok(row) => [row] case Err(_) => []
  }

  lemma SameReading(table: seq<Mirror.Row>)
    ensures forall t :: t in Mirror.ReadTable(table) <==> t in table
  {
    Mirror.ReadMembers(table);
  }

  lemma StreamExtends<R, A>(setup: Setup<R, A>, db: Database<A>, after: Database<A>, e: Envelope)
    requires LibraryReads(setup) && Healthy(setup, after) && after.log == db.log + [EventLog.ToWire(setup.codec, e)]
    ensures Stream(setup, db.log).Ok? && Stream(setup, after.log) == Ok(Stream(setup, db.log).value + [e])
  {
    hide EventLog.FromWire, EventLog.Verify, EventLog.UniqueEvents, LibraryReads;
    StreamPrefix(setup, after.log, |db.log|);
    assert after.log[..|db.log|] == db.log;
    HealthyRow(setup, after, |db.log|, e);
    EventLog.DecodeAllMeaning(setup.codec, after.log);
    var events := Stream(setup, after.log).value;
    assert events == events[..|db.log|] + [events[|db.log|]];
  }

  /** What a committed transaction recorded and mirrored. */
  lemma TransactMirrors<R, A>(setup: Setup<R, A>, db: Database<A>, env: Env, commandId: nat, request: Request,
      state: Projections.State<R>, reserved: bool)
    requires Transact(setup, db, env, commandId, request, state, reserved).Ok?
    ensures var (after, outcome) := Transact(setup, db, env, commandId, request, state, reserved).value;
            var e := outcome.committed;
            && e.pending.event.Other? && MirrorProfile(setup, env.stored, db.mirror, e.sequence, e.pending.event.detail) == Ok(after.mirror)
    ensures var prepared := Prepare(setup.lib, setup.profilesOf(state.rest), request.command, FoundBy(env, request.command, reserved), env.drawn);
            && prepared.Ok?
            && Transact(setup, db, env, commandId, request, state, reserved).value.1.committed.pending
               == PendingEvent(request, commandId, prepared.value, env.drawn)
  {
    hide Prepare, Materialize, Projections.Store, Projections.Reduce, Stream, MirrorProfile, EventLog.FromWire;
    var fact := Prepare(setup.lib, setup.profilesOf(state.rest), request.command, FoundBy(env, request.command, reserved), env.drawn).value;
    var p := PendingEvent(request, commandId, fact, env.drawn);
    AppendedPending(setup.codec, db.log, p);
  }

  lemma AppendedPending<E>(codec: EventLog.Codec<E>, log: seq<EventLog.Wire>, p: EventLog.Pending<E>)
    requires EventLog.Append(codec, log, p).1.Ok?
    ensures EventLog.Append(codec, log, p).1.value.pending == p
  {
    hide EventLog.FromWire;
  }

  /** What a committed transaction means: the stream gained exactly the event prepared for this
      request, the stored projection is that event reduced into the one before, the mirror
      gained the row the event carries, and one receipt records the outcome it shows. */
  lemma TransactMeaning<R, A>(setup: Setup<R, A>, db: Database<A>, env: Env, commandId: nat, request: Request,
      state: Projections.State<R>, reserved: bool)
    requires LibraryReads(setup) && Healthy(setup, db) && LoadState(setup, db) == Ok(state) && MirrorFollows(setup, db)
    requires Transact(setup, db, env, commandId, request, state, reserved).Ok?
    ensures Prepare(setup.lib, setup.profilesOf(state.rest), request.command, FoundBy(env, request.command, reserved), env.drawn).Ok?
    ensures var (after, outcome) := Transact(setup, db, env, commandId, request, state, reserved).value;
            var fact := Prepare(setup.lib, setup.profilesOf(state.rest), request.command, FoundBy(env, request.command, reserved), env.drawn).value;
            var e := outcome.committed;
            && e.pending == PendingEvent(request, commandId, fact, env.drawn) && e.sequence == |db.log| + 1
            && after.log == db.log + [EventLog.ToWire(setup.codec, e)]
            && Projections.Reduce(setup.engine, state, e).Ok?
            && LoadState(setup, after) == Ok(Projections.Reduce(setup.engine, state, e).value)
            && after.mirror == db.mirror + NewRows(setup.format, e.sequence, fact)
            && MirrorFollows(setup, after)
            && commandId !in db.receipts
            && after.receipts == db.receipts[commandId := MakeReceipt(setup.json, request, Granted, Success(outcome), [e.pending.eventId])]
            && MaterializeOutcome(setup, env.catalog, commandId, request, [e], Projections.Reduce(setup.engine, state, e).value) == Ok(outcome)
  {
    hide LibraryReads, Healthy, LoadState, Stream, Mirror.ExpectedRows, MirrorProfile, Transact, MirrorFollows, MakeReceipt,
      MaterializeOutcome, Projections.Reduce, NewRows, Prepare;
    TransactEffects(setup, db, env, commandId, request, state, reserved);
    TransactKeepsMirror(setup, db, env, commandId, request, state, reserved);
    TransactMirrors(setup, db, env, commandId, request, state, reserved);
    StoredState(setup, db, env, commandId, request, state, reserved);
  }

  /** Executing commands keeps the mirror in step with the stream. */
  lemma ExecuteKeepsMirror<R, A>(setup: Setup<R, A>, w: World<A>, env: Env, commandId: nat, given: Request)
    requires LibraryReads(setup) && Healthy(setup, w.db) && MirrorFollows(setup, w.db)
    ensures MirrorFollows(setup, Execute(setup, w, env, commandId, given).0.db)
  {
    hide LibraryReads, Healthy, MirrorFollows, CanonicalCommand, Replay, LoadState, MakeReceipt, Transact, ReserveFor;
    if CanonicalCommand(setup.lib, given.command).Ok? && LoadState(setup, w.db).Ok? {
      var request := given.(command := CanonicalCommand(setup.lib, given.command).value);
      var state := LoadState(setup, w.db).value;
      var reserved := ReserveFor(setup.lib, w.review, commandId, request.command).Some?;
      if Transact(setup, w.db, env, commandId, request, state, reserved).Ok? {
        TransactKeepsMirror(setup, w.db, env, commandId, request, state, reserved);
      }
    }
    MirrorIgnoresReceipts(setup, w.db, Execute(setup, w, env, commandId, given).0.db);
  }

  lemma MirrorIgnoresReceipts<R, A>(setup: Setup<R, A>, db: Database<A>, after: Database<A>)
    requires MirrorFollows(setup, db)
    ensures after.log == db.log && after.mirror == db.mirror ==> MirrorFollows(setup, after)
  {}

  lemma TransactKeepsMirror<R, A>(setup: Setup<R, A>, db: Database<A>, env: Env, commandId: nat, request: Request,
      state: Projections.State<R>, reserved: bool)
    requires LibraryReads(setup) && Healthy(setup, db) && LoadState(setup, db) == Ok(state) && MirrorFollows(setup, db)
    requires Transact(setup, db, env, commandId, request, state, reserved).Ok?
    ensures MirrorFollows(setup, Transact(setup, db, env, commandId, request, state, reserved).value.0)
    ensures var (after, outcome) := Transact(setup, db, env, commandId, request, state, reserved).value;
            outcome.committed.pending.event.Other?
            && after.mirror == db.mirror + NewRows(setup.format, outcome.committed.sequence, outcome.committed.pending.event.detail)
  {
    hide LibraryReads, EventLog.Sound, EventLog.UniqueEvents, LoadState, Stream, Mirror.ExpectedRows, MirrorProfile, Transact, Map;
    var (after, outcome) := Transact(setup, db, env, commandId, request, state, reserved).value;
    var e := outcome.committed;
    TransactEffects(setup, db, env, commandId, request, state, reserved);
    TransactMirrors(setup, db, env, commandId, request, state, reserved);
    StreamExtends(setup, db, after, e);
    StreamPrefix(setup, db.log, 0);
    var events := Stream(setup, db.log).value;
    var recorded := Map(events, Recorded());
    forall i | 0 <= i < |recorded| ensures recorded[i].sequence == 1 + i {
      assert events[i].sequence == i + 1;
      RecordedParts(events[i]);
    }
    MirrorProfileAppends(setup, env.stored, db.mirror, recorded, e);
    assert Map(events + [e], Recorded()) == recorded + [Recorded()(e)];
  }

  // ---------- nothing fails after its event ----------

  /** The projection applies profile events as the profile projection does. */
  ghost predicate FollowsProfiles<R(!new), A>(setup: Setup<R, A>) {
    forall r, e: Envelope | e.pending.event.Other? && setup.engine.apply(r, e).Some? ::
      ApplyFact(setup.lib, setup.profilesOf(r), e.pending.event.detail) == Some(setup.profilesOf(setup.engine.apply(r, e).value))
  }

  ghost predicate SoundProfiles<R, A>(setup: Setup<R, A>, db: Database<A>) {
    LoadState(setup, db).Ok? ==> Sound(setup.lib, setup.profilesOf(LoadState(setup, db).value.rest))
  }

  lemma ReducedProfiles<R(!new), A>(setup: Setup<R, A>, state: Projections.State<R>, e: Envelope)
    requires FollowsProfiles(setup) && e.pending.event.Other? && Projections.Reduce(setup.engine, state, e).Ok?
    ensures ApplyFact(setup.lib, setup.profilesOf(state.rest), e.pending.event.detail)
            == Some(setup.profilesOf(Projections.Reduce(setup.engine, state, e).value.rest))
  {
    hide Projections.ValidState, ApplyFact;
  }

  /** Once a new command's event is appended and reduced, its view materialises; the receipt
      check that materialising contains never fires on a first execution. */
  lemma TransactNeverInvalid<R(!new), A>(setup: Setup<R, A>, db: Database<A>, env: Env, commandId: nat, request: Request,
      state: Projections.State<R>, reserved: bool)
    requires FollowsProfiles(setup) && ReadsProjection(setup.lib) && Sound(setup.lib, setup.profilesOf(state.rest))
    ensures Transact(setup, db, env, commandId, request, state, reserved) != Err(ReceiptInvalid)
    ensures Transact(setup, db, env, commandId, request, state, reserved).Ok? ==>
              var (after, outcome) := Transact(setup, db, env, commandId, request, state, reserved).value;
              LoadState(setup, after).Ok? && Sound(setup.lib, setup.profilesOf(LoadState(setup, after).value.rest))
  {
    hide Prepare, Materialize, Projections.Store, Projections.Reduce, Projections.Load, EventLog.Append, Stream, MirrorProfile, Sound,
      ApplyFact, MakeReceipt, ReadsProjection, FollowsProfiles, LoadState, Projections.FoldAll;
    var profiles := setup.profilesOf(state.rest);
    var prepared := Prepare(setup.lib, profiles, request.command, FoundBy(env, request.command, reserved), env.drawn);
    if prepared.Ok? {
      var p := PendingEvent(request, commandId, prepared.value, env.drawn);
      var appended := EventLog.Append(setup.codec, db.log, p).1;
      if appended.Ok? && Projections.Reduce(setup.engine, state, appended.value).Ok? {
        AppendedPending(setup.codec, db.log, p);
        ReducedProfiles(setup, state, appended.value);
        PreparedIsShown(setup.lib, env.catalog, profiles, request.command, FoundBy(env, request.command, reserved), env.drawn);
        PreparedKeepsSound(setup.lib, profiles, request.command, FoundBy(env, request.command, reserved), env.drawn);
        MirrorErrors(setup, env.stored, db.mirror, appended.value.sequence, prepared.value);
        StreamErrors(setup, EventLog.Append(setup.codec, db.log, p).0);
        if Transact(setup, db, env, commandId, request, state, reserved).Ok? {
          StoredState(setup, db, env, commandId, request, state, reserved);
        }
      }
    }
  }

  lemma MirrorErrors<R, A>(setup: Setup<R, A>, stored: SkillRef -> bool, mirror: seq<Mirror.Row>, sequence: nat, fact: Fact)
    ensures MirrorProfile(setup, stored, mirror, sequence, fact) != Err(ReceiptInvalid)
  {}

  lemma StreamErrors<R, A>(setup: Setup<R, A>, log: seq<EventLog.Wire>)
    ensures Stream(setup, log) != Err(ReceiptInvalid)
  {}

  lemma StoredState<R, A>(setup: Setup<R, A>, db: Database<A>, env: Env, commandId: nat, request: Request,
      state: Projections.State<R>, reserved: bool)
    requires Transact(setup, db, env, commandId, request, state, reserved).Ok?
    ensures var (after, outcome) := Transact(setup, db, env, commandId, request, state, reserved).value;
            && Projections.Reduce(setup.engine, state, outcome.committed).Ok?
            && LoadState(setup, after) == Ok(Projections.Reduce(setup.engine, state, outcome.committed).value)
            && MaterializeOutcome(setup, env.catalog, commandId, request, [outcome.committed],
                 Projections.Reduce(setup.engine, state, outcome.committed).value) == Ok(outcome)
  {
    hide Prepare, Materialize, Projections.Store, Projections.Reduce, Projections.Load, EventLog.Append, Stream, MirrorProfile, Projections.FoldAll;
    var (after, outcome) := Transact(setup, db, env, commandId, request, state, reserved).value;
    Projections.StoreThenLoad(setup.engine, db.rows, Stream(setup, after.log).value,
      Projections.Reduce(setup.engine, state, outcome.committed).value);
  }

  /** Over any execution of a command not seen before: it is never answered with an invalid
      receipt, and the profiles stay sound. */
  lemma NewCommandsAreShown<R(!new), A>(setup: Setup<R, A>, w: World<A>, env: Env, commandId: nat, given: Request)
    requires FollowsProfiles(setup) && ReadsProjection(setup.lib) && SoundProfiles(setup, w.db) && commandId !in w.db.receipts
    ensures Execute(setup, w, env, commandId, given).1 != Err(ReceiptInvalid)
    ensures SoundProfiles(setup, Execute(setup, w, env, commandId, given).0.db)
  {
    hide FollowsProfiles, ReadsProjection, Sound, CanonicalCommand, MakeReceipt, Transact, ReserveFor, Projections.Load, Stream;
    if CanonicalCommand(setup.lib, given.command).Ok? && LoadState(setup, w.db).Ok? {
      var request := given.(command := CanonicalCommand(setup.lib, given.command).value);
      var reserved := ReserveFor(setup.lib, w.review, commandId, request.command).Some?;
      TransactNeverInvalid(setup, w.db, env, commandId, request, LoadState(setup, w.db).value, reserved);
    } else {
      StreamErrors(setup, w.db.log);
    }
  }

  // ---------- the review an execution leaves ----------

  /** The review this command used up: it was waiting in the slot, matched, and the command
      committed for the first time. */
  ghost predicate UsesReview<R, A>(setup: Setup<R, A>, w: World<A>, commandId: nat, given: Request, r: Result<Outcome, ServiceError>) {
    && commandId !in w.db.receipts && r.Ok? && CanonicalCommand(setup.lib, given.command).Ok?
    && var wanted := WantedReview(setup.lib, CanonicalCommand(setup.lib, given.command).value);
    wanted.Some? && w.review == Some(Reviews.Available(wanted.value))
  }

  /** No execution leaves a review reserved: the slot is as before, or emptied exactly when the
      command used its review up. */
  lemma ExecutionFreesReview<R, A>(setup: Setup<R, A>, w: World<A>, env: Env, commandId: nat, given: Request)
    requires !Reviews.IsReserved(w.review)
    ensures var (after, r) := Execute(setup, w, env, commandId, given);
            && !Reviews.IsReserved(after.review)
            && after.review == if UsesReview(setup, w, commandId, given, r) then None else w.review
  {
    hide Transact, CanonicalCommand, Replay, LoadState, MakeReceipt;
    if CanonicalCommand(setup.lib, given.command).Ok? && LoadState(setup, w.db).Ok? {
      var request := given.(command := CanonicalCommand(setup.lib, given.command).value);
      GrantedReview(setup, w, env, commandId, request, LoadState(setup, w.db).value);
    }
  }

  lemma GrantedReview<R, A>(setup: Setup<R, A>, w: World<A>, env: Env, commandId: nat, request: Request, state: Projections.State<R>)
    requires !Reviews.IsReserved(w.review)
    ensures var (after, r) := ExecuteGranted(setup, w, env, commandId, request, state);
            var wanted := WantedReview(setup.lib, request.command);
            after.review == if r.Ok? && wanted.Some? && w.review == Some(Reviews.Available(wanted.value)) then None else w.review
  {
    hide Transact;
  }

  /** Nor does any run of executions. */
  lemma {:induction false} RunsFreeReview<R, A>(setup: Setup<R, A>, w: World<A>, steps: seq<(Env, nat, Request)>)
    requires !Reviews.IsReserved(w.review)
    ensures !Reviews.IsReserved(ExecuteAll(setup, w, steps).review)
    ensures ExecuteAll(setup, w, steps).review in {w.review, None}
    decreases |steps|
  {
    hide Execute, UsesReview;
    if steps != [] {
      ExecutionFreesReview(setup, w, steps[0].0, steps[0].1, steps[0].2);
      RunsFreeReview(setup, Execute(setup, w, steps[0].0, steps[0].1, steps[0].2).0, steps[1..]);
    }
  }

  /** On the slot, an execution that wants a review is one thread's disciplined use of the
      registry: take the lock, reserve, consume or release what was reserved, let go. */
  lemma ExecutionIsPolite<R, A>(setup: Setup<R, A>, w: World<A>, env: Env, commandId: nat, request: Request, state: Projections.State<R>,
      registry: Reviews.Registry, thread: nat)
    requires registry.slot == w.review && registry.lock == None && Reviews.At(registry, thread) == Reviews.Idle
    requires WantedReview(setup.lib, request.command).Some?
    ensures var (after, r) := ExecuteGranted(setup, w, env, commandId, request, state);
            var steps := Reviews.GuardedUse(registry, thread, commandId, WantedReview(setup.lib, request.command).value, r.Ok?);
            && Reviews.PoliteFrom(registry, steps)
            && Reviews.Run(registry, steps).slot == after.review && Reviews.Run(registry, steps).lock == None
  {
    hide Transact, Reviews.PoliteFrom, Reviews.Run, Reviews.GuardedUse;
    Reviews.GuardedUseMeaning(registry, thread, commandId, WantedReview(setup.lib, request.command).value,
      ExecuteGranted(setup, w, env, commandId, request, state).1.Ok?);
  }

  // ---------- runs of the service ----------

  /** What every execution keeps: a verifiable stream, the mirror it calls for, sound profiles. */
  ghost predicate Kept<R, A>(setup: Setup<R, A>, db: Database<A>) {
    Healthy(setup, db) && MirrorFollows(setup, db) && SoundProfiles(setup, db)
  }

  function ExecuteAll<R(==), A(==)>(setup: Setup<R, A>, w: World<A>, steps: seq<(Env, nat, Request)>): World<A>
    decreases |steps|
  {
    if steps == [] then w else ExecuteAll(setup, Execute(setup, w, steps[0].0, steps[0].1, steps[0].2).0, steps[1..])
  }

  lemma ExecuteKeeps<R(!new), A>(setup: Setup<R, A>, w: World<A>, env: Env, commandId: nat, given: Request)
    requires LibraryReads(setup) && FollowsProfiles(setup) && ReadsProjection(setup.lib) && Kept(setup, w.db)
    ensures Kept(setup, Execute(setup, w, env, commandId, given).0.db)
  {
    hide LibraryReads, FollowsProfiles, ReadsProjection, Healthy, MirrorFollows, SoundProfiles, ExecuteGranted, ExecuteDenied, LoadState,
      CanonicalCommand, Replay;
    ExecuteEffects(setup, w, env, commandId, given);
    ExecuteKeepsMirror(setup, w, env, commandId, given);
    if commandId !in w.db.receipts { NewCommandsAreShown(setup, w, env, commandId, given); }
  }

  /** Over any run of commands, new or repeated, granted, denied or failing. */
  lemma {:induction false} RunsKeep<R(!new), A>(setup: Setup<R, A>, w: World<A>, steps: seq<(Env, nat, Request)>)
    requires LibraryReads(setup) && FollowsProfiles(setup) && ReadsProjection(setup.lib) && Kept(setup, w.db)
    ensures Kept(setup, ExecuteAll(setup, w, steps).db)
    decreases |steps|
  {
    hide LibraryReads, FollowsProfiles, ReadsProjection, Kept, Execute;
    if steps != [] {
      ExecuteKeeps(setup, w, steps[0].0, steps[0].1, steps[0].2);
      RunsKeep(setup, Execute(setup, w, steps[0].0, steps[0].1, steps[0].2).0, steps[1..]);
    }
  }

  function Empty<A>(): Database<A> { Database([], Projections.Cleared(), map[], []) }

  /** A new database keeps all of it. */
  lemma NothingIsKept<R, A>(setup: Setup<R, A>)
    requires setup.profilesOf(setup.engine.initial) == NO_PROFILES
    ensures Kept(setup, Empty<A>())
  {
    hide Agrees;
    EmptyAgrees();
    var db := Empty<A>();
    StreamPrefix(setup, db.log, 0);
    assert Stream(setup, db.log).value == [];
    assert Map(Stream(setup, db.log).value, Recorded()) == [];
    Projections.EmptyLoads(setup.engine);
  }

  // ---------- the service as it runs ----------

  class ApplicationService<R(==), A(==)> {
    var log: seq<EventLog.Wire>
    var rows: Projections.Rows<A>
    var receipts: map<nat, Receipt>
    var mirror: seq<Mirror.Row>
    var review: Reviews.Slot

    constructor ()
      ensures Value() == World(Empty(), None)
    {
      log, rows, receipts, mirror, review := [], Projections.Cleared(), map[], [], None;
    }

    function Value(): World<A>
      reads this
    {
      World(Database(log, rows, receipts, mirror), review)
    }

    /** The transaction of a granted command works on copies until it commits. */
    method TransactGranted(setup: Setup<R, A>, env: Env, commandId: nat, request: Request, state: Projections.State<R>, reserved: bool)
      returns (r: Result<(Database<A>, Outcome), ServiceError>)
      ensures r == Transact(setup, Value().db, env, commandId, request, state, reserved)
    {
      hide Prepare, Materialize, Projections.Store, Projections.Reduce, EventLog.Append, Stream, MirrorProfile, MakeReceipt;
      var prepared := Prepare(setup.lib, setup.profilesOf(state.rest), request.command, FoundBy(env, request.command, reserved), env.drawn);
      if prepared.Err? { return Err(Rejected(prepared.error)); }
      var fact := prepared.value;
      var (stream, appended) := EventLog.Append(setup.codec, log, PendingEvent(request, commandId, fact, env.drawn));
      if appended.Err? { return Err(PersistenceFailed); }
      var committed := appended.value;
      var projection := Projections.Reduce(setup.engine, state, committed);
      if projection.Err? { return Err(RecoveryFailed); }
      var mirrored := MirrorProfile(setup, env.stored, mirror, committed.sequence, fact);
      if mirrored.Err? { return Err(mirrored.error); }
      var events := Stream(setup, stream);
      if events.Err? { return Err(events.error); }
      var stored := Projections.Store(setup.engine, rows, events.value, projection.value);
      if stored.Err? { return Err(PersistenceFailed); }
      var outcome := MaterializeOutcome(setup, env.catalog, commandId, request, [committed], projection.value);
      if outcome.Err? { return Err(outcome.error); }
      if !ReceiptFits(receipts, commandId, [committed.pending.eventId]) { return Err(PersistenceFailed); }
      var receipt := MakeReceipt(setup.json, request, Granted, Success(outcome.value), [committed.pending.eventId]);
      return Ok((Database(stream, stored.value, receipts[commandId := receipt], mirrored.value), outcome.value));
    }

    /** `execute_locked`, with the lifecycle already read. */
    method ExecuteLocked(setup: Setup<R, A>, env: Env, commandId: nat, given: Request) returns (r: Result<Outcome, ServiceError>)
      modifies this
      ensures (Value(), r) == Execute(setup, old(Value()), env, commandId, given)
    {
      hide Transact, LoadState, ValidateReceipt, CanonicalCommand, MakeReceipt;
      if !env.open { return Err(LifecycleFinished); }
      var canonical := CanonicalCommand(setup.lib, given.command);
      if canonical.Err? { return Err(InvalidProfile(canonical.error)); }
      var request := given.(command := canonical.value);
      if commandId in receipts {
        var replayed := ValidateReceipt(setup, log, commandId, receipts[commandId], request);
        if replayed.Err? { return Err(replayed.error); }
        return if env.commits then IntoResult(replayed.value) else Err(PersistenceFailed);
      }
      if !SessionOpen(rows.sessions, env.session) { return Err(LifecycleFinished); }
      var loaded := LoadState(setup, Value().db);
      if loaded.Err? { return Err(loaded.error); }
      if !SessionOpen(loaded.value.sessions, env.session) { return Err(LifecycleFinished); }
      if env.decision != Granted {
        var stored := DeniedExecution(RequiredCapability(request.command), env.decision);
        if !env.commits { return Err(PersistenceFailed); }
        receipts := receipts[commandId := MakeReceipt(setup.json, request, env.decision, stored, [])];
        return IntoResult(stored);
      }
      var profileReserved := false;
      var wanted := WantedReview(setup.lib, request.command);
      if wanted.Some? {
        var slot := Reviews.Reserve(review, commandId, wanted.value);
        if slot.Ok? { review, profileReserved := slot.value, true; }
      }
      var precommit := TransactGranted(setup, env, commandId, request, loaded.value, profileReserved);
      if precommit.Err? {
        if profileReserved { review := Reviews.Release(review, commandId); }
        return Err(precommit.error);
      }
      if !env.commits {
        if profileReserved { review := Reviews.Release(review, commandId); }
        return Err(PersistenceFailed);
      }
      var (db, outcome) := precommit.value;
      log, rows, receipts, mirror := db.log, db.rows, db.receipts, db.mirror;
      if profileReserved { review := Reviews.Consume(review, commandId); }
      return Ok(outcome);
    }
  }
}
