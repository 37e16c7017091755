/** When an execution of src/app/service.rs answers, and with what: the session check, the
    denials, and exactly which granted commands commit. */
module Execution {
  import opened Prelude
  import opened ProfileDraft
  import opened ProfileProjection
  import opened ProfileCommands
  import opened ProfileNames
  import opened ProfileViews
  import opened Receipts
  import opened Rebuild
  import opened ProjectionMeaning
  import EventLog
  import Mirror
  import Projections = ProjectionStore
  import Reviews = ProfileReviews

  // ---------- the session ----------

  /** The stored rows have the session, without an end. */
  ghost predicate SessionRuns<A>(db: Database<A>, id: nat) {
    id in db.rows.sessions && db.rows.sessions[id].ended == None
  }

  lemma LoadedSessions<R, A>(setup: Setup<R, A>, db: Database<A>)
    requires LoadState(setup, db).Ok?
    ensures LoadState(setup, db).value.sessions == db.rows.sessions
  {
    hide Stream, Projections.FoldAll, Projections.ValidState;
  }

  lemma TransactErrors<R, A>(setup: Setup<R, A>, db: Database<A>, env: Env, commandId: nat, request: Request,
      state: Projections.State<R>, reserved: bool)
    ensures Transact(setup, db, env, commandId, request, state, reserved) != Err(LifecycleFinished)
  {
    hide Prepare, Materialize, Projections.Store, Projections.Reduce, EventLog.Append, EventLog.Verify, EventLog.DecodeAll, Mirror.InsertExpected;
  }

  lemma LoadErrors<R, A>(setup: Setup<R, A>, db: Database<A>)
    ensures LoadState(setup, db) != Err(LifecycleFinished)
  {
    hide EventLog.Verify, EventLog.DecodeAll, Projections.Load;
  }

  /** Of a command not seen before, while the service is open: it finds the lifecycle finished
      exactly when its session has no stored row or an ended one, and then changes nothing. */
  lemma SessionMustRun<R, A>(setup: Setup<R, A>, w: World<A>, env: Env, commandId: nat, given: Request)
    requires env.open && commandId !in w.db.receipts && CanonicalCommand(setup.lib, given.command).Ok?
    ensures Execute(setup, w, env, commandId, given).1 == Err(LifecycleFinished) <==> !SessionRuns(w.db, env.session)
    ensures !SessionRuns(w.db, env.session) ==> Execute(setup, w, env, commandId, given) == (w, Err(LifecycleFinished))
  {
    hide CanonicalCommand, LoadState, Transact, MakeReceipt, ReserveFor;
    LoadErrors(setup, w.db);
    if LoadState(setup, w.db).Ok? {
      var request := given.(command := CanonicalCommand(setup.lib, given.command).value);
      LoadedSessions(setup, w.db);
      TransactErrors(setup, w.db, env, commandId, request, LoadState(setup, w.db).value,
        ReserveFor(setup.lib, w.review, commandId, request.command).Some?);
    }
  }

  // ---------- denials ----------

  /** The capability a command needs. */
  ghost predicate Needs(c: Command, capability: Capability) {
    match capability
    case ProfileCreate => c.CreateAgentProfile?
    case ProfileActivate => c.ActivateAgentProfileVersion?
    case SkillAssign => c.ChangeAgentSkill? && (c.operation.Assign? || c.operation.Upgrade?)
    case SkillUnassign => c.ChangeAgentSkill? && c.operation.Unassign?
    case ProfileRead =>
      c.ListAgentProfiles? || c.ShowAgentProfile? || c.ShowAgentProfileHistory? || c.ShowAgentProfileVersion?
  }

  /** What the policy's refusal is answered with. */
  ghost predicate Refusal(decision: Decision, capability: Capability, r: Result<Outcome, ServiceError>) {
    match decision
    case Granted => false
    case Denied => r == Err(DeniedCapability(capability, Denied))
    case DeniedByDefault => r == Err(DeniedCapability(capability, DeniedByDefault))
    case ApprovalRequired => r == Err(ApprovalNeeded(capability))
  }

  /** A command the policy does not grant is refused as the policy says, and the refusal is
      recorded with no event; if that cannot be committed nothing is left. */
  lemma DenialMeaning<R, A>(setup: Setup<R, A>, w: World<A>, env: Env, commandId: nat, given: Request)
    requires env.open && commandId !in w.db.receipts && CanonicalCommand(setup.lib, given.command).Ok?
    requires SessionRuns(w.db, env.session) && LoadState(setup, w.db).Ok? && env.decision != Granted
    ensures var (after, r) := Execute(setup, w, env, commandId, given);
            var request := given.(command := CanonicalCommand(setup.lib, given.command).value);
            if !env.commits then after == w && r == Err(PersistenceFailed)
            else
              && Refusal(env.decision, RequiredCapability(request.command), r)
              && commandId in after.db.receipts
              && after == w.(db := w.db.(receipts := w.db.receipts[commandId := after.db.receipts[commandId]]))
              && var receipt := after.db.receipts[commandId];
              && receipt.requestJson == setup.json.writeRequest(request) && receipt.fingerprint == setup.json.hash(receipt.requestJson)
              && receipt.capability == RequiredCapability(request.command) && Needs(request.command, receipt.capability)
              && receipt.decision == env.decision && receipt.eventIds == []
              && exists stored :: receipt.outcomeJson == setup.json.writeOutcome(stored) && IntoResult(stored) == r
  {
    hide CanonicalCommand, LoadState, Transact, ReserveFor;
    LoadedSessions(setup, w.db);
    var request := given.(command := CanonicalCommand(setup.lib, given.command).value);
    var stored := DeniedExecution(RequiredCapability(request.command), env.decision);
    assert MakeReceipt(setup.json, request, env.decision, stored, []).outcomeJson == setup.json.writeOutcome(stored);
  }

  // ---------- appending and reducing ----------

  /** The event as the stream will hold it. */
  ghost function NextEvent<R, A>(setup: Setup<R, A>, log: seq<EventLog.Wire>, p: EventLog.Pending<StreamEvent>): Envelope {
    EventLog.EnvelopeFromPending(setup.codec, |log| + 1, p, EventLog.Previous(log))
  }

  ghost predicate NewEvent(log: seq<EventLog.Wire>, eventId: nat) {
    |log| < I64_MAX && forall i | 0 <= i < |log| :: log[i].eventId != eventId
  }

  /** A new event is appended as the next one; an append under a used id answers with an old
      number or not at all. */
  lemma AppendNew<R(!new), A>(setup: Setup<R, A>, log: seq<EventLog.Wire>, p: EventLog.Pending<StreamEvent>)
    requires EventLog.CollisionFree(setup.codec) && EventLog.Sound(setup.codec, log) && EventLog.UniqueEvents(log)
    requires p.schemaVersion == EventLog.EVENT_SCHEMA_VERSION && p.about.None?
    ensures var (after, r) := EventLog.Append(setup.codec, log, p);
            && (r.Ok? && r.value.sequence == |log| + 1 <==> NewEvent(log, p.eventId))
            && (NewEvent(log, p.eventId) ==>
                  after == log + [EventLog.ToWire(setup.codec, NextEvent(setup, log, p))] && r == Ok(NextEvent(setup, log, p)))
  {
    hide EventLog.FromWire, EventLog.Sound;
    EventLog.FindEventMeaning(log, p.eventId);
    NextNumber(setup, log);
    if forall i | 0 <= i < |log| :: log[i].eventId != p.eventId {
      EventLog.AppendSucceedsExactly(setup.codec, log, p);
    } else if EventLog.Append(setup.codec, log, p).1.Ok? {
      NewSequenceIsNew(setup.codec, log, p);
    }
  }

  lemma NextNumber<R, A>(setup: Setup<R, A>, log: seq<EventLog.Wire>)
    requires EventLog.Sound(setup.codec, log)
    ensures EventLog.NextSequence(log) == |log| + 1
  {
    if log != [] { assert EventLog.Linked(setup.codec, log, |log| - 1); }
  }

  /** What the fold of the stored stream has counted. */
  lemma LoadedBookkeeping<R(!new), A>(setup: Setup<R, A>, db: Database<A>, state: Projections.State<R>)
    requires EngineFits(setup) && EventLog.Sound(setup.codec, db.log) && LoadState(setup, db) == Ok(state)
    ensures Stream(setup, db.log).Ok? && Projections.FoldAll(setup.engine, Stream(setup, db.log).value) == Ok(state)
    ensures |Stream(setup, db.log).value| == |db.log|
    ensures Projections.ValidState(setup.engine, state) && state.lastSequence == |db.log| && state.lastDigest == EventLog.Previous(db.log)
  {
    hide Projections.FoldAll, Projections.ValidState, EventLog.FromWire, EventLog.Verify, LoadState, FollowsProfiles;
    LoadedSequence(setup, db, state);
    var events := Stream(setup, db.log).value;
    FoldBookkeeping(setup.engine, events);
    EventLog.DecodeAllMeaning(setup.codec, db.log);
    if db.log != [] { EventLog.RowOfEnvelope(setup.codec, db.log[|db.log| - 1], events[|events| - 1]); }
  }

  /** The projection takes the event: it applies and leaves what is valid. */
  ghost predicate Takes<R, A>(setup: Setup<R, A>, state: Projections.State<R>, e: Envelope) {
    setup.engine.apply(state.rest, e).Some? && setup.engine.restOk(setup.engine.apply(state.rest, e).value)
  }

  lemma ReduceNext<R(!new), A>(setup: Setup<R, A>, db: Database<A>, state: Projections.State<R>, p: EventLog.Pending<StreamEvent>)
    requires EngineFits(setup) && EventLog.Sound(setup.codec, db.log) && LoadState(setup, db) == Ok(state)
    requires p.schemaVersion == EventLog.EVENT_SCHEMA_VERSION && p.event.Other? && |db.log| < I64_MAX
    ensures var e := NextEvent(setup, db.log, p);
            && (Projections.Reduce(setup.engine, state, e).Ok? <==> Takes(setup, state, e))
            && (Takes(setup, state, e) ==>
                  && Projections.Reduce(setup.engine, state, e).value.rest == setup.engine.apply(state.rest, e).value
                  && Projections.FoldAll(setup.engine, Stream(setup, db.log).value + [e]) == Projections.Reduce(setup.engine, state, e))
  {
    hide Projections.FoldAll, Projections.ValidState, EventLog.FromWire, EventLog.Verify, LoadState, EngineFits, Projections.Reduce, Stream;
    var e := NextEvent(setup, db.log, p);
    LoadedBookkeeping(setup, db, state);
    ReduceSucceedsExactly(setup.engine, state, e);
    FoldLast(setup.engine, Stream(setup, db.log).value, e);
    if Takes(setup, state, e) { ReducedRest(setup, state, e); }
  }

  lemma ReducedRest<R, A>(setup: Setup<R, A>, state: Projections.State<R>, e: Envelope)
    requires e.pending.event.Other? && Projections.Reduce(setup.engine, state, e).Ok?
    ensures setup.engine.apply(state.rest, e).Some?
    ensures Projections.Reduce(setup.engine, state, e).value.rest == setup.engine.apply(state.rest, e).value
  {
    hide Projections.ValidState;
  }

  // ---------- mirroring ----------

  /** Every skill reference of the version the fact carries resolves. */
  ghost predicate ReferencesResolve(stored: SkillRef -> bool, fact: Fact) {
    match CarriedProfile(fact) case None => true case Some(p) => forall r | r in p.draft.skillRefs :: stored(r)
  }

  lemma {:induction false} LastRowExpected(format: Mirror.Format, events: seq<Mirror.Recorded>, e: Mirror.Recorded)
    requires Mirror.ExpectedRows(format, events + [e]).Ok?
    ensures Mirror.ExpectedRows(format, events).Ok?
    ensures Mirror.Carried(e.event).Some? ==> Mirror.ExpectedRow(format, e.sequence, Mirror.Carried(e.event).value).Ok?
    decreases |events|
  {
    hide Mirror.ExpectedRow;
    if events == [] {
      assert events + [e] == [e];
    } else {
      assert (events + [e])[0] == events[0] && (events + [e])[1..] == events[1..] + [e];
      LastRowExpected(format, events[1..], e);
    }
  }

  /** A stream that folds calls for rows one table can hold. */
  lemma FoldedRowsFit<R(!new), A>(setup: Setup<R, A>, events: seq<Envelope>)
    requires EngineFits(setup) && Projections.FoldAll(setup.engine, events).Ok? && |events| <= I64_MAX
    ensures Mirror.ExpectedRows(setup.format, Map(events, Recorded())).Ok?
    ensures Mirror.Compatible(Mirror.ExpectedRows(setup.format, Map(events, Recorded())).value)
  {
    hide Projections.FoldAll, EngineFits, Mirror.FoldProfiles, Mirror.ExpectedRows, Mirror.Compatible, Agrees, AsRecorded, Recorded, Mirror.Fresh;
    FoldFromStart(setup, events);
    StreamIsNumbered(setup, events);
    NumberedRecorded(events);
    EmptyAgrees();
    MapLength(events);
    Mirror.AcceptedRowsFit(Sealed(setup.lib), setup.format, NO_PROFILES, Map(events, Recorded()), 1);
  }

  lemma RearrangedFits(table: seq<Mirror.Row>, row: Mirror.Row)
    requires Mirror.Compatible(Mirror.ReadTable(table) + [row])
    ensures Mirror.Compatible(table + ([row] + []))
  {
    hide Mirror.Keyed, Mirror.SameOwner, Mirror.WellShaped, Mirror.ReadTable;
    Mirror.ReadMembers(table);
    Mirror.TableRearranged(table);
    assert [row] + [] == [row];
    Mirror.KeyedRearranged(Mirror.ReadTable(table) + [row], table + [row]);
    forall r ensures r in table + [row] <==> r in Mirror.ReadTable(table) + [row] {}
  }

  /** The mirror takes the version of an event the projection took exactly when its references
      resolve. */
  lemma MirrorTakes<R(!new), A>(setup: Setup<R, A>, db: Database<A>, stored: SkillRef -> bool, e: Envelope, events: seq<Envelope>)
    requires EngineFits(setup) && MirrorFollows(setup, db) && Stream(setup, db.log) == Ok(events) && |events| + 1 <= I64_MAX
    requires Projections.FoldAll(setup.engine, events + [e]).Ok? && e.pending.event.Other?
    ensures MirrorProfile(setup, stored, db.mirror, e.sequence, e.pending.event.detail).Ok? <==>
              ReferencesResolve(stored, e.pending.event.detail)
  {
    hide Projections.FoldAll, EngineFits, Mirror.ExpectedRows, Mirror.Compatible, Recorded, Mirror.ReadTable, Mirror.PutExpected,
      Mirror.ExpectedRow, Mirror.Carried;
    FoldedRowsFit(setup, events + [e]);
    var recorded := Map(events, Recorded());
    assert Map(events + [e], Recorded()) == recorded + [Recorded()(e)];
    LastRowExpected(setup.format, recorded, Recorded()(e));
    ExpectedRowsAppend(setup.format, recorded, Recorded()(e));
    RecordedParts(e);
    if CarriedProfile(e.pending.event.detail).Some? {
      var row := Mirror.ExpectedRow(setup.format, e.sequence, CarriedProfile(e.pending.event.detail).value).value;
      RearrangedFits(db.mirror, row);
      Mirror.PutFits(db.mirror, row, []);
    }
  }

  // ---------- storing ----------

  /** The store takes the projection after the event exactly when its own tables do. */
  lemma StoreTakes<R(!new), A>(setup: Setup<R, A>, db: Database<A>, state: Projections.State<R>, e: Envelope, events: seq<Envelope>,
      after: Projections.State<R>)
    requires LoadState(setup, db) == Ok(state) && Stream(setup, db.log) == Ok(events) && |events| < I64_MAX
    requires Projections.FoldAll(setup.engine, events + [e]) == Ok(after)
    ensures Projections.Store(setup.engine, db.rows, events + [e], after).Ok? <==> setup.engine.mirrorOk(after.rest)
  {
    hide Projections.FoldAll, Projections.ValidState, Projections.ReadRows, Projections.Keeps, Projections.WriteRows, Projections.Load,
      EventLog.Verify, EventLog.DecodeAll;
    if setup.engine.mirrorOk(after.rest) {
      Projections.StoreAcceptsExactlyTheFold(setup.engine, db.rows, events, [e], after);
    }
  }

  lemma StreamAfter<R(!new), A>(setup: Setup<R, A>, db: Database<A>, p: EventLog.Pending<StreamEvent>)
    requires LibraryReads(setup) && EventLog.CollisionFree(setup.codec) && Healthy(setup, db)
    requires p.schemaVersion == EventLog.EVENT_SCHEMA_VERSION && p.about.None? && NewEvent(db.log, p.eventId)
    ensures var e := NextEvent(setup, db.log, p);
            && EventLog.Append(setup.codec, db.log, p) == (db.log + [EventLog.ToWire(setup.codec, e)], Ok(e))
            && Stream(setup, db.log).Ok?
            && Stream(setup, db.log + [EventLog.ToWire(setup.codec, e)]) == Ok(Stream(setup, db.log).value + [e])
  {
    hide EventLog.FromWire, EventLog.Sound, EventLog.UniqueEvents, EventLog.Append, EventLog.Decodes, EventLog.CollisionFree, NewEvent,
      EventLog.ToWire, Stream, ReadsBack;
    AppendNew(setup, db.log, p);
    EventLog.AppendKeepsSound(setup.codec, db.log, p);
    var e := NextEvent(setup, db.log, p);
    StreamExtends(setup, db, db.(log := db.log + [EventLog.ToWire(setup.codec, e)]), e);
  }

  // ---------- granted commands ----------

  /** The event a command records is about that command, asked by that actor. */
  ghost predicate RecordsFor(p: EventLog.Pending<StreamEvent>, request: Request, commandId: nat, fact: Fact, drawn: Fresh) {
    && p.eventId == drawn.eventId && p.schemaVersion == 1 && p.actor == request.actor && p.occurredAt == drawn.now
    && p.correlation == request.correlation && p.causation == Some(commandId) && p.about == None
    && p.event == Projections.Other(fact)
  }

  /** What it takes to commit a prepared fact: a number left, an event id not used before, a
      projection that applies the event and tables that take it, and references that resolve. */
  ghost predicate Committable<R, A>(setup: Setup<R, A>, db: Database<A>, env: Env, commandId: nat, request: Request,
      state: Projections.State<R>, fact: Fact)
  {
    && NewEvent(db.log, env.drawn.eventId)
    && (forall c | c in db.receipts :: env.drawn.eventId !in db.receipts[c].eventIds)
    && ReferencesResolve(env.stored, fact)
    && forall p | RecordsFor(p, request, commandId, fact, env.drawn) ::
         var e := NextEvent(setup, db.log, p);
         Takes(setup, state, e) && setup.engine.mirrorOk(setup.engine.apply(state.rest, e).value)
  }

  lemma RecordedFor(p: EventLog.Pending<StreamEvent>, request: Request, commandId: nat, fact: Fact, drawn: Fresh)
    ensures RecordsFor(p, request, commandId, fact, drawn) <==> p == PendingEvent(request, commandId, fact, drawn)
  {}

  lemma OutcomeShown<R(!new), A>(setup: Setup<R, A>, env: Env, commandId: nat, request: Request, state: Projections.State<R>,
      found: Found, e: Envelope, after: Projections.State<R>)
    requires FollowsProfiles(setup) && ReadsProjection(setup.lib) && Sound(setup.lib, setup.profilesOf(state.rest))
    requires Prepare(setup.lib, setup.profilesOf(state.rest), request.command, found, env.drawn).Ok?
    requires e.pending == PendingEvent(request, commandId,
                            Prepare(setup.lib, setup.profilesOf(state.rest), request.command, found, env.drawn).value, env.drawn)
    requires Projections.Reduce(setup.engine, state, e) == Ok(after)
    ensures MaterializeOutcome(setup, env.catalog, commandId, request, [e], after).Ok?
  {
    hide Prepare, Materialize, Projections.Reduce, Sound, ApplyFact, ReadsProjection, FollowsProfiles;
    ReducedProfiles(setup, state, e);
    PreparedIsShown(setup.lib, env.catalog, setup.profilesOf(state.rest), request.command, found, env.drawn);
  }

  lemma TransactCommits<R(!new), A>(setup: Setup<R, A>, db: Database<A>, env: Env, commandId: nat, request: Request,
      state: Projections.State<R>, reserved: bool, fact: Fact)
    requires LibraryReads(setup) && EventLog.CollisionFree(setup.codec) && EngineFits(setup) && ReadsProjection(setup.lib)
    requires Kept(setup, db) && LoadState(setup, db) == Ok(state) && commandId !in db.receipts
    requires Prepare(setup.lib, setup.profilesOf(state.rest), request.command, FoundBy(env, request.command, reserved), env.drawn) == Ok(fact)
    ensures Transact(setup, db, env, commandId, request, state, reserved).Ok? <==> Committable(setup, db, env, commandId, request, state, fact)
  {
    hide LibraryReads, EventLog.CollisionFree, EngineFits, ReadsProjection, Healthy, MirrorFollows, Sound, LoadState, Prepare, FoundBy,
      EventLog.Append, Stream, Projections.Reduce, Projections.Store, MirrorProfile, MaterializeOutcome, MakeReceipt, NewEvent, Takes,
      ReferencesResolve, NextEvent, Projections.FoldAll, RecordsFor;
    var p := PendingEvent(request, commandId, fact, env.drawn);
    var e := NextEvent(setup, db.log, p);
    forall q ensures RecordsFor(q, request, commandId, fact, env.drawn) <==> q == p { RecordedFor(q, request, commandId, fact, env.drawn); }
    assert RecordsFor(p, request, commandId, fact, env.drawn);
    if NewEvent(db.log, env.drawn.eventId) {
      NewIsShort(db.log, env.drawn.eventId);
      StreamAfter(setup, db, p);
      FollowsFits(setup);
      HealthyIsSound(setup, db);
      ReduceNext(setup, db, state, p);
      NextFields(setup, db.log, p);
      if Takes(setup, state, e) {
        var events, after := Stream(setup, db.log).value, Projections.Reduce(setup.engine, state, e).value;
        EventsAreCounted(setup, db);
        MirrorTakes(setup, db, env.stored, e, events);
        StoreTakes(setup, db, state, e, events, after);
        OutcomeShown(setup, env, commandId, request, state, FoundBy(env, request.command, reserved), e, after);
        OneEventFits(db.receipts, commandId, e.pending.eventId);
      }
    } else {
      UsedEventFails(setup, db, env, commandId, request, state, reserved, fact);
    }
  }

  lemma OneEventFits(receipts: map<nat, Receipt>, commandId: nat, eventId: nat)
    ensures ReceiptFits(receipts, commandId, [eventId]) <==>
              commandId !in receipts && forall c | c in receipts :: eventId !in receipts[c].eventIds
  {
    assert eventId in [eventId];
  }

  lemma NewIsShort(log: seq<EventLog.Wire>, eventId: nat)
    requires NewEvent(log, eventId)
    ensures |log| < I64_MAX
  {}

  lemma FollowsFits<R(!new), A>(setup: Setup<R, A>)
    requires EngineFits(setup)
    ensures FollowsProfiles(setup)
  {}

  lemma HealthyIsSound<R, A>(setup: Setup<R, A>, db: Database<A>)
    requires Healthy(setup, db)
    ensures EventLog.Sound(setup.codec, db.log) && EventLog.UniqueEvents(db.log)
  {}

  lemma NextFields<R, A>(setup: Setup<R, A>, log: seq<EventLog.Wire>, p: EventLog.Pending<StreamEvent>)
    ensures NextEvent(setup, log, p).pending == p && NextEvent(setup, log, p).sequence == |log| + 1
  {}

  lemma EventsAreCounted<R, A>(setup: Setup<R, A>, db: Database<A>)
    requires Healthy(setup, db)
    ensures Stream(setup, db.log).Ok? && |Stream(setup, db.log).value| == |db.log|
  {
    hide Stream;
    StreamPrefix(setup, db.log, 0);
  }

  /** An event id used before is answered from the stream, and the answer does not reduce. */
  lemma UsedEventFails<R(!new), A>(setup: Setup<R, A>, db: Database<A>, env: Env, commandId: nat, request: Request,
      state: Projections.State<R>, reserved: bool, fact: Fact)
    requires EventLog.CollisionFree(setup.codec) && Healthy(setup, db) && LoadState(setup, db) == Ok(state)
    requires !NewEvent(db.log, env.drawn.eventId)
    requires Prepare(setup.lib, setup.profilesOf(state.rest), request.command, FoundBy(env, request.command, reserved), env.drawn) == Ok(fact)
    ensures Transact(setup, db, env, commandId, request, state, reserved).Err?
  {
    hide EventLog.CollisionFree, EventLog.Sound, EventLog.UniqueEvents, LoadState, Prepare, FoundBy, EventLog.Append, Stream, MirrorProfile,
      Projections.Store, MaterializeOutcome, MakeReceipt, NewEvent, Projections.ValidState, Projections.FoldAll, Projections.ApplyEvent;
    var p := PendingEvent(request, commandId, fact, env.drawn);
    AppendNew(setup, db.log, p);
    LoadedSequence(setup, db, state);
    var appended := EventLog.Append(setup.codec, db.log, p).1;
    assert appended.Ok? ==> Projections.Reduce(setup.engine, state, appended.value).Err?;
  }

  /** The review waiting is that of exactly this activation. */
  ghost predicate HoldsReview<R, A>(setup: Setup<R, A>, w: World<A>, command: Command) {
    && command.ActivateAgentProfileVersion? && w.review.Some? && w.review.value.Available?
    && var review := w.review.value.offered;
    && review.token == command.reviewToken && review.reviewDigest == command.reviewDigest
    && review.profileId == command.profileId && review.expectedActive == command.expectedActive
    && review.candidateDigest == setup.lib.candidateDigest(command.candidate)
  }

  /** A granted command of a running session that was not seen before is answered with success
      exactly when it can be prepared, what it prepares can be committed, and the database commits;
      and when it cannot be prepared, with why. */
  lemma GrantedSucceedsExactly<R(!new), A>(setup: Setup<R, A>, w: World<A>, env: Env, commandId: nat, given: Request,
      state: Projections.State<R>)
    requires LibraryReads(setup) && EventLog.CollisionFree(setup.codec) && EngineFits(setup) && ReadsProjection(setup.lib)
    requires Kept(setup, w.db) && LoadState(setup, w.db) == Ok(state) && commandId !in w.db.receipts
    requires env.open && env.decision == Granted && SessionRuns(w.db, env.session) && CanonicalCommand(setup.lib, given.command).Ok?
    ensures var request := given.(command := CanonicalCommand(setup.lib, given.command).value);
            var prepared := Prepare(setup.lib, setup.profilesOf(state.rest), request.command,
                              FoundBy(env, request.command, HoldsReview(setup, w, request.command)), env.drawn);
            var r := Execute(setup, w, env, commandId, given).1;
            && (prepared.Err? ==> r == Err(Rejected(prepared.error)))
            && (r.Ok? <==> prepared.Ok? && Committable(setup, w.db, env, commandId, request, state, prepared.value) && env.commits)
  {
    hide LibraryReads, EventLog.CollisionFree, EngineFits, ReadsProjection, Kept, LoadState, CanonicalCommand, Prepare, Committable, Transact,
      WantedReview;
    var request := given.(command := CanonicalCommand(setup.lib, given.command).value);
    LoadedSessions(setup, w.db);
    ReservedIsHeld(setup, w, commandId, request.command);
    var held := HoldsReview(setup, w, request.command);
    var prepared := Prepare(setup.lib, setup.profilesOf(state.rest), request.command, FoundBy(env, request.command, held), env.drawn);
    if prepared.Ok? {
      TransactCommits(setup, w.db, env, commandId, request, state, held, prepared.value);
    } else {
      UnpreparedFails(setup, w.db, env, commandId, request, state, held);
    }
  }

  lemma UnpreparedFails<R, A>(setup: Setup<R, A>, db: Database<A>, env: Env, commandId: nat, request: Request,
      state: Projections.State<R>, reserved: bool)
    requires Prepare(setup.lib, setup.profilesOf(state.rest), request.command, FoundBy(env, request.command, reserved), env.drawn).Err?
    ensures Transact(setup, db, env, commandId, request, state, reserved)
            == Err(Rejected(Prepare(setup.lib, setup.profilesOf(state.rest), request.command, FoundBy(env, request.command, reserved), env.drawn).error))
  {
    hide Prepare;
  }

  lemma ReservedIsHeld<R, A>(setup: Setup<R, A>, w: World<A>, commandId: nat, command: Command)
    ensures ReserveFor(setup.lib, w.review, commandId, command).Some? <==> HoldsReview(setup, w, command)
  {}

  /** What a first success answers with: the event recorded for this command, and the view of what
      the command asked for among the profiles it found. */
  lemma GrantedShows<R(!new), A>(setup: Setup<R, A>, w: World<A>, env: Env, commandId: nat, given: Request, state: Projections.State<R>)
    requires LibraryReads(setup) && EngineFits(setup) && ReadsProjection(setup.lib)
    requires Kept(setup, w.db) && LoadState(setup, w.db) == Ok(state) && commandId !in w.db.receipts
    requires Execute(setup, w, env, commandId, given).1.Ok?
    ensures CanonicalCommand(setup.lib, given.command).Ok?
    ensures var request := given.(command := CanonicalCommand(setup.lib, given.command).value);
            var outcome := Execute(setup, w, env, commandId, given).1.value;
            && outcome.commandId == commandId && outcome.correlation == request.correlation
            && outcome.committed.sequence == |w.db.log| + 1 && outcome.committed.pending.event.Other?
            && RecordsFor(outcome.committed.pending, request, commandId, outcome.committed.pending.event.detail, env.drawn)
            && Shows(setup.lib, env.catalog, setup.profilesOf(state.rest), request.command, env.drawn, outcome.view)
  {
    hide LibraryReads, EngineFits, ReadsProjection, Healthy, MirrorFollows, ProfileCommands.Sound, LoadState, CanonicalCommand, Prepare, Transact,
      WantedReview, RecordsFor, Shows, MakeReceipt;
    var request := given.(command := CanonicalCommand(setup.lib, given.command).value);
    var reserved := ReserveFor(setup.lib, w.review, commandId, request.command).Some?;
    TransactShows(setup, w.db, env, commandId, request, state, reserved);
  }

  lemma TransactShows<R(!new), A>(setup: Setup<R, A>, db: Database<A>, env: Env, commandId: nat, request: Request,
      state: Projections.State<R>, reserved: bool)
    requires LibraryReads(setup) && EngineFits(setup) && ReadsProjection(setup.lib) && Kept(setup, db) && LoadState(setup, db) == Ok(state)
    requires Transact(setup, db, env, commandId, request, state, reserved).Ok?
    ensures var outcome := Transact(setup, db, env, commandId, request, state, reserved).value.1;
            && outcome.commandId == commandId && outcome.correlation == request.correlation
            && outcome.committed.sequence == |db.log| + 1 && outcome.committed.pending.event.Other?
            && RecordsFor(outcome.committed.pending, request, commandId, outcome.committed.pending.event.detail, env.drawn)
            && Shows(setup.lib, env.catalog, setup.profilesOf(state.rest), request.command, env.drawn, outcome.view)
  {
    hide LibraryReads, EngineFits, ReadsProjection, Healthy, MirrorFollows, ProfileCommands.Sound, LoadState, Prepare, Transact, RecordsFor, Shows,
      MakeReceipt, FoundBy, ApplyFact, Materialize, Projections.Reduce, Stream, Mirror.ExpectedRows, NewRows;
    TransactMeaning(setup, db, env, commandId, request, state, reserved);
    FollowsFits(setup);
    var outcome := Transact(setup, db, env, commandId, request, state, reserved).value.1;
    var fact := outcome.committed.pending.event.detail;
    RecordedFor(outcome.committed.pending, request, commandId, fact, env.drawn);
    ReducedProfiles(setup, state, outcome.committed);
    CommandsShow(setup.lib, env.catalog, setup.profilesOf(state.rest), request.command, FoundBy(env, request.command, reserved), env.drawn);
  }

  // ---------- the service on the profile projection ----------

  lemma SameLoads<R, A>(setup: Setup<R, A>, db: Database<A>, after: Database<A>)
    requires after.log == db.log && after.rows == db.rows
    ensures LoadState(setup, after) == LoadState(setup, db)
  {}

  lemma ExecuteLoads<R, A>(setup: Setup<R, A>, w: World<A>, env: Env, commandId: nat, given: Request)
    requires LoadState(setup, w.db).Ok?
    ensures LoadState(setup, Execute(setup, w, env, commandId, given).0.db).Ok?
  {
    hide CanonicalCommand, LoadState, Transact, MakeReceipt, ReserveFor, ValidateReceipt;
    var after := Execute(setup, w, env, commandId, given).0;
    if after.db.log == w.db.log && after.db.rows == w.db.rows {
      SameLoads(setup, w.db, after.db);
    } else {
      var request := given.(command := CanonicalCommand(setup.lib, given.command).value);
      StoredState(setup, w.db, env, commandId, request, LoadState(setup, w.db).value,
        ReserveFor(setup.lib, w.review, commandId, request.command).Some?);
    }
  }

  /** A database that loads still loads after any run of commands. */
  lemma {:induction false} RunsLoad<R, A>(setup: Setup<R, A>, w: World<A>, steps: seq<(Env, nat, Request)>)
    requires LoadState(setup, w.db).Ok?
    ensures LoadState(setup, ExecuteAll(setup, w, steps).db).Ok?
    decreases |steps|
  {
    hide LoadState, Execute;
    if steps != [] {
      ExecuteLoads(setup, w, steps[0].0, steps[0].1, steps[0].2);
      RunsLoad(setup, Execute(setup, w, steps[0].0, steps[0].1, steps[0].2).0, steps[1..]);
    }
  }

  lemma EmptyLoads<R, A>(setup: Setup<R, A>)
    ensures LoadState(setup, Empty<A>()).Ok?
  {
    StreamPrefix(setup, Empty<A>().log, 0);
    Projections.EmptyLoads(setup.engine);
  }

  /** From a new database, after any run of commands, every active profile is found under the
      name it shows, and nothing else is found under that name. */
  lemma ServiceFindsProfiles(codec: EventLog.Codec<StreamEvent>, lib: Library, json: Json, format: Mirror.Format,
      digest: Projections.State<Profiles> -> nat, steps: seq<(Env, nat, Request)>, p: nat, name: string)
    requires EventLog.Decodes(codec) && ReadsBack(json) && ReadsProjection(lib)
    ensures var setup := ProfileSetup(codec, lib, json, format, digest);
            var db := ExecuteAll(setup, World(Empty(), None), steps).db;
            && LoadState(setup, db).Ok?
            && var s := LoadState(setup, db).value.rest;
            ActiveProfile(s, p).Some? && NameKey(lib.foldCase, name) == NameKey(lib.foldCase, ActiveProfile(s, p).value.draft.displayName) ==>
              && ActiveProfile(s, p).value.profileId == p && ResolveActive(lib, s, ByName(name)) == ActiveProfile(s, p)
              && forall q | ActiveProfile(s, q).Some?
                   && NameKey(lib.foldCase, ActiveProfile(s, q).value.draft.displayName) == NameKey(lib.foldCase, name) :: q == p
  {
    hide Kept, ExecuteAll, ReadsProjection, ReadsBack, EventLog.Decodes, LoadState, ProfileCommands.Sound, ActiveProfile, ResolveActive, NameKey;
    var setup := ProfileSetup(codec, lib, json, format, digest);
    var w: World<seq<Mirror.ActiveRow>> := World(Empty(), None);
    ProfileEngineFits(codec, lib, json, format, digest);
    ServiceRunsKeep(codec, lib, json, format, digest, w, steps);
    EmptyLoads(setup);
    RunsLoad(setup, w, steps);
    var db := ExecuteAll(setup, w, steps).db;
    var s := LoadState(setup, db).value.rest;
    KeptIsSound(codec, lib, json, format, digest, db);
    if ActiveProfile(s, p).Some? && NameKey(lib.foldCase, name) == NameKey(lib.foldCase, ActiveProfile(s, p).value.draft.displayName) {
      FoundByShownName(lib, s, p, name);
    }
  }

  lemma KeptIsSound(codec: EventLog.Codec<StreamEvent>, lib: Library, json: Json, format: Mirror.Format,
      digest: Projections.State<Profiles> -> nat, db: Database<seq<Mirror.ActiveRow>>)
    requires Kept(ProfileSetup(codec, lib, json, format, digest), db)
    requires LoadState(ProfileSetup(codec, lib, json, format, digest), db).Ok?
    ensures ProfileCommands.Sound(lib, LoadState(ProfileSetup(codec, lib, json, format, digest), db).value.rest)
  {
    hide LoadState, Healthy, MirrorFollows, ProfileCommands.Sound;
  }

  /** On the profile projection a prepared fact commits exactly when the ids drawn are new and the
      references it carries resolve: the projection and its tables never refuse it. */
  lemma ServiceCommitsExactly(codec: EventLog.Codec<StreamEvent>, lib: Library, json: Json, format: Mirror.Format,
      digest: Projections.State<Profiles> -> nat, db: Database<seq<Mirror.ActiveRow>>, env: Env, commandId: nat, request: Request,
      state: Projections.State<Profiles>, found: Found)
    requires var setup := ProfileSetup(codec, lib, json, format, digest);
             Kept(setup, db) && LoadState(setup, db) == Ok(state)
    requires Prepare(lib, state.rest, request.command, found, env.drawn).Ok?
    ensures var fact := Prepare(lib, state.rest, request.command, found, env.drawn).value;
            Committable(ProfileSetup(codec, lib, json, format, digest), db, env, commandId, request, state, fact) <==>
              && NewEvent(db.log, env.drawn.eventId)
              && (forall c | c in db.receipts :: env.drawn.eventId !in db.receipts[c].eventIds)
              && ReferencesResolve(env.stored, fact) && FreshFor(state.rest, request.command, env.drawn)
  {
    hide Kept, LoadState, Prepare, ApplyFact, FreshFor, ReferencesResolve, NewEvent, ProfileCommands.Sound, RecordsFor, NextEvent, ActiveProfiles,
      Mirror.InsertAllActive, EngineFits;
    var setup := ProfileSetup(codec, lib, json, format, digest);
    var fact := Prepare(lib, state.rest, request.command, found, env.drawn).value;
    var p := PendingEvent(request, commandId, fact, env.drawn);
    KeptIsSound(codec, lib, json, format, digest, db);
    PreparedIsAccepted(lib, state.rest, request.command, found, env.drawn);
    forall q ensures RecordsFor(q, request, commandId, fact, env.drawn) <==> q == p { RecordedFor(q, request, commandId, fact, env.drawn); }
    assert RecordsFor(p, request, commandId, fact, env.drawn);
    NextFields(setup, db.log, p);
    if NewEvent(db.log, env.drawn.eventId) && FreshFor(state.rest, request.command, env.drawn) {
      NewIsShort(db.log, env.drawn.eventId);
      ActiveTableTakes(codec, lib, json, format, digest, db, state, p);
    }
  }

  lemma ActiveTableTakes(codec: EventLog.Codec<StreamEvent>, lib: Library, json: Json, format: Mirror.Format,
      digest: Projections.State<Profiles> -> nat, db: Database<seq<Mirror.ActiveRow>>, state: Projections.State<Profiles>,
      p: EventLog.Pending<StreamEvent>)
    requires var setup := ProfileSetup(codec, lib, json, format, digest);
             Kept(setup, db) && LoadState(setup, db) == Ok(state) && Takes(setup, state, NextEvent(setup, db.log, p))
    requires p.schemaVersion == EventLog.EVENT_SCHEMA_VERSION && p.event.Other? && |db.log| < I64_MAX
    ensures var engine := ProfileEngine(lib, digest);
            engine.mirrorOk(engine.apply(state.rest, NextEvent(ProfileSetup(codec, lib, json, format, digest), db.log, p)).value)
  {
    hide LoadState, EngineFits, MirrorFollows, SoundProfiles, Projections.FoldAll, Projections.Reduce, Stream, NextEvent, Takes, ProfileEngine,
      EventLog.Sound, EventLog.UniqueEvents, ActiveRows, Mirror.ActiveMatch;
    var setup := ProfileSetup(codec, lib, json, format, digest);
    ProfileEngineFits(codec, lib, json, format, digest);
    ReduceNext(setup, db, state, p);
    EventsAreCounted(setup, db);
    FoldedProfilesAreActive(codec, lib, json, format, digest, Stream(setup, db.log).value + [NextEvent(setup, db.log, p)]);
  }

  // ---------- requests that mean the same ----------

  /** Only the drafts of a command are put into canonical form, and it is refused exactly when
      they have none. */
  lemma CanonicalCommandMeaning(lib: Library, c: Command)
    ensures var r := CanonicalCommand(lib, c);
            match c
            case CreateAgentProfile(draft, template) =>
              && (r.Ok? <==> Canonicalize(lib.foldCase, draft).Ok?)
              && (r.Ok? ==> r.value.CreateAgentProfile? && r.value.template == template
                            && Canonicalize(lib.foldCase, draft) == Ok(r.value.draft) && Canonical(lib.foldCase, r.value.draft))
            case ActivateAgentProfileVersion(_, _, candidate, _, _) =>
              && (r.Ok? <==> Canonicalize(lib.foldCase, candidate).Ok?)
              && (r.Ok? ==> r.value.ActivateAgentProfileVersion? && r.value.(candidate := candidate) == c
                            && Canonicalize(lib.foldCase, candidate) == Ok(r.value.candidate) && Canonical(lib.foldCase, r.value.candidate))
            case _ => r == Ok(c)
  {
    hide Canonicalize;
    match c {
      case CreateAgentProfile(draft, _) => if Canonicalize(lib.foldCase, draft).Ok? { CanonicalizeIdempotent(lib.foldCase, draft); }
      case ActivateAgentProfileVersion(_, _, candidate, _, _) =>
        if Canonicalize(lib.foldCase, candidate).Ok? { CanonicalizeIdempotent(lib.foldCase, candidate); }
      case _ =>
    }
  }

  /** The command with the tags and references of its draft in another order. */
  function Reordered(c: Command, tags: seq<string>, refs: seq<SkillRef>): Command {
    match c
    case CreateAgentProfile(draft, _) => c.(draft := draft.(tags := tags, skillRefs := refs))
    case ActivateAgentProfileVersion(_, _, candidate, _, _) => c.(candidate := candidate.(tags := tags, skillRefs := refs))
    case _ => c
  }

  function DraftOf(c: Command): Option<Draft> {
    match c
    case CreateAgentProfile(draft, _) => Some(draft)
    case ActivateAgentProfileVersion(_, _, candidate, _, _) => Some(candidate)
    case _ => None
  }

  lemma ReorderedIsTheSame(lib: Library, c: Command, tags: seq<string>, refs: seq<SkillRef>)
    requires CanonicalCommand(lib, c).Ok?
    requires DraftOf(c).Some? ==> multiset(tags) == multiset(DraftOf(c).value.tags) && multiset(refs) == multiset(DraftOf(c).value.skillRefs)
    ensures CanonicalCommand(lib, Reordered(c, tags, refs)) == CanonicalCommand(lib, c)
  {
    hide Canonicalize;
    if DraftOf(c).Some? { CanonicalizeIgnoresOrder(lib.foldCase, DraftOf(c).value, tags, refs); }
  }

  /** A command sent again with the tags and references of its draft in another order is the same
      command: it returns the first result and changes nothing. */
  lemma ReorderedReplays<R, A(!new)>(setup: Setup<R, A>, w: World<A>, env: Env, commandId: nat, given: Request,
      ws: seq<World<A>>, later: Env, tags: seq<string>, refs: seq<SkillRef>)
    requires LibraryReads(setup) && Healthy(setup, w.db) && commandId !in w.db.receipts
    requires commandId in Execute(setup, w, env, commandId, given).0.db.receipts
    requires ws != [] && ws[0] == Execute(setup, w, env, commandId, given).0 && Trace(setup, ws)
    requires later.open && later.commits
    requires var draft := DraftOf(given.command);
             draft.Some? ==> multiset(tags) == multiset(draft.value.tags) && multiset(refs) == multiset(draft.value.skillRefs)
    ensures Execute(setup, ws[|ws| - 1], later, commandId, given.(command := Reordered(given.command, tags, refs)))
            == (ws[|ws| - 1], Execute(setup, w, env, commandId, given).1)
  {
    hide LibraryReads, Healthy, Trace, Execute, CanonicalCommand, Reordered;
    RecordedIsCanonical(setup, w, env, commandId, given);
    ReorderedIsTheSame(setup.lib, given.command, tags, refs);
    ReplayReturnsTheFirstResult(setup, w, env, commandId, given, ws, later, given.(command := Reordered(given.command, tags, refs)));
  }

  lemma RecordedIsCanonical<R, A>(setup: Setup<R, A>, w: World<A>, env: Env, commandId: nat, given: Request)
    requires LibraryReads(setup) && Healthy(setup, w.db) && commandId !in w.db.receipts
    requires commandId in Execute(setup, w, env, commandId, given).0.db.receipts
    ensures CanonicalCommand(setup.lib, given.command).Ok?
  {
    hide LibraryReads, Healthy, Execute, CanonicalCommand, RecordedAt;
    ExecutionIsRecorded(setup, w, env, commandId, given);
  }

  // ---------- which receipts are answered from ----------

  /** The receipt is whole: its request reads, and its fingerprint is of that request. */
  ghost predicate Intact<R, A>(setup: Setup<R, A>, receipt: Receipt) {
    setup.json.readRequest(receipt.requestJson).Some? && receipt.fingerprint == setup.json.hash(receipt.requestJson)
  }

  /** Its outcome is what its one stored event, with the projection of that time, still shows. */
  ghost predicate StillShown<R, A>(setup: Setup<R, A>, log: seq<EventLog.Wire>, commandId: nat, receipt: Receipt, request: Request,
      outcome: Outcome)
  {
    exists k :: 0 <= k < |log| && ShownAt(setup, log, commandId, receipt, request, outcome, k)
  }

  ghost predicate ShownAt<R, A>(setup: Setup<R, A>, log: seq<EventLog.Wire>, commandId: nat, receipt: Receipt, request: Request,
      outcome: Outcome, k: nat)
    requires k < |log|
  {
    && receipt.eventIds == [log[k].eventId] && EventLog.FromWire(setup.codec, log[k]).Ok? && PastState(setup, log, k).Ok?
    && var expected := MaterializeOutcome(setup, NO_CATALOG, commandId, request, [EventLog.FromWire(setup.codec, log[k]).value],
                         PastState(setup, log, k).value);
    expected.Ok? && OutcomesMatch(outcome, expected.value)
  }

  /** What a receipt may record, and what must go with it. */
  ghost predicate Records<R, A>(setup: Setup<R, A>, log: seq<EventLog.Wire>, commandId: nat, receipt: Receipt, request: Request, stored: Stored) {
    match stored
    case Success(outcome) => receipt.decision == Granted && StillShown(setup, log, commandId, receipt, request, outcome)
    case CapabilityDenied(capability, decision) =>
      receipt.decision == decision && decision in {Denied, DeniedByDefault} && capability == receipt.capability && receipt.eventIds == []
    case NeedsApproval(capability) => receipt.decision == ApprovalRequired && capability == receipt.capability && receipt.eventIds == []
  }

  /** A stored command is answered from its receipt exactly when the receipt is whole, for this very
      request, under the capability the command needs, and what it records still stands; another
      request is a conflict exactly when the receipt is whole; anything else is an error. */
  lemma ReceiptAnswersExactly<R, A>(setup: Setup<R, A>, log: seq<EventLog.Wire>, commandId: nat, receipt: Receipt, asked: Request)
    requires EventLog.Sound(setup.codec, log) && EventLog.UniqueEvents(log) && ReadsBack(setup.json)
    ensures var r := ValidateReceipt(setup, log, commandId, receipt, asked);
            && (r == Err(CommandConflict) <==> Intact(setup, receipt) && receipt.requestJson != setup.json.writeRequest(asked))
            && forall stored :: r == Ok(stored) <==>
                 && Intact(setup, receipt) && receipt.requestJson == setup.json.writeRequest(asked)
                 && Needs(asked.command, receipt.capability)
                 && setup.json.readOutcome(receipt.outcomeJson) == Some(stored)
                 && Records(setup, log, commandId, receipt, asked, stored)
  {
    hide EventLog.Sound, EventLog.UniqueEvents, StillShown, ValidateSuccess, EventLog.FromWire;
    assert setup.json.readRequest(setup.json.writeRequest(asked)) == Some(asked);
    var execution := setup.json.readOutcome(receipt.outcomeJson);
    if execution.Some? && execution.value.Success? {
      SuccessStands(setup, log, commandId, receipt, asked, execution.value.outcome);
    }
  }

  lemma SuccessStands<R, A>(setup: Setup<R, A>, log: seq<EventLog.Wire>, commandId: nat, receipt: Receipt, request: Request, outcome: Outcome)
    requires EventLog.Sound(setup.codec, log) && EventLog.UniqueEvents(log)
    ensures ValidateSuccess(setup, log, commandId, receipt, request, outcome).Ok? <==>
              StillShown(setup, log, commandId, receipt, request, outcome)
    ensures ValidateSuccess(setup, log, commandId, receipt, request, outcome) != Err(CommandConflict)
  {
    hide EventLog.Sound, EventLog.UniqueEvents, MaterializeOutcome, OutcomesMatch, PastState, EventLog.FromWire, StateAt, EventLog.FindEvent;
    NoLoadConflict(setup, log, receipt.eventIds);
    var loaded := LoadEvents(setup, log, receipt.eventIds);
    if loaded.Ok? && loaded.value != [] {
      var through := loaded.value[|loaded.value| - 1].sequence;
      NoStateConflict(setup, log, through);
      if StateAt(setup, log, through).Ok? {
        NoOutcomeConflict(setup, commandId, request, loaded.value, StateAt(setup, log, through).value);
      }
    }
    if ValidateSuccess(setup, log, commandId, receipt, request, outcome).Ok? {
      var k := OneEvent(setup, log, commandId, receipt.eventIds, request, outcome);
      assert ShownAt(setup, log, commandId, receipt, request, outcome, k);
    }
    if StillShown(setup, log, commandId, receipt, request, outcome) {
      var k :| 0 <= k < |log| && ShownAt(setup, log, commandId, receipt, request, outcome, k);
      StandsAt(setup, log, commandId, receipt, request, outcome, k);
    }
  }

  lemma NoLoadConflict<R, A>(setup: Setup<R, A>, log: seq<EventLog.Wire>, ids: seq<nat>)
    ensures LoadEvents(setup, log, ids) != Err(CommandConflict)
  {
    hide EventLog.FromWire, EventLog.FindEvent;
  }

  lemma NoStateConflict<R, A>(setup: Setup<R, A>, log: seq<EventLog.Wire>, through: nat)
    ensures StateAt(setup, log, through) != Err(CommandConflict)
  {
    hide Projections.LoadAt, EventLog.Verify, EventLog.DecodeAll;
  }

  lemma NoOutcomeConflict<R, A>(setup: Setup<R, A>, commandId: nat, request: Request, events: seq<Envelope>, state: Projections.State<R>)
    ensures MaterializeOutcome(setup, NO_CATALOG, commandId, request, events, state) != Err(CommandConflict)
  {
    hide Materialize;
  }

  lemma StandsAt<R, A>(setup: Setup<R, A>, log: seq<EventLog.Wire>, commandId: nat, receipt: Receipt, request: Request, outcome: Outcome, k: nat)
    requires EventLog.Sound(setup.codec, log) && EventLog.UniqueEvents(log) && k < |log|
    requires ShownAt(setup, log, commandId, receipt, request, outcome, k)
    ensures ValidateSuccess(setup, log, commandId, receipt, request, outcome) == Ok(())
  {
    hide EventLog.UniqueEvents, MaterializeOutcome, OutcomesMatch, PastState, EventLog.FromWire, StateAt, LoadEvents;
    assert EventLog.Linked(setup.codec, log, k);
    var e := EventLog.FromWire(setup.codec, log[k]).value;
    EventLog.RowOfEnvelope(setup.codec, log[k], e);
    LoadOne(setup, log, k, e);
    StateAtIsPast(setup, log, k);
  }

  /** A success that validates names one stored event. */
  lemma OneEvent<R, A>(setup: Setup<R, A>, log: seq<EventLog.Wire>, commandId: nat, ids: seq<nat>, request: Request, outcome: Outcome)
    returns (k: nat)
    requires EventLog.Sound(setup.codec, log) && LoadEvents(setup, log, ids).Ok? && LoadEvents(setup, log, ids).value != []
    requires var events := LoadEvents(setup, log, ids).value;
             var state := StateAt(setup, log, events[|events| - 1].sequence);
             state.Ok? && MaterializeOutcome(setup, NO_CATALOG, commandId, request, events, state.value).Ok?
    ensures k < |log| && ids == [log[k].eventId]
    ensures EventLog.FromWire(setup.codec, log[k]).Ok? && LoadEvents(setup, log, ids) == Ok([EventLog.FromWire(setup.codec, log[k]).value])
    ensures StateAt(setup, log, LoadEvents(setup, log, ids).value[|LoadEvents(setup, log, ids).value| - 1].sequence) == PastState(setup, log, k)
  {
    hide OutcomesMatch, PastState, EventLog.FromWire, StateAt, Materialize, EventLog.FindEvent;
    var events := LoadEvents(setup, log, ids).value;
    EventLog.FindEventMeaning(log, ids[0]);
    k :| 0 <= k < |log| && log[k] == EventLog.FindEvent(log, ids[0]).value;
    assert events == [events[0]] + LoadEvents(setup, log, ids[1..]).value;
    LoadedNone(setup, log, ids[1..]);
    assert ids == [ids[0]] + ids[1..];
    assert events[0] == EventLog.FromWire(setup.codec, log[k]).value && |events| == 1;
    assert EventLog.Linked(setup.codec, log, k);
    EventLog.RowOfEnvelope(setup.codec, log[k], events[0]);
    StateAtIsPast(setup, log, k);
    assert events == [events[0]] && LoadEvents(setup, log, ids) == Ok(events);
  }

  lemma LoadedNone<R, A>(setup: Setup<R, A>, log: seq<EventLog.Wire>, ids: seq<nat>)
    ensures LoadEvents(setup, log, ids).Ok? && LoadEvents(setup, log, ids).value == [] ==> ids == []
  {
    hide EventLog.FromWire, EventLog.FindEvent;
  }
}
