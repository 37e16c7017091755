/** Whole runs of memory commands: every prepared event commits, and what every
    reachable state satisfies. */
module MemoryRun {
  import opened Prelude
  import opened MemoryDraft
  import opened MemoryTypes
  import opened MemoryStore
  import opened MemoryInvariant
  import opened MemorySteps
  import opened MemoryView
  import opened MemoryCommit

  // ---------- what is prepared can be committed ----------

  lemma InvCanonical(env: Env, w: World)
    requires Inv(env, w)
    ensures StoredCanonical(env, w.tables)
  {
    forall id | id in w.tables.proposals
      ensures OperationText(env, w.tables.proposals[id].proposal.body.operation, w.tables.proposals[id].proposal.body.key)
    {
      assert ProposalOk(TextRulesOf(env), w.tables, id, w.nextId);
    }
  }

  function AsOperation(candidate: Option<Draft>): Operation {
    if candidate.Some? then SetTo(candidate.value) else Delete
  }

  /** The version a change asks for exists unless version numbers are exhausted. */
  lemma NextVersion(env: Env, tables: Tables, place: Slot, candidate: Option<Draft>, nextId: nat, ids: nat, later: nat, now: int,
      accepted: Option<ProposalRef>)
    requires TablesInv(TextRulesOf(env), tables, nextId) && nextId <= ids && later == ids + 3
    requires CandidateFits(env, place, candidate)
    requires WouldChange(Lookup(tables, place), AsOperation(candidate))
    ensures var current := Lookup(tables, place);
            var r := NextEntry(env, place.ns, current, candidate, ids, now, accepted);
            && (r.Ok? <==> (current.Some? ==> current.value.version < U64_MAX))
            && (r.Ok? ==>
                  && r.value.Place() == place && r.value.accepted == accepted
                  && Buildable(TextRulesOf(env), tables, r.value, ids, later)
                  && CarriesOut(r.value, AsOperation(candidate)))
  {
    CurrentOk(TextRulesOf(env), tables, place, nextId);
    NextEntryBuilds(env, place, Lookup(tables, place), candidate, ids, later, now, accepted);
  }

  /** What a successful direct preparation went through. */
  lemma PreparedDirect(env: Env, w: World, request: Request, key: string, expected: ExpectedState,
      candidate: Option<Draft>, event: Event)
    requires candidate.Some? ==> Canonical(env.lib, candidate.value)
    requires PrepareDirect(env, w, request, key, expected, candidate) == Ok(event)
    ensures request.profile.Some? && (event.EntrySet? || event.EntryDeleted?)
    ensures var ns := request.profile.value.ns;
            var current := Lookup(w.tables, Slot(ns, key));
            && PrepareEdit(env, Human, ns, current, expected, candidate).Ok?
            && PrepareEdit(env, Human, ns, current, expected, candidate).value.Prepared?
            && (CreatesActiveKey(current, candidate) ==> |ActiveIn(w.tables.current, ns)| < MAX_ACTIVE_ENTRIES)
            && NextEntry(env, ns, current, candidate, w.nextId + request.skipped, request.now, None) == Ok(event.entry)
            && event == DirectEvent(event.entry, Expirations(w.tables, event.entry, None))
  {}

  lemma DirectChange(env: Env, w: World, request: Request, key: string, expected: ExpectedState,
      candidate: Option<Draft>, event: Event, ids: nat, later: nat)
    requires ids == w.nextId + request.skipped && later == ids + 3
    requires candidate.Some? ==> Canonical(env.lib, candidate.value) && DraftKey(env.lib, candidate.value) == key
    requires Sound(TextRulesOf(env))(w.tables, w.nextId)
    requires PrepareDirect(env, w, request, key, expected, candidate) == Ok(event)
    ensures event.EntrySet? || event.EntryDeleted?
    ensures event == DirectEvent(event.entry, event.expired)
    ensures Buildable(TextRulesOf(env), w.tables, event.entry, ids, later)
    ensures event.entry.accepted.None? && RoomFor(w.tables, event.entry)
    ensures event.expired == Expirations(w.tables, event.entry, None)
  {
    hide *;
    PreparedDirect(env, w, request, key, expected, candidate, event);
    DirectEventParts(event, event.entry, Expirations(w.tables, event.entry, None));
    DirectEntry(env, w.tables, Slot(request.profile.value.ns, key), expected, candidate, w.nextId, ids, later, request.now);
  }

  lemma DirectEventParts(event: Event, e: EntryVersion, rs: seq<Resolution>)
    requires event == DirectEvent(e, rs)
    ensures (event.EntrySet? || event.EntryDeleted?) && event.entry == e && event.expired == rs
  {}

  lemma DirectEntry(env: Env, tables: Tables, place: Slot, expected: ExpectedState, candidate: Option<Draft>,
      nextId: nat, ids: nat, later: nat, now: int)
    requires Sound(TextRulesOf(env))(tables, nextId) && nextId <= ids && later == ids + 3
    requires CandidateFits(env, place, candidate)
    requires PrepareEdit(env, Human, place.ns, Lookup(tables, place), expected, candidate).Ok?
    requires PrepareEdit(env, Human, place.ns, Lookup(tables, place), expected, candidate).value.Prepared?
    requires CreatesActiveKey(Lookup(tables, place), candidate) ==> |ActiveIn(tables.current, place.ns)| < MAX_ACTIVE_ENTRIES
    requires NextEntry(env, place.ns, Lookup(tables, place), candidate, ids, now, None).Ok?
    ensures var e := NextEntry(env, place.ns, Lookup(tables, place), candidate, ids, now, None).value;
            Buildable(TextRulesOf(env), tables, e, ids, later) && e.accepted.None? && RoomFor(tables, e)
  {
    NextVersion(env, tables, place, candidate, nextId, ids, later, now, None);
  }

  /** `w'` is what committing `event` in `w` gives. */
  ghost predicate CommitsTo(rules: Rules, w: World, request: Request, event: Event, w': World) {
    && Persist(w.tables, event) == Ok(w'.tables)
    && Reduce(w.projection, event) == Ok(w'.projection)
    && w'.lastSequence == w.lastSequence + 1 && w'.nextId == w.nextId + request.skipped + 3
    && InvUnder(rules, w')
  }

  lemma Committed(rules: Rules, w: World, request: Request, event: Event, after: Tables, later: nat)
    returns (w': World)
    requires w.projection == View(w.tables)
    requires Persist(w.tables, event) == Ok(after) && Reduce(View(w.tables), event) == Ok(View(after))
    requires Sound(rules)(after, later) && later == w.nextId + request.skipped + 3
    ensures CommitsTo(rules, w, request, event, w')
  {
    w' := World(after, View(after), w.lastSequence + 1, later);
  }

  lemma DirectStep(rules: Rules, tables: Tables, e: EntryVersion, rs: seq<Resolution>, nextId: nat, ids: nat, later: nat)
    returns (after: Tables)
    requires Sound(rules)(tables, nextId) && nextId <= ids && Buildable(rules, tables, e, ids, later)
    requires e.accepted.None? && RoomFor(tables, e) && rs == Expirations(tables, e, None)
    ensures Persist(tables, DirectEvent(e, rs)) == Ok(after)
    ensures Reduce(View(tables), DirectEvent(e, rs)) == Ok(View(after))
    ensures Sound(rules)(after, later)
  {
    hide Persist, Reduce, View, Buildable, Expirations, RoomFor, AfterEntry;
    after := AfterEntry(tables, e, ById(rs));
    DirectPersists(rules, tables, e, rs, nextId, ids, later);
    DirectPreserves(rules, tables, e, rs, ById(rs), nextId, ids, later);
  }

  /** The proposal expects the state its key is in, would change it, and there is room. */
  ghost predicate Creatable(tables: Tables, p: Proposal) {
    && p.body.expected == CurrentExpected(Lookup(tables, p.Place()))
    && WouldChange(Lookup(tables, p.Place()), p.body.operation)
    && |PendingIn(tables.proposals, p.body.ns)| < MAX_PENDING_PROPOSALS
  }

  lemma CreationStep(rules: Rules, tables: Tables, p: Proposal, a: Approval, nextId: nat, ids: nat, later: nat)
    returns (after: Tables)
    requires Sound(rules)(tables, nextId) && nextId <= ids && NewPending(rules, p, a, ids, later)
    requires Creatable(tables, p)
    ensures Persist(tables, ProposalCreated(p, a)) == Ok(after)
    ensures Reduce(View(tables), ProposalCreated(p, a)) == Ok(View(after))
    ensures Sound(rules)(after, later)
  {
    hide View, CreateProposal, CurrentRef, Lookup;
    after := WithProposal(tables, p, a);
    CreationWrites(rules, tables, p, a, nextId, ids, later);
    KnownIds(rules, tables, p.id, nextId);
    CurrentInView(tables, p.Place());
    ViewCreate(tables, p, a);
    CreatePreserves(rules, tables, p, a, nextId, ids, later);
  }

  lemma RejectionStep(rules: Rules, tables: Tables, r: Resolution, nextId: nat, later: nat)
    returns (after: Tables)
    requires Sound(rules)(tables, nextId) && nextId <= later && Settles(tables, r) && r.status.Rejected?
    ensures Persist(tables, ProposalRejected(r)) == Ok(after)
    ensures Reduce(View(tables), ProposalRejected(r)) == Ok(View(after))
    ensures Sound(rules)(after, later)
  {
    after := RejectionWrites(rules, tables, r, nextId);
    RejectPreserves(rules, tables, r, nextId, later);
  }

  lemma RejectionWrites(rules: Rules, tables: Tables, r: Resolution, nextId: nat) returns (after: Tables)
    requires ProposalsInv(rules, tables, nextId) && PendingInv(tables) && Settles(tables, r) && r.status.Rejected?
    ensures after == Settled(tables, map[r.proposal.id := r])
    ensures Persist(tables, ProposalRejected(r)) == Ok(after)
    ensures Reduce(View(tables), ProposalRejected(r)) == Ok(View(after))
  {
    hide View, ResolveRow, ResolveProposal, ResolutionFits, Settled;
    after := Settled(tables, map[r.proposal.id := r]);
    ResolveRowSettles(rules, tables, r, nextId);
    ResolutionFitsView(rules, tables, r, nextId);
    ViewResolve(rules, tables, r, nextId);
  }

  lemma AcceptanceStep(rules: Rules, tables: Tables, e: EntryVersion, r: Resolution, rs: seq<Resolution>,
      nextId: nat, ids: nat, later: nat)
    returns (after: Tables)
    requires Sound(rules)(tables, nextId) && nextId <= ids && Buildable(rules, tables, e, ids, later)
    requires RoomFor(tables, e) && Accepts(tables, e, r) && rs == Expirations(tables, e, Some(r.proposal))
    ensures Persist(tables, ProposalAccepted(r, e, rs)) == Ok(after)
    ensures Reduce(View(tables), ProposalAccepted(r, e, rs)) == Ok(View(after))
    ensures Sound(rules)(after, later)
  {
    hide AfterEntry, Persist, Reduce, View, Accepts, Buildable, Expirations, RoomFor;
    var done := ById(rs)[r.proposal.id := r];
    after := AfterEntry(tables, e, done);
    assert TablesInv(rules, after, later) by { AcceptPreserves(rules, tables, e, r, rs, done, nextId, ids, later); }
    AcceptPersists(rules, tables, e, r, rs, done, nextId, ids, later);
  }

  lemma DirectCommits(rules: Rules, w: World, request: Request, e: EntryVersion, rs: seq<Resolution>,
      ids: nat, later: nat) returns (w': World)
    requires ids == w.nextId + request.skipped && later == ids + 3
    requires InvUnder(rules, w) && Buildable(rules, w.tables, e, ids, later)
    requires e.accepted.None? && RoomFor(w.tables, e) && rs == Expirations(w.tables, e, None)
    ensures CommitsTo(rules, w, request, DirectEvent(e, rs), w')
  {
    hide Sound, Persist, Reduce, View, Buildable, RoomFor, Expirations, DirectEvent;
    var after := DirectStep(rules, w.tables, e, rs, w.nextId, ids, later);
    w' := Committed(rules, w, request, DirectEvent(e, rs), after, later);
  }

  lemma CreationCommits(rules: Rules, w: World, request: Request, p: Proposal, a: Approval, ids: nat, later: nat)
    returns (w': World)
    requires ids == w.nextId + request.skipped && later == ids + 3
    requires InvUnder(rules, w) && NewPending(rules, p, a, ids, later)
    requires Creatable(w.tables, p)
    ensures CommitsTo(rules, w, request, ProposalCreated(p, a), w')
  {
    var after := CreationStep(rules, w.tables, p, a, w.nextId, ids, later);
    w' := Committed(rules, w, request, ProposalCreated(p, a), after, later);
  }

  /** A proposal carries what it was asked to carry, under the normal form of its display key. */
  lemma NewProposalFields(env: Env, id: nat, proposer: Profile, actor: Actor, operation: Operation, displayKey: string,
      key: string, expected: ExpectedState, rationale: string, now: int, eventId: nat, approvalId: nat)
    requires operation.SetTo? ==> Canonical(env.lib, operation.candidate)
    requires KeyText(env, displayKey, key)
    requires NewProposal(env, id, proposer, actor, operation, displayKey, expected, rationale, now, eventId, approvalId).Ok?
    ensures var p := NewProposal(env, id, proposer, actor, operation, displayKey, expected, rationale, now, eventId, approvalId).value;
            && p.id == id && p.approvalId == approvalId && p.createdAt == now && actor == Agent(p.body.profileId)
            && p.Place() == Slot(proposer.ns, key)
            && p.body.operation == operation && p.body.expected == expected
            && OperationText(env, operation, key) && ExpectedAt(Slot(proposer.ns, key), expected)
  {}

  /** The display key a proposal is created under has the proposed key as its normal form. */
  lemma ProposedKeyText(env: Env, tables: Tables, ns: nat, operation: Operation, key: string, nextId: nat)
    requires Sound(TextRulesOf(env))(tables, nextId)
    requires operation.SetTo? ==> Canonical(env.lib, operation.candidate) && key == DraftKey(env.lib, operation.candidate)
    ensures operation.SetTo? ==> KeyText(env, operation.candidate.displayKey, key)
    ensures Lookup(tables, Slot(ns, key)).Some? ==>
              var e := Lookup(tables, Slot(ns, key)).value;
              e.Place() == Slot(ns, key) && KeyText(env, e.displayKey, key)
  {
    CurrentOk(TextRulesOf(env), tables, Slot(ns, key), nextId);
  }

  lemma EditIsAChange(env: Env, ns: nat, current: Option<EntryVersion>, expected: ExpectedState, operation: Operation)
    requires operation.SetTo? ==> Canonical(env.lib, operation.candidate)
    requires current.Some? ==> current.value.ns == ns
    requires PrepareEdit(env, Human, ns, current, expected, CandidateOf(operation)).Ok?
    requires PrepareEdit(env, Human, ns, current, expected, CandidateOf(operation)).value.Prepared?
    ensures expected == CurrentExpected(current) && WouldChange(current, operation)
  {
    MatchesExpectedMeaning(ns, current, expected);
  }

  /** What a successful preparation went through. */
  lemma PreparedProposal(env: Env, w: World, request: Request, expected: ExpectedState, operation: Operation,
      rationale: string, event: Event) returns (key: string, displayKey: string)
    requires operation.SetTo? ==> Canonical(env.lib, operation.candidate)
    requires PrepareProposal(env, w, request, expected, operation, rationale) == Ok(event)
    ensures request.profile.Some? && event.ProposalCreated?
    ensures var ns, ids := request.profile.value.ns, w.nextId + request.skipped;
            var current := Lookup(w.tables, Slot(ns, key));
            && (operation.SetTo? ==> key == DraftKey(env.lib, operation.candidate) && displayKey == operation.candidate.displayKey)
            && (operation.Delete? ==> current.Some? && displayKey == current.value.displayKey)
            && PrepareEdit(env, Human, ns, current, expected, CandidateOf(operation)).Ok?
            && PrepareEdit(env, Human, ns, current, expected, CandidateOf(operation)).value.Prepared?
            && |PendingIn(w.tables.proposals, ns)| < MAX_PENDING_PROPOSALS
            && NewProposal(env, ids, request.profile.value, request.actor, operation, displayKey, expected, rationale,
                 request.now, ids + 2, ids + 1) == Ok(event.proposal)
            && event.approval == Approval(ids + 1, MemoryMutation, event.proposal.Reference(), request.actor,
                 ApprovalPending, request.now, None, None)
  {
    hide NewProposal, NormalizeMemoryKey, PrepareEdit, Canonical;
    key := ProposedKey(env, expected, operation).value;
    displayKey := if operation.SetTo? then operation.candidate.displayKey
                  else Lookup(w.tables, Slot(request.profile.value.ns, key)).value.displayKey;
  }

  lemma CreationChange(env: Env, w: World, request: Request, expected: ExpectedState, operation: Operation,
      rationale: string, event: Event, ids: nat, later: nat)
    requires ids == w.nextId + request.skipped && later == ids + 3
    requires operation.SetTo? ==> Canonical(env.lib, operation.candidate)
    requires Sound(TextRulesOf(env))(w.tables, w.nextId)
    requires PrepareProposal(env, w, request, expected, operation, rationale) == Ok(event)
    ensures event.ProposalCreated?
    ensures NewPending(TextRulesOf(env), event.proposal, event.approval, ids, later) && Creatable(w.tables, event.proposal)
  {
    hide PrepareProposal, PrepareEdit, NewProposal, Sound, TextRulesOf, Canonical, DraftKey, Creatable, ExpectedAt;
    var key, displayKey := PreparedProposal(env, w, request, expected, operation, rationale, event);
    ProposalIsCreatable(env, w.tables, request.profile.value, request.actor, operation, displayKey, key, expected, rationale,
      request.now, event.proposal, w.nextId, ids);
  }

  lemma ProposalIsCreatable(env: Env, tables: Tables, proposer: Profile, actor: Actor, operation: Operation,
      displayKey: string, key: string, expected: ExpectedState, rationale: string, now: int, p: Proposal, nextId: nat, ids: nat)
    requires Sound(TextRulesOf(env))(tables, nextId)
    requires operation.SetTo? ==> Canonical(env.lib, operation.candidate)
    requires operation.SetTo? ==> key == DraftKey(env.lib, operation.candidate) && displayKey == operation.candidate.displayKey
    requires var current := Lookup(tables, Slot(proposer.ns, key));
             && (operation.Delete? ==> current.Some? && displayKey == current.value.displayKey)
             && PrepareEdit(env, Human, proposer.ns, current, expected, CandidateOf(operation)).Ok?
             && PrepareEdit(env, Human, proposer.ns, current, expected, CandidateOf(operation)).value.Prepared?
    requires |PendingIn(tables.proposals, proposer.ns)| < MAX_PENDING_PROPOSALS
    requires NewProposal(env, ids, proposer, actor, operation, displayKey, expected, rationale, now, ids + 2, ids + 1) == Ok(p)
    ensures Creatable(tables, p) && p.id == ids && p.approvalId == ids + 1 && p.createdAt == now && actor == Agent(p.body.profileId)
    ensures TextRulesOf(env).operationOk(p.body.operation, p.body.key) && ExpectedAt(p.Place(), p.body.expected)
  {
    ProposedKeyText(env, tables, proposer.ns, operation, key, nextId);
    EditIsAChange(env, proposer.ns, Lookup(tables, Slot(proposer.ns, key)), expected, operation);
    NewProposalFields(env, ids, proposer, actor, operation, displayKey, key, expected, rationale, now, ids + 2, ids + 1);
  }

  // ---------- resolving a proposal ----------

  /** What one must hold and send for a resolution to be considered: the token of
      the open review, the pending proposal by reference, and the state its key is in. */
  ghost predicate ReviewIsCurrent(w: World, request: Request, command: Command)
    requires command.Resolve?
  {
    && request.actor == Human && request.holdsReview && request.holdsToken
    && command.expectedStatus.ApprovalPending?
    && OpenForReview(w, command)
    && command.expectedEntry == CurrentExpected(Lookup(w.tables, w.tables.proposals[command.proposal.id].proposal.Place()))
  }

  /** In a sound state the checks against the projection, the approval and the proposal's
      own expectation never add a refusal: what is left is staleness of the request. */
  lemma ChecksMeaning(rules: Rules, w: World, request: Request, command: Command)
    requires InvUnder(rules, w) && command.Resolve?
    ensures PrepareResolutionChecks(w, request, command).Ok? <==> ReviewIsCurrent(w, request, command)
    ensures ReviewIsCurrent(w, request, command) ==>
              PrepareResolutionChecks(w, request, command) == Ok(w.tables.proposals[command.proposal.id])
    ensures PrepareResolutionChecks(w, request, command) == Err(ExpectedStateMismatch) <==>
              && request.actor == Human && request.holdsReview && request.holdsToken
              && command.expectedStatus.ApprovalPending? && OpenForReview(w, command)
              && !ReviewIsCurrent(w, request, command)
  {
    if OpenForReview(w, command) {
      var id := command.proposal.id;
      assert ProposalOk(rules, w.tables, id, w.nextId) && PendingFits(w.tables, id);
      assert w.projection.proposals[id] == ProjectedOf(w.tables.proposals[id]);
    }
  }

  /** What the open proposal of a current review knows. */
  lemma OpenProposal(env: Env, w: World, request: Request, command: Command)
    requires Inv(env, w) && command.Resolve? && ReviewIsCurrent(w, request, command)
    ensures var p := w.tables.proposals[command.proposal.id].proposal;
            && OperationText(env, p.body.operation, p.body.key)
            && WouldChange(Lookup(w.tables, p.Place()), p.body.operation)
            && p.Reference() == command.proposal && p.id == command.proposal.id
  {
    assert ProposalOk(TextRulesOf(env), w.tables, command.proposal.id, w.nextId);
    assert PendingFits(w.tables, command.proposal.id);
  }

  /** Room in the namespace and version numbers left: the two limits of accepting. */
  ghost predicate WithinLimits(tables: Tables, p: Proposal, highest: nat) {
    var current := Lookup(tables, p.Place());
    && (CreatesActiveKey(current, CandidateOf(p.body.operation)) ==> |ActiveIn(tables.current, p.body.ns)| < MAX_ACTIVE_ENTRIES)
    && (current.Some? ==> current.value.version < highest)
  }

  lemma AcceptedEntry(env: Env, tables: Tables, p: Proposal, nextId: nat, ids: nat, later: nat, now: int)
    requires Sound(TextRulesOf(env))(tables, nextId) && nextId <= ids && later == ids + 3
    requires OperationText(env, p.body.operation, p.body.key)
    requires WouldChange(Lookup(tables, p.Place()), p.body.operation)
    ensures var candidate, current := CandidateOf(p.body.operation), Lookup(tables, p.Place());
            var r := NextEntry(env, p.body.ns, current, candidate, ids, now, Some(p.Reference()));
            && (r.Ok? <==> (current.Some? ==> current.value.version < U64_MAX))
            && (r.Ok? && WithinLimits(tables, p, U64_MAX) ==>
                  && Buildable(TextRulesOf(env), tables, r.value, ids, later) && RoomFor(tables, r.value)
                  && r.value.accepted == Some(p.Reference()) && r.value.Place() == p.Place()
                  && CarriesOut(r.value, p.body.operation)
                  && r.value.version == if current.Some? then current.value.version + 1 else 1)
  {
    NextVersion(env, tables, p.Place(), CandidateOf(p.body.operation), nextId, ids, later, now, Some(p.Reference()));
  }

  /** A resolution is prepared exactly when the review is current, the log has a number
      left and, to accept, the limits allow the new version. */
  lemma ResolutionPrepared(env: Env, w: World, request: Request, command: Command, ids: nat, later: nat)
    requires Inv(env, w) && command.Resolve? && StoredCanonical(env, w.tables)
    requires ids == w.nextId + request.skipped && later == ids + 3
    ensures PrepareResolution(env, w, request, command).Ok? <==>
              && ReviewIsCurrent(w, request, command) && w.lastSequence < U64_MAX
              && (command.approve ==> WithinLimits(w.tables, w.tables.proposals[command.proposal.id].proposal, U64_MAX))
  {
    hide Inv, StoredCanonical, InvUnder, NextEntry, TextRulesOf, PrepareResolutionChecks, Canonical, DraftKey, OperationText;
    hide WouldChange, ReviewIsCurrent, Buildable, RoomFor, Sound, Expirations, Lookup, ActiveIn;
    CheckedUnderInv(env, w, request, command);
    if ReviewIsCurrent(w, request, command) {
      OpenProposal(env, w, request, command);
      AcceptedEntry(env, w.tables, w.tables.proposals[command.proposal.id].proposal, w.nextId, ids, later, request.now);
    }
  }

  lemma CheckedUnderInv(env: Env, w: World, request: Request, command: Command)
    requires Inv(env, w) && command.Resolve?
    ensures Sound(TextRulesOf(env))(w.tables, w.nextId)
    ensures PrepareResolutionChecks(w, request, command).Ok? <==> ReviewIsCurrent(w, request, command)
    ensures ReviewIsCurrent(w, request, command) ==>
              command.proposal.id in w.tables.proposals
              && PrepareResolutionChecks(w, request, command) == Ok(w.tables.proposals[command.proposal.id])
  {
    ChecksMeaning(TextRulesOf(env), w, request, command);
  }

  /** What a prepared resolution writes: the rejection, or the acceptance with the version. */
  lemma PreparedResolution(env: Env, w: World, request: Request, command: Command, event: Event, ids: nat)
    requires command.Resolve? && StoredCanonical(env, w.tables) && ids == w.nextId + request.skipped
    requires PrepareResolution(env, w, request, command) == Ok(event)
    requires PrepareResolutionChecks(w, request, command) == Ok(w.tables.proposals[command.proposal.id])
    requires command.proposal.id in w.tables.proposals
    ensures var p := w.tables.proposals[command.proposal.id].proposal;
            && (!command.approve ==>
                  event == ProposalRejected(Resolution(p.Reference(), Rejected, command.approvalId, request.now, ids)))
            && (command.approve ==>
                  && event.ProposalAccepted?
                  && event.resolution == Resolution(p.Reference(), Accepted, command.approvalId, event.entry.createdAt, event.entry.eventId)
                  && NextEntry(env, p.body.ns, Lookup(w.tables, p.Place()), CandidateOf(p.body.operation), ids, request.now,
                       Some(p.Reference())) == Ok(event.entry)
                  && event.expired == Expirations(w.tables, event.entry, Some(p.Reference())))
  {
    hide NextEntry, PrepareResolutionChecks, Canonical, Expirations, Lookup, ActiveIn;
  }

  lemma OpenSettles(w: World, command: Command, r: Resolution)
    requires command.Resolve? && OpenForReview(w, command) && !r.status.Pending?
    requires r.proposal == command.proposal && r.approvalId == command.approvalId
    ensures Settles(w.tables, r)
  {}

  lemma ResolutionCommits(env: Env, w: World, request: Request, command: Command, event: Event, ids: nat, later: nat)
    returns (w': World)
    requires Inv(env, w) && command.Resolve? && StoredCanonical(env, w.tables)
    requires ids == w.nextId + request.skipped && later == ids + 3
    requires PrepareResolution(env, w, request, command) == Ok(event)
    ensures CommitsTo(TextRulesOf(env), w, request, event, w')
  {
    hide Inv, StoredCanonical, InvUnder, NextEntry, TextRulesOf, PrepareResolutionChecks, Canonical, DraftKey, OperationText;
    hide WouldChange, Buildable, RoomFor, Sound, Expirations, Lookup, ActiveIn, PrepareResolution, Persist, Reduce, View;
    hide CommitsTo, WithinLimits, Settles, OpenForReview;
    var rules := TextRulesOf(env);
    ResolutionPrepared(env, w, request, command, ids, later);
    CheckedUnderInv(env, w, request, command);
    var p := w.tables.proposals[command.proposal.id].proposal;
    OpenProposal(env, w, request, command);
    PreparedResolution(env, w, request, command, event, ids);
    ProjectionIsView(env, w);
    var after: Tables;
    if command.approve {
      AcceptedEntry(env, w.tables, p, w.nextId, ids, later, request.now);
      OpenSettles(w, command, event.resolution);
      after := AcceptanceStep(rules, w.tables, event.entry, event.resolution, event.expired, w.nextId, ids, later);
    } else {
      OpenSettles(w, command, event.resolution);
      after := RejectionStep(rules, w.tables, event.resolution, w.nextId, later);
    }
    w' := Committed(rules, w, request, event, after, later);
  }

  lemma ProjectionIsView(env: Env, w: World)
    requires Inv(env, w)
    ensures w.projection == View(w.tables)
  {}

  // ---------- one command ----------

  ghost predicate Commits(env: Env, w: World, request: Request, event: Event) {
    exists w' :: CommitsTo(TextRulesOf(env), w, request, event, w')
  }

  lemma PreparedCommits(env: Env, w: World, request: Request, event: Event)
    requires Inv(env, w) && WellTyped(env, request) && StoredCanonical(env, w.tables)
    requires Prepare(env, w, request) == Ok(event)
    ensures Commits(env, w, request, event)
  {
    hide Inv, StoredCanonical, TextRulesOf, Canonical, PrepareDirect, PrepareProposal, PrepareResolution, CommitsTo;
    hide Sound, Buildable, RoomFor, NewPending, Creatable, Expirations, DraftKey, InvUnder;
    var rules, ids, later := TextRulesOf(env), w.nextId + request.skipped, w.nextId + request.skipped + 3;
    UnderTextRules(env, w);
    var w': World;
    match request.command {
      case SetEntry(expected, candidate) =>
        DirectChange(env, w, request, DraftKey(env.lib, candidate), expected, Some(candidate), event, ids, later);
        w' := DirectCommits(rules, w, request, event.entry, event.expired, ids, later);
      case DeleteEntry(entry) =>
        DirectChange(env, w, request, entry.key, ExpectPresent(entry), None, event, ids, later);
        w' := DirectCommits(rules, w, request, event.entry, event.expired, ids, later);
      case Propose(expected, operation, rationale) =>
        CreationChange(env, w, request, expected, operation, rationale, event, ids, later);
        w' := CreationCommits(rules, w, request, event.proposal, event.approval, ids, later);
      case Resolve(_, _, _, _, _) =>
        w' := ResolutionCommits(env, w, request, request.command, event, ids, later);
    }
  }

  lemma UnderTextRules(env: Env, w: World)
    requires Inv(env, w)
    ensures InvUnder(TextRulesOf(env), w) && Sound(TextRulesOf(env))(w.tables, w.nextId)
  {}

  /** The stream and the version column have a number left for the event. */
  predicate Storable(w: World, event: Event) { w.lastSequence < I64_MAX && RowFits(event) }

  /** A command that can be prepared commits, as long as its numbers can be stored: no table
      guard and no projection check ever refuses its event, and the invariant holds again.
      So a command fails in `Prepare`, or when numbers run out, or not at all. */
  lemma ExecuteMeaning(env: Env, w: World, request: Request)
    requires Inv(env, w) && WellTyped(env, request)
    ensures StoredCanonical(env, w.tables)
    ensures Execute(env, w, request).Ok? <==> Prepare(env, w, request).Ok? && Storable(w, Prepare(env, w, request).value)
    ensures Prepare(env, w, request).Err? ==> Execute(env, w, request) == Err(Prepare(env, w, request).error)
    ensures Prepare(env, w, request).Ok? && Execute(env, w, request).Err? ==>
              Execute(env, w, request).error in {InvalidEventRecord, RowMismatch}
    ensures Execute(env, w, request).Ok? ==>
              CommitsTo(TextRulesOf(env), w, request, Prepare(env, w, request).value, Execute(env, w, request).value)
              && Inv(env, Execute(env, w, request).value)
  {
    hide Inv, StoredCanonical, TextRulesOf, Canonical, Prepare, Persist, Reduce, Sound, TablesInv, View, WellTyped, RowFits;
    InvCanonical(env, w);
    if Prepare(env, w, request).Ok? {
      var event := Prepare(env, w, request).value;
      PreparedCommits(env, w, request, event);
      var w' :| CommitsTo(TextRulesOf(env), w, request, event, w');
      OverTextRules(env, w');
    }
  }

  lemma OverTextRules(env: Env, w: World)
    requires InvUnder(TextRulesOf(env), w)
    ensures Inv(env, w)
  {}

  /** Approving or rejecting succeeds exactly when the review is current and the limits
      allow it; in particular a request that carries the key's present state is never stale. */
  lemma ResolveSucceedsExactly(env: Env, w: World, request: Request)
    requires Inv(env, w) && WellTyped(env, request) && request.command.Resolve?
    ensures StoredCanonical(env, w.tables)
    ensures Execute(env, w, request).Ok? <==>
              && ReviewIsCurrent(w, request, request.command) && w.lastSequence < I64_MAX
              && (request.command.approve ==>
                    WithinLimits(w.tables, w.tables.proposals[request.command.proposal.id].proposal, I64_MAX))
    ensures ReviewIsCurrent(w, request, request.command) ==> Execute(env, w, request) != Err(ExpectedStateMismatch)
  {
    hide Inv, StoredCanonical, PrepareResolution, Execute, ReviewIsCurrent, WellTyped, RowFits, ActiveIn, Lookup;
    var ids := w.nextId + request.skipped;
    InvCanonical(env, w);
    ExecuteMeaning(env, w, request);
    ResolutionPrepared(env, w, request, request.command, ids, ids + 3);
    ResolutionNeverStale(env, w, request, request.command);
    CheckedUnderInv(env, w, request, request.command);
    if Prepare(env, w, request).Ok? {
      ResolutionRowFits(env, w, request, request.command, Prepare(env, w, request).value, ids, ids + 3);
    }
  }

  /** The version an approval makes is the next one of its key. */
  lemma ResolutionRowFits(env: Env, w: World, request: Request, command: Command, event: Event, ids: nat, later: nat)
    requires Inv(env, w) && command.Resolve? && StoredCanonical(env, w.tables)
    requires ids == w.nextId + request.skipped && later == ids + 3
    requires PrepareResolution(env, w, request, command) == Ok(event)
    ensures command.proposal.id in w.tables.proposals
    ensures var p := w.tables.proposals[command.proposal.id].proposal;
            RowFits(event) <==> (command.approve ==> Lookup(w.tables, p.Place()).Some? ==> Lookup(w.tables, p.Place()).value.version < I64_MAX)
  {
    hide Inv, StoredCanonical, InvUnder, NextEntry, TextRulesOf, PrepareResolutionChecks, Canonical, DraftKey, OperationText;
    hide WouldChange, Buildable, RoomFor, Sound, Expirations, Lookup, ActiveIn, PrepareResolution, OpenForReview, CarriesOut;
    ResolutionPrepared(env, w, request, command, ids, later);
    CheckedUnderInv(env, w, request, command);
    OpenProposal(env, w, request, command);
    PreparedResolution(env, w, request, command, event, ids);
    if command.approve {
      AcceptedEntry(env, w.tables, w.tables.proposals[command.proposal.id].proposal, w.nextId, ids, later, request.now);
    }
  }

  lemma ResolutionNeverStale(env: Env, w: World, request: Request, command: Command)
    requires Inv(env, w) && command.Resolve? && StoredCanonical(env, w.tables)
    ensures ReviewIsCurrent(w, request, command) ==> PrepareResolution(env, w, request, command) != Err(ExpectedStateMismatch)
  {
    hide Inv, StoredCanonical, InvUnder, NextEntry, TextRulesOf, PrepareResolutionChecks, Canonical, DraftKey, OperationText;
    hide WouldChange, ReviewIsCurrent, Buildable, RoomFor, Sound, Expirations, ActiveIn;
    CheckedUnderInv(env, w, request, command);
    if ReviewIsCurrent(w, request, command) {
      OpenProposal(env, w, request, command);
      var p := w.tables.proposals[command.proposal.id].proposal;
      NextEntryError(env, p.body.ns, Lookup(w.tables, p.Place()), p.body.operation, w.nextId + request.skipped, request.now,
        Some(p.Reference()));
    }
  }

  /** A missing key cannot be deleted; nothing else about a next version is a state mismatch. */
  lemma NextEntryError(env: Env, ns: nat, current: Option<EntryVersion>, operation: Operation, ids: nat, now: int,
      accepted: Option<ProposalRef>)
    requires operation.SetTo? ==> Canonical(env.lib, operation.candidate)
    requires WouldChange(current, operation)
    ensures NextEntry(env, ns, current, CandidateOf(operation), ids, now, accepted) != Err(ExpectedStateMismatch)
  {}
}
