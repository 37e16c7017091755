/** The memory state machine: the `prepare_*` functions of src/app/service.rs, the
    table writes of `persist_memory_mutation_event`, and the reducer steps of
    src/memory/projection.rs, as functions of the state. */
module MemoryStore {
  import opened Prelude
  import opened Sorting
  import opened MemoryDraft
  import opened MemoryTypes

  const MAX_ACTIVE_ENTRIES := 1024
  const MAX_PENDING_PROPOSALS := 256

  // ---------- state ----------

  datatype StoredProposal = StoredProposal(proposal: Proposal, status: ProposalStatus, resolution: Option<Resolution>)

  datatype Tables = Tables(
    versions: seq<EntryVersion>,
    current: map<Slot, EntryVersion>,
    proposals: map<nat, StoredProposal>,
    approvals: map<nat, Approval>)

  datatype Projected = Projected(
    proposal: ProposalRef, place: Slot, expected: ExpectedState, approvalId: nat,
    status: ProposalStatus, resolutionEvent: Option<nat>)

  datatype Projection = Projection(entries: map<Slot, EntryRef>, proposals: map<nat, Projected>)

  datatype World = World(tables: Tables, projection: Projection, lastSequence: nat, nextId: nat)

  const INITIAL := World(Tables([], map[], map[], map[]), Projection(map[], map[]), 0, 0)

  function Lookup(tables: Tables, place: Slot): Option<EntryVersion> {
    if place in tables.current then Some(tables.current[place]) else None
  }

  function InSlot(place: Slot): EntryVersion -> bool { (e: EntryVersion) => e.Place() == place }

  /** The rows of one key, oldest first. */
  function History(tables: Tables, place: Slot): seq<EntryVersion> { Filter(tables.versions, InSlot(place)) }

  function ActiveIn(current: map<Slot, EntryVersion>, ns: nat): set<Slot> {
    set place | place in current && place.ns == ns && current[place].state.Present?
  }

  function PendingIn(proposals: map<nat, StoredProposal>, ns: nat): set<nat> {
    set id | id in proposals && proposals[id].proposal.body.ns == ns && proposals[id].status.Pending?
  }

  function ProjectedPendingIn(proposals: map<nat, Projected>, ns: nat): set<nat> {
    set id | id in proposals && proposals[id].place.ns == ns && proposals[id].status.Pending?
  }

  // ---------- events and commands ----------

  datatype Event =
    | EntrySet(entry: EntryVersion, expired: seq<Resolution>)
    | EntryDeleted(entry: EntryVersion, expired: seq<Resolution>)
    | ProposalCreated(proposal: Proposal, approval: Approval)
    | ProposalAccepted(resolution: Resolution, entry: EntryVersion, expired: seq<Resolution>)
    | ProposalRejected(resolution: Resolution)

  datatype Command =
    | SetEntry(expected: ExpectedState, candidate: Draft)
    | DeleteEntry(entry: EntryRef)
    | Propose(expected: ExpectedState, operation: Operation, rationale: string)
    | Resolve(approve: bool, proposal: ProposalRef, approvalId: nat, expectedStatus: ApprovalStatus, expectedEntry: ExpectedState)

  /** A command with what surrounds it: the actor, the profile version its reference
      resolves to, whether its review is reserved under this command and this token,
      the clock, and how many identifiers were drawn elsewhere since the last success. */
  datatype Request = Request(
    command: Command, actor: Actor, profile: Option<Profile>,
    holdsReview: bool, holdsToken: bool, now: int, skipped: nat)

  /** Drafts exist only in canonical form (their fields are private to the constructor). */
  predicate WellTyped(env: Env, request: Request) {
    match request.command
    case SetEntry(_, candidate) => Canonical(env.lib, candidate)
    case Propose(_, SetTo(candidate), _) => Canonical(env.lib, candidate)
    case _ => true
  }

  // ---------- preparing events ----------

  /** Pending proposals of the entry's key, other than `except`, that expect another state. */
  function ExpiredIds(tables: Tables, entry: EntryVersion, except: Option<ProposalRef>): set<nat> {
    set id | id in tables.proposals
             && tables.proposals[id].status.Pending?
             && tables.proposals[id].proposal.Place() == entry.Place()
             && except != Some(tables.proposals[id].proposal.Reference())
             && tables.proposals[id].proposal.body.expected != CurrentExpected(Some(entry))
  }

  function Expiration(proposal: Proposal, entry: EntryVersion): Resolution {
    NewResolution(proposal.Reference(), Expired, proposal.approvalId, Human, entry.createdAt, entry.eventId).value
  }

  function ExpirationIn(tables: Tables, entry: EntryVersion): nat -> Resolution {
    (id: nat) => if id in tables.proposals then Expiration(tables.proposals[id].proposal, entry)
          else Resolution(ProposalRef(id, 0), Expired, 0, 0, 0)
  }

  lemma NatLeTotal()
    ensures TotalPreorder(NatLe)
  {}

  /** The expirations in ascending proposal order. */
  ghost function Expirations(tables: Tables, entry: EntryVersion, except: Option<ProposalRef>): seq<Resolution> {
    NatLeTotal();
    Map(Enumerate(NatLe, ExpiredIds(tables, entry, except)), ExpirationIn(tables, entry))
  }

  /** The next version of a key: first, successor, or tombstone. */
  function NextEntry(env: Env, ns: nat, current: Option<EntryVersion>, candidate: Option<Draft>, ids: nat, now: int,
      accepted: Option<ProposalRef>): Result<EntryVersion, MemoryError>
    requires candidate.Some? ==> Canonical(env.lib, candidate.value)
  {
    match (current, candidate)
    case (None, Some(d)) => CreatePresent(env, ns, ids, ids + 1, d, now, accepted, ids + 2)
    case (Some(e), Some(d)) => NextPresent(env, e, ids, d, now, accepted, ids + 1)
    case (Some(e), None) => NextDeleted(env, e, ids, now, accepted, ids + 1)
    case (None, None) => Err(ExpectedStateMismatch)
  }

  predicate CreatesActiveKey(current: Option<EntryVersion>, candidate: Option<Draft>) {
    candidate.Some? && (current.None? || current.value.state.Deleted?)
  }

  ghost function PrepareDirect(env: Env, w: World, request: Request, key: string, expected: ExpectedState,
      candidate: Option<Draft>): Result<Event, MemoryError>
    requires candidate.Some? ==> Canonical(env.lib, candidate.value)
  {
    if request.actor != Human || !request.holdsReview then Err(ReviewUnavailable)
    else if w.lastSequence >= U64_MAX then Err(InvalidEventRecord)
    else if !request.holdsToken then Err(ReviewUnavailable)
    else if request.profile.None? then Err(ProfileUnresolved)
    else
      var ns := request.profile.value.ns;
      var current := Lookup(w.tables, Slot(ns, key));
      var outcome :- PrepareEdit(env, request.actor, ns, current, expected, candidate);
      if outcome.Unchanged? then Err(ExpectedStateMismatch)
      else if CreatesActiveKey(current, candidate) && |ActiveIn(w.tables.current, ns)| >= MAX_ACTIVE_ENTRIES then Err(Capacity)
      else
        var entry :- NextEntry(env, ns, current, candidate, w.nextId + request.skipped, request.now, None);
        var expired := Expirations(w.tables, entry, None);
        Ok(if entry.state.Present? then EntrySet(entry, expired) else EntryDeleted(entry, expired))
  }

  function ProposedKey(env: Env, expected: ExpectedState, operation: Operation): Result<string, MemoryError>
    requires operation.SetTo? ==> Canonical(env.lib, operation.candidate)
  {
    match operation
    case SetTo(d) => Ok(DraftKey(env.lib, d))
    case Delete => if expected.ExpectPresent? then Ok(expected.entry.key) else Err(InvalidProposal)
  }

  function CandidateOf(operation: Operation): Option<Draft> {
    if operation.SetTo? then Some(operation.candidate) else None
  }

  function PrepareProposal(env: Env, w: World, request: Request, expected: ExpectedState, operation: Operation,
      rationale: string): Result<Event, MemoryError>
    requires operation.SetTo? ==> Canonical(env.lib, operation.candidate)
  {
    if request.profile.None? then Err(ProfileUnresolved)
    else
      var proposer := request.profile.value;
      if request.actor != Agent(proposer.profileId) then Err(ActorMismatch)
      else
        var key :- ProposedKey(env, expected, operation);
        var current := Lookup(w.tables, Slot(proposer.ns, key));
        var outcome :- PrepareEdit(env, Human, proposer.ns, current, expected, CandidateOf(operation));
        if outcome.Unchanged? then Err(InvalidProposal)
        else if |PendingIn(w.tables.proposals, proposer.ns)| >= MAX_PENDING_PROPOSALS then Err(Capacity)
        else if operation.Delete? && current.None? then Err(ExpectedStateMismatch)
        else
          var displayKey := if operation.SetTo? then operation.candidate.displayKey else current.value.displayKey;
          var ids := w.nextId + request.skipped;
          var proposal :- NewProposal(env, ids, proposer, request.actor, operation, displayKey, expected, rationale,
                                      request.now, ids + 2, ids + 1);
          Ok(ProposalCreated(proposal,
               Approval(ids + 1, MemoryMutation, proposal.Reference(), request.actor, ApprovalPending, request.now, None, None)))
  }

  /** The rows and the projection agree that this exact proposal is open. */
  predicate OpenForReview(w: World, command: Command)
    requires command.Resolve?
  {
    var id := command.proposal.id;
    && id in w.tables.proposals
    && var stored := w.tables.proposals[id];
    && stored.proposal.Reference() == command.proposal
    && stored.status.Pending? && stored.resolution.None?
    && stored.proposal.approvalId == command.approvalId
  }

  predicate ProjectionAgrees(w: World, command: Command)
    requires command.Resolve? && OpenForReview(w, command)
  {
    var proposal := w.tables.proposals[command.proposal.id].proposal;
    && proposal.id in w.projection.proposals
    && w.projection.proposals[proposal.id]
       == Projected(command.proposal, proposal.Place(), proposal.body.expected, command.approvalId, Pending, None)
  }

  function PrepareResolutionChecks(w: World, request: Request, command: Command): Result<StoredProposal, MemoryError>
    requires command.Resolve?
  {
    if request.actor != Human || !request.holdsReview then Err(ProposalReviewUnavailable)
    else if !request.holdsToken || command.expectedStatus != ApprovalPending then Err(ProposalReviewUnavailable)
    else if command.proposal.id !in w.tables.proposals then Err(ProposalNotFound)
    else if !OpenForReview(w, command) then Err(ProposalReviewUnavailable)
    else if !ProjectionAgrees(w, command) then Err(RowMismatch)
    else if command.approvalId !in w.tables.approvals then Err(RowMismatch)
    else
      var stored := w.tables.proposals[command.proposal.id];
      var approval := w.tables.approvals[command.approvalId];
      if !(approval.id == command.approvalId && approval.action.MemoryMutation?
           && approval.objectRef == stored.proposal.Reference()
           && approval.actor == Agent(stored.proposal.body.profileId) && approval.status == command.expectedStatus
           && approval.expiresAt.None? && approval.resolution.None?)
      then Err(ProposalReviewUnavailable)
      else
        var current := CurrentExpected(Lookup(w.tables, stored.proposal.Place()));
        if current != command.expectedEntry || current != stored.proposal.body.expected then Err(ExpectedStateMismatch)
        else Ok(stored)
  }

  ghost function PrepareResolution(env: Env, w: World, request: Request, command: Command): Result<Event, MemoryError>
    requires command.Resolve?
    requires forall id | id in w.tables.proposals && w.tables.proposals[id].proposal.body.operation.SetTo? ::
               Canonical(env.lib, w.tables.proposals[id].proposal.body.operation.candidate)
  {
    var stored :- PrepareResolutionChecks(w, request, command);
    var proposal := stored.proposal;
    var current := Lookup(w.tables, proposal.Place());
    var candidate := CandidateOf(proposal.body.operation);
    var ids := w.nextId + request.skipped;
    if command.approve && CreatesActiveKey(current, candidate)
       && |ActiveIn(w.tables.current, proposal.body.ns)| >= MAX_ACTIVE_ENTRIES then Err(Capacity)
    else if w.lastSequence >= U64_MAX then Err(InvalidEventRecord)
    else if !command.approve then
      var resolution :- NewResolution(proposal.Reference(), Rejected, command.approvalId, Human, request.now, ids);
      Ok(ProposalRejected(resolution))
    else
      var entry :- NextEntry(env, proposal.body.ns, current, candidate, ids, request.now, Some(proposal.Reference()));
      var resolution :- NewResolution(proposal.Reference(), Accepted, command.approvalId, Human, entry.createdAt, entry.eventId);
      Ok(ProposalAccepted(resolution, entry, Expirations(w.tables, entry, Some(proposal.Reference()))))
  }

  // ---------- writing the tables ----------

  /** The uniqueness rules and guards of the entry-version table. */
  predicate EntryInsertAllowed(versions: seq<EntryVersion>, e: EntryVersion) {
    && (forall v | v in versions :: v.versionId != e.versionId && (v.entryId, v.version) != (e.entryId, e.version))
    && (forall v | v in versions :: v.Place() == e.Place() <==> v.entryId == e.entryId)
    && (e.predecessor.None? ==> e.version == 1)
    && (e.predecessor.Some? ==> exists v | v in versions ::
          v.Place() == e.Place() && v.entryId == e.entryId && Some(v.versionId) == e.predecessor && v.version + 1 == e.version)
  }

  /** A version may name a proposal only once that proposal is stored as accepted. */
  predicate AcceptedIsStored(proposals: map<nat, StoredProposal>, e: EntryVersion) {
    e.accepted.Some? ==>
      && e.accepted.value.id in proposals
      && proposals[e.accepted.value.id].proposal.Reference() == e.accepted.value
      && proposals[e.accepted.value.id].status.Accepted?
  }

  /** The current row only moves to the next version of the same entry. */
  predicate PointerAdvances(current: map<Slot, EntryVersion>, e: EntryVersion) {
    if e.Place() !in current then e.version == 1
    else
      var prior := current[e.Place()];
      prior.entryId == e.entryId && e.predecessor == Some(prior.versionId) && e.version == prior.version + 1
  }

  /** Insert the version row and point the key's current row at it. */
  function InsertEntry(tables: Tables, e: EntryVersion): Result<Tables, MemoryError> {
    if EntryInsertAllowed(tables.versions, e) && AcceptedIsStored(tables.proposals, e) && PointerAdvances(tables.current, e)
    then Ok(tables.(versions := tables.versions + [e], current := tables.current[e.Place() := e]))
    else Err(RowMismatch)
  }

  /** The approval belongs to this proposal and is in the state the resolution says. */
  predicate ApprovalMatches(p: Proposal, a: Approval, resolution: Option<Resolution>) {
    && a.id == p.approvalId && a.action.MemoryMutation? && a.objectRef == p.Reference()
    && a.actor == Agent(p.body.profileId)
    && match resolution
       case None => a.status.ApprovalPending? && a.resolution.None?
       case Some(r) =>
         && a.status == ApprovalStatusOf(r.status)
         && a.resolution == Some(ApprovalResolution(ApprovalStatusOf(r.status), Human, r.resolvedAt))
  }

  /** The state a proposal expects must be a stored version of its key. */
  predicate ExpectedIsStored(versions: seq<EntryVersion>, p: Proposal) {
    p.body.expected.ExpectAbsent? ||
      exists v | v in versions :: v.Place() == p.Place() && v.Reference() == p.body.expected.entry
  }

  function InsertProposal(tables: Tables, p: Proposal, a: Approval): Result<Tables, MemoryError> {
    if p.id in tables.proposals || a.id in tables.approvals then Err(RowMismatch)
    else if |PendingIn(tables.proposals, p.body.ns)| >= MAX_PENDING_PROPOSALS then Err(Capacity)
    else if !ApprovalMatches(p, a, None) || !ExpectedIsStored(tables.versions, p) then Err(RowMismatch)
    else Ok(tables.(proposals := tables.proposals[p.id := StoredProposal(p, Pending, None)],
                    approvals := tables.approvals[a.id := a]))
  }

  /** The approval a resolution names, if it is a memory approval of the proposal it says. */
  function LoadApproval(tables: Tables, approvalId: nat): Option<Approval> {
    if approvalId !in tables.approvals then None
    else
      var a := tables.approvals[approvalId];
      if a.action.MemoryMutation? && a.objectRef.id in tables.proposals
         && tables.proposals[a.objectRef.id].proposal.approvalId == approvalId
      then Some(a) else None
  }

  /** Resolve the approval, then the proposal it belongs to. */
  function ResolveRow(tables: Tables, r: Resolution): Result<Tables, MemoryError> {
    var loaded := LoadApproval(tables, r.approvalId);
    if loaded.None? then Err(RowMismatch)
    else
      var resolved := ResolveApproval(loaded.value, ApprovalStatusOf(r.status), Human, r.resolvedAt);
      if resolved.Err? || r.proposal.id !in tables.proposals then Err(RowMismatch)
      else
        var stored := tables.proposals[r.proposal.id];
        if stored.proposal.Reference() != r.proposal || !stored.status.Pending?
           || !ApprovalMatches(stored.proposal, resolved.value, Some(r))
        then Err(RowMismatch)
        else Ok(tables.(approvals := tables.approvals[r.approvalId := resolved.value],
                        proposals := tables.proposals[r.proposal.id := StoredProposal(stored.proposal, r.status, Some(r))]))
  }

  function ResolveRows(tables: Tables, rs: seq<Resolution>): Result<Tables, MemoryError>
    decreases |rs|
  {
    if rs == [] then Ok(tables)
    else
      var next :- ResolveRow(tables, rs[0]);
      ResolveRows(next, rs[1..])
  }

  function Persist(tables: Tables, event: Event): Result<Tables, MemoryError> {
    match event
    case ProposalCreated(p, a) => InsertProposal(tables, p, a)
    case ProposalRejected(r) => ResolveRow(tables, r)
    case ProposalAccepted(r, e, expired) =>
      var accepted :- ResolveRow(tables, r);
      var inserted :- InsertEntry(accepted, e);
      ResolveRows(inserted, expired)
    case EntrySet(e, expired) =>
      var inserted :- InsertEntry(tables, e);
      ResolveRows(inserted, expired)
    case EntryDeleted(e, expired) =>
      var inserted :- InsertEntry(tables, e);
      ResolveRows(inserted, expired)
  }

  /** The entry version an event makes. */
  function MadeVersion(event: Event): Option<EntryVersion> {
    match event
    case EntrySet(e, _) => Some(e)
    case EntryDeleted(e, _) => Some(e)
    case ProposalAccepted(_, e, _) => Some(e)
    case _ => None
  }

  /** Version numbers are stored as signed 64-bit integers. */
  predicate RowFits(event: Event) { MadeVersion(event).Some? ==> MadeVersion(event).value.version <= I64_MAX }

  /** `persist_memory_mutation_event`. */
  function WriteEvent(tables: Tables, event: Event): Result<Tables, MemoryError> {
    if !RowFits(event) then Err(RowMismatch) else Persist(tables, event)
  }

  /** The number the stream gives the event; it is signed too, as is the version of the
      object the event is about. */
  function Append(w: World, event: Event): Result<nat, MemoryError> {
    if w.lastSequence >= I64_MAX || (!event.ProposalAccepted? && !RowFits(event)) then Err(InvalidEventRecord)
    else Ok(w.lastSequence + 1)
  }

  // ---------- reducing into the projection ----------

  predicate EntriesStructured(entries: map<Slot, EntryRef>) {
    && (forall place | place in entries :: place == Slot(entries[place].ns, entries[place].key))
    && (forall a, b | a in entries && b in entries && a != b ::
          entries[a].versionId != entries[b].versionId && entries[a].entryId != entries[b].entryId)
  }

  predicate ExpectedAt(place: Slot, expected: ExpectedState) {
    && WellFormedExpected(expected)
    && (ExpectedRef(expected).Some? ==> Slot(expected.entry.ns, expected.entry.key) == place)
  }

  predicate ProposalsStructured(proposals: map<nat, Projected>) {
    forall id | id in proposals ::
      && proposals[id].proposal.id == id
      && ExpectedAt(proposals[id].place, proposals[id].expected)
      && (proposals[id].status.Pending? <==> proposals[id].resolutionEvent.None?)
  }

  ghost predicate PendingBounded(proposals: map<nat, Projected>) {
    forall ns :: |ProjectedPendingIn(proposals, ns)| <= MAX_PENDING_PROPOSALS
  }

  /** `validate_structure` and the error it reports. */
  ghost function CheckStructure(p: Projection): Result<(), MemoryError> {
    if !EntriesStructured(p.entries) || !ProposalsStructured(p.proposals) then Err(InvalidProjection)
    else if !PendingBounded(p.proposals) then Err(ProposalCapacityReached)
    else Ok(())
  }

  /** The new reference continues the key it belongs to and collides with no other. */
  predicate Continues(entries: map<Slot, EntryRef>, e: EntryVersion) {
    if e.Place() !in entries then e.version == 1 && e.predecessor.None?
    else
      var current := entries[e.Place()];
      && current.version < U64_MAX && e.version == current.version + 1
      && e.predecessor == Some(current.versionId) && current.entryId == e.entryId
  }

  predicate Collides(entries: map<Slot, EntryRef>, e: EntryVersion) {
    exists place | place in entries ::
      place != e.Place() && (entries[place].entryId == e.entryId || entries[place].versionId == e.versionId)
  }

  ghost function ApplyEntry(p: Projection, e: EntryVersion): Result<Projection, MemoryError> {
    if Collides(p.entries, e) || !Continues(p.entries, e) then Err(InvalidProjection)
    else
      var staged := p.(entries := p.entries[e.Place() := e.Reference()]);
      var _ :- CheckStructure(staged);
      Ok(staged)
  }

  function CreateProposal(p: Projection, proposal: Proposal): Result<Projection, MemoryError> {
    if proposal.id in p.proposals then Err(InvalidProjection)
    else if |ProjectedPendingIn(p.proposals, proposal.body.ns)| >= MAX_PENDING_PROPOSALS then Err(ProposalCapacityReached)
    else Ok(p.(proposals := p.proposals[proposal.id :=
           Projected(proposal.Reference(), proposal.Place(), proposal.body.expected, proposal.approvalId, Pending, None)]))
  }

  function ResolveProposal(p: Projection, r: Resolution): Result<Projection, MemoryError> {
    if r.proposal.id !in p.proposals then Err(InvalidProjection)
    else
      var projected := p.proposals[r.proposal.id];
      if projected.proposal != r.proposal || projected.approvalId != r.approvalId || !projected.status.Pending?
      then Err(InvalidProjection)
      else Ok(p.(proposals := p.proposals[r.proposal.id :=
             projected.(status := r.status, resolutionEvent := Some(r.eventId))]))
  }

  function ResolveProposals(p: Projection, rs: seq<Resolution>): Result<Projection, MemoryError>
    decreases |rs|
  {
    if rs == [] then Ok(p)
    else
      var next :- ResolveProposal(p, rs[0]);
      ResolveProposals(next, rs[1..])
  }

  /** The state of a key as the projection knows it. */
  function CurrentRef(p: Projection, place: Slot): ExpectedState {
    if place !in p.entries then ExpectAbsent
    else if p.entries[place].state.Present? then ExpectPresent(p.entries[place])
    else ExpectDeleted(p.entries[place])
  }

  /** The projection holds the proposal a resolution names, and it is open. */
  predicate ProjectedOpen(p: Projection, r: Resolution) {
    && r.proposal.id in p.proposals
    && var projected := p.proposals[r.proposal.id];
    && projected.proposal == r.proposal && projected.approvalId == r.approvalId
    && projected.status.Pending? && projected.resolutionEvent.None?
  }

  /** The open proposals of the entry's key that expect another state than its new one. */
  function OutdatedIds(p: Projection, e: EntryVersion, selected: Option<nat>): set<nat> {
    set id | id in p.proposals
             && selected != Some(id)
             && p.proposals[id].place == e.Place()
             && p.proposals[id].status.Pending?
             && p.proposals[id].expected != CurrentRef(p, e.Place())
  }

  function TargetOf(): Resolution -> nat { (r: Resolution) => r.proposal.id }

  /** The expirations name exactly the outdated proposals, ascending, and are part of the same event. */
  ghost predicate ExpirationsFit(p: Projection, e: EntryVersion, expired: seq<Resolution>, selected: Option<nat>) {
    NatLeTotal();
    && Map(expired, TargetOf()) == Enumerate(NatLe, OutdatedIds(p, e, selected))
    && forall i | 0 <= i < |expired| ::
         && expired[i].status.Expired? && expired[i].eventId == e.eventId && expired[i].resolvedAt == e.createdAt
         && ProjectedOpen(p, expired[i])
  }

  ghost function Expire(p: Projection, e: EntryVersion, expired: seq<Resolution>, selected: Option<nat>): Result<Projection, MemoryError> {
    if !ExpirationsFit(p, e, expired, selected) then Err(InvalidEventRecord) else ResolveProposals(p, expired)
  }

  ghost function ReduceDirect(p: Projection, e: EntryVersion, expired: seq<Resolution>, state: EntryState): Result<Projection, MemoryError> {
    if e.state != state || e.accepted.Some? then Err(InvalidEventRecord)
    else
      var applied :- ApplyEntry(p, e);
      Expire(applied, e, expired, None)
  }

  /** What the reducer demands of a new proposal and its approval. */
  predicate CreationFits(p: Projection, proposal: Proposal, a: Approval) {
    && CurrentRef(p, proposal.Place()) == proposal.body.expected
    && ApprovalMatches(proposal, a, None) && a.expiresAt.None? && a.createdAt == proposal.createdAt
  }

  /** The reviewed proposal is open and still expects the state its key is in. */
  predicate ResolutionFits(p: Projection, r: Resolution, status: ProposalStatus) {
    && r.status == status && ProjectedOpen(p, r)
    && CurrentRef(p, p.proposals[r.proposal.id].place) == p.proposals[r.proposal.id].expected
  }

  /** One event of the log folded into the projection. */
  ghost function Reduce(p: Projection, event: Event): Result<Projection, MemoryError> {
    match event
    case EntrySet(e, expired) => ReduceDirect(p, e, expired, Present)
    case EntryDeleted(e, expired) => ReduceDirect(p, e, expired, EntryState.Deleted)
    case ProposalCreated(proposal, a) =>
      if !CreationFits(p, proposal, a) then Err(InvalidEventRecord) else CreateProposal(p, proposal)
    case ProposalRejected(r) =>
      if !ResolutionFits(p, r, Rejected) then Err(InvalidEventRecord) else ResolveProposal(p, r)
    case ProposalAccepted(r, e, expired) =>
      if !ResolutionFits(p, r, Accepted) || e.Place() != p.proposals[r.proposal.id].place || e.accepted != Some(r.proposal)
         || r.eventId != e.eventId || r.resolvedAt != e.createdAt
      then Err(InvalidEventRecord)
      else
        var applied :- ApplyEntry(p, e);
        var accepted :- ResolveProposal(applied, r);
        Expire(accepted, e, expired, Some(r.proposal.id))
  }

  // ---------- executing commands ----------

  ghost predicate StoredCanonical(env: Env, tables: Tables) {
    forall id | id in tables.proposals && tables.proposals[id].proposal.body.operation.SetTo? ::
      Canonical(env.lib, tables.proposals[id].proposal.body.operation.candidate)
  }

  ghost function Prepare(env: Env, w: World, request: Request): Result<Event, MemoryError>
    requires WellTyped(env, request) && StoredCanonical(env, w.tables)
  {
    match request.command
    case SetEntry(expected, candidate) =>
      PrepareDirect(env, w, request, DraftKey(env.lib, candidate), expected, Some(candidate))
    case DeleteEntry(entry) => PrepareDirect(env, w, request, entry.key, ExpectPresent(entry), None)
    case Propose(expected, operation, rationale) => PrepareProposal(env, w, request, expected, operation, rationale)
    case Resolve(_, _, _, _, _) => PrepareResolution(env, w, request, request.command)
  }

  /** One transaction: prepare, append, write the tables, reduce; an error anywhere rolls back. */
  ghost function Execute(env: Env, w: World, request: Request): Result<World, MemoryError>
    requires WellTyped(env, request) && StoredCanonical(env, w.tables)
  {
    var event :- Prepare(env, w, request);
    var sequence :- Append(w, event);
    var tables :- WriteEvent(w.tables, event);
    var projection :- Reduce(w.projection, event);
    Ok(World(tables, projection, sequence, w.nextId + request.skipped + 3))
  }
}
