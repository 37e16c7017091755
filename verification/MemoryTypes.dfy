/** Entities of versioned memory: src/memory/entry.rs, src/memory/proposal.rs,
    src/policy/approval.rs, with their constructors and structural checks. */
module MemoryTypes {
  import opened Prelude
  import opened TextRules
  import opened MemoryDraft

  datatype MemoryError =
    | ReviewUnavailable
    | ProposalReviewUnavailable
    | ExpectedStateMismatch
    | InvalidEntry
    | InvalidObjectVersion
    | InvalidProposal
    | InvalidResolution
    | ActorMismatch
    | ProposalNotFound
    | ProfileUnresolved
    | Capacity
    | RowMismatch
    | InvalidEventRecord
    | InvalidProjection
    | ProposalCapacityReached
    | Text(cause: TextError)

  /** A key of one namespace: the unit that is versioned. */
  datatype Slot = Slot(ns: nat, key: string)

  datatype EntryState = Present | Deleted

  /** What a content digest covers. */
  datatype Content = Content(displayKey: string, key: string, state: EntryState, value: Option<string>, tags: seq<string>)

  datatype EntryRef = EntryRef(
    ns: nat, entryId: nat, versionId: nat, version: nat, key: string, state: EntryState, digest: nat)

  datatype ProposalRef = ProposalRef(id: nat, digest: nat)

  datatype ExpectedState = ExpectAbsent | ExpectPresent(entry: EntryRef) | ExpectDeleted(entry: EntryRef)

  datatype Operation = SetTo(candidate: Draft) | Delete

  datatype ProposalBody = ProposalBody(
    proposer: nat, profileId: nat, ns: nat, operation: Operation, displayKey: string, key: string,
    expected: ExpectedState, rationale: string)

  /** Libraries and digests the entities depend on; none is assumed to be anything. */
  datatype Env = Env(lib: Library, contentDigest: Content -> nat, proposalDigest: ProposalBody -> nat)

  datatype EntryVersion = EntryVersion(
    ns: nat, entryId: nat, versionId: nat, version: nat, predecessor: Option<nat>,
    displayKey: string, key: string, state: EntryState, value: Option<string>, tags: seq<string>,
    createdAt: int, accepted: Option<ProposalRef>, eventId: nat, digest: nat)
  {
    function Place(): Slot { Slot(ns, key) }
    function Material(): Content { Content(displayKey, key, state, value, tags) }
    function Reference(): EntryRef { EntryRef(ns, entryId, versionId, version, key, state, digest) }
  }

  datatype Proposal = Proposal(
    id: nat, body: ProposalBody, createdAt: int, eventId: nat, approvalId: nat, digest: nat)
  {
    function Place(): Slot { Slot(body.ns, body.key) }
    function Reference(): ProposalRef { ProposalRef(id, digest) }
  }

  /** The agent profile version a command was resolved to. */
  datatype Profile = Profile(reference: nat, profileId: nat, ns: nat)

  // ---------- entry versions ----------

  /** The structural check every version passes before it exists. */
  predicate ValidStructure(env: Env, e: EntryVersion) {
    && ((e.version == 1) == e.predecessor.None?)
    && e.predecessor != Some(e.versionId)
    && match e.state {
         case Present =>
           && e.value.Some?
           && NewDraft(env.lib, e.displayKey, e.value.value, e.tags) == Ok(Draft(e.displayKey, e.value.value, e.tags))
           && NormalizeMemoryKey(env.lib, e.displayKey) == Ok(e.key)
         case Deleted =>
           && e.value.None?
           && e.tags == []
           && CanonicalMemoryLine(e.displayKey, 1, DISPLAY_KEY_MAX_BYTES) == Ok(e.displayKey)
           && NormalizeMemoryKey(env.lib, e.displayKey) == Ok(e.key)
       }
  }

  /** `MemoryEntryVersion::build`: check, then seal with the content digest. */
  function Build(env: Env, e: EntryVersion): Result<EntryVersion, MemoryError> {
    if ValidStructure(env, e) then Ok(e.(digest := env.contentDigest(e.Material()))) else Err(InvalidEntry)
  }

  function CreatePresent(env: Env, ns: nat, entryId: nat, versionId: nat, draft: Draft, now: int,
      accepted: Option<ProposalRef>, eventId: nat): Result<EntryVersion, MemoryError>
    requires Canonical(env.lib, draft)
  {
    Build(env, EntryVersion(ns, entryId, versionId, 1, None, draft.displayKey, DraftKey(env.lib, draft),
      Present, Some(draft.value), draft.tags, now, accepted, eventId, 0))
  }

  function NextPresent(env: Env, current: EntryVersion, versionId: nat, draft: Draft, now: int,
      accepted: Option<ProposalRef>, eventId: nat): Result<EntryVersion, MemoryError>
    requires Canonical(env.lib, draft)
  {
    if DraftKey(env.lib, draft) != current.key then Err(InvalidEntry)
    else if current.version >= U64_MAX then Err(InvalidObjectVersion)
    else Build(env, EntryVersion(current.ns, current.entryId, versionId, current.version + 1, Some(current.versionId),
      draft.displayKey, current.key, Present, Some(draft.value), draft.tags, now, accepted, eventId, 0))
  }

  function NextDeleted(env: Env, current: EntryVersion, versionId: nat, now: int,
      accepted: Option<ProposalRef>, eventId: nat): Result<EntryVersion, MemoryError>
  {
    if current.version >= U64_MAX then Err(InvalidObjectVersion)
    else Build(env, EntryVersion(current.ns, current.entryId, versionId, current.version + 1, Some(current.versionId),
      current.displayKey, current.key, Deleted, None, [], now, accepted, eventId, 0))
  }

  // ---------- expected states ----------

  function CurrentExpected(current: Option<EntryVersion>): ExpectedState {
    match current
    case None => ExpectAbsent
    case Some(e) => if e.state.Present? then ExpectPresent(e.Reference()) else ExpectDeleted(e.Reference())
  }

  /** `validate_expected_state`, case by case. */
  predicate MatchesExpected(ns: nat, current: Option<EntryVersion>, expected: ExpectedState) {
    match (current, expected)
    case (None, ExpectAbsent) => true
    case (Some(e), ExpectPresent(r)) => e.ns == ns && e.state.Present? && r == e.Reference()
    case (Some(e), ExpectDeleted(r)) => e.ns == ns && e.state.Deleted? && r == e.Reference()
    case _ => false
  }

  predicate WellFormedExpected(expected: ExpectedState) {
    match expected
    case ExpectAbsent => true
    case ExpectPresent(r) => r.state.Present?
    case ExpectDeleted(r) => r.state.Deleted?
  }

  function ExpectedRef(expected: ExpectedState): Option<EntryRef> {
    if expected.ExpectAbsent? then None else Some(expected.entry)
  }

  // ---------- proposals ----------

  predicate Trimmed(s: string) {
    s != [] ==> !IsWhitespace(s[0]) && !IsWhitespace(s[|s| - 1])
  }

  function CanonicalRationale(env: Env, value: string): Result<string, MemoryError> {
    match CanonicalMemoryMultiline(value, 1, 512)
    case Err(e) => Err(Text(e))
    case Ok(text) =>
      if !Trimmed(text) then Err(InvalidProposal)
      else if !env.lib.plaintextOk(text) then Err(Text(UnsafeText))
      else Ok(text)
  }

  function SetContent(displayKey: string, key: string, d: Draft): Content {
    Content(displayKey, key, Present, Some(d.value), d.tags)
  }

  /** `MemoryProposal::validate_structure` on everything but the fixed version numbers. */
  predicate ValidProposalBody(env: Env, b: ProposalBody) {
    && CanonicalMemoryLine(b.displayKey, 1, DISPLAY_KEY_MAX_BYTES) == Ok(b.displayKey)
    && NormalizeMemoryKey(env.lib, b.displayKey) == Ok(b.key)
    && CanonicalRationale(env, b.rationale) == Ok(b.rationale)
    && (match b.operation
        case SetTo(d) =>
          && d.displayKey == b.displayKey
          && NormalizeMemoryKey(env.lib, d.displayKey) == Ok(b.key)
          && !(b.expected.ExpectPresent? && env.contentDigest(SetContent(d.displayKey, b.key, d)) == b.expected.entry.digest)
        case Delete =>
          && b.expected.ExpectPresent?
          && b.expected.entry.ns == b.ns && b.expected.entry.state.Present? && b.expected.entry.key == b.key)
    && WellFormedExpected(b.expected)
    && (ExpectedRef(b.expected).Some? ==> b.expected.entry.ns == b.ns && b.expected.entry.key == b.key)
  }

  function NewProposal(env: Env, id: nat, proposer: Profile, actor: Actor, operation: Operation, displayKey: string,
      expected: ExpectedState, rationale: string, now: int, eventId: nat, approvalId: nat): Result<Proposal, MemoryError>
  {
    if actor != Agent(proposer.profileId) then Err(ActorMismatch)
    else match CanonicalMemoryLine(displayKey, 1, DISPLAY_KEY_MAX_BYTES)
      case Err(e) => Err(Text(e))
      case Ok(line) =>
        match NormalizeMemoryKey(env.lib, line)
        case Err(e) => Err(Text(e))
        case Ok(key) =>
          var reason :- CanonicalRationale(env, rationale);
          var body := ProposalBody(proposer.reference, proposer.profileId, proposer.ns, operation, line, key, expected, reason);
          if ValidProposalBody(env, body)
          then Ok(Proposal(id, body, now, eventId, approvalId, env.proposalDigest(body)))
          else Err(InvalidProposal)
  }

  datatype ProposalStatus = Pending | Accepted | Rejected | Expired

  datatype Resolution = Resolution(
    proposal: ProposalRef, status: ProposalStatus, approvalId: nat, resolvedAt: int, eventId: nat)

  function NewResolution(proposal: ProposalRef, status: ProposalStatus, approvalId: nat, resolvedBy: Actor,
      resolvedAt: int, eventId: nat): Result<Resolution, MemoryError>
  {
    if status.Pending? || resolvedBy != Human then Err(InvalidResolution)
    else Ok(Resolution(proposal, status, approvalId, resolvedAt, eventId))
  }

  // ---------- approvals ----------

  datatype ApprovalAction = MemoryMutation | OtherAction
  datatype ApprovalStatus = ApprovalPending | ApprovalAccepted | ApprovalRejected | ApprovalExpired | ApprovalCancelled
  datatype ApprovalResolution = ApprovalResolution(status: ApprovalStatus, actor: Actor, resolvedAt: int)

  datatype Approval = Approval(
    id: nat, action: ApprovalAction, objectRef: ProposalRef, actor: Actor, status: ApprovalStatus,
    createdAt: int, expiresAt: Option<int>, resolution: Option<ApprovalResolution>)

  datatype ApprovalError = AlreadyResolved | InvalidMemoryResolution | ResolutionMustBeTerminal

  /** `ApprovalRecord::resolve`. */
  function ResolveApproval(a: Approval, status: ApprovalStatus, actor: Actor, now: int): Result<Approval, ApprovalError> {
    if a.status != ApprovalPending || a.resolution.Some? then Err(AlreadyResolved)
    else if a.action.MemoryMutation?
         && (!(status.ApprovalAccepted? || status.ApprovalRejected? || status.ApprovalExpired?) || actor != Human)
    then Err(InvalidMemoryResolution)
    else if status.ApprovalPending? then Err(ResolutionMustBeTerminal)
    else Ok(a.(status := status, resolution := Some(ApprovalResolution(status, actor, now))))
  }

  /** What is accepted when an approval is read back from storage. */
  predicate ValidPersistedApproval(a: Approval) {
    match a.resolution
    case None => a.status.ApprovalPending?
    case Some(r) => r.status == a.status && !a.status.ApprovalPending?
                    && (a.action.MemoryMutation? ==> r.actor == Human && !a.status.ApprovalCancelled?)
  }

  function ApprovalStatusOf(status: ProposalStatus): ApprovalStatus {
    match status
    case Pending => ApprovalPending
    case Accepted => ApprovalAccepted
    case Rejected => ApprovalRejected
    case Expired => ApprovalExpired
  }

  // ---------- edit preview ----------

  datatype NoChange = IdenticalContent | AlreadyAbsent
  datatype Field = DisplayKeyField | StateField | ValueField | TagsField
  datatype FieldValue = Missing | TextValue(text: string) | TagsValue(tags: seq<string>) | StateValue(state: EntryState)
  datatype FieldDiff = FieldDiff(field: Field, before: FieldValue, after: FieldValue)
  datatype EditOutcome = Unchanged(reason: NoChange) | Prepared(diff: seq<FieldDiff>)

  const FIELDS: seq<Field> := [DisplayKeyField, StateField, ValueField, TagsField]

  function FieldValues(current: Option<EntryVersion>): (r: seq<FieldValue>)
    ensures |r| == 4
  {
    match current
    case None => [Missing, Missing, Missing, Missing]
    case Some(e) =>
      [TextValue(e.displayKey), StateValue(e.state),
       if e.value.Some? then TextValue(e.value.value) else Missing,
       if e.state.Present? then TagsValue(e.tags) else Missing]
  }

  function AfterValues(current: Option<EntryVersion>, candidate: Option<Draft>): (r: seq<FieldValue>)
    ensures |r| == 4
  {
    match candidate
    case Some(d) => [TextValue(d.displayKey), StateValue(Present), TextValue(d.value), TagsValue(d.tags)]
    case None => [FieldValues(current)[0], StateValue(Deleted), Missing, Missing]
  }

  function DiffFrom(before: seq<FieldValue>, after: seq<FieldValue>, i: nat): seq<FieldDiff>
    requires |before| == |after| == 4 && i <= 4
    decreases 4 - i
  {
    if i == 4 then []
    else (if before[i] != after[i] then [FieldDiff(FIELDS[i], before[i], after[i])] else []) + DiffFrom(before, after, i + 1)
  }

  function FieldDiffs(current: Option<EntryVersion>, candidate: Option<Draft>): seq<FieldDiff> {
    DiffFrom(FieldValues(current), AfterValues(current, candidate), 0)
  }

  /** `prepare_direct_memory_edit`.  A present candidate is a set, an absent one a delete. */
  function PrepareEdit(env: Env, actor: Actor, ns: nat, current: Option<EntryVersion>, expected: ExpectedState,
      candidate: Option<Draft>): Result<EditOutcome, MemoryError>
    requires candidate.Some? ==> Canonical(env.lib, candidate.value)
  {
    if actor != Human then Err(ReviewUnavailable)
    else if !MatchesExpected(ns, current, expected) then Err(ExpectedStateMismatch)
    else if candidate.None? && (current.None? || current.value.state.Deleted?) then Ok(Unchanged(AlreadyAbsent))
    else if candidate.Some? && current.Some? && DraftKey(env.lib, candidate.value) != current.value.key then Err(InvalidEntry)
    else if candidate.Some? && current.Some? && current.value.state.Present?
            && candidate.value.displayKey == current.value.displayKey
            && Some(candidate.value.value) == current.value.value
            && candidate.value.tags == current.value.tags
    then Ok(Unchanged(IdenticalContent))
    else Ok(Prepared(FieldDiffs(current, candidate)))
  }

  // ---------- what the entities guarantee ----------

  /** The per-case comparison accepts exactly the state the entry is in. */
  lemma MatchesExpectedMeaning(ns: nat, current: Option<EntryVersion>, expected: ExpectedState)
    requires current.Some? ==> current.value.ns == ns
    ensures MatchesExpected(ns, current, expected) <==> expected == CurrentExpected(current)
  {}

  /** A prepared edit always shows a difference; the shown differences are exactly
      the fields that change, so "identical content" means an empty diff. */
  lemma PreparedEditShowsAChange(env: Env, actor: Actor, ns: nat, current: Option<EntryVersion>,
      expected: ExpectedState, candidate: Option<Draft>)
    requires candidate.Some? ==> Canonical(env.lib, candidate.value)
    requires current.Some? ==> (current.value.state.Present? <==> current.value.value.Some?)
    requires PrepareEdit(env, actor, ns, current, expected, candidate).Ok?
    ensures var outcome := PrepareEdit(env, actor, ns, current, expected, candidate).value;
            && (outcome.Prepared? ==> outcome.diff != [])
            && (outcome == Unchanged(IdenticalContent) ==> FieldDiffs(current, candidate) == [])
    ensures var outcome := PrepareEdit(env, actor, ns, current, expected, candidate).value;
            outcome.Prepared? ==>
              forall i | 0 <= i < 4 ::
                (FieldDiff(FIELDS[i], FieldValues(current)[i], AfterValues(current, candidate)[i]) in outcome.diff
                 <==> FieldValues(current)[i] != AfterValues(current, candidate)[i])
  {
    var before, after := FieldValues(current), AfterValues(current, candidate);
    DiffMeaning(before, after, 0);
    if DiffFrom(before, after, 0) == [] {
      assert before[0] == after[0] && before[1] == after[1] && before[2] == after[2] && before[3] == after[3];
    }
  }

  lemma {:induction false} DiffMeaning(before: seq<FieldValue>, after: seq<FieldValue>, i: nat)
    requires |before| == |after| == 4 && i <= 4
    ensures forall k | i <= k < 4 ::
              FieldDiff(FIELDS[k], before[k], after[k]) in DiffFrom(before, after, i) <==> before[k] != after[k]
    ensures forall d | d in DiffFrom(before, after, i) :: exists k :: i <= k < 4 && d.field == FIELDS[k]
    ensures DiffFrom(before, after, i) == [] <==> forall k | i <= k < 4 :: before[k] == after[k]
    decreases 4 - i
  {
    if i < 4 {
      DiffMeaning(before, after, i + 1);
    }
  }

  /** A stored approval that resolves stays readable, is terminal, and cannot resolve again. */
  lemma ApprovalResolvesOnce(a: Approval, status: ApprovalStatus, actor: Actor, now: int,
      status': ApprovalStatus, actor': Actor, now': int)
    requires ValidPersistedApproval(a) && ResolveApproval(a, status, actor, now).Ok?
    ensures var resolved := ResolveApproval(a, status, actor, now).value;
            && ValidPersistedApproval(resolved)
            && resolved.(status := a.status, resolution := None) == a
            && ResolveApproval(resolved, status', actor', now') == Err(AlreadyResolved)
    ensures a.action.MemoryMutation? ==> actor == Human
  {}
}
