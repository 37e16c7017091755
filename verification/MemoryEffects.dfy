/** What each memory command leaves in the tables, and exactly when it succeeds, said of the
    state before and the state after. */
module MemoryEffects {
  import opened Prelude
  import opened TextRules
  import opened MemoryDraft
  import opened MemoryTypes
  import opened MemoryStore
  import opened MemoryInvariant
  import opened MemorySteps
  import opened MemoryView
  import opened MemoryCommit
  import opened MemoryRun

  // ---------- the shape of a change ----------

  /** `e` is the first version of a key, or the one after its current row. */
  predicate Follows(current: Option<EntryVersion>, e: EntryVersion) {
    match current
    case None => e.version == 1 && e.predecessor.None?
    case Some(c) => e.version == c.version + 1 && e.entryId == c.entryId && e.predecessor == Some(c.versionId)
  }

  /** What a resolution at this time by this event makes of an open proposal. */
  function ResolvedAs(s: StoredProposal, status: ProposalStatus, now: int, eventId: nat): StoredProposal {
    StoredProposal(s.proposal, status,
      Some(Resolution(s.proposal.Reference(), status, s.proposal.approvalId, now, eventId)))
  }

  function ApprovedAs(a: Approval, status: ApprovalStatus, now: int): Approval {
    a.(status := status, resolution := Some(ApprovalResolution(status, Human, now)))
  }

  /** The rows gain `e`, its key points at it, each open proposal of that key is resolved with
      its approval - `chosen` as accepted, the others as expired - and nothing else changes. */
  ghost predicate Adds(before: Tables, after: Tables, e: EntryVersion, chosen: Option<nat>) {
    && after.versions == before.versions + [e]
    && after.current == before.current[e.Place() := e]
    && after.proposals.Keys == before.proposals.Keys && after.approvals.Keys == before.approvals.Keys
    && (forall id | id in before.proposals ::
          after.proposals[id] ==
            if OpenAt(before, e.Place(), id)
            then ResolvedAs(before.proposals[id], if chosen == Some(id) then Accepted else Expired, e.createdAt, e.eventId)
            else before.proposals[id])
    && (forall a | a in before.approvals ::
          var id := before.approvals[a].objectRef.id;
          after.approvals[a] ==
            if OpenAt(before, e.Place(), id)
            then ApprovedAs(before.approvals[a], if chosen == Some(id) then ApprovalAccepted else ApprovalExpired, e.createdAt)
            else before.approvals[a])
  }

  // ---------- expirations, one for each open sibling ----------

  /** `done` resolves exactly the open proposals of the key, each as `Adds` says. */
  ghost predicate ResolvesKey(tables: Tables, e: EntryVersion, chosen: Option<nat>, done: map<nat, Resolution>) {
    && (forall id :: id in done <==> OpenAt(tables, e.Place(), id))
    && (forall id | id in done ::
          var status := if chosen == Some(id) then Accepted else Expired;
          var p := tables.proposals[id].proposal;
          done[id] == Resolution(p.Reference(), status, p.approvalId, e.createdAt, e.eventId))
  }

  lemma AddsByKey(tables: Tables, e: EntryVersion, chosen: Option<nat>, done: map<nat, Resolution>)
    requires ResolvesKey(tables, e, chosen, done)
    ensures Adds(tables, AfterEntry(tables, e, done), e, chosen)
  {}

  /** The expirations of a version, each with what it is. */
  lemma ExpirationsAre(rules: Rules, tables: Tables, e: EntryVersion, except: Option<ProposalRef>,
      rs: seq<Resolution>, done: map<nat, Resolution>, nextId: nat)
    requires ProposalsInv(rules, tables, nextId) && PendingInv(tables)
    requires Lookup(tables, e.Place()).Some? ==> Lookup(tables, e.Place()).value.versionId != e.versionId
    requires rs == Expirations(tables, e, except) && done == ById(rs)
    ensures forall id :: id in done <==>
              OpenAt(tables, e.Place(), id) && except != Some(tables.proposals[id].proposal.Reference())
    ensures forall id | id in done :: id in tables.proposals && done[id] == Expiration(tables.proposals[id].proposal, e)
  {
    hide ProposalOk, PendingInv, Expirations, Lookup, Settles;
    ExpirationsById(rules, tables, e, except, rs, done, nextId);
    forall id | id in tables.proposals ensures tables.proposals[id].proposal.id == id { ProposalIdIs(rules, tables, id, nextId); }
    OneExpirationPerId(tables, e, except);
    ExpirationsSettle(rules, tables, e, except, nextId);
    ByIdMeaning(rs);
    forall id | id in done ensures done[id] == Expiration(tables.proposals[id].proposal, e) {
      assert Targets(rs, id);
      var i :| 0 <= i < |rs| && rs[i].proposal.id == id;
      assert rs[i] == ExpirationIn(tables, e)(id);
    }
  }

  lemma ProposalIdIs(rules: Rules, tables: Tables, id: nat, nextId: nat)
    requires ProposalsInv(rules, tables, nextId) && id in tables.proposals
    ensures tables.proposals[id].proposal.id == id
  {
    assert ProposalOk(rules, tables, id, nextId);
  }

  lemma DirectResolvesKey(rules: Rules, tables: Tables, e: EntryVersion, done: map<nat, Resolution>,
      nextId: nat, ids: nat, later: nat)
    requires TablesInv(rules, tables, nextId) && nextId <= ids && Buildable(rules, tables, e, ids, later)
    requires done == ById(Expirations(tables, e, None))
    ensures ResolvesKey(tables, e, None, done)
  {
    hide Expirations, ById, ProposalsInv, PendingInv, Buildable, OpenAt, EntriesInv, HistoryInv, LinkInv, CapacityInv;
    FreshVersion(rules, tables, e, nextId, ids, later);
    ExpirationsAre(rules, tables, e, None, Expirations(tables, e, None), done, nextId);
  }

  lemma AcceptResolvesKey(rules: Rules, tables: Tables, e: EntryVersion, r: Resolution, done: map<nat, Resolution>,
      nextId: nat, ids: nat, later: nat)
    requires TablesInv(rules, tables, nextId) && nextId <= ids && Buildable(rules, tables, e, ids, later)
    requires Accepts(tables, e, r)
    requires done == ById(Expirations(tables, e, Some(r.proposal)))[r.proposal.id := r]
    ensures ResolvesKey(tables, e, Some(r.proposal.id), done)
  {
    hide Expirations, ById, ProposalsInv, PendingInv, Buildable, EntriesInv, HistoryInv, LinkInv, CapacityInv;
    var rs := Expirations(tables, e, Some(r.proposal));
    FreshVersion(rules, tables, e, nextId, ids, later);
    ExpirationsAre(rules, tables, e, Some(r.proposal), rs, ById(rs), nextId);
    SameReference(rules, tables, r.proposal, nextId);
  }

  // ---------- setting and deleting directly ----------

  /** Whether a held review lets a human put this in place of the key's current state. */
  ghost predicate DirectAllowed(w: World, request: Request, key: string, expected: ExpectedState, operation: Operation,
      highest: nat)
  {
    && request.actor == Human && request.holdsReview && request.holdsToken && request.profile.Some?
    && var ns := request.profile.value.ns;
    && var current := Lookup(w.tables, Slot(ns, key));
    && expected == CurrentExpected(current)
    && WouldChange(current, operation)
    && (operation.SetTo? && !(current.Some? && current.value.state.Present?) ==>
          |ActiveIn(w.tables.current, ns)| < MAX_ACTIVE_ENTRIES)
    && (current.Some? ==> current.value.version < highest)
    && w.lastSequence < highest
  }

  /** Under the invariant an edit is prepared exactly when it names the current state and changes it. */
  lemma EditPrepared(env: Env, rules: Rules, tables: Tables, place: Slot, expected: ExpectedState, candidate: Option<Draft>, nextId: nat)
    requires EntriesInv(rules, tables.versions, nextId) && HistoryInv(tables) && CandidateFits(env, place, candidate)
    ensures var current := Lookup(tables, place);
            var outcome := PrepareEdit(env, Human, place.ns, current, expected, candidate);
            (outcome.Ok? && outcome.value.Prepared?) <==>
            expected == CurrentExpected(current) && WouldChange(current, AsOperation(candidate))
  {
    hide EntriesInv, HistoryInv;
    CurrentOk(rules, tables, place, nextId);
    MatchesExpectedMeaning(place.ns, Lookup(tables, place), expected);
  }

  lemma DirectPrepared(env: Env, w: World, request: Request, key: string, expected: ExpectedState, candidate: Option<Draft>)
    requires candidate.Some? ==> Canonical(env.lib, candidate.value) && DraftKey(env.lib, candidate.value) == key
    requires Sound(TextRulesOf(env))(w.tables, w.nextId)
    ensures PrepareDirect(env, w, request, key, expected, candidate).Ok? <==>
            DirectAllowed(w, request, key, expected, AsOperation(candidate), U64_MAX)
  {
    hide Expirations, PrepareEdit, NextEntry, TextRulesOf, Canonical, DraftKey, ActiveIn, Lookup, WouldChange, CurrentExpected;
    hide EntriesInv, HistoryInv, ProposalsInv, PendingInv, LinkInv, CapacityInv, Buildable, CarriesOut;
    if request.profile.Some? {
      var place, ids := Slot(request.profile.value.ns, key), w.nextId + request.skipped;
      EditPrepared(env, TextRulesOf(env), w.tables, place, expected, candidate, w.nextId);
      if WouldChange(Lookup(w.tables, place), AsOperation(candidate)) {
        NextVersion(env, w.tables, place, candidate, w.nextId, ids, ids + 3, request.now, None);
      }
    }
  }

  /** What a version is, besides its content. */
  ghost predicate Made(env: Env, current: Option<EntryVersion>, e: EntryVersion, place: Slot, now: int, accepted: Option<ProposalRef>) {
    && e.Place() == place && Follows(current, e) && e.createdAt == now && e.accepted == accepted
    && e.digest == env.contentDigest(e.Material())
    && (e.state.Deleted? ==> current.Some? && e.displayKey == current.value.displayKey)
  }

  lemma NextEntryIsMade(env: Env, tables: Tables, place: Slot, candidate: Option<Draft>, nextId: nat, ids: nat, now: int,
      accepted: Option<ProposalRef>)
    requires EntriesInv(TextRulesOf(env), tables.versions, nextId) && HistoryInv(tables) && CandidateFits(env, place, candidate)
    requires NextEntry(env, place.ns, Lookup(tables, place), candidate, ids, now, accepted).Ok?
    ensures var e := NextEntry(env, place.ns, Lookup(tables, place), candidate, ids, now, accepted).value;
            Made(env, Lookup(tables, place), e, place, now, accepted) && CarriesOut(e, AsOperation(candidate))
  {
    hide EntriesInv, HistoryInv, Canonical, ValidStructure;
    CurrentOk(TextRulesOf(env), tables, place, nextId);
  }

  /** What committing a direct change of `place` leaves. */
  ghost predicate DirectlyChanged(env: Env, w: World, w': World, place: Slot, operation: Operation, now: int) {
    && place in w'.tables.current
    && var e := w'.tables.current[place];
    && Adds(w.tables, w'.tables, e, None)
    && Made(env, Lookup(w.tables, place), e, place, now, None) && CarriesOut(e, operation)
    && w'.projection == View(w'.tables) && w'.lastSequence == w.lastSequence + 1
  }

  lemma DirectCommitEffect(env: Env, w: World, w': World, request: Request, key: string, expected: ExpectedState,
      candidate: Option<Draft>, event: Event, ids: nat, later: nat)
    requires Inv(env, w) && ids == w.nextId + request.skipped && later == ids + 3
    requires candidate.Some? ==> Canonical(env.lib, candidate.value) && DraftKey(env.lib, candidate.value) == key
    requires PrepareDirect(env, w, request, key, expected, candidate) == Ok(event)
    requires CommitsTo(TextRulesOf(env), w, request, event, w')
    ensures request.profile.Some?
    ensures DirectlyChanged(env, w, w', Slot(request.profile.value.ns, key), AsOperation(candidate), request.now)
    ensures RowFits(event) <==>
              var current := Lookup(w.tables, Slot(request.profile.value.ns, key));
              current.Some? ==> current.value.version < I64_MAX
  {
    hide PrepareDirect, Expirations, TextRulesOf, Canonical, DraftKey, Lookup, Persist, Reduce, Buildable, NextEntry, View;
    hide PrepareEdit, ById, AfterEntry, RoomFor, CreatesActiveKey, ActiveIn, Adds, ResolvesKey, CarriesOut, Sound;
    UnderTextRules(env, w);
    SoundIs(TextRulesOf(env), w.tables, w.nextId);
    PreparedDirect(env, w, request, key, expected, candidate, event);
    DirectChange(env, w, request, key, expected, candidate, event, ids, later);
    var place := Slot(request.profile.value.ns, key);
    var done := ById(event.expired);
    EntryIsMade(env, w.tables, place, candidate, w.nextId, ids, request.now, None);
    DirectWrites(TextRulesOf(env), w.tables, event.entry, event.expired, w.nextId, ids, later);
    DirectResolvesKey(TextRulesOf(env), w.tables, event.entry, done, w.nextId, ids, later);
    AddsByKey(w.tables, event.entry, None, done);
    AddsPoints(w.tables, w'.tables, event.entry, None);
    ProjectionFollows(TextRulesOf(env), w');
  }

  lemma SoundIs(rules: Rules, tables: Tables, nextId: nat)
    requires Sound(rules)(tables, nextId)
    ensures TablesInv(rules, tables, nextId)
  {}

  lemma EntryIsMade(env: Env, tables: Tables, place: Slot, candidate: Option<Draft>, nextId: nat, ids: nat, now: int,
      accepted: Option<ProposalRef>)
    requires TablesInv(TextRulesOf(env), tables, nextId) && CandidateFits(env, place, candidate)
    requires NextEntry(env, place.ns, Lookup(tables, place), candidate, ids, now, accepted).Ok?
    ensures var e := NextEntry(env, place.ns, Lookup(tables, place), candidate, ids, now, accepted).value;
            Made(env, Lookup(tables, place), e, place, now, accepted) && CarriesOut(e, AsOperation(candidate))
  {
    hide EntriesInv, HistoryInv, ProposalsInv, PendingInv, LinkInv, CapacityInv, NextEntry, Made, CarriesOut, Lookup, TextRulesOf;
    NextEntryIsMade(env, tables, place, candidate, nextId, ids, now, accepted);
  }

  lemma DirectWrites(rules: Rules, tables: Tables, e: EntryVersion, rs: seq<Resolution>, nextId: nat, ids: nat, later: nat)
    requires TablesInv(rules, tables, nextId) && nextId <= ids && Buildable(rules, tables, e, ids, later)
    requires e.accepted.None? && rs == Expirations(tables, e, None)
    ensures Persist(tables, DirectEvent(e, rs)) == Ok(AfterEntry(tables, e, ById(rs)))
  {
    hide EntriesInv, HistoryInv, ProposalsInv, PendingInv, LinkInv, Buildable, Persist, AfterEntry, Expirations, ById, Reduce, View;
    DirectPersists(rules, tables, e, rs, nextId, ids, later);
  }

  lemma AddsPoints(before: Tables, after: Tables, e: EntryVersion, chosen: Option<nat>)
    requires Adds(before, after, e, chosen)
    ensures e.Place() in after.current && after.current[e.Place()] == e
  {}

  lemma ProjectionFollows(rules: Rules, w: World)
    requires InvUnder(rules, w)
    ensures w.projection == View(w.tables)
  {}

  /** A human who holds the review sets a key exactly when the state named is the key's present
      one, the draft differs from it, and there is room; then the key's row carries the draft. */
  lemma SetSucceedsExactly(env: Env, w: World, request: Request)
    requires Inv(env, w) && WellTyped(env, request) && request.command.SetEntry?
    ensures StoredCanonical(env, w.tables)
    ensures var d := request.command.candidate;
            Execute(env, w, request).Ok? <==>
            DirectAllowed(w, request, DraftKey(env.lib, d), request.command.expected, SetTo(d), I64_MAX)
    ensures Execute(env, w, request).Ok? ==>
              var d := request.command.candidate;
              request.profile.Some?
              && DirectlyChanged(env, w, Execute(env, w, request).value, Slot(request.profile.value.ns, DraftKey(env.lib, d)),
                   SetTo(d), request.now)
  {
    hide Inv, StoredCanonical, PrepareDirect, Execute, RowFits, ActiveIn, Lookup, TextRulesOf, Persist, Reduce, View;
    hide DirectlyChanged, Canonical, DraftKey, WouldChange, CurrentExpected, CommitsTo, Sound, Commits;
    var d, ids := request.command.candidate, w.nextId + request.skipped;
    ExecuteMeaning(env, w, request);
    UnderTextRules(env, w);
    DirectPrepared(env, w, request, DraftKey(env.lib, d), request.command.expected, Some(d));
    if Prepare(env, w, request).Ok? {
      var event := Prepare(env, w, request).value;
      PreparedCommits(env, w, request, event);
      var w' := CommitWitness(env, w, request, event);
      DirectCommitEffect(env, w, w', request, DraftKey(env.lib, d), request.command.expected, Some(d), event, ids, ids + 3);
      if Execute(env, w, request).Ok? {
        DirectCommitEffect(env, w, Execute(env, w, request).value, request, DraftKey(env.lib, d), request.command.expected,
          Some(d), event, ids, ids + 3);
      }
    }
  }

  lemma CommitWitness(env: Env, w: World, request: Request, event: Event) returns (w': World)
    requires Commits(env, w, request, event)
    ensures CommitsTo(TextRulesOf(env), w, request, event, w')
  {
    hide CommitsTo, TextRulesOf;
    w' :| CommitsTo(TextRulesOf(env), w, request, event, w');
  }

  /** Deleting succeeds exactly for the present row of the key the reference names; then the
      key's row is its tombstone, which keeps the display key. */
  lemma DeleteSucceedsExactly(env: Env, w: World, request: Request)
    requires Inv(env, w) && WellTyped(env, request) && request.command.DeleteEntry?
    ensures StoredCanonical(env, w.tables)
    ensures var entry := request.command.entry;
            Execute(env, w, request).Ok? <==> DirectAllowed(w, request, entry.key, ExpectPresent(entry), Delete, I64_MAX)
    ensures Execute(env, w, request).Ok? ==>
              request.profile.Some?
              && DirectlyChanged(env, w, Execute(env, w, request).value, Slot(request.profile.value.ns, request.command.entry.key),
                   Delete, request.now)
  {
    hide Inv, StoredCanonical, PrepareDirect, Execute, RowFits, ActiveIn, Lookup, TextRulesOf, Persist, Reduce, View;
    hide DirectlyChanged, Canonical, DraftKey, WouldChange, CurrentExpected, CommitsTo, Sound, Commits;
    var entry, ids := request.command.entry, w.nextId + request.skipped;
    ExecuteMeaning(env, w, request);
    UnderTextRules(env, w);
    DirectPrepared(env, w, request, entry.key, ExpectPresent(entry), None);
    if Prepare(env, w, request).Ok? {
      var event := Prepare(env, w, request).value;
      PreparedCommits(env, w, request, event);
      var w' := CommitWitness(env, w, request, event);
      DirectCommitEffect(env, w, w', request, entry.key, ExpectPresent(entry), None, event, ids, ids + 3);
      if Execute(env, w, request).Ok? {
        DirectCommitEffect(env, w, Execute(env, w, request).value, request, entry.key, ExpectPresent(entry), None, event,
          ids, ids + 3);
      }
    }
  }

  /** With the review in hand the refusals of a direct change are these: a state that is not the
      key's, or that would not change, is a mismatch; a key too many is a matter of capacity. */
  lemma DirectRefusals(env: Env, w: World, request: Request, key: string, expected: ExpectedState, candidate: Option<Draft>)
    requires Inv(env, w) && WellTyped(env, request)
    requires match request.command
             case SetEntry(state, d) => key == DraftKey(env.lib, d) && expected == state && candidate == Some(d)
             case DeleteEntry(entry) => key == entry.key && expected == ExpectPresent(entry) && candidate == None
             case _ => false
    requires request.actor == Human && request.holdsReview && request.holdsToken && request.profile.Some?
    requires w.lastSequence < U64_MAX
    ensures StoredCanonical(env, w.tables)
    ensures var ns := request.profile.value.ns;
            var current := Lookup(w.tables, Slot(ns, key));
            if expected != CurrentExpected(current) || !WouldChange(current, AsOperation(candidate))
            then Execute(env, w, request) == Err(ExpectedStateMismatch)
            else if candidate.Some? && !(current.Some? && current.value.state.Present?)
                    && |ActiveIn(w.tables.current, ns)| >= MAX_ACTIVE_ENTRIES
            then Execute(env, w, request) == Err(Capacity)
            else Execute(env, w, request).Ok? || Execute(env, w, request).error !in {ExpectedStateMismatch, Capacity}
  {
    hide Inv, StoredCanonical, Expirations, NextEntry, TextRulesOf, Canonical, DraftKey, ActiveIn, Persist, Reduce, Execute, RowFits;
    ExecuteMeaning(env, w, request);
    UnderTextRules(env, w);
    var place := Slot(request.profile.value.ns, key);
    EditRefused(env, TextRulesOf(env), w.tables, place, expected, candidate, w.nextId);
    if WouldChange(Lookup(w.tables, place), AsOperation(candidate)) {
      BuildErrors(env, place.ns, Lookup(w.tables, place), candidate, w.nextId + request.skipped, request.now);
    }
  }

  lemma BuildErrors(env: Env, ns: nat, current: Option<EntryVersion>, candidate: Option<Draft>, ids: nat, now: int)
    requires candidate.Some? ==> Canonical(env.lib, candidate.value)
    requires WouldChange(current, AsOperation(candidate))
    ensures var r := NextEntry(env, ns, current, candidate, ids, now, None);
            r.Ok? || r.error !in {ExpectedStateMismatch, Capacity}
  {}

  lemma EditRefused(env: Env, rules: Rules, tables: Tables, place: Slot, expected: ExpectedState, candidate: Option<Draft>, nextId: nat)
    requires Sound(rules)(tables, nextId) && CandidateFits(env, place, candidate)
    ensures var current := Lookup(tables, place);
            var outcome := PrepareEdit(env, Human, place.ns, current, expected, candidate);
            if expected != CurrentExpected(current) then outcome == Err(ExpectedStateMismatch)
            else outcome.Ok? && (outcome.value.Unchanged? <==> !WouldChange(current, AsOperation(candidate)))
  {
    hide EntriesInv, HistoryInv;
    CurrentOk(rules, tables, place, nextId);
    MatchesExpectedMeaning(place.ns, Lookup(tables, place), expected);
  }

  // ---------- proposing ----------

  /** The key a proposal is about: the draft's, or that of the row to delete. */
  ghost predicate ProposesFor(env: Env, expected: ExpectedState, operation: Operation, key: string) {
    match operation
    case SetTo(d) => Canonical(env.lib, d) && key == DraftKey(env.lib, d)
    case Delete => expected.ExpectPresent? && key == expected.entry.key
  }

  /** Whether an agent may open this proposal about `key` in its own namespace. */
  ghost predicate ProposalAllowed(env: Env, w: World, request: Request, key: string, expected: ExpectedState,
      operation: Operation, rationale: string)
  {
    && request.profile.Some?
    && var proposer := request.profile.value;
    && request.actor == Agent(proposer.profileId)
    && var current := Lookup(w.tables, Slot(proposer.ns, key));
    && expected == CurrentExpected(current)
    && WouldChange(current, operation)
    && |PendingIn(w.tables.proposals, proposer.ns)| < MAX_PENDING_PROPOSALS
    && CanonicalRationale(env, rationale).Ok?
    && (operation.SetTo? && expected.ExpectPresent? ==>
          env.contentDigest(SetContent(operation.candidate.displayKey, key, operation.candidate)) != expected.entry.digest)
  }

  lemma RationaleIdempotent(env: Env, value: string)
    requires CanonicalRationale(env, value).Ok?
    ensures CanonicalRationale(env, CanonicalRationale(env, value).value) == CanonicalRationale(env, value)
  {
    CanonicalMemoryMultilineIdempotent(value, 1, 512);
  }

  /** The constructor accepts what fits its key: only the rationale and an equal digest can fail. */
  lemma NewProposalMeaning(env: Env, id: nat, proposer: Profile, operation: Operation, displayKey: string, key: string,
      current: Option<EntryVersion>, expected: ExpectedState, rationale: string, now: int, eventId: nat, approvalId: nat)
    requires KeyText(env, displayKey, key) && ProposesFor(env, expected, operation, key)
    requires operation.SetTo? ==> displayKey == operation.candidate.displayKey
    requires current.Some? ==> current.value.Place() == Slot(proposer.ns, key)
    requires expected == CurrentExpected(current)
    ensures var r := NewProposal(env, id, proposer, Agent(proposer.profileId), operation, displayKey, expected, rationale, now, eventId, approvalId);
            && (r.Ok? <==>
                  && CanonicalRationale(env, rationale).Ok?
                  && (operation.SetTo? && expected.ExpectPresent? ==>
                        env.contentDigest(SetContent(displayKey, key, operation.candidate)) != expected.entry.digest))
            && (r.Ok? ==>
                  var body := ProposalBody(proposer.reference, proposer.profileId, proposer.ns, operation, displayKey, key,
                                           expected, CanonicalRationale(env, rationale).value);
                  r.value == Proposal(id, body, now, eventId, approvalId, env.proposalDigest(body)))
  {
    hide CanonicalMemoryLine, CanonicalRationale;
    if CanonicalRationale(env, rationale).Ok? { RationaleIdempotent(env, rationale); }
    if operation.SetTo? { assert NormalizeMemoryKey(env.lib, operation.candidate.displayKey) == Ok(key); }
  }

  /** Everything a created proposal and its approval say. */
  ghost predicate Proposed(env: Env, tables: Tables, request: Request, key: string, p: Proposal, a: Approval, id: nat)
    requires request.command.Propose? && request.profile.Some? && CanonicalRationale(env, request.command.rationale).Ok?
  {
    var proposer, operation := request.profile.value, request.command.operation;
    && p.id == id && p.createdAt == request.now
    && p.body.proposer == proposer.reference && p.body.profileId == proposer.profileId && p.body.ns == proposer.ns
    && p.body.operation == operation && p.body.expected == request.command.expected && p.body.key == key
    && p.body.rationale == CanonicalRationale(env, request.command.rationale).value
    && (operation.SetTo? ==> p.body.displayKey == operation.candidate.displayKey)
    && (operation.Delete? ==>
          Slot(proposer.ns, key) in tables.current && p.body.displayKey == tables.current[Slot(proposer.ns, key)].displayKey)
    && p.digest == env.proposalDigest(p.body)
    && a == Approval(p.approvalId, MemoryMutation, p.Reference(), request.actor, ApprovalPending, request.now, None, None)
  }

  lemma ProposalPrepared(env: Env, w: World, request: Request, key: string)
    requires Sound(TextRulesOf(env))(w.tables, w.nextId) && request.command.Propose? && WellTyped(env, request)
    requires ProposesFor(env, request.command.expected, request.command.operation, key)
    ensures var r := PrepareProposal(env, w, request, request.command.expected, request.command.operation, request.command.rationale);
            && (r.Ok? <==> ProposalAllowed(env, w, request, key, request.command.expected, request.command.operation,
                                           request.command.rationale))
            && (r.Ok? ==>
                  && r.value.ProposalCreated?
                  && Proposed(env, w.tables, request, key, r.value.proposal, r.value.approval, w.nextId + request.skipped))
  {
    hide PrepareEdit, NewProposal, TextRulesOf, Canonical, DraftKey, PendingIn, WouldChange, CurrentExpected, CanonicalRationale;
    hide EntriesInv, HistoryInv, ProposalsInv, PendingInv, LinkInv, CapacityInv, KeyText;
    if request.profile.Some? {
      var proposer, operation, ids := request.profile.value, request.command.operation, w.nextId + request.skipped;
      var place, expected := Slot(proposer.ns, key), request.command.expected;
      var current := Lookup(w.tables, place);
      AsCandidate(operation);
      EditPrepared(env, TextRulesOf(env), w.tables, place, expected, CandidateOf(operation), w.nextId);
      ProposedKeyText(env, w.tables, proposer.ns, operation, key, w.nextId);
      if expected == CurrentExpected(current) && WouldChange(current, operation) {
        if operation.Delete? { DeleteNeedsARow(current, operation); }
        var displayKey := if operation.SetTo? then operation.candidate.displayKey else current.value.displayKey;
        NewProposalMeaning(env, ids, proposer, operation, displayKey, key, current, expected, request.command.rationale,
          request.now, ids + 2, ids + 1);
      }
    }
  }

  lemma AsCandidate(operation: Operation)
    ensures AsOperation(CandidateOf(operation)) == operation
  {}

  lemma DeleteNeedsARow(current: Option<EntryVersion>, operation: Operation)
    requires WouldChange(current, operation) && operation.Delete?
    ensures current.Some?
  {}

  /** A proposal is created under the next identifiers, and nothing else changes. */
  ghost predicate OnlyProposes(before: Tables, after: Tables, p: Proposal, a: Approval) {
    && after.versions == before.versions && after.current == before.current
    && p.id !in before.proposals && a.id !in before.approvals
    && after.proposals == before.proposals[p.id := StoredProposal(p, Pending, None)]
    && after.approvals == before.approvals[a.id := a]
  }

  lemma CreationWritesOne(tables: Tables, after: Tables, p: Proposal, a: Approval)
    requires Persist(tables, ProposalCreated(p, a)) == Ok(after)
    ensures OnlyProposes(tables, after, p, a)
  {}

  ghost predicate ProposalStands(env: Env, w: World, w': World, request: Request, key: string)
    requires request.command.Propose? && request.profile.Some? && CanonicalRationale(env, request.command.rationale).Ok?
  {
    exists p, a ::
      && Proposed(env, w.tables, request, key, p, a, w.nextId + request.skipped)
      && OnlyProposes(w.tables, w'.tables, p, a)
      && w'.projection == View(w'.tables) && w'.lastSequence == w.lastSequence + 1
  }

  lemma ProposalHasAKey(env: Env, w: World, request: Request)
    requires request.command.Propose? && WellTyped(env, request)
    requires PrepareProposal(env, w, request, request.command.expected, request.command.operation, request.command.rationale).Ok?
    ensures exists key :: ProposesFor(env, request.command.expected, request.command.operation, key)
  {
    hide PrepareEdit, NewProposal, Canonical, PendingIn, Lookup;
    var key := ProposedKey(env, request.command.expected, request.command.operation).value;
    assert ProposesFor(env, request.command.expected, request.command.operation, key);
  }

  lemma CreationEffect(env: Env, w: World, w': World, request: Request, key: string, event: Event)
    requires Inv(env, w) && request.command.Propose? && WellTyped(env, request) && event.ProposalCreated?
    requires request.profile.Some? && CanonicalRationale(env, request.command.rationale).Ok?
    requires Proposed(env, w.tables, request, key, event.proposal, event.approval, w.nextId + request.skipped)
    requires CommitsTo(TextRulesOf(env), w, request, event, w')
    ensures ProposalStands(env, w, w', request, key)
  {
    hide Inv, Proposed, TextRulesOf, Persist, Reduce, View, OnlyProposes, CanonicalRationale, Sound, WellTyped;
    CreationWritesOne(w.tables, w'.tables, event.proposal, event.approval);
  }

  lemma AllowedParts(env: Env, w: World, request: Request, key: string)
    requires request.command.Propose?
    requires ProposalAllowed(env, w, request, key, request.command.expected, request.command.operation, request.command.rationale)
    ensures request.profile.Some? && CanonicalRationale(env, request.command.rationale).Ok?
  {}

  /** An agent opens a proposal exactly when it speaks for its own profile, names the key's
      present state, would change it, gives a reason and has room; then one pending proposal
      with its pending approval is there, as asked for, and no version is touched. */
  lemma ProposeSucceedsExactly(env: Env, w: World, request: Request)
    requires Inv(env, w) && WellTyped(env, request) && request.command.Propose?
    ensures StoredCanonical(env, w.tables)
    ensures Execute(env, w, request).Ok? ==>
              exists key :: ProposesFor(env, request.command.expected, request.command.operation, key)
    ensures forall key | ProposesFor(env, request.command.expected, request.command.operation, key) ::
              && (Execute(env, w, request).Ok? <==>
                    && ProposalAllowed(env, w, request, key, request.command.expected, request.command.operation,
                                       request.command.rationale)
                    && w.lastSequence < I64_MAX)
              && (Execute(env, w, request).Ok? ==>
                    ProposalStands(env, w, Execute(env, w, request).value, request, key))
  {
    hide Inv, StoredCanonical, PrepareProposal, Execute, TextRulesOf, Persist, Reduce, View, ProposalAllowed, Proposed;
    hide ProposalStands, Canonical, CommitsTo, Sound, ProposesFor, CanonicalRationale, WellTyped;
    ExecuteMeaning(env, w, request);
    UnderTextRules(env, w);
    if Prepare(env, w, request).Ok? { ProposalHasAKey(env, w, request); }
    forall key | ProposesFor(env, request.command.expected, request.command.operation, key)
      ensures Execute(env, w, request).Ok? <==>
              && ProposalAllowed(env, w, request, key, request.command.expected, request.command.operation,
                                 request.command.rationale)
              && w.lastSequence < I64_MAX
      ensures Execute(env, w, request).Ok? ==>
                request.profile.Some? && CanonicalRationale(env, request.command.rationale).Ok?
                && ProposalStands(env, w, Execute(env, w, request).value, request, key)
    {
      ProposalPrepared(env, w, request, key);
      if Execute(env, w, request).Ok? {
        AllowedParts(env, w, request, key);
        CreationEffect(env, w, Execute(env, w, request).value, request, key, Prepare(env, w, request).value);
      }
    }
  }

  // ---------- approving and rejecting ----------

  /** A proposal is resolved as rejected with its approval, and nothing else changes. */
  ghost predicate OnlyRejects(before: Tables, after: Tables, id: nat, now: int, eventId: nat)
    requires id in before.proposals && before.proposals[id].proposal.approvalId in before.approvals
  {
    var approvalId := before.proposals[id].proposal.approvalId;
    && after.versions == before.versions && after.current == before.current
    && after.proposals == before.proposals[id := ResolvedAs(before.proposals[id], Rejected, now, eventId)]
    && after.approvals == before.approvals[approvalId := ApprovedAs(before.approvals[approvalId], ApprovalRejected, now)]
  }

  lemma RejectionWritesOne(rules: Rules, tables: Tables, after: Tables, r: Resolution, nextId: nat)
    requires ProposalsInv(rules, tables, nextId) && Settles(tables, r) && r.status.Rejected?
    requires Persist(tables, ProposalRejected(r)) == Ok(after)
    ensures tables.proposals[r.proposal.id].proposal.approvalId in tables.approvals
    ensures OnlyRejects(tables, after, r.proposal.id, r.resolvedAt, r.eventId)
  {
    assert ProposalOk(rules, tables, r.proposal.id, nextId);
  }

  /** What approving the proposal `id` leaves: its operation carried out as the key's next
      version, itself accepted, and the other open proposals of the key expired. */
  ghost predicate AcceptedAs(env: Env, w: World, w': World, id: nat, now: int)
    requires id in w.tables.proposals
  {
    var p := w.tables.proposals[id].proposal;
    && p.Place() in w'.tables.current
    && var e := w'.tables.current[p.Place()];
    && Adds(w.tables, w'.tables, e, Some(id))
    && Made(env, Lookup(w.tables, p.Place()), e, p.Place(), now, Some(p.Reference())) && CarriesOut(e, p.body.operation)
    && w'.projection == View(w'.tables) && w'.lastSequence == w.lastSequence + 1
  }

  ghost predicate RejectedAs(w: World, w': World, id: nat, now: int, eventId: nat)
    requires id in w.tables.proposals && w.tables.proposals[id].proposal.approvalId in w.tables.approvals
  {
    && OnlyRejects(w.tables, w'.tables, id, now, eventId)
    && w'.projection == View(w'.tables) && w'.lastSequence == w.lastSequence + 1
  }

  lemma AcceptWritesAll(rules: Rules, tables: Tables, e: EntryVersion, r: Resolution, rs: seq<Resolution>,
      done: map<nat, Resolution>, nextId: nat, ids: nat, later: nat)
    requires TablesInv(rules, tables, nextId) && nextId <= ids && Buildable(rules, tables, e, ids, later)
    requires Accepts(tables, e, r)
    requires rs == Expirations(tables, e, Some(r.proposal)) && done == ById(rs)[r.proposal.id := r]
    ensures Persist(tables, ProposalAccepted(r, e, rs)) == Ok(AfterEntry(tables, e, done))
    ensures Adds(tables, AfterEntry(tables, e, done), e, Some(r.proposal.id))
  {
    hide EntriesInv, HistoryInv, ProposalsInv, PendingInv, LinkInv, Buildable, Persist, AfterEntry, Expirations, ById, Reduce;
    hide View, Accepts, Adds, ResolvesKey;
    AcceptPersists(rules, tables, e, r, rs, done, nextId, ids, later);
    AcceptResolvesKey(rules, tables, e, r, done, nextId, ids, later);
    AddsByKey(tables, e, Some(r.proposal.id), done);
  }

  lemma ApprovalStored(rules: Rules, tables: Tables, id: nat, nextId: nat)
    requires Sound(rules)(tables, nextId) && id in tables.proposals
    ensures tables.proposals[id].proposal.approvalId in tables.approvals
  {
    assert ProposalOk(rules, tables, id, nextId);
  }

  lemma AcceptanceEffect(env: Env, w: World, w': World, request: Request, event: Event, p: Proposal, ids: nat, later: nat)
    requires Inv(env, w) && ids == w.nextId + request.skipped && later == ids + 3
    requires p.id in w.tables.proposals && w.tables.proposals[p.id].proposal == p
    requires OperationText(env, p.body.operation, p.body.key) && WouldChange(Lookup(w.tables, p.Place()), p.body.operation)
    requires event.ProposalAccepted? && Settles(w.tables, event.resolution)
    requires event.resolution == Resolution(p.Reference(), Accepted, p.approvalId, event.entry.createdAt, event.entry.eventId)
    requires NextEntry(env, p.body.ns, Lookup(w.tables, p.Place()), CandidateOf(p.body.operation), ids, request.now,
                       Some(p.Reference())) == Ok(event.entry)
    requires event.expired == Expirations(w.tables, event.entry, Some(p.Reference()))
    requires WithinLimits(w.tables, p, U64_MAX)
    requires CommitsTo(TextRulesOf(env), w, request, event, w')
    ensures AcceptedAs(env, w, w', p.id, request.now)
  {
    hide Expirations, TextRulesOf, Canonical, DraftKey, Lookup, Persist, Reduce, Buildable, NextEntry, View, WithinLimits;
    hide ById, AfterEntry, RoomFor, ActiveIn, Adds, CarriesOut, Sound, Inv, WouldChange, OperationText, Made, Settles;
    UnderTextRules(env, w);
    SoundIs(TextRulesOf(env), w.tables, w.nextId);
    var e, r := event.entry, event.resolution;
    AcceptedEntry(env, w.tables, p, w.nextId, ids, later, request.now);
    OperationFits(env, p);
    EntryIsMade(env, w.tables, p.Place(), CandidateOf(p.body.operation), w.nextId, ids, request.now, Some(p.Reference()));
    AsCandidate(p.body.operation);
    AcceptWritesAll(TextRulesOf(env), w.tables, e, r, event.expired, ById(event.expired)[p.id := r], w.nextId, ids, later);
    AddsPoints(w.tables, w'.tables, e, Some(p.id));
    ProjectionFollows(TextRulesOf(env), w');
  }

  lemma OperationFits(env: Env, p: Proposal)
    requires OperationText(env, p.body.operation, p.body.key)
    ensures CandidateFits(env, p.Place(), CandidateOf(p.body.operation))
  {}

  /** A successful approval carries the proposal out; a successful rejection only closes it. */
  lemma ResolutionEffects(env: Env, w: World, request: Request)
    requires Inv(env, w) && WellTyped(env, request) && request.command.Resolve?
    ensures StoredCanonical(env, w.tables)
    ensures Execute(env, w, request).Ok? ==>
              var w', id := Execute(env, w, request).value, request.command.proposal.id;
              && id in w.tables.proposals && w.tables.proposals[id].proposal.approvalId in w.tables.approvals
              && (request.command.approve ==> AcceptedAs(env, w, w', id, request.now))
              && (!request.command.approve ==> RejectedAs(w, w', id, request.now, w.nextId + request.skipped))
  {
    hide Inv, StoredCanonical, PrepareResolution, Execute, Lookup, TextRulesOf, Persist, Reduce, View, AcceptedAs, NextEntry;
    hide Canonical, DraftKey, WouldChange, CommitsTo, Sound, Expirations, Settles, OperationText, WithinLimits, OnlyRejects;
    hide ReviewIsCurrent, PrepareResolutionChecks, WellTyped, OpenForReview;
    ExecuteMeaning(env, w, request);
    if Execute(env, w, request).Ok? {
      var command, ids := request.command, w.nextId + request.skipped;
      var event := Prepare(env, w, request).value;
      UnderTextRules(env, w);
      ResolutionPrepared(env, w, request, command, ids, ids + 3);
      CheckedUnderInv(env, w, request, command);
      OpenProposal(env, w, request, command);
      ReviewIsOpen(w, request, command);
      PreparedResolution(env, w, request, command, event, ids);
      OpenSettles(w, command, event.resolution);
      ApprovalStored(TextRulesOf(env), w.tables, command.proposal.id, w.nextId);
      if command.approve {
        AcceptanceEffect(env, w, Execute(env, w, request).value, request, event, w.tables.proposals[command.proposal.id].proposal,
          ids, ids + 3);
      } else {
        RejectionEffect(env, w, Execute(env, w, request).value, request, event, ids);
      }
    }
  }

  lemma ReviewIsOpen(w: World, request: Request, command: Command)
    requires command.Resolve? && ReviewIsCurrent(w, request, command)
    ensures OpenForReview(w, command) && w.tables.proposals[command.proposal.id].proposal.approvalId == command.approvalId
  {}

  lemma RejectionEffect(env: Env, w: World, w': World, request: Request, event: Event, ids: nat)
    requires Inv(env, w) && event.ProposalRejected? && Settles(w.tables, event.resolution) && event.resolution.status.Rejected?
    requires event.resolution.resolvedAt == request.now && event.resolution.eventId == ids
    requires CommitsTo(TextRulesOf(env), w, request, event, w')
    ensures w.tables.proposals[event.resolution.proposal.id].proposal.approvalId in w.tables.approvals
    ensures RejectedAs(w, w', event.resolution.proposal.id, request.now, ids)
  {
    hide TextRulesOf, Persist, Reduce, View, OnlyRejects, Inv, EntriesInv, HistoryInv, ProposalsInv, PendingInv, LinkInv, CapacityInv;
    UnderTextRules(env, w);
    SoundIs(TextRulesOf(env), w.tables, w.nextId);
    RejectionWritesOne(TextRulesOf(env), w.tables, w'.tables, event.resolution, w.nextId);
    ProjectionFollows(TextRulesOf(env), w');
  }
}
