/** What holds of the memory tables in every reachable state, and why each kind of
    write keeps it. */
module MemoryInvariant {
  import opened Prelude
  import opened TextRules
  import opened MemoryDraft
  import opened MemoryTypes
  import opened MemoryStore

  // ---------- the invariant ----------

  /** What the text rules say of stored rows, kept apart from everything else: that a
      key pairs a display key with its normal form, and that an operation fits its key. */
  datatype Rules = Rules(keyOk: (string, string) -> bool, operationOk: (Operation, string) -> bool)

  predicate KeyText(env: Env, displayKey: string, key: string) {
    && CanonicalMemoryLine(displayKey, 1, DISPLAY_KEY_MAX_BYTES) == Ok(displayKey)
    && NormalizeMemoryKey(env.lib, displayKey) == Ok(key)
  }

  predicate OperationText(env: Env, operation: Operation, key: string) {
    operation.SetTo? ==> Canonical(env.lib, operation.candidate) && DraftKey(env.lib, operation.candidate) == key
  }

  function TextRulesOf(env: Env): Rules {
    Rules((displayKey, key) => KeyText(env, displayKey, key), (operation, key) => OperationText(env, operation, key))
  }

  ghost predicate EntryOk(rules: Rules, e: EntryVersion, nextId: nat) {
    && rules.keyOk(e.displayKey, e.key)
    && (e.state.Present? <==> e.value.Some?)
    && e.versionId < nextId && e.entryId < nextId && e.eventId < nextId
    && 1 <= e.version <= U64_MAX
  }

  ghost predicate EntriesInv(rules: Rules, versions: seq<EntryVersion>, nextId: nat) {
    && (forall i | 0 <= i < |versions| :: EntryOk(rules, versions[i], nextId))
    && (forall i, j | 0 <= i < j < |versions| :: versions[i].versionId != versions[j].versionId)
    && (forall i, j | 0 <= i < |versions| && 0 <= j < |versions| ::
          versions[i].Place() == versions[j].Place() <==> versions[i].entryId == versions[j].entryId)
  }

  /** Link `i` of a key's history: numbered, linked to its predecessor, and a change. */
  ghost predicate Link(h: seq<EntryVersion>, i: nat)
    requires i < |h|
  {
    && h[i].version == i + 1
    && h[i].entryId == h[0].entryId
    && h[i].predecessor == (if i == 0 then None else Some(h[i - 1].versionId))
    && (i == 0 ==> h[i].state.Present?)
    && (i > 0 ==> !(h[i - 1].state.Deleted? && h[i].state.Deleted?) && h[i].Material() != h[i - 1].Material())
  }

  ghost predicate Chain(h: seq<EntryVersion>) {
    forall i | 0 <= i < |h| :: Link(h, i)
  }

  ghost predicate HistoryAt(tables: Tables, place: Slot) {
    var h := History(tables, place);
    && Chain(h)
    && (place in tables.current <==> h != [])
    && (h != [] ==> tables.current[place] == h[|h| - 1])
  }

  ghost predicate HistoryInv(tables: Tables) {
    forall place :: HistoryAt(tables, place)
  }

  ghost predicate ApprovalFits(a: Approval, s: StoredProposal) {
    && a.id == s.proposal.approvalId
    && a.action.MemoryMutation?
    && a.objectRef == s.proposal.Reference()
    && a.actor == Agent(s.proposal.body.profileId)
    && a.expiresAt.None?
    && a.status == ApprovalStatusOf(s.status)
    && ValidPersistedApproval(a)
  }

  ghost predicate ProposalOk(rules: Rules, tables: Tables, id: nat, nextId: nat)
    requires id in tables.proposals
  {
    var s := tables.proposals[id];
    && rules.operationOk(s.proposal.body.operation, s.proposal.body.key)
    && ExpectedAt(s.proposal.Place(), s.proposal.body.expected)
    && s.proposal.id == id && id < nextId
    && s.proposal.approvalId in tables.approvals
    && ApprovalFits(tables.approvals[s.proposal.approvalId], s)
    && s.proposal.approvalId < nextId
    && (s.status.Pending? <==> s.resolution.None?)
    && (s.resolution.Some? ==>
          && s.resolution.value.proposal == s.proposal.Reference()
          && s.resolution.value.status == s.status
          && s.resolution.value.approvalId == s.proposal.approvalId)
  }

  ghost predicate ProposalsInv(rules: Rules, tables: Tables, nextId: nat) {
    && (forall id | id in tables.proposals :: ProposalOk(rules, tables, id, nextId))
    && (forall a | a in tables.approvals ::
          && a < nextId
          && tables.approvals[a].objectRef.id in tables.proposals
          && tables.proposals[tables.approvals[a].objectRef.id].proposal.approvalId == a)
  }

  /** An open operation would change the entry it targets. */
  ghost predicate WouldChange(current: Option<EntryVersion>, operation: Operation) {
    match operation
    case SetTo(d) =>
      current.Some? && current.value.state.Present? ==>
        (d.displayKey, Some(d.value), d.tags) != (current.value.displayKey, current.value.value, current.value.tags)
    case Delete => current.Some? && current.value.state.Present?
  }

  /** An open proposal expects exactly the state its key is in. */
  ghost predicate PendingFits(tables: Tables, id: nat)
    requires id in tables.proposals
  {
    var s := tables.proposals[id];
    s.status.Pending? ==>
      var current := Lookup(tables, s.proposal.Place());
      && s.proposal.body.expected == CurrentExpected(current)
      && WouldChange(current, s.proposal.body.operation)
  }

  ghost predicate PendingInv(tables: Tables) {
    forall id | id in tables.proposals :: PendingFits(tables, id)
  }

  /** The version is what the operation asked for. */
  ghost predicate CarriesOut(e: EntryVersion, operation: Operation) {
    match operation
    case SetTo(d) => e.state.Present? && e.displayKey == d.displayKey && e.value == Some(d.value) && e.tags == d.tags
    case Delete => e.state.Deleted? && e.value.None? && e.tags == []
  }

  /** A version that names an accepted proposal was made by accepting exactly that proposal,
      and is what it proposed. */
  ghost predicate AcceptedBy(tables: Tables, e: EntryVersion) {
    e.accepted.Some? ==>
      var id := e.accepted.value.id;
      && id in tables.proposals
      && var s := tables.proposals[id];
      && s.status.Accepted? && s.proposal.Reference() == e.accepted.value && s.proposal.Place() == e.Place()
      && s.resolution.Some? && s.resolution.value.eventId == e.eventId
      && CarriesOut(e, s.proposal.body.operation)
  }

  ghost predicate HasVersion(tables: Tables, id: nat)
    requires id in tables.proposals
  {
    tables.proposals[id].status.Accepted? ==>
      exists i :: 0 <= i < |tables.versions| && tables.versions[i].accepted == Some(tables.proposals[id].proposal.Reference())
  }

  ghost predicate LinkInv(tables: Tables) {
    && (forall i | 0 <= i < |tables.versions| :: AcceptedBy(tables, tables.versions[i]))
    && (forall id | id in tables.proposals :: HasVersion(tables, id))
    && (forall i, j | 0 <= i < j < |tables.versions| && tables.versions[i].accepted.Some? && tables.versions[j].accepted.Some? ::
          tables.versions[i].accepted.value.id != tables.versions[j].accepted.value.id)
  }

  ghost predicate CapacityInv(tables: Tables) {
    && (forall ns :: |ActiveIn(tables.current, ns)| <= MAX_ACTIVE_ENTRIES)
    && (forall ns :: |PendingIn(tables.proposals, ns)| <= MAX_PENDING_PROPOSALS)
  }

  function ProjectedOf(s: StoredProposal): Projected {
    Projected(s.proposal.Reference(), s.proposal.Place(), s.proposal.body.expected, s.proposal.approvalId, s.status,
      if s.resolution.Some? then Some(s.resolution.value.eventId) else None)
  }

  function ViewEntries(current: map<Slot, EntryVersion>): map<Slot, EntryRef> {
    map place | place in current :: current[place].Reference()
  }

  function ViewProposals(proposals: map<nat, StoredProposal>): map<nat, Projected> {
    map id | id in proposals :: ProjectedOf(proposals[id])
  }

  /** The projection the tables stand for. */
  function View(tables: Tables): Projection { Projection(ViewEntries(tables.current), ViewProposals(tables.proposals)) }

  ghost predicate TablesInv(rules: Rules, tables: Tables, nextId: nat) {
    && EntriesInv(rules, tables.versions, nextId)
    && HistoryInv(tables)
    && ProposalsInv(rules, tables, nextId)
    && PendingInv(tables)
    && LinkInv(tables)
    && CapacityInv(tables)
  }

  /** The table invariant as a value, so that whole-run proofs carry it unopened. */
  ghost function Sound(rules: Rules): (Tables, nat) -> bool {
    (tables: Tables, nextId: nat) => TablesInv(rules, tables, nextId)
  }

  ghost predicate InvUnder(rules: Rules, w: World) {
    Sound(rules)(w.tables, w.nextId) && w.projection == View(w.tables)
  }

  ghost predicate Inv(env: Env, w: World) { InvUnder(TextRulesOf(env), w) }

  // ---------- building the next version of a key ----------

  lemma PresentBuilds(env: Env, e: EntryVersion, d: Draft)
    requires Canonical(env.lib, d)
    requires e.state.Present? && e.displayKey == d.displayKey && e.value == Some(d.value) && e.tags == d.tags
    requires e.key == DraftKey(env.lib, d)
    requires (e.version == 1) == e.predecessor.None? && e.predecessor != Some(e.versionId)
    ensures Build(env, e) == Ok(e.(digest := env.contentDigest(e.Material()))) && KeyText(env, e.displayKey, e.key)
  {}

  lemma TombstoneBuilds(env: Env, e: EntryVersion)
    requires KeyText(env, e.displayKey, e.key) && e.state.Deleted? && e.value.None? && e.tags == []
    requires (e.version == 1) == e.predecessor.None? && e.predecessor != Some(e.versionId)
    ensures Build(env, e) == Ok(e.(digest := env.contentDigest(e.Material())))
  {}

  /** `e` extends the history that ends in `current` by one effective change. */
  ghost predicate Extends(current: Option<EntryVersion>, e: EntryVersion) {
    match current
    case None => e.version == 1 && e.predecessor.None? && e.state.Present?
    case Some(c) =>
      && e.version == c.version + 1 && e.entryId == c.entryId && e.predecessor == Some(c.versionId)
      && e.Place() == c.Place()
      && !(c.state.Deleted? && e.state.Deleted?) && e.Material() != c.Material()
  }

  ghost predicate FreshIn(current: Option<EntryVersion>, e: EntryVersion, ids: nat, later: nat) {
    && ids <= e.versionId < later && ids <= e.eventId < later
    && (current.None? ==> ids <= e.entryId < later)
  }

  ghost predicate CandidateFits(env: Env, place: Slot, candidate: Option<Draft>) {
    candidate.Some? ==> Canonical(env.lib, candidate.value) && DraftKey(env.lib, candidate.value) == place.key
  }

  /** When the edit is a change the next version can always be built, unless the key
      already has the last representable version number. */
  lemma NextEntryBuilds(env: Env, place: Slot, current: Option<EntryVersion>, candidate: Option<Draft>, ids: nat, later: nat,
      now: int, accepted: Option<ProposalRef>)
    requires CandidateFits(env, place, candidate) && later == ids + 3
    requires current.Some? ==> EntryOk(TextRulesOf(env), current.value, ids) && current.value.Place() == place
    requires WouldChange(current, if candidate.Some? then SetTo(candidate.value) else Delete)
    ensures NextEntry(env, place.ns, current, candidate, ids, now, accepted).Ok? <==>
            (current.Some? ==> current.value.version < U64_MAX)
    ensures var r := NextEntry(env, place.ns, current, candidate, ids, now, accepted);
            r.Ok? ==>
              && EntryOk(TextRulesOf(env), r.value, later) && Extends(current, r.value)
              && r.value.Place() == place && FreshIn(current, r.value, ids, later)
              && r.value.accepted == accepted && r.value.createdAt == now
              && CarriesOut(r.value, if candidate.Some? then SetTo(candidate.value) else Delete)
  {
    match (current, candidate) {
      case (None, Some(d)) =>
        PresentBuilds(env, EntryVersion(place.ns, ids, ids + 1, 1, None, d.displayKey, DraftKey(env.lib, d),
          Present, Some(d.value), d.tags, now, accepted, ids + 2, 0), d);
      case (Some(c), Some(d)) =>
        PresentBuilds(env, EntryVersion(c.ns, c.entryId, ids, c.version + 1, Some(c.versionId), d.displayKey, c.key,
          Present, Some(d.value), d.tags, now, accepted, ids + 1, 0), d);
      case (Some(c), None) =>
        TombstoneBuilds(env, EntryVersion(c.ns, c.entryId, ids, c.version + 1, Some(c.versionId), c.displayKey, c.key,
          EntryState.Deleted, None, [], now, accepted, ids + 1, 0));
      case (None, None) =>
    }
  }

  // ---------- entries and histories ----------

  ghost function AddEntry(tables: Tables, e: EntryVersion): Tables {
    tables.(versions := tables.versions + [e], current := tables.current[e.Place() := e])
  }

  lemma HistoryMember(tables: Tables, place: Slot)
    requires HistoryAt(tables, place) && place in tables.current
    ensures tables.current[place] in tables.versions && tables.current[place].Place() == place
  {
    FilterMultiset(tables.versions, InSlot(place), tables.current[place]);
  }

  lemma NoHistoryNoRow(tables: Tables, place: Slot, i: nat)
    requires HistoryAt(tables, place) && i < |tables.versions| && tables.versions[i].Place() == place
    ensures place in tables.current
  {
    FilterMultiset(tables.versions, InSlot(place), tables.versions[i]);
  }

  /** The current row of a key, as the invariant knows it. */
  lemma CurrentOk(rules: Rules, tables: Tables, place: Slot, nextId: nat)
    requires EntriesInv(rules, tables.versions, nextId) && HistoryInv(tables)
    ensures Lookup(tables, place).Some? ==>
              var c := Lookup(tables, place).value;
              EntryOk(rules, c, nextId) && c.Place() == place && c in tables.versions
  {
    if place in tables.current {
      assert HistoryAt(tables, place);
      HistoryMember(tables, place);
    }
  }

  lemma AddEntryHistory(tables: Tables, e: EntryVersion)
    requires HistoryInv(tables) && Extends(Lookup(tables, e.Place()), e)
    ensures HistoryInv(AddEntry(tables, e))
  {
    var tables' := AddEntry(tables, e);
    forall place ensures HistoryAt(tables', place) {
      assert HistoryAt(tables, place);
      FilterAppend(tables.versions, e, InSlot(place));
      var h, h' := History(tables, place), History(tables', place);
      if e.Place() == place {
        assert h' == h + [e];
        assert h != [] ==> Link(h, |h| - 1);
        forall i | 0 <= i < |h'| ensures Link(h', i) {
          if i < |h| { assert Link(h, i); }
        }
      } else {
        assert h' == h;
      }
    }
  }

  lemma AddEntryEntries(rules: Rules, tables: Tables, e: EntryVersion, nextId: nat, ids: nat, later: nat)
    requires EntriesInv(rules, tables.versions, nextId) && HistoryInv(tables) && nextId <= ids
    requires EntryOk(rules, e, later) && Extends(Lookup(tables, e.Place()), e)
    requires FreshIn(Lookup(tables, e.Place()), e, ids, later)
    ensures EntriesInv(rules, AddEntry(tables, e).versions, later)
    ensures forall i | 0 <= i < |tables.versions| :: tables.versions[i].versionId != e.versionId
    ensures forall i | 0 <= i < |tables.versions| ::
              tables.versions[i].Place() == e.Place() <==> tables.versions[i].entryId == e.entryId
  {
    CurrentOk(rules, tables, e.Place(), nextId);
    forall i | 0 <= i < |tables.versions|
      ensures tables.versions[i].Place() == e.Place() <==> tables.versions[i].entryId == e.entryId
      ensures EntryOk(rules, tables.versions[i], later)
    {
      assert EntryOk(rules, tables.versions[i], nextId);
      if e.Place() in tables.current {
        var k :| 0 <= k < |tables.versions| && tables.versions[k] == tables.current[e.Place()];
      } else {
        assert HistoryAt(tables, e.Place());
        if tables.versions[i].Place() == e.Place() { NoHistoryNoRow(tables, e.Place(), i); }
      }
    }
  }

  lemma {:induction false} HistoryVersions(tables: Tables, place: Slot, i: nat)
    requires HistoryInv(tables) && i < |tables.versions| && tables.versions[i].Place() == place
    ensures place in tables.current && tables.versions[i].version <= tables.current[place].version
  {
    assert HistoryAt(tables, place);
    FilterMultiset(tables.versions, InSlot(place), tables.versions[i]);
    var h := History(tables, place);
    var k :| 0 <= k < |h| && h[k] == tables.versions[i];
    assert Link(h, k) && Link(h, |h| - 1);
  }

  /** The table's own guards never refuse a well-built version. */
  lemma InsertSucceeds(rules: Rules, tables: Tables, e: EntryVersion, nextId: nat, ids: nat, later: nat)
    requires EntriesInv(rules, tables.versions, nextId) && HistoryInv(tables) && nextId <= ids
    requires EntryOk(rules, e, later) && Extends(Lookup(tables, e.Place()), e)
    requires FreshIn(Lookup(tables, e.Place()), e, ids, later) && AcceptedIsStored(tables.proposals, e)
    ensures InsertEntry(tables, e) == Ok(AddEntry(tables, e))
  {
    AddEntryEntries(rules, tables, e, nextId, ids, later);
    CurrentOk(rules, tables, e.Place(), nextId);
    forall v | v in tables.versions
      ensures v.versionId != e.versionId && (v.entryId, v.version) != (e.entryId, e.version)
      ensures v.Place() == e.Place() <==> v.entryId == e.entryId
    {
      var i :| 0 <= i < |tables.versions| && tables.versions[i] == v;
      if v.Place() == e.Place() { HistoryVersions(tables, e.Place(), i); }
    }
  }

  // ---------- settling proposals ----------

  ghost function SettledProposal(id: nat, s: StoredProposal, done: map<nat, Resolution>): StoredProposal {
    if id in done then StoredProposal(s.proposal, done[id].status, Some(done[id])) else s
  }

  ghost function SettledApproval(a: Approval, done: map<nat, Resolution>): Approval {
    if a.objectRef.id !in done then a
    else
      var r := done[a.objectRef.id];
      a.(status := ApprovalStatusOf(r.status),
         resolution := Some(ApprovalResolution(ApprovalStatusOf(r.status), Human, r.resolvedAt)))
  }

  ghost function SettledProposals(proposals: map<nat, StoredProposal>, done: map<nat, Resolution>): map<nat, StoredProposal> {
    map id | id in proposals :: SettledProposal(id, proposals[id], done)
  }

  ghost function SettledApprovals(approvals: map<nat, Approval>, done: map<nat, Resolution>): map<nat, Approval> {
    map a | a in approvals :: SettledApproval(approvals[a], done)
  }

  /** `tables` with the proposals in `done` resolved as recorded there. */
  ghost function Settled(tables: Tables, done: map<nat, Resolution>): Tables {
    tables.(proposals := SettledProposals(tables.proposals, done), approvals := SettledApprovals(tables.approvals, done))
  }

  /** `r` resolves an open proposal of `tables`. */
  ghost predicate Settles(tables: Tables, r: Resolution) {
    && r.proposal.id in tables.proposals
    && tables.proposals[r.proposal.id].status.Pending?
    && tables.proposals[r.proposal.id].proposal.Reference() == r.proposal
    && tables.proposals[r.proposal.id].proposal.approvalId == r.approvalId
    && !r.status.Pending?
  }

  lemma ResolveRowSettles(rules: Rules, tables: Tables, r: Resolution, nextId: nat)
    requires ProposalsInv(rules, tables, nextId) && Settles(tables, r)
    ensures ResolveRow(tables, r) == Ok(Settled(tables, map[r.proposal.id := r]))
  {
    assert ProposalOk(rules, tables, r.proposal.id, nextId);
    var result := ResolveRow(tables, r);
    var done := map[r.proposal.id := r];
    assert result.Ok?;
    assert result.value.approvals == Settled(tables, done).approvals;
    assert result.value.proposals == Settled(tables, done).proposals;
  }

  ghost predicate AllSettle(tables: Tables, done: map<nat, Resolution>) {
    forall id | id in done :: done[id].proposal.id == id && Settles(tables, done[id])
  }

  lemma SettledProposalOk(rules: Rules, tables: Tables, done: map<nat, Resolution>, nextId: nat, id: nat)
    requires ProposalsInv(rules, tables, nextId) && AllSettle(tables, done) && id in tables.proposals
    ensures ProposalOk(rules, Settled(tables, done), id, nextId)
  {
    assert ProposalOk(rules, tables, id, nextId);
    if id in done { assert Settles(tables, done[id]); }
  }

  lemma SettledKeepsProposals(rules: Rules, tables: Tables, done: map<nat, Resolution>, nextId: nat)
    requires ProposalsInv(rules, tables, nextId) && AllSettle(tables, done)
    ensures ProposalsInv(rules, Settled(tables, done), nextId)
  {
    hide ProposalOk;
    var tables' := Settled(tables, done);
    forall id | id in tables'.proposals ensures ProposalOk(rules, tables', id, nextId) {
      SettledProposalOk(rules, tables, done, nextId, id);
    }
    forall a | a in tables'.approvals
      ensures tables'.approvals[a].objectRef == tables.approvals[a].objectRef
      ensures tables'.proposals[tables.approvals[a].objectRef.id].proposal
              == tables.proposals[tables.approvals[a].objectRef.id].proposal
    {}
  }

  ghost function ById(rs: seq<Resolution>): map<nat, Resolution> {
    if rs == [] then map[] else ById(rs[1..])[rs[0].proposal.id := rs[0]]
  }

  ghost predicate DistinctTargets(rs: seq<Resolution>) {
    forall i, j | 0 <= i < j < |rs| :: rs[i].proposal.id != rs[j].proposal.id
  }

  ghost predicate Targets(rs: seq<Resolution>, id: nat) {
    exists i :: 0 <= i < |rs| && rs[i].proposal.id == id
  }

  lemma {:induction false} ByIdMeaning(rs: seq<Resolution>)
    requires DistinctTargets(rs)
    ensures forall id :: id in ById(rs) <==> Targets(rs, id)
    ensures forall i | 0 <= i < |rs| :: rs[i].proposal.id in ById(rs) && ById(rs)[rs[i].proposal.id] == rs[i]
  {
    if rs != [] {
      ByIdMeaning(rs[1..]);
      forall i | 0 <= i < |rs| ensures rs[i].proposal.id in ById(rs) && ById(rs)[rs[i].proposal.id] == rs[i] {
        if i > 0 { assert rs[i] == rs[1..][i - 1]; }
      }
      forall id ensures id in ById(rs) <==> Targets(rs, id) {
        if id in ById(rs[1..]) {
          var i :| 0 <= i < |rs[1..]| && rs[1..][i].proposal.id == id;
          assert rs[i + 1].proposal.id == id;
        }
      }
    }
  }

  /** Settling one proposal, then others, is settling them all. */
  lemma SettledTwice(tables: Tables, r: Resolution, done: map<nat, Resolution>)
    requires r.proposal.id !in done
    ensures Settled(Settled(tables, map[r.proposal.id := r]), done) == Settled(tables, done[r.proposal.id := r])
  {
    var one, both := map[r.proposal.id := r], done[r.proposal.id := r];
    forall id, s: StoredProposal
      ensures SettledProposal(id, SettledProposal(id, s, one), done) == SettledProposal(id, s, both)
    {}
    forall a: Approval ensures SettledApproval(SettledApproval(a, one), done) == SettledApproval(a, both) {}
    assert SettledProposals(SettledProposals(tables.proposals, one), done) == SettledProposals(tables.proposals, both);
    assert SettledApprovals(SettledApprovals(tables.approvals, one), done) == SettledApprovals(tables.approvals, both);
  }

  lemma SettledNothing(tables: Tables)
    ensures Settled(tables, map[]) == tables
  {
    assert SettledProposals(tables.proposals, map[]) == tables.proposals;
    assert SettledApprovals(tables.approvals, map[]) == tables.approvals;
  }

  lemma SettlesLater(tables: Tables, r: Resolution, later: Resolution)
    requires Settles(tables, later) && later.proposal.id != r.proposal.id
    ensures Settles(Settled(tables, map[r.proposal.id := r]), later)
  {}

  /** Settling the first of a list leaves the rest applicable, with the same outcome. */
  lemma SettleFirst(rules: Rules, tables: Tables, rs: seq<Resolution>, next: Tables, nextId: nat)
    requires ProposalsInv(rules, tables, nextId) && DistinctTargets(rs) && rs != []
    requires forall i | 0 <= i < |rs| :: Settles(tables, rs[i])
    requires next == Settled(tables, map[rs[0].proposal.id := rs[0]])
    ensures ProposalsInv(rules, next, nextId) && DistinctTargets(rs[1..])
    ensures forall i | 0 <= i < |rs[1..]| :: Settles(next, rs[1..][i])
    ensures Settled(next, ById(rs[1..])) == Settled(tables, ById(rs))
  {
    SettledKeepsProposals(rules, tables, map[rs[0].proposal.id := rs[0]], nextId);
    forall i | 0 <= i < |rs[1..]| ensures Settles(next, rs[1..][i]) {
      SettlesLater(tables, rs[0], rs[i + 1]);
    }
    ByIdMeaning(rs[1..]);
    SettledTwice(tables, rs[0], ById(rs[1..]));
  }

  /** Writing a list of resolutions settles exactly the proposals they name. */
  lemma {:induction false} ResolveRowsSettle(rules: Rules, tables: Tables, rs: seq<Resolution>, nextId: nat)
    requires ProposalsInv(rules, tables, nextId) && DistinctTargets(rs)
    requires forall i | 0 <= i < |rs| :: Settles(tables, rs[i])
    ensures ResolveRows(tables, rs) == Ok(Settled(tables, ById(rs)))
    decreases |rs|
  {
    if rs == [] {
      SettledNothing(tables);
    } else {
      var next := Settled(tables, map[rs[0].proposal.id := rs[0]]);
      ResolveRowSettles(rules, tables, rs[0], nextId);
      SettleFirst(rules, tables, rs, next, nextId);
      ResolveRowsSettle(rules, next, rs[1..], nextId);
    }
  }
}
