/** Safety of versioned memory over whole runs: what holds in every reachable state, and
    what no later command can undo. */
module MemorySafety {
  import opened Prelude
  import opened MemoryTypes
  import opened MemoryStore
  import opened MemoryInvariant
  import opened MemoryView
  import opened MemoryRun

  // ---------- runs ----------

  lemma InitialIsSound(env: Env)
    ensures Inv(env, INITIAL)
  {
    forall place ensures HistoryAt(INITIAL.tables, place) {}
    assert View(INITIAL.tables) == INITIAL.projection;
  }

  /** One command; a refused command leaves the state alone. */
  ghost function Next(env: Env, w: World, request: Request): (w': World)
    requires Inv(env, w) && WellTyped(env, request)
    ensures Inv(env, w')
  {
    ExecuteMeaning(env, w, request);
    if Execute(env, w, request).Ok? then Execute(env, w, request).value else w
  }

  ghost predicate AllWellTyped(env: Env, requests: seq<Request>) {
    forall i | 0 <= i < |requests| :: WellTyped(env, requests[i])
  }

  ghost function Run(env: Env, w: World, requests: seq<Request>): (w': World)
    requires Inv(env, w) && AllWellTyped(env, requests)
    ensures Inv(env, w')
    decreases |requests|
  {
    if requests == [] then w else Run(env, Next(env, w, requests[0]), requests[1..])
  }

  ghost predicate Reachable(env: Env, w: World) {
    InitialIsSound(env);
    exists requests :: AllWellTyped(env, requests) && w == Run(env, INITIAL, requests)
  }

  lemma ReachableInv(env: Env, w: World)
    requires Reachable(env, w)
    ensures Inv(env, w)
  {
    hide Inv, AllWellTyped, Run;
    InitialIsSound(env);
  }

  lemma ReachableTables(env: Env, w: World)
    requires Reachable(env, w)
    ensures TablesInv(TextRulesOf(env), w.tables, w.nextId) && w.projection == View(w.tables)
  {
    hide Reachable, TablesInv, View, TextRulesOf;
    ReachableInv(env, w);
  }

  // ---------- every reachable state ----------

  /** A pending proposal expects exactly the state its key is in, and would change it. */
  lemma PendingProposalsAreCurrent(env: Env, w: World, id: nat)
    requires Reachable(env, w)
    requires id in w.tables.proposals && w.tables.proposals[id].status.Pending?
    ensures var p := w.tables.proposals[id].proposal;
            && p.body.expected == CurrentExpected(Lookup(w.tables, p.Place()))
            && WouldChange(Lookup(w.tables, p.Place()), p.body.operation)
  {
    hide Reachable, TextRulesOf, View;
    ReachableTables(env, w);
    assert PendingFits(w.tables, id);
  }

  /** The rows of a key are versions 1..n of one entry, each linked to the one before and
      different from it, never two tombstones in a row; the current row is the last. */
  lemma HistoriesAreChains(env: Env, w: World, place: Slot, i: nat)
    requires Reachable(env, w) && i < |History(w.tables, place)|
    ensures var h := History(w.tables, place);
            && h[i].version == i + 1 && h[i].entryId == h[0].entryId && h[i].Place() == place
            && (i == 0 ==> h[i].predecessor.None? && h[i].state.Present?)
            && (i > 0 ==> h[i].predecessor == Some(h[i - 1].versionId)
                          && h[i].Material() != h[i - 1].Material()
                          && (h[i].state.Present? || h[i - 1].state.Present?))
            && Lookup(w.tables, place) == Some(h[|h| - 1])
  {
    hide Reachable, TextRulesOf, View;
    ReachableTables(env, w);
    assert HistoryAt(w.tables, place);
    assert Link(History(w.tables, place), i);
    FilterMultiset(w.tables.versions, InSlot(place), History(w.tables, place)[i]);
  }

  /** A proposal and its approval always agree on the status; pending means unresolved. */
  lemma StatusIsTheApprovals(env: Env, w: World, id: nat)
    requires Reachable(env, w) && id in w.tables.proposals
    ensures var s := w.tables.proposals[id];
            && s.proposal.approvalId in w.tables.approvals
            && var a := w.tables.approvals[s.proposal.approvalId];
            && a.status == ApprovalStatusOf(s.status) && a.objectRef == s.proposal.Reference()
            && (s.status.Pending? <==> s.resolution.None?) && (a.status.ApprovalPending? <==> a.resolution.None?)
  {
    hide Reachable, TextRulesOf, View;
    ReachableTables(env, w);
    assert ProposalOk(TextRulesOf(env), w.tables, id, w.nextId);
  }

  /** Accepted proposals correspond one to one with the versions that name them, and the
      version carries what the proposal was accepted with. */
  lemma AcceptedProposalsAreVersions(env: Env, w: World)
    requires Reachable(env, w)
    ensures forall id | id in w.tables.proposals && w.tables.proposals[id].status.Accepted? ::
              exists i :: 0 <= i < |w.tables.versions|
                && w.tables.versions[i].accepted == Some(w.tables.proposals[id].proposal.Reference())
    ensures forall i | 0 <= i < |w.tables.versions| && w.tables.versions[i].accepted.Some? ::
              AcceptedBy(w.tables, w.tables.versions[i])
    ensures forall i, j | 0 <= i < j < |w.tables.versions| && w.tables.versions[i].accepted.Some?
              && w.tables.versions[j].accepted.Some? ::
              w.tables.versions[i].accepted.value.id != w.tables.versions[j].accepted.value.id
  {
    hide Reachable, TextRulesOf, View;
    ReachableTables(env, w);
    forall id | id in w.tables.proposals && w.tables.proposals[id].status.Accepted?
      ensures exists i :: 0 <= i < |w.tables.versions|
                && w.tables.versions[i].accepted == Some(w.tables.proposals[id].proposal.Reference())
    {
      assert HasVersion(w.tables, id);
    }
  }

  /** Identity: no two rows share a version id, and two rows share an entry id exactly when
      they belong to the same key. */
  lemma IdentitiesAreUnique(env: Env, w: World, i: nat, j: nat)
    requires Reachable(env, w) && i < |w.tables.versions| && j < |w.tables.versions|
    ensures w.tables.versions[i].versionId == w.tables.versions[j].versionId ==> i == j
    ensures w.tables.versions[i].entryId == w.tables.versions[j].entryId <==>
            w.tables.versions[i].Place() == w.tables.versions[j].Place()
  {
    hide Reachable, TextRulesOf, View;
    ReachableTables(env, w);
  }

  /** Capacities are never exceeded, and the projection is the one the tables stand for and
      passes its own structural check. */
  lemma CapacitiesAndProjection(env: Env, w: World, ns: nat)
    requires Reachable(env, w)
    ensures |ActiveIn(w.tables.current, ns)| <= MAX_ACTIVE_ENTRIES
    ensures |PendingIn(w.tables.proposals, ns)| <= MAX_PENDING_PROPOSALS
    ensures w.projection == View(w.tables) && CheckStructure(w.projection).Ok?
  {
    hide Reachable, TextRulesOf;
    ReachableTables(env, w);
    ProposalsStayStructured(TextRulesOf(env), w.tables, w.nextId);
    EntriesAreStructured(TextRulesOf(env), w.tables, w.nextId);
  }

  lemma EntriesAreStructured(rules: Rules, tables: Tables, nextId: nat)
    requires EntriesInv(rules, tables.versions, nextId) && HistoryInv(tables)
    ensures EntriesStructured(View(tables).entries)
  {
    forall place | place in tables.current
      ensures tables.current[place].Place() == place
      ensures exists i :: 0 <= i < |tables.versions| && tables.versions[i] == tables.current[place]
    {
      CurrentOk(rules, tables, place, nextId);
    }
  }

  // ---------- what later commands cannot undo ----------

  /** `after` keeps every row of `before`: versions are only appended, proposals keep their
      content, and a resolved proposal or approval never changes again. */
  ghost predicate Grows(before: Tables, after: Tables) {
    && before.versions <= after.versions
    && (forall id | id in before.proposals ::
          && id in after.proposals
          && after.proposals[id].proposal == before.proposals[id].proposal
          && (!before.proposals[id].status.Pending? ==> after.proposals[id] == before.proposals[id]))
    && (forall a | a in before.approvals ::
          && a in after.approvals
          && (!before.approvals[a].status.ApprovalPending? ==> after.approvals[a] == before.approvals[a]))
  }

  lemma GrowsTransitive(a: Tables, b: Tables, c: Tables)
    requires Grows(a, b) && Grows(b, c)
    ensures Grows(a, c)
  {
    forall id | id in a.proposals
      ensures id in c.proposals && c.proposals[id].proposal == a.proposals[id].proposal
      ensures !a.proposals[id].status.Pending? ==> c.proposals[id] == a.proposals[id]
    {
      assert id in b.proposals;
    }
  }

  lemma RowGrows(tables: Tables, r: Resolution)
    requires ResolveRow(tables, r).Ok?
    ensures Grows(tables, ResolveRow(tables, r).value)
  {}

  lemma {:induction false} RowsGrow(tables: Tables, rs: seq<Resolution>)
    requires ResolveRows(tables, rs).Ok?
    ensures Grows(tables, ResolveRows(tables, rs).value)
    decreases |rs|
  {
    hide Grows, ResolveRow;
    if rs == [] {
      GrowsReflexive(tables);
    } else {
      var next := ResolveRow(tables, rs[0]).value;
      RowGrows(tables, rs[0]);
      RowsGrow(next, rs[1..]);
      GrowsTransitive(tables, next, ResolveRows(next, rs[1..]).value);
    }
  }

  lemma GrowsReflexive(tables: Tables)
    ensures Grows(tables, tables)
  {}

  lemma InsertGrows(tables: Tables, e: EntryVersion)
    requires InsertEntry(tables, e).Ok?
    ensures Grows(tables, InsertEntry(tables, e).value)
  {}

  lemma CreateGrows(tables: Tables, p: Proposal, a: Approval)
    requires InsertProposal(tables, p, a).Ok?
    ensures Grows(tables, InsertProposal(tables, p, a).value)
  {}

  lemma PersistGrows(tables: Tables, event: Event)
    requires Persist(tables, event).Ok?
    ensures Grows(tables, Persist(tables, event).value)
  {
    hide Grows, ResolveRow, ResolveRows, InsertEntry, InsertProposal;
    match event {
      case ProposalCreated(p, a) => CreateGrows(tables, p, a);
      case ProposalRejected(r) => RowGrows(tables, r);
      case ProposalAccepted(r, e, expired) =>
        var accepted := ResolveRow(tables, r).value;
        var inserted := InsertEntry(accepted, e).value;
        RowGrows(tables, r);
        InsertGrows(accepted, e);
        RowsGrow(inserted, expired);
        GrowsTransitive(tables, accepted, inserted);
        GrowsTransitive(tables, inserted, ResolveRows(inserted, expired).value);
      case EntrySet(e, expired) => PutGrows(tables, e, expired);
      case EntryDeleted(e, expired) => PutGrows(tables, e, expired);
    }
  }

  lemma PutGrows(tables: Tables, e: EntryVersion, expired: seq<Resolution>)
    requires InsertEntry(tables, e).Ok? && ResolveRows(InsertEntry(tables, e).value, expired).Ok?
    ensures Grows(tables, ResolveRows(InsertEntry(tables, e).value, expired).value)
  {
    hide Grows, ResolveRow, ResolveRows, InsertEntry;
    var inserted := InsertEntry(tables, e).value;
    InsertGrows(tables, e);
    RowsGrow(inserted, expired);
    GrowsTransitive(tables, inserted, ResolveRows(inserted, expired).value);
  }

  lemma NextGrows(env: Env, w: World, request: Request)
    requires Inv(env, w) && WellTyped(env, request)
    ensures Grows(w.tables, Next(env, w, request).tables)
  {
    hide Inv, Grows, Prepare, Persist, Reduce, WellTyped, StoredCanonical;
    ExecuteMeaning(env, w, request);
    GrowsReflexive(w.tables);
    if Execute(env, w, request).Ok? {
      PersistGrows(w.tables, Prepare(env, w, request).value);
    }
  }

  /** Nothing is ever rewritten: over any run, versions are only appended and whatever was
      resolved stays resolved the way it was. */
  lemma {:induction false} RunGrows(env: Env, w: World, requests: seq<Request>)
    requires Inv(env, w) && AllWellTyped(env, requests)
    ensures Grows(w.tables, Run(env, w, requests).tables)
    decreases |requests|
  {
    hide Inv, Grows, Next, WellTyped;
    if requests == [] {
      GrowsReflexive(w.tables);
    } else {
      var next := Next(env, w, requests[0]);
      NextGrows(env, w, requests[0]);
      RunGrows(env, next, requests[1..]);
      GrowsTransitive(w.tables, next.tables, Run(env, next, requests[1..]).tables);
    }
  }

  /** Once a proposal is resolved, every later attempt to resolve it is refused, whatever
      ran in between and whoever tries. */
  lemma ResolvedAtMostOnce(env: Env, w: World, id: nat, requests: seq<Request>, again: Request)
    requires Inv(env, w) && AllWellTyped(env, requests) && WellTyped(env, again)
    requires id in w.tables.proposals && !w.tables.proposals[id].status.Pending?
    requires again.command.Resolve? && again.command.proposal.id == id
    ensures var later := Run(env, w, requests);
            && Next(env, later, again) == later
            && id in later.tables.proposals && later.tables.proposals[id] == w.tables.proposals[id]
  {
    hide Inv, Run, WellTyped, Execute, AllWellTyped, WithinLimits, StoredCanonical;
    var later := Run(env, w, requests);
    RunGrows(env, w, requests);
    ResolveSucceedsExactly(env, later, again);
  }

  lemma RowResolves(tables: Tables, r: Resolution)
    requires ResolveRow(tables, r).Ok?
    ensures var after, id := ResolveRow(tables, r).value, r.proposal.id;
            && id in tables.proposals && tables.proposals[id].status.Pending?
            && id in after.proposals && after.proposals[id].status == r.status
    ensures r.approvalId in tables.approvals && ValidPersistedApproval(tables.approvals[r.approvalId]) ==>
              var approval := ResolveRow(tables, r).value.approvals[r.approvalId];
              ValidPersistedApproval(approval)
              && forall status, actor, now :: ResolveApproval(approval, status, actor, now) == Err(AlreadyResolved)
  {
    if r.approvalId in tables.approvals && ValidPersistedApproval(tables.approvals[r.approvalId]) {
      forall status, actor, now {
        ApprovalResolvesOnce(tables.approvals[r.approvalId], ApprovalStatusOf(r.status), Human, r.resolvedAt, status, actor, now);
      }
    }
  }

  lemma PersistResolves(tables: Tables, event: Event)
    requires Persist(tables, event).Ok? && (event.ProposalRejected? || event.ProposalAccepted?)
    requires !event.resolution.status.Pending?
    ensures var after, id := Persist(tables, event).value, event.resolution.proposal.id;
            && id in tables.proposals && tables.proposals[id].status.Pending?
            && id in after.proposals && after.proposals[id].status == event.resolution.status
  {
    hide ResolveRow, ResolveRows, InsertEntry;
    RowResolves(tables, event.resolution);
    if event.ProposalAccepted? {
      var accepted := ResolveRow(tables, event.resolution).value;
      InsertGrows(accepted, event.entry);
      RowsGrow(InsertEntry(accepted, event.entry).value, event.expired);
    }
  }

  lemma PreparedStatus(env: Env, w: World, request: Request, event: Event)
    requires WellTyped(env, request) && StoredCanonical(env, w.tables) && request.command.Resolve?
    requires Prepare(env, w, request) == Ok(event)
    ensures event.ProposalRejected? || event.ProposalAccepted?
    ensures event.resolution.proposal == request.command.proposal
    ensures event.resolution.status == if request.command.approve then Accepted else Rejected
  {
    hide NextEntry, Expirations, ActiveIn, Lookup, StoredCanonical, ProjectionAgrees;
  }

  /** A successful approve or reject does resolve the proposal it names. */
  lemma ResolutionResolves(env: Env, w: World, request: Request)
    requires Inv(env, w) && WellTyped(env, request) && request.command.Resolve?
    requires StoredCanonical(env, w.tables) && Execute(env, w, request).Ok?
    ensures var id, after := request.command.proposal.id, Next(env, w, request).tables;
            && id in w.tables.proposals && w.tables.proposals[id].status.Pending?
            && id in after.proposals
            && after.proposals[id].status == (if request.command.approve then Accepted else Rejected)
  {
    hide Inv, Prepare, Persist, Reduce, WellTyped, StoredCanonical;
    ExecuteMeaning(env, w, request);
    var event := Prepare(env, w, request).value;
    PreparedStatus(env, w, request, event);
    PersistResolves(w.tables, event);
  }

  // ---------- numbers that can be stored ----------

  lemma {:induction false} FilterIsShorter(versions: seq<EntryVersion>, keep: EntryVersion -> bool)
    ensures |Filter(versions, keep)| <= |versions|
  {
    if versions != [] { FilterIsShorter(versions[1..], keep); }
  }

  /** A version number never exceeds the number of rows. */
  lemma VersionIsCounted(rules: Rules, tables: Tables, nextId: nat, e: EntryVersion)
    requires TablesInv(rules, tables, nextId) && e in tables.versions
    ensures e.version <= |tables.versions|
  {
    hide EntriesInv, ProposalsInv, PendingInv, LinkInv, CapacityInv;
    var h := History(tables, e.Place());
    FilterMultiset(tables.versions, InSlot(e.Place()), e);
    FilterIsShorter(tables.versions, InSlot(e.Place()));
    assert HistoryAt(tables, e.Place());
    var i :| 0 <= i < |h| && h[i] == e;
    assert Link(h, i);
  }

  lemma {:induction false} RowsAddNothing(tables: Tables, rs: seq<Resolution>)
    requires ResolveRows(tables, rs).Ok?
    ensures ResolveRows(tables, rs).value.versions == tables.versions
    decreases |rs|
  {
    if rs != [] { RowsAddNothing(ResolveRow(tables, rs[0]).value, rs[1..]); }
  }

  /** An event adds the version it makes, or none. */
  lemma PersistAddsOne(tables: Tables, event: Event)
    requires Persist(tables, event).Ok?
    ensures Persist(tables, event).value.versions
            == tables.versions + (if MadeVersion(event).Some? then [MadeVersion(event).value] else [])
  {
    hide ResolveRow, ResolveRows;
    match event {
      case ProposalCreated(_, _) =>
      case ProposalRejected(r) => RowAddsNothing(tables, r);
      case ProposalAccepted(r, e, expired) =>
        RowAddsNothing(tables, r);
        RowsAddNothing(InsertEntry(ResolveRow(tables, r).value, e).value, expired);
      case EntrySet(e, expired) => RowsAddNothing(InsertEntry(tables, e).value, expired);
      case EntryDeleted(e, expired) => RowsAddNothing(InsertEntry(tables, e).value, expired);
    }
  }

  lemma RowAddsNothing(tables: Tables, r: Resolution)
    requires ResolveRow(tables, r).Ok?
    ensures ResolveRow(tables, r).value.versions == tables.versions
  {}

  ghost predicate Counted(w: World) { |w.tables.versions| <= w.lastSequence }

  lemma NextCounts(env: Env, w: World, request: Request)
    requires Inv(env, w) && WellTyped(env, request) && Counted(w)
    ensures Counted(Next(env, w, request))
  {
    hide Inv, Prepare, Persist, Reduce, WellTyped, StoredCanonical;
    ExecuteMeaning(env, w, request);
    if Execute(env, w, request).Ok? { PersistAddsOne(w.tables, Prepare(env, w, request).value); }
  }

  lemma {:induction false} RunCounts(env: Env, w: World, requests: seq<Request>)
    requires Inv(env, w) && AllWellTyped(env, requests) && Counted(w)
    ensures Counted(Run(env, w, requests))
    decreases |requests|
  {
    hide Inv, Next, WellTyped, Counted;
    if requests != [] {
      NextCounts(env, w, requests[0]);
      RunCounts(env, Next(env, w, requests[0]), requests[1..]);
    }
  }

  lemma ReachableCounts(env: Env, w: World)
    requires Reachable(env, w)
    ensures Counted(w)
  {
    hide Inv, AllWellTyped, Run, WellTyped;
    InitialIsSound(env);
    var requests :| AllWellTyped(env, requests) && w == Run(env, INITIAL, requests);
    RunCounts(env, INITIAL, requests);
  }

  /** In every reachable state version numbers never run out before the stream does: a command
      succeeds exactly when it can be prepared and the stream has a number left. */
  lemma CommandsFailInPreparation(env: Env, w: World, request: Request)
    requires Reachable(env, w) && WellTyped(env, request)
    ensures StoredCanonical(env, w.tables)
    ensures Execute(env, w, request).Ok? <==> Prepare(env, w, request).Ok? && w.lastSequence < I64_MAX
    ensures Prepare(env, w, request).Err? ==> Execute(env, w, request) == Err(Prepare(env, w, request).error)
    ensures Prepare(env, w, request).Ok? && w.lastSequence >= I64_MAX ==> Execute(env, w, request) == Err(InvalidEventRecord)
  {
    hide Inv, Prepare, Reachable, WellTyped, StoredCanonical, Persist, Reduce, TablesInv, TextRulesOf;
    ReachableInv(env, w);
    ReachableCounts(env, w);
    ExecuteMeaning(env, w, request);
    if Prepare(env, w, request).Ok? && w.lastSequence < I64_MAX {
      var event := Prepare(env, w, request).value;
      PreparedCommits(env, w, request, event);
      var w' :| CommitsTo(TextRulesOf(env), w, request, event, w');
      PersistAddsOne(w.tables, event);
      if MadeVersion(event).Some? {
        assert w'.tables.versions[|w.tables.versions|] == MadeVersion(event).value;
        VersionIsCounted(TextRulesOf(env), w'.tables, w'.nextId, MadeVersion(event).value);
      }
    }
  }
}
