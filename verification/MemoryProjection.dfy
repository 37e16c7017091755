/** `MemoryProjection` of src/memory/projection.rs and the table writes of
    `persist_memory_mutation_event`, in place, against the functions of MemoryStore. */
module MemoryProjection {
  import opened Prelude
  import opened MemoryTypes
  import opened MemoryStore

  lemma OneMorePending(before: map<nat, Projected>, id: nat, projected: Projected)
    requires id !in before
    ensures forall ns :: |ProjectedPendingIn(before[id := projected], ns)|
              == |ProjectedPendingIn(before, ns)| + if projected.status.Pending? && projected.place.ns == ns then 1 else 0
  {
    forall ns
      ensures ProjectedPendingIn(before[id := projected], ns) ==
              ProjectedPendingIn(before, ns) + if projected.status.Pending? && projected.place.ns == ns then {id} else {}
    {}
  }

  class ProjectionState {
    var entries: map<Slot, EntryRef>
    var proposals: map<nat, Projected>

    constructor ()
      ensures Value() == Projection(map[], map[])
    {
      entries, proposals := map[], map[];
    }

    constructor Copy(from: ProjectionState)
      ensures Value() == from.Value()
    {
      entries, proposals := from.entries, from.proposals;
    }

    function Value(): Projection
      reads this
    {
      Projection(entries, proposals)
    }

    /** Insert version and entry ids into sets as the entries go by; a refusal is a duplicate. */
    method CheckEntries() returns (ok: bool)
      ensures ok == EntriesStructured(entries)
    {
      var rest, entryVersions, entryIds := entries.Keys, {}, {};
      while rest != {}
        invariant rest <= entries.Keys
        invariant entryVersions == set p | p in entries.Keys - rest :: entries[p].versionId
        invariant entryIds == set p | p in entries.Keys - rest :: entries[p].entryId
        invariant forall p | p in entries.Keys - rest :: p == Slot(entries[p].ns, entries[p].key)
        invariant forall a, b | a in entries.Keys - rest && b in entries.Keys - rest && a != b ::
                    entries[a].versionId != entries[b].versionId && entries[a].entryId != entries[b].entryId
        decreases |rest|
      {
        var place :| place in rest;
        var reference := entries[place];
        if place != Slot(reference.ns, reference.key) || reference.versionId in entryVersions || reference.entryId in entryIds {
          return false;
        }
        assert entries.Keys - (rest - {place}) == entries.Keys - rest + {place};
        entryVersions, entryIds := entryVersions + {reference.versionId}, entryIds + {reference.entryId};
        rest := rest - {place};
      }
      assert entries.Keys - rest == entries.Keys;
      return true;
    }

    method CheckProposals() returns (ok: bool)
      ensures ok == ProposalsStructured(proposals)
    {
      var rest := proposals.Keys;
      while rest != {}
        invariant rest <= proposals.Keys
        invariant forall id | id in proposals.Keys - rest ::
                    && proposals[id].proposal.id == id
                    && ExpectedAt(proposals[id].place, proposals[id].expected)
                    && (proposals[id].status.Pending? <==> proposals[id].resolutionEvent.None?)
        decreases |rest|
      {
        var id :| id in rest;
        var projected := proposals[id];
        if id != projected.proposal.id || !ExpectedAt(projected.place, projected.expected)
           || projected.status.Pending? != projected.resolutionEvent.None? {
          return false;
        }
        rest := rest - {id};
      }
      return true;
    }

    /** Count the pending proposals of every namespace in one pass. */
    method CountPending() returns (counts: map<nat, nat>)
      ensures forall ns :: (if ns in counts then counts[ns] else 0) == |ProjectedPendingIn(proposals, ns)|
    {
      counts := map[];
      var rest := proposals.Keys;
      ghost var done: map<nat, Projected> := map[];
      while rest != {}
        invariant rest <= proposals.Keys
        invariant done == map id | id in proposals.Keys - rest :: proposals[id]
        invariant forall ns :: (if ns in counts then counts[ns] else 0) == |ProjectedPendingIn(done, ns)|
        decreases |rest|
      {
        var id :| id in rest;
        var projected := proposals[id];
        rest := rest - {id};
        ghost var before := done;
        done := done[id := projected];
        assert done == map id | id in proposals.Keys - rest :: proposals[id];
        OneMorePending(before, id, projected);
        if projected.status.Pending? {
          var ns := projected.place.ns;
          counts := counts[ns := (if ns in counts then counts[ns] else 0) + 1];
        }
      }
      assert done == proposals;
    }

    method ValidateStructure() returns (r: Result<(), MemoryError>)
      ensures r == CheckStructure(Value())
    {
      var entriesOk := CheckEntries();
      if !entriesOk { return Err(InvalidProjection); }
      var proposalsOk := CheckProposals();
      if !proposalsOk { return Err(InvalidProjection); }
      var counts := CountPending();
      if exists ns | ns in counts :: counts[ns] > MAX_PENDING_PROPOSALS { return Err(ProposalCapacityReached); }
      forall ns ensures |ProjectedPendingIn(proposals, ns)| <= MAX_PENDING_PROPOSALS {
        assert ns in counts ==> counts[ns] <= MAX_PENDING_PROPOSALS;
      }
      return Ok(());
    }

    /** Checks against the current reference, then a validated copy replaces the state. */
    method ApplyEntry(e: EntryVersion) returns (r: Result<(), MemoryError>)
      modifies this
      ensures var next := MemoryStore.ApplyEntry(old(Value()), e);
              && (r.Ok? <==> next.Ok?) && (r.Err? ==> next == Err(r.error))
              && Value() == if next.Ok? then next.value else old(Value())
    {
      var key, reference := e.Place(), e.Reference();
      if exists place | place in entries ::
          place != key && (entries[place].entryId == reference.entryId || entries[place].versionId == reference.versionId) {
        return Err(InvalidProjection);
      }
      if key !in entries {
        if reference.version != 1 || e.predecessor.Some? { return Err(InvalidProjection); }
      } else {
        var current := entries[key];
        if current.version >= U64_MAX { return Err(InvalidProjection); }
        if reference.version != current.version + 1 || e.predecessor != Some(current.versionId)
           || current.entryId != reference.entryId {
          return Err(InvalidProjection);
        }
      }
      var staged := new ProjectionState.Copy(this);
      staged.entries := staged.entries[key := reference];
      r := staged.ValidateStructure();
      if r.Ok? {
        entries, proposals := staged.entries, staged.proposals;
      }
    }

    method CreateProposal(proposal: Proposal) returns (r: Result<(), MemoryError>)
      modifies this
      ensures var next := MemoryStore.CreateProposal(old(Value()), proposal);
              && (r.Ok? <==> next.Ok?) && (r.Err? ==> next == Err(r.error))
              && Value() == if next.Ok? then next.value else old(Value())
    {
      if proposal.id in proposals { return Err(InvalidProjection); }
      if |ProjectedPendingIn(proposals, proposal.body.ns)| >= MAX_PENDING_PROPOSALS { return Err(ProposalCapacityReached); }
      proposals := proposals[proposal.id :=
        Projected(proposal.Reference(), proposal.Place(), proposal.body.expected, proposal.approvalId, Pending, None)];
      return Ok(());
    }

    method ResolveProposal(resolution: Resolution) returns (r: Result<(), MemoryError>)
      modifies this
      ensures var next := MemoryStore.ResolveProposal(old(Value()), resolution);
              && (r.Ok? <==> next.Ok?) && (r.Err? ==> next == Err(r.error))
              && Value() == if next.Ok? then next.value else old(Value())
    {
      if resolution.proposal.id !in proposals { return Err(InvalidProjection); }
      var projected := proposals[resolution.proposal.id];
      if projected.proposal != resolution.proposal || projected.approvalId != resolution.approvalId
         || !projected.status.Pending? {
        return Err(InvalidProjection);
      }
      proposals := proposals[resolution.proposal.id :=
        projected.(status := resolution.status, resolutionEvent := Some(resolution.eventId))];
      return Ok(());
    }
  }

  /** The memory tables, written row by row inside one transaction. */
  class TableState {
    var versions: seq<EntryVersion>
    var current: map<Slot, EntryVersion>
    var proposals: map<nat, StoredProposal>
    var approvals: map<nat, Approval>

    constructor (tables: Tables)
      ensures Value() == tables
    {
      versions, current, proposals, approvals := tables.versions, tables.current, tables.proposals, tables.approvals;
    }

    function Value(): Tables
      reads this
    {
      Tables(versions, current, proposals, approvals)
    }

    /** Insert the version row, then point the key's current row at it. */
    method PutEntry(e: EntryVersion) returns (ok: bool)
      modifies this
      ensures ok <==> InsertEntry(old(Value()), e).Ok?
      ensures ok ==> Value() == InsertEntry(old(Value()), e).value
    {
      if !AcceptedIsStored(proposals, e) || !EntryInsertAllowed(versions, e) { return false; }
      versions := versions + [e];
      if !PointerAdvances(current, e) { return false; }
      current := current[e.Place() := e];
      return true;
    }

    /** Load and resolve the approval, then write it with the proposal's resolution. */
    method Settle(r: Resolution) returns (ok: bool)
      modifies this
      ensures ok <==> ResolveRow(old(Value()), r).Ok?
      ensures ok ==> Value() == ResolveRow(old(Value()), r).value
    {
      var loaded := LoadApproval(Value(), r.approvalId);
      if loaded.None? { return false; }
      var resolved := ResolveApproval(loaded.value, ApprovalStatusOf(r.status), Human, r.resolvedAt);
      if resolved.Err? || r.proposal.id !in proposals { return false; }
      var stored := proposals[r.proposal.id];
      if stored.proposal.Reference() != r.proposal || !stored.status.Pending?
         || !ApprovalMatches(stored.proposal, resolved.value, Some(r)) {
        return false;
      }
      approvals := approvals[r.approvalId := resolved.value];
      proposals := proposals[r.proposal.id := StoredProposal(stored.proposal, r.status, Some(r))];
      return true;
    }

    /** The loop over the expired siblings; it stops at the first row that does not fit. */
    method SettleAll(rs: seq<Resolution>) returns (ok: bool)
      modifies this
      ensures ok <==> ResolveRows(old(Value()), rs).Ok?
      ensures ok ==> Value() == ResolveRows(old(Value()), rs).value
    {
      for i := 0 to |rs|
        invariant ResolveRows(Value(), rs[i..]) == ResolveRows(old(Value()), rs)
      {
        assert rs[i..][0] == rs[i] && rs[i..][1..] == rs[i + 1..];
        var settled := Settle(rs[i]);
        if !settled { return false; }
      }
      assert rs[|rs|..] == [];
      return true;
    }

    /** All writes of one event, or a failure on which the transaction rolls back. */
    method Write(event: Event) returns (ok: bool)
      modifies this
      ensures ok <==> WriteEvent(old(Value()), event).Ok?
      ensures ok ==> Value() == WriteEvent(old(Value()), event).value
    {
      if !RowFits(event) { return false; }
      match event {
        case ProposalCreated(p, a) =>
          if p.id in proposals || a.id in approvals || |PendingIn(proposals, p.body.ns)| >= MAX_PENDING_PROPOSALS
             || !ApprovalMatches(p, a, None) || !ExpectedIsStored(versions, p) { return false; }
          proposals, approvals := proposals[p.id := StoredProposal(p, Pending, None)], approvals[a.id := a];
          return true;
        case ProposalRejected(r) =>
          ok := Settle(r);
        case ProposalAccepted(r, e, expired) =>
          ok := Settle(r);
          if !ok { return; }
          ok := PutEntry(e);
          if !ok { return; }
          ok := SettleAll(expired);
        case EntrySet(e, expired) =>
          ok := PutEntry(e);
          if !ok { return; }
          ok := SettleAll(expired);
        case EntryDeleted(e, expired) =>
          ok := PutEntry(e);
          if !ok { return; }
          ok := SettleAll(expired);
      }
    }
  }
}
