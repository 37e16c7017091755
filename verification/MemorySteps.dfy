/** Every kind of write keeps the memory invariant, and the projection follows the
    tables step by step. */
module MemorySteps {
  import opened Prelude
  import opened MemoryTypes
  import opened MemoryStore
  import opened MemoryInvariant

  // ---------- a new version, with the proposals it settles ----------

  /** `done` settles every open proposal of the key, and no other; at most one of them
      is accepted, and it is the one the version names. */
  ghost predicate Settlement(tables: Tables, e: EntryVersion, done: map<nat, Resolution>) {
    && AllSettle(tables, done)
    && (forall id | id in done :: tables.proposals[id].proposal.Place() == e.Place())
    && (forall id | id in tables.proposals && tables.proposals[id].status.Pending?
                    && tables.proposals[id].proposal.Place() == e.Place() :: id in done)
    && (forall id | id in done :: done[id].status.Accepted? ==> e.accepted == Some(done[id].proposal))
    && (e.accepted.Some? ==>
          && e.accepted.value.id in done
          && done[e.accepted.value.id].status.Accepted?
          && done[e.accepted.value.id].proposal == e.accepted.value
          && done[e.accepted.value.id].eventId == e.eventId
          && CarriesOut(e, tables.proposals[e.accepted.value.id].proposal.body.operation))
  }

  ghost function AfterEntry(tables: Tables, e: EntryVersion, done: map<nat, Resolution>): Tables {
    Settled(AddEntry(tables, e), done)
  }

  lemma PutKeepsPending(tables: Tables, e: EntryVersion, done: map<nat, Resolution>)
    requires PendingInv(tables) && Settlement(tables, e, done)
    ensures PendingInv(AfterEntry(tables, e, done))
  {
    var after := AfterEntry(tables, e, done);
    forall id | id in after.proposals ensures PendingFits(after, id) {
      assert PendingFits(tables, id);
    }
  }

  lemma PutKeepsLinks(tables: Tables, e: EntryVersion, done: map<nat, Resolution>)
    requires LinkInv(tables) && Settlement(tables, e, done)
    ensures LinkInv(AfterEntry(tables, e, done))
  {
    var after := AfterEntry(tables, e, done);
    var n := |tables.versions|;
    assert after.versions[n] == e;
    forall i | 0 <= i < |after.versions| ensures AcceptedBy(after, after.versions[i]) {
      if i < n {
        assert AcceptedBy(tables, tables.versions[i]);
      } else if e.accepted.Some? {
        assert Settles(tables, done[e.accepted.value.id]);
      }
    }
    forall id | id in after.proposals ensures HasVersion(after, id) {
      assert HasVersion(tables, id);
      if id in done {
        assert Settles(tables, done[id]);
      } else if tables.proposals[id].status.Accepted? {
        var i :| 0 <= i < n && tables.versions[i].accepted == Some(tables.proposals[id].proposal.Reference());
        assert after.versions[i] == tables.versions[i];
      }
    }
    forall i, j | 0 <= i < j < |after.versions| && after.versions[i].accepted.Some? && after.versions[j].accepted.Some?
      ensures after.versions[i].accepted.value.id != after.versions[j].accepted.value.id
    {
      assert AcceptedBy(tables, tables.versions[i]);
      if j == n { assert Settles(tables, done[e.accepted.value.id]); }
    }
  }

  /** The namespace has room for what `e` makes present. */
  ghost predicate RoomFor(tables: Tables, e: EntryVersion) {
    e.state.Present? && !(Lookup(tables, e.Place()).Some? && Lookup(tables, e.Place()).value.state.Present?) ==>
      |ActiveIn(tables.current, e.ns)| < MAX_ACTIVE_ENTRIES
  }

  lemma SubsetSize<T>(a: set<T>, b: set<T>)
    requires a <= b
    ensures |a| <= |b|
  {
    assert b == a + (b - a);
  }

  lemma PutKeepsCapacity(tables: Tables, e: EntryVersion, done: map<nat, Resolution>)
    requires CapacityInv(tables) && RoomFor(tables, e)
    requires AllSettle(tables, done)
    ensures CapacityInv(AfterEntry(tables, e, done))
  {
    var after := AfterEntry(tables, e, done);
    forall ns ensures |ActiveIn(after.current, ns)| <= MAX_ACTIVE_ENTRIES {
      var before, now := ActiveIn(tables.current, ns), ActiveIn(after.current, ns);
      if ns == e.ns && e.state.Present? && e.Place() !in before {
        assert now == before + {e.Place()};
      } else {
        SubsetSize(now, before);
      }
    }
    SettledKeepsCapacity(AddEntry(tables, e), done);
  }

  lemma SettledKeepsCapacity(tables: Tables, done: map<nat, Resolution>)
    requires forall ns :: |PendingIn(tables.proposals, ns)| <= MAX_PENDING_PROPOSALS
    requires AllSettle(tables, done)
    ensures forall ns :: |PendingIn(Settled(tables, done).proposals, ns)| <= MAX_PENDING_PROPOSALS
  {
    forall ns ensures |PendingIn(Settled(tables, done).proposals, ns)| <= MAX_PENDING_PROPOSALS {
      forall id | id in done ensures !done[id].status.Pending? { assert Settles(tables, done[id]); }
      SubsetSize(PendingIn(Settled(tables, done).proposals, ns), PendingIn(tables.proposals, ns));
    }
  }

  lemma LaterIds(rules: Rules, tables: Tables, nextId: nat, later: nat)
    requires ProposalsInv(rules, tables, nextId) && nextId <= later
    ensures ProposalsInv(rules, tables, later)
  {
    forall id | id in tables.proposals ensures ProposalOk(rules, tables, id, later) {
      assert ProposalOk(rules, tables, id, nextId);
    }
  }

  lemma AddEntryProposals(rules: Rules, tables: Tables, e: EntryVersion, nextId: nat)
    requires ProposalsInv(rules, tables, nextId)
    ensures ProposalsInv(rules, AddEntry(tables, e), nextId)
  {
    var added := AddEntry(tables, e);
    forall id | id in added.proposals ensures ProposalOk(rules, added, id, nextId) {
      assert ProposalOk(rules, tables, id, nextId);
    }
  }

  lemma PutKeepsProposals(rules: Rules, tables: Tables, e: EntryVersion, done: map<nat, Resolution>, nextId: nat, later: nat)
    requires ProposalsInv(rules, tables, nextId) && nextId <= later && AllSettle(tables, done)
    ensures ProposalsInv(rules, AfterEntry(tables, e, done), later)
  {
    AddEntryProposals(rules, tables, e, nextId);
    forall id | id in done ensures Settles(AddEntry(tables, e), done[id]) { assert Settles(tables, done[id]); }
    SettledKeepsProposals(rules, AddEntry(tables, e), done, nextId);
    LaterIds(rules, AfterEntry(tables, e, done), nextId, later);
  }

  /** Adding a well-built version and settling every open proposal of its key keeps
      everything: history, links, capacities, and the match of the open proposals. */
  lemma PutPreserves(rules: Rules, tables: Tables, e: EntryVersion, done: map<nat, Resolution>, nextId: nat, ids: nat, later: nat)
    requires TablesInv(rules, tables, nextId) && nextId <= ids
    requires EntryOk(rules, e, later) && Extends(Lookup(tables, e.Place()), e)
    requires FreshIn(Lookup(tables, e.Place()), e, ids, later)
    requires Settlement(tables, e, done) && RoomFor(tables, e)
    ensures TablesInv(rules, AfterEntry(tables, e, done), later)
  {
    AddEntryEntries(rules, tables, e, nextId, ids, later);
    AddEntryHistory(tables, e);
    SettledKeepsHistory(AddEntry(tables, e), done);
    PutKeepsProposals(rules, tables, e, done, nextId, later);
    PutKeepsPending(tables, e, done);
    PutKeepsLinks(tables, e, done);
    PutKeepsCapacity(tables, e, done);
  }

  lemma SettledKeepsHistory(tables: Tables, done: map<nat, Resolution>)
    requires HistoryInv(tables)
    ensures HistoryInv(Settled(tables, done))
  {
    forall place ensures HistoryAt(Settled(tables, done), place) { assert HistoryAt(tables, place); }
  }

  // ---------- rejecting and creating ----------

  lemma RejectPreserves(rules: Rules, tables: Tables, r: Resolution, nextId: nat, later: nat)
    requires TablesInv(rules, tables, nextId) && nextId <= later
    requires Settles(tables, r) && r.status.Rejected?
    ensures TablesInv(rules, Settled(tables, map[r.proposal.id := r]), later)
  {
    var done := map[r.proposal.id := r];
    var after := Settled(tables, done);
    forall i | 0 <= i < |after.versions| ensures EntryOk(rules, after.versions[i], later) {
      assert EntryOk(rules, tables.versions[i], nextId);
    }
    SettledKeepsHistory(tables, done);
    SettledKeepsProposals(rules, tables, done, nextId);
    LaterIds(rules, after, nextId, later);
    SettledKeepsCapacity(tables, done);
    RejectKeepsPendingAndLinks(tables, r);
  }

  lemma RejectKeepsPendingAndLinks(tables: Tables, r: Resolution)
    requires PendingInv(tables) && LinkInv(tables)
    requires Settles(tables, r) && r.status.Rejected?
    ensures PendingInv(Settled(tables, map[r.proposal.id := r]))
    ensures LinkInv(Settled(tables, map[r.proposal.id := r]))
  {
    var after := Settled(tables, map[r.proposal.id := r]);
    forall id | id in after.proposals ensures PendingFits(after, id) && HasVersion(after, id) {
      assert PendingFits(tables, id) && HasVersion(tables, id);
    }
    forall i | 0 <= i < |after.versions| ensures AcceptedBy(after, after.versions[i]) {
      assert AcceptedBy(tables, tables.versions[i]);
    }
  }

  ghost function WithProposal(tables: Tables, p: Proposal, a: Approval): Tables {
    tables.(proposals := tables.proposals[p.id := StoredProposal(p, Pending, None)], approvals := tables.approvals[a.id := a])
  }

  ghost predicate NewPending(rules: Rules, p: Proposal, a: Approval, ids: nat, later: nat) {
    && p.id == ids && p.approvalId == ids + 1 && a.id == ids + 1 && later == ids + 3
    && rules.operationOk(p.body.operation, p.body.key) && ExpectedAt(p.Place(), p.body.expected)
    && a == Approval(ids + 1, MemoryMutation, p.Reference(), Agent(p.body.profileId), ApprovalPending, p.createdAt, None, None)
  }

  lemma KnownIds(rules: Rules, tables: Tables, id: nat, nextId: nat)
    requires ProposalsInv(rules, tables, nextId)
    ensures id in tables.proposals ==> id < nextId
  {
    if id in tables.proposals { assert ProposalOk(rules, tables, id, nextId); }
  }

  lemma CreateKeepsProposals(rules: Rules, tables: Tables, p: Proposal, a: Approval, nextId: nat, ids: nat, later: nat)
    requires ProposalsInv(rules, tables, nextId) && nextId <= ids && NewPending(rules, p, a, ids, later)
    ensures ProposalsInv(rules, WithProposal(tables, p, a), later)
  {
    var after := WithProposal(tables, p, a);
    KnownIds(rules, tables, p.id, nextId);
    forall id | id in after.proposals ensures ProposalOk(rules, after, id, later) {
      if id != p.id { assert ProposalOk(rules, tables, id, nextId); }
    }
  }

  /** The insert goes through: the identifiers are new, there is room, and the expected
      state is the stored current row. */
  lemma CreationWrites(rules: Rules, tables: Tables, p: Proposal, a: Approval, nextId: nat, ids: nat, later: nat)
    requires EntriesInv(rules, tables.versions, nextId) && HistoryInv(tables) && ProposalsInv(rules, tables, nextId)
    requires nextId <= ids && NewPending(rules, p, a, ids, later)
    requires p.body.expected == CurrentExpected(Lookup(tables, p.Place()))
    requires |PendingIn(tables.proposals, p.body.ns)| < MAX_PENDING_PROPOSALS
    ensures InsertProposal(tables, p, a) == Ok(WithProposal(tables, p, a))
  {
    hide EntriesInv, HistoryInv;
    KnownIds(rules, tables, p.id, nextId);
    CurrentOk(rules, tables, p.Place(), nextId);
  }

  lemma CreatePreserves(rules: Rules, tables: Tables, p: Proposal, a: Approval, nextId: nat, ids: nat, later: nat)
    requires TablesInv(rules, tables, nextId) && nextId <= ids && NewPending(rules, p, a, ids, later)
    requires p.body.expected == CurrentExpected(Lookup(tables, p.Place()))
    requires WouldChange(Lookup(tables, p.Place()), p.body.operation)
    requires |PendingIn(tables.proposals, p.body.ns)| < MAX_PENDING_PROPOSALS
    ensures TablesInv(rules, WithProposal(tables, p, a), later)
  {
    var after := WithProposal(tables, p, a);
    CreateKeepsProposals(rules, tables, p, a, nextId, ids, later);
    KnownIds(rules, tables, p.id, nextId);
    forall i | 0 <= i < |after.versions| ensures EntryOk(rules, after.versions[i], later) {
      assert EntryOk(rules, tables.versions[i], nextId);
    }
    CreateKeepsHistory(tables, p, a);
    CreateKeepsPending(tables, p, a);
    CreateKeepsLinks(tables, p, a);
    CreateKeepsCapacity(tables, p, a);
  }

  lemma CreateKeepsHistory(tables: Tables, p: Proposal, a: Approval)
    requires HistoryInv(tables)
    ensures HistoryInv(WithProposal(tables, p, a))
  {
    forall place ensures HistoryAt(WithProposal(tables, p, a), place) { assert HistoryAt(tables, place); }
  }

  lemma CreateKeepsPending(tables: Tables, p: Proposal, a: Approval)
    requires PendingInv(tables)
    requires p.body.expected == CurrentExpected(Lookup(tables, p.Place()))
    requires WouldChange(Lookup(tables, p.Place()), p.body.operation)
    ensures PendingInv(WithProposal(tables, p, a))
  {
    var after := WithProposal(tables, p, a);
    forall id | id in after.proposals ensures PendingFits(after, id) {
      if id != p.id { assert PendingFits(tables, id); }
    }
  }

  lemma CreateKeepsLinks(tables: Tables, p: Proposal, a: Approval)
    requires LinkInv(tables) && p.id !in tables.proposals
    ensures LinkInv(WithProposal(tables, p, a))
  {
    var after := WithProposal(tables, p, a);
    forall id | id in after.proposals ensures HasVersion(after, id) {
      if id != p.id { assert HasVersion(tables, id); }
    }
    forall i | 0 <= i < |after.versions| ensures AcceptedBy(after, after.versions[i]) {
      assert AcceptedBy(tables, tables.versions[i]);
    }
  }

  lemma CreateKeepsCapacity(tables: Tables, p: Proposal, a: Approval)
    requires CapacityInv(tables) && p.id !in tables.proposals
    requires |PendingIn(tables.proposals, p.body.ns)| < MAX_PENDING_PROPOSALS
    ensures CapacityInv(WithProposal(tables, p, a))
  {
    var after := WithProposal(tables, p, a);
    forall ns ensures |PendingIn(after.proposals, ns)| <= MAX_PENDING_PROPOSALS {
      var before, now := PendingIn(tables.proposals, ns), PendingIn(after.proposals, ns);
      assert now == if ns == p.body.ns then before + {p.id} else before;
    }
  }
}
