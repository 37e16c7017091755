/** The reducer of src/memory/projection.rs follows the tables: reducing an event into
    the projection the tables stand for gives the projection of the tables it produces. */
module MemoryView {
  import opened Prelude
  import opened MemoryTypes
  import opened MemoryStore
  import opened MemoryInvariant
  import opened MemorySteps

  // ---------- resolving ----------

  lemma SettledView(proposals: map<nat, StoredProposal>, r: Resolution)
    requires r.proposal.id in proposals
    ensures var id := r.proposal.id;
            ViewProposals(SettledProposals(proposals, map[id := r]))
            == ViewProposals(proposals)[id := ProjectedOf(StoredProposal(proposals[id].proposal, r.status, Some(r)))]
  {
    var id, after := r.proposal.id, SettledProposals(proposals, map[r.proposal.id := r]);
    forall other | other in proposals && other != id ensures after[other] == proposals[other] {}
  }

  lemma ViewResolve(rules: Rules, tables: Tables, r: Resolution, nextId: nat)
    requires ProposalsInv(rules, tables, nextId) && Settles(tables, r)
    ensures ResolveProposal(View(tables), r) == Ok(View(Settled(tables, map[r.proposal.id := r])))
  {
    SettledView(tables.proposals, r);
    assert ProjectedOf(tables.proposals[r.proposal.id]).status.Pending?;
  }

  lemma {:induction false} ViewResolves(rules: Rules, tables: Tables, rs: seq<Resolution>, nextId: nat)
    requires ProposalsInv(rules, tables, nextId) && DistinctTargets(rs)
    requires forall i | 0 <= i < |rs| :: Settles(tables, rs[i])
    ensures ResolveProposals(View(tables), rs) == Ok(View(Settled(tables, ById(rs))))
    decreases |rs|
  {
    if rs == [] {
      SettledNothing(tables);
    } else {
      var next := Settled(tables, map[rs[0].proposal.id := rs[0]]);
      ViewResolve(rules, tables, rs[0], nextId);
      SettleFirst(rules, tables, rs, next, nextId);
      ViewResolves(rules, next, rs[1..], nextId);
    }
  }

  // ---------- applying an entry ----------

  /** Current rows sit at their own keys and share no identity; `e` continues its key
      and is new everywhere else. */
  ghost predicate Identities(current: map<Slot, EntryVersion>, e: EntryVersion) {
    && (forall place | place in current ::
          && current[place].Place() == place
          && current[place].versionId != e.versionId
          && (place == e.Place() <==> current[place].entryId == e.entryId))
    && (forall a, b | a in current && b in current && a != b ::
          current[a].versionId != current[b].versionId && current[a].entryId != current[b].entryId)
  }

  lemma IdentitiesHold(rules: Rules, tables: Tables, e: EntryVersion, nextId: nat, ids: nat, later: nat)
    requires EntriesInv(rules, tables.versions, nextId) && HistoryInv(tables) && nextId <= ids
    requires EntryOk(rules, e, later) && Extends(Lookup(tables, e.Place()), e)
    requires FreshIn(Lookup(tables, e.Place()), e, ids, later)
    ensures Identities(tables.current, e)
  {
    AddEntryEntries(rules, tables, e, nextId, ids, later);
    forall place | place in tables.current
      ensures exists i :: 0 <= i < |tables.versions| && tables.versions[i] == tables.current[place]
      ensures tables.current[place].Place() == place
    {
      CurrentOk(rules, tables, place, nextId);
    }
  }

  lemma EntriesStayStructured(current: map<Slot, EntryVersion>, e: EntryVersion)
    requires Identities(current, e)
    ensures !Collides(ViewEntries(current), e)
    ensures EntriesStructured(ViewEntries(current[e.Place() := e]))
    ensures ViewEntries(current[e.Place() := e]) == ViewEntries(current)[e.Place() := e.Reference()]
  {}

  lemma ProposalsStayStructured(rules: Rules, tables: Tables, nextId: nat)
    requires ProposalsInv(rules, tables, nextId)
    requires forall ns :: |PendingIn(tables.proposals, ns)| <= MAX_PENDING_PROPOSALS
    ensures ProposalsStructured(View(tables).proposals) && PendingBounded(View(tables).proposals)
  {
    forall id | id in tables.proposals
      ensures var s := tables.proposals[id];
              s.proposal.id == id && ExpectedAt(s.proposal.Place(), s.proposal.body.expected)
              && (s.status.Pending? <==> s.resolution.None?)
    {
      assert ProposalOk(rules, tables, id, nextId);
    }
    forall ns ensures ProjectedPendingIn(View(tables).proposals, ns) == PendingIn(tables.proposals, ns) {}
  }

  lemma ViewApply(tables: Tables, e: EntryVersion)
    requires Identities(tables.current, e) && Extends(Lookup(tables, e.Place()), e) && e.version <= U64_MAX
    requires ProposalsStructured(View(tables).proposals) && PendingBounded(View(tables).proposals)
    ensures ApplyEntry(View(tables), e) == Ok(View(AddEntry(tables, e)))
  {
    EntriesStayStructured(tables.current, e);
    var p := View(tables);
    assert Continues(p.entries, e);
    var staged := p.(entries := p.entries[e.Place() := e.Reference()]);
    assert staged == View(AddEntry(tables, e));
    assert CheckStructure(staged).Ok?;
  }

  // ---------- creating ----------

  lemma ViewCreate(tables: Tables, p: Proposal, a: Approval)
    requires p.id !in tables.proposals && |PendingIn(tables.proposals, p.body.ns)| < MAX_PENDING_PROPOSALS
    ensures CreateProposal(View(tables), p) == Ok(View(WithProposal(tables, p, a)))
  {
    var ns := p.body.ns;
    assert ProjectedPendingIn(View(tables).proposals, ns) == PendingIn(tables.proposals, ns);
    var result := CreateProposal(View(tables), p);
    assert result.value.proposals == View(WithProposal(tables, p, a)).proposals;
  }
}
