/** Committing a memory event: every write of a well-built event goes through, in the tables
    and in the projection, and the invariant holds again afterwards. */
module MemoryCommit {
  import opened Prelude
  import opened Sorting
  import opened MemoryDraft
  import opened MemoryTypes
  import opened MemoryStore
  import opened MemoryInvariant
  import opened MemorySteps
  import opened MemoryView

  // ---------- what a new version expires ----------

  ghost predicate OpenAt(tables: Tables, place: Slot, id: nat) {
    id in tables.proposals && tables.proposals[id].status.Pending? && tables.proposals[id].proposal.Place() == place
  }

  /** A fresh version differs from what every open proposal of its key expects. */
  lemma AllSiblingsExpire(rules: Rules, tables: Tables, e: EntryVersion, except: Option<ProposalRef>, nextId: nat)
    requires ProposalsInv(rules, tables, nextId) && PendingInv(tables)
    requires Lookup(tables, e.Place()).Some? ==> Lookup(tables, e.Place()).value.versionId != e.versionId
    ensures forall id :: id in ExpiredIds(tables, e, except) <==>
              OpenAt(tables, e.Place(), id) && except != Some(tables.proposals[id].proposal.Reference())
  {
    forall id | OpenAt(tables, e.Place(), id)
      ensures tables.proposals[id].proposal.body.expected != CurrentExpected(Some(e))
    {
      assert PendingFits(tables, id);
    }
  }

  lemma OneExpirationPerId(tables: Tables, e: EntryVersion, except: Option<ProposalRef>)
    ensures var rs, ids := Expirations(tables, e, except), ExpiredIds(tables, e, except);
            && (forall i | 0 <= i < |rs| ::
                  rs[i].proposal.id in ids && rs[i] == ExpirationIn(tables, e)(rs[i].proposal.id))
            && (forall i, j | 0 <= i < j < |rs| :: rs[i].proposal.id != rs[j].proposal.id)
            && (forall id | id in ids :: Targets(rs, id))
    requires forall id | id in tables.proposals :: tables.proposals[id].proposal.id == id
  {
    NatLeTotal();
    var ids := ExpiredIds(tables, e, except);
    var order, rs := Enumerate(NatLe, ids), Expirations(tables, e, except);
    EnumerateMeaning(NatLe, ids);
    forall i | 0 <= i < |rs| ensures rs[i].proposal.id == order[i] && order[i] in ids {
      assert order[i] in order;
    }
    forall id | id in ids ensures Targets(rs, id) {
      var i :| 0 <= i < |order| && order[i] == id;
      assert rs[i].proposal.id == id;
    }
  }

  /** The expirations of an event: one for each open sibling, each applicable. */
  lemma ExpirationsSettle(rules: Rules, tables: Tables, e: EntryVersion, except: Option<ProposalRef>, nextId: nat)
    requires ProposalsInv(rules, tables, nextId) && PendingInv(tables)
    requires Lookup(tables, e.Place()).Some? ==> Lookup(tables, e.Place()).value.versionId != e.versionId
    ensures var rs := Expirations(tables, e, except);
            && DistinctTargets(rs)
            && (forall i | 0 <= i < |rs| :: Settles(tables, rs[i]) && rs[i].status.Expired?)
            && (forall id :: Targets(rs, id) <==>
                  OpenAt(tables, e.Place(), id) && except != Some(tables.proposals[id].proposal.Reference()))
  {
    AllSiblingsExpire(rules, tables, e, except, nextId);
    forall id | id in tables.proposals
      ensures tables.proposals[id].proposal.id == id
      ensures tables.proposals[id].status.Pending? ==>
                Settles(tables, ExpirationIn(tables, e)(id)) && ExpirationIn(tables, e)(id).status.Expired?
    {
      assert ProposalOk(rules, tables, id, nextId);
    }
    OneExpirationPerId(tables, e, except);
  }

  // ---------- committing an event ----------

  /** `e` is a well-built next version of its key, with fresh identifiers. */
  ghost predicate Buildable(rules: Rules, tables: Tables, e: EntryVersion, ids: nat, later: nat) {
    && EntryOk(rules, e, later)
    && Extends(Lookup(tables, e.Place()), e)
    && FreshIn(Lookup(tables, e.Place()), e, ids, later)
  }

  /** The part of the invariant that makes every write of an event go through. */
  ghost predicate Writable(rules: Rules, tables: Tables, nextId: nat) {
    && EntriesInv(rules, tables.versions, nextId)
    && HistoryInv(tables)
    && ProposalsInv(rules, tables, nextId)
    && (forall ns :: |PendingIn(tables.proposals, ns)| <= MAX_PENDING_PROPOSALS)
  }

  /** Both the tables and the projection take the version. */
  lemma EntryCommits(rules: Rules, tables: Tables, e: EntryVersion, nextId: nat, ids: nat, later: nat)
    requires Writable(rules, tables, nextId) && nextId <= ids && Buildable(rules, tables, e, ids, later)
    ensures AcceptedIsStored(tables.proposals, e) ==> InsertEntry(tables, e) == Ok(AddEntry(tables, e))
    ensures ApplyEntry(View(tables), e) == Ok(View(AddEntry(tables, e)))
  {
    hide Extends, EntryOk, FreshIn, InsertEntry, ApplyEntry, View;
    if AcceptedIsStored(tables.proposals, e) { InsertSucceeds(rules, tables, e, nextId, ids, later); }
    IdentitiesHold(rules, tables, e, nextId, ids, later);
    ProposalsStayStructured(rules, tables, nextId);
    VersionIsBounded(rules, e, later);
    ViewApply(tables, e);
  }

  lemma VersionIsBounded(rules: Rules, e: EntryVersion, later: nat)
    requires EntryOk(rules, e, later)
    ensures e.version <= U64_MAX
  {}

  ghost predicate AllOpen(tables: Tables, rs: seq<Resolution>) {
    DistinctTargets(rs) && forall i | 0 <= i < |rs| :: Settles(tables, rs[i])
  }

  lemma AllOpenAfter(tables: Tables, e: EntryVersion, rs: seq<Resolution>)
    requires AllOpen(tables, rs)
    ensures AllOpen(AddEntry(tables, e), rs)
  {
    forall i | 0 <= i < |rs| ensures Settles(AddEntry(tables, e), rs[i]) { assert Settles(tables, rs[i]); }
  }

  lemma AllOpenAfterSettling(tables: Tables, r: Resolution, rs: seq<Resolution>)
    requires AllOpen(tables, rs) && !Targets(rs, r.proposal.id)
    ensures AllOpen(Settled(tables, map[r.proposal.id := r]), rs)
  {
    forall i | 0 <= i < |rs| ensures Settles(Settled(tables, map[r.proposal.id := r]), rs[i]) { SettlesLater(tables, r, rs[i]); }
  }

  /** The tables take a version and its expirations. */
  lemma PutWrites(rules: Rules, tables: Tables, e: EntryVersion, rs: seq<Resolution>, nextId: nat, ids: nat, later: nat)
    requires Writable(rules, tables, nextId) && nextId <= ids && Buildable(rules, tables, e, ids, later)
    requires AcceptedIsStored(tables.proposals, e) && AllOpen(tables, rs)
    ensures Persist(tables, EntrySet(e, rs)) == Ok(AfterEntry(tables, e, ById(rs)))
  {
    hide InsertEntry, ApplyEntry, View, Buildable;
    EntryCommits(rules, tables, e, nextId, ids, later);
    AddEntryProposals(rules, tables, e, nextId);
    AllOpenAfter(tables, e, rs);
    ResolveRowsSettle(rules, AddEntry(tables, e), rs, nextId);
  }

  lemma SettledWritable(rules: Rules, tables: Tables, r: Resolution, nextId: nat)
    requires Writable(rules, tables, nextId) && Settles(tables, r)
    ensures Writable(rules, Settled(tables, map[r.proposal.id := r]), nextId)
  {
    var done := map[r.proposal.id := r];
    SettledKeepsHistory(tables, done);
    SettledKeepsProposals(rules, tables, done, nextId);
    SettledKeepsCapacity(tables, done);
  }

  lemma AcceptIsResolveThenSet(tables: Tables, r: Resolution, e: EntryVersion, rs: seq<Resolution>)
    requires ResolveRow(tables, r).Ok?
    ensures Persist(tables, ProposalAccepted(r, e, rs)) == Persist(ResolveRow(tables, r).value, EntrySet(e, rs))
  {}

  /** The order of settling one proposal and adding the version does not matter. */
  lemma SettleThenAdd(tables: Tables, r: Resolution, e: EntryVersion, rest: map<nat, Resolution>, done: map<nat, Resolution>)
    requires r.proposal.id !in rest && done == rest[r.proposal.id := r]
    ensures AfterEntry(Settled(tables, map[r.proposal.id := r]), e, rest) == AfterEntry(tables, e, done)
    ensures Settled(Settled(AddEntry(tables, e), map[r.proposal.id := r]), rest) == AfterEntry(tables, e, done)
  {
    SettledTwice(AddEntry(tables, e), r, rest);
  }

  /** Accepting writes the proposal, then the version it asked for, then the expirations. */
  lemma AcceptWrites(rules: Rules, tables: Tables, r: Resolution, e: EntryVersion, rs: seq<Resolution>,
      done: map<nat, Resolution>, nextId: nat, ids: nat, later: nat)
    requires Writable(rules, tables, nextId) && nextId <= ids && Buildable(rules, tables, e, ids, later)
    requires Accepts(tables, e, r) && AllOpen(tables, rs) && !Targets(rs, r.proposal.id)
    requires done == ById(rs)[r.proposal.id := r]
    ensures Persist(tables, ProposalAccepted(r, e, rs)) == Ok(AfterEntry(tables, e, done))
  {
    hide Buildable, AllOpen, Targets, Persist, AfterEntry, ResolveRow, Writable, ById;
    var accepted := Settled(tables, map[r.proposal.id := r]);
    WritableProposals(rules, tables, nextId);
    ResolveRowSettles(rules, tables, r, nextId);
    AcceptIsResolveThenSet(tables, r, e, rs);
    SettledWritable(rules, tables, r, nextId);
    AllOpenAfterSettling(tables, r, rs);
    StillBuildable(rules, tables, r, e, ids, later);
    PutWrites(rules, accepted, e, rs, nextId, ids, later);
    ByIdKeys(tables, rs, r.proposal.id);
    SettleThenAdd(tables, r, e, ById(rs), done);
  }

  lemma WritableProposals(rules: Rules, tables: Tables, nextId: nat)
    requires Writable(rules, tables, nextId)
    ensures ProposalsInv(rules, tables, nextId)
  {}

  lemma StillBuildable(rules: Rules, tables: Tables, r: Resolution, e: EntryVersion, ids: nat, later: nat)
    requires Buildable(rules, tables, e, ids, later)
    ensures Buildable(rules, Settled(tables, map[r.proposal.id := r]), e, ids, later)
  {}

  lemma ByIdKeys(tables: Tables, rs: seq<Resolution>, id: nat)
    requires AllOpen(tables, rs)
    ensures id in ById(rs) <==> Targets(rs, id)
  {
    ByIdMeaning(rs);
  }

  // ---------- folding the same event into the projection ----------

  lemma ExpirationTargets(tables: Tables, e: EntryVersion, except: Option<ProposalRef>)
    requires forall id | id in tables.proposals :: tables.proposals[id].proposal.id == id
    ensures (NatLeTotal(); Map(Expirations(tables, e, except), TargetOf()) == Enumerate(NatLe, ExpiredIds(tables, e, except)))
  {
    NatLeTotal();
    var ids := ExpiredIds(tables, e, except);
    var order := Enumerate(NatLe, ids);
    EnumerateMeaning(NatLe, ids);
    forall i | 0 <= i < |order| ensures ExpirationIn(tables, e)(order[i]).proposal.id == order[i] {
      assert order[i] in order;
    }
    assert Map(Expirations(tables, e, except), TargetOf()) == order;
  }

  lemma OpenInView(tables: Tables, r: Resolution)
    requires Settles(tables, r) && tables.proposals[r.proposal.id].resolution.None?
    ensures ProjectedOpen(View(tables), r)
  {}

  lemma CurrentInView(tables: Tables, place: Slot)
    ensures CurrentRef(View(tables), place) == CurrentExpected(Lookup(tables, place))
  {}

  /** Outdated proposals, read from the tables. */
  ghost function OutdatedRows(tables: Tables, e: EntryVersion, selected: Option<nat>): set<nat> {
    set id | id in tables.proposals && selected != Some(id)
             && tables.proposals[id].proposal.Place() == e.Place() && tables.proposals[id].status.Pending?
             && tables.proposals[id].proposal.body.expected != CurrentExpected(Lookup(tables, e.Place()))
  }

  lemma OutdatedOfView(tables: Tables, e: EntryVersion, selected: Option<nat>)
    ensures OutdatedIds(View(tables), e, selected) == OutdatedRows(tables, e, selected)
  {
    CurrentInView(tables, e.Place());
  }

  /** What the reducer recomputes as outdated is what the service listed as expired. */
  lemma OutdatedInView(tables: Tables, e: EntryVersion)
    ensures OutdatedIds(View(AddEntry(tables, e)), e, None) == ExpiredIds(tables, e, None)
  {
    hide OutdatedIds, View;
    OutdatedOfView(AddEntry(tables, e), e, None);
  }

  lemma OutdatedAfterAccepting(rules: Rules, tables: Tables, e: EntryVersion, r: Resolution, nextId: nat)
    requires ProposalsInv(rules, tables, nextId) && Settles(tables, r)
    ensures OutdatedIds(View(Settled(AddEntry(tables, e), map[r.proposal.id := r])), e, Some(r.proposal.id))
            == ExpiredIds(tables, e, Some(r.proposal))
  {
    hide OutdatedIds, View, ProposalsInv;
    OutdatedOfView(Settled(AddEntry(tables, e), map[r.proposal.id := r]), e, Some(r.proposal.id));
    SameReference(rules, tables, r.proposal, nextId);
  }

  ghost predicate PartOf(e: EntryVersion, rs: seq<Resolution>) {
    forall i | 0 <= i < |rs| :: rs[i].status.Expired? && rs[i].eventId == e.eventId && rs[i].resolvedAt == e.createdAt
  }

  lemma ExpirationsArePart(rules: Rules, tables: Tables, e: EntryVersion, except: Option<ProposalRef>, nextId: nat)
    requires ProposalsInv(rules, tables, nextId)
    ensures PartOf(e, Expirations(tables, e, except))
    ensures forall id | id in tables.proposals :: tables.proposals[id].proposal.id == id
  {
    hide Expirations;
    forall id | id in tables.proposals ensures tables.proposals[id].proposal.id == id { assert ProposalOk(rules, tables, id, nextId); }
    OneExpirationPerId(tables, e, except);
  }

  lemma AllOpenInView(rules: Rules, tables: Tables, rs: seq<Resolution>, nextId: nat)
    requires ProposalsInv(rules, tables, nextId) && AllOpen(tables, rs)
    ensures forall i | 0 <= i < |rs| :: ProjectedOpen(View(tables), rs[i])
  {
    hide View, ProjectedOpen;
    forall i | 0 <= i < |rs| ensures ProjectedOpen(View(tables), rs[i]) {
      assert ProposalOk(rules, tables, rs[i].proposal.id, nextId);
      OpenInView(tables, rs[i]);
    }
  }

  /** Expiring what was prepared settles it in the projection as in the tables. */
  lemma ExpireCommits(rules: Rules, tables: Tables, e: EntryVersion, rs: seq<Resolution>, selected: Option<nat>, nextId: nat)
    requires ProposalsInv(rules, tables, nextId) && AllOpen(tables, rs) && PartOf(e, rs)
    requires (NatLeTotal(); Map(rs, TargetOf()) == Enumerate(NatLe, OutdatedIds(View(tables), e, selected)))
    ensures Expire(View(tables), e, rs, selected) == Ok(View(Settled(tables, ById(rs))))
  {
    hide View, ProjectedOpen, OutdatedIds, Enumerate, ProposalsInv, Settled, ById;
    AllOpenInView(rules, tables, rs, nextId);
    ViewResolves(rules, tables, rs, nextId);
  }

  // ---------- direct edits ----------

  lemma FreshVersion(rules: Rules, tables: Tables, e: EntryVersion, nextId: nat, ids: nat, later: nat)
    requires EntriesInv(rules, tables.versions, nextId) && HistoryInv(tables) && nextId <= ids
    requires Buildable(rules, tables, e, ids, later)
    ensures Lookup(tables, e.Place()).Some? ==> Lookup(tables, e.Place()).value.versionId != e.versionId
  {
    CurrentOk(rules, tables, e.Place(), nextId);
  }

  /** The resolutions of `rs` by proposal: each applicable, none left out. */
  lemma ByIdSettles(tables: Tables, rs: seq<Resolution>, done: map<nat, Resolution>)
    requires DistinctTargets(rs) && done == ById(rs)
    requires forall i | 0 <= i < |rs| :: Settles(tables, rs[i]) && rs[i].status.Expired?
    ensures AllSettle(tables, done)
    ensures forall id | id in done :: done[id].status.Expired?
    ensures forall id :: id in done <==> Targets(rs, id)
  {
    ByIdMeaning(rs);
    forall id | id in done
      ensures done[id].proposal.id == id && Settles(tables, done[id]) && done[id].status.Expired?
    {
      var i :| 0 <= i < |rs| && rs[i].proposal.id == id;
    }
  }

  function DirectEvent(e: EntryVersion, rs: seq<Resolution>): Event {
    if e.state.Present? then EntrySet(e, rs) else EntryDeleted(e, rs)
  }

  lemma DeletionIsWrittenLikeASet(tables: Tables, e: EntryVersion, rs: seq<Resolution>)
    ensures Persist(tables, EntryDeleted(e, rs)) == Persist(tables, EntrySet(e, rs))
  {}

  lemma ReduceDirectEvent(p: Projection, e: EntryVersion, rs: seq<Resolution>)
    requires e.accepted.None? && ApplyEntry(p, e).Ok?
    ensures Reduce(p, DirectEvent(e, rs)) == Expire(ApplyEntry(p, e).value, e, rs, None)
  {}

  lemma DirectPersists(rules: Rules, tables: Tables, e: EntryVersion, rs: seq<Resolution>, nextId: nat, ids: nat, later: nat)
    requires Writable(rules, tables, nextId) && PendingInv(tables) && nextId <= ids && Buildable(rules, tables, e, ids, later)
    requires e.accepted.None? && rs == Expirations(tables, e, None)
    ensures Persist(tables, DirectEvent(e, rs)) == Ok(AfterEntry(tables, e, ById(rs)))
    ensures Reduce(View(tables), DirectEvent(e, rs)) == Ok(View(AfterEntry(tables, e, ById(rs))))
  {
    hide Buildable, Persist, Reduce, View, ApplyEntry, Expire, Expirations, ExpiredIds, OutdatedIds, Writable, PendingInv;
    hide ProposalsInv, ById, Settled, Settles, Targets, OpenAt, EntriesInv, HistoryInv, Enumerate;
    WritableProposals(rules, tables, nextId);
    WritableEntries(rules, tables, nextId);
    FreshVersion(rules, tables, e, nextId, ids, later);
    ExpirationsSettle(rules, tables, e, None, nextId);
    ExpirationsArePart(rules, tables, e, None, nextId);
    PutWrites(rules, tables, e, rs, nextId, ids, later);
    DeletionIsWrittenLikeASet(tables, e, rs);
    EntryCommits(rules, tables, e, nextId, ids, later);
    ReduceDirectEvent(View(tables), e, rs);
    AddEntryProposals(rules, tables, e, nextId);
    AllOpenAfter(tables, e, rs);
    OutdatedInView(tables, e);
    ExpirationTargets(tables, e, None);
    ExpireCommits(rules, AddEntry(tables, e), e, rs, None, nextId);
  }

  lemma WritableEntries(rules: Rules, tables: Tables, nextId: nat)
    requires Writable(rules, tables, nextId)
    ensures EntriesInv(rules, tables.versions, nextId) && HistoryInv(tables)
  {}

  /** Expirations that leave out `except` settle every other open proposal of the key. */
  lemma ExpirationsById(rules: Rules, tables: Tables, e: EntryVersion, except: Option<ProposalRef>,
      rs: seq<Resolution>, done: map<nat, Resolution>, nextId: nat)
    requires ProposalsInv(rules, tables, nextId) && PendingInv(tables)
    requires Lookup(tables, e.Place()).Some? ==> Lookup(tables, e.Place()).value.versionId != e.versionId
    requires rs == Expirations(tables, e, except) && done == ById(rs)
    ensures AllSettle(tables, done)
    ensures forall id | id in done :: done[id].status.Expired?
    ensures forall id :: id in done <==>
              OpenAt(tables, e.Place(), id) && except != Some(tables.proposals[id].proposal.Reference())
  {
    ExpirationsSettle(rules, tables, e, except, nextId);
    ByIdSettles(tables, rs, done);
  }

  lemma DirectSettlement(tables: Tables, e: EntryVersion, done: map<nat, Resolution>)
    requires AllSettle(tables, done) && e.accepted.None?
    requires forall id | id in done :: done[id].status.Expired?
    requires forall id :: id in done <==> OpenAt(tables, e.Place(), id)
    ensures Settlement(tables, e, done)
  {
    forall id | OpenAt(tables, e.Place(), id) ensures id in done {}
  }

  lemma DirectPreserves(rules: Rules, tables: Tables, e: EntryVersion, rs: seq<Resolution>, done: map<nat, Resolution>,
      nextId: nat, ids: nat, later: nat)
    requires TablesInv(rules, tables, nextId) && nextId <= ids && Buildable(rules, tables, e, ids, later)
    requires e.accepted.None? && RoomFor(tables, e)
    requires rs == Expirations(tables, e, None) && done == ById(rs)
    ensures TablesInv(rules, AfterEntry(tables, e, done), later)
  {
    assert Settlement(tables, e, done) by {
      FreshVersion(rules, tables, e, nextId, ids, later);
      ExpirationsById(rules, tables, e, None, rs, done, nextId);
      DirectSettlement(tables, e, done);
    }
    PutPreserves(rules, tables, e, done, nextId, ids, later);
  }

  // ---------- accepting ----------

  ghost predicate Accepts(tables: Tables, e: EntryVersion, r: Resolution) {
    && Settles(tables, r) && r.status.Accepted? && r.eventId == e.eventId && r.resolvedAt == e.createdAt
    && e.accepted == Some(r.proposal)
    && tables.proposals[r.proposal.id].proposal.Place() == e.Place()
    && CarriesOut(e, tables.proposals[r.proposal.id].proposal.body.operation)
  }

  /** Accepting one open proposal of a key and expiring the others settles the key. */
  lemma AcceptOneExpireOthers(tables: Tables, e: EntryVersion, r: Resolution, rest: map<nat, Resolution>,
      done: map<nat, Resolution>)
    requires Accepts(tables, e, r) && AllSettle(tables, rest) && done == rest[r.proposal.id := r]
    requires forall id | id in rest :: rest[id].status.Expired?
    requires forall id :: id in rest <==> OpenAt(tables, e.Place(), id) && id != r.proposal.id
    ensures Settlement(tables, e, done)
  {
    forall id | id in done
      ensures done[id].proposal.id == id && Settles(tables, done[id])
      ensures tables.proposals[id].proposal.Place() == e.Place()
      ensures done[id].status.Accepted? ==> e.accepted == Some(done[id].proposal)
    {
      assert id == r.proposal.id || (id in rest && OpenAt(tables, e.Place(), id));
    }
    forall id | OpenAt(tables, e.Place(), id) ensures id in done {}
  }

  lemma AcceptSettlement(rules: Rules, tables: Tables, e: EntryVersion, r: Resolution,
      rs: seq<Resolution>, rest: map<nat, Resolution>, done: map<nat, Resolution>, nextId: nat)
    requires ProposalsInv(rules, tables, nextId) && PendingInv(tables) && Accepts(tables, e, r)
    requires Lookup(tables, e.Place()).Some? ==> Lookup(tables, e.Place()).value.versionId != e.versionId
    requires rs == Expirations(tables, e, Some(r.proposal)) && rest == ById(rs) && done == rest[r.proposal.id := r]
    ensures Settlement(tables, e, done) && r.proposal.id !in rest
  {
    ExpirationsById(rules, tables, e, Some(r.proposal), rs, rest, nextId);
    SameReference(rules, tables, r.proposal, nextId);
    AcceptOneExpireOthers(tables, e, r, rest, done);
  }

  /** A reference determines its proposal: the identifier is part of it. */
  lemma SameReference(rules: Rules, tables: Tables, reference: ProposalRef, nextId: nat)
    requires ProposalsInv(rules, tables, nextId)
    ensures forall id | id in tables.proposals && tables.proposals[id].proposal.Reference() == reference :: id == reference.id
  {
    forall id | id in tables.proposals && tables.proposals[id].proposal.Reference() == reference ensures id == reference.id {
      assert ProposalOk(rules, tables, id, nextId);
    }
  }

  lemma AcceptPreserves(rules: Rules, tables: Tables, e: EntryVersion, r: Resolution, rs: seq<Resolution>,
      done: map<nat, Resolution>, nextId: nat, ids: nat, later: nat)
    requires TablesInv(rules, tables, nextId) && nextId <= ids && Buildable(rules, tables, e, ids, later)
    requires RoomFor(tables, e) && Accepts(tables, e, r)
    requires rs == Expirations(tables, e, Some(r.proposal)) && done == ById(rs)[r.proposal.id := r]
    ensures TablesInv(rules, AfterEntry(tables, e, done), later)
  {
    assert Settlement(tables, e, done) by {
      FreshVersion(rules, tables, e, nextId, ids, later);
      AcceptSettlement(rules, tables, e, r, rs, ById(rs), done, nextId);
    }
    PutPreserves(rules, tables, e, done, nextId, ids, later);
  }

  /** The reducer finds the accepted proposal open and still current. */
  lemma ResolutionFitsView(rules: Rules, tables: Tables, r: Resolution, nextId: nat)
    requires ProposalsInv(rules, tables, nextId) && PendingInv(tables) && Settles(tables, r)
    ensures ResolutionFits(View(tables), r, r.status)
    ensures View(tables).proposals[r.proposal.id].place == tables.proposals[r.proposal.id].proposal.Place()
  {
    var id := r.proposal.id;
    assert ProposalOk(rules, tables, id, nextId) && PendingFits(tables, id);
    OpenInView(tables, r);
    CurrentInView(tables, tables.proposals[id].proposal.Place());
    assert View(tables).proposals[id] == ProjectedOf(tables.proposals[id]);
  }

  lemma ReduceAcceptance(p: Projection, r: Resolution, e: EntryVersion, rs: seq<Resolution>, applied: Projection, accepted: Projection)
    requires ResolutionFits(p, r, Accepted) && e.Place() == p.proposals[r.proposal.id].place && e.accepted == Some(r.proposal)
    requires r.eventId == e.eventId && r.resolvedAt == e.createdAt
    requires ApplyEntry(p, e) == Ok(applied) && ResolveProposal(applied, r) == Ok(accepted)
    ensures Reduce(p, ProposalAccepted(r, e, rs)) == Expire(accepted, e, rs, Some(r.proposal.id))
  {
    hide ApplyEntry, ResolveProposal, Expire, ResolutionFits;
  }

  lemma SettlesAfterAdding(tables: Tables, e: EntryVersion, r: Resolution)
    requires Settles(tables, r)
    ensures Settles(AddEntry(tables, e), r)
  {}

  lemma AcceptReduces(rules: Rules, tables: Tables, e: EntryVersion, r: Resolution, rs: seq<Resolution>,
      done: map<nat, Resolution>, nextId: nat, ids: nat, later: nat)
    requires Writable(rules, tables, nextId) && PendingInv(tables) && nextId <= ids && Buildable(rules, tables, e, ids, later)
    requires Accepts(tables, e, r) && AllOpen(tables, rs) && !Targets(rs, r.proposal.id)
    requires rs == Expirations(tables, e, Some(r.proposal)) && done == ById(rs)[r.proposal.id := r]
    ensures Reduce(View(tables), ProposalAccepted(r, e, rs)) == Ok(View(AfterEntry(tables, e, done)))
  {
    hide Buildable, Persist, Reduce, View, ApplyEntry, ResolveProposal, Expire, Expirations, ExpiredIds, OutdatedIds, Writable;
    hide PendingInv, ProposalsInv, ById, Settled, Settles, Targets, AllOpen, ResolutionFits, PartOf, Enumerate, AfterEntry;
    var added := AddEntry(tables, e);
    var accepted := Settled(added, map[r.proposal.id := r]);
    WritableProposals(rules, tables, nextId);
    EntryCommits(rules, tables, e, nextId, ids, later);
    ResolutionFitsView(rules, tables, r, nextId);
    AddEntryProposals(rules, tables, e, nextId);
    SettlesAfterAdding(tables, e, r);
    ViewResolve(rules, added, r, nextId);
    ReduceAcceptance(View(tables), r, e, rs, View(added), View(accepted));
    AllOpenAfter(tables, e, rs);
    AllOpenAfterSettling(added, r, rs);
    AcceptedProposalsHold(rules, added, r, nextId);
    ExpirationsArePart(rules, tables, e, Some(r.proposal), nextId);
    OutdatedAfterAccepting(rules, tables, e, r, nextId);
    ExpirationTargets(tables, e, Some(r.proposal));
    ExpireCommits(rules, accepted, e, rs, Some(r.proposal.id), nextId);
    ByIdKeys(tables, rs, r.proposal.id);
    SettleThenAdd(tables, r, e, ById(rs), done);
  }

  lemma AcceptedProposalsHold(rules: Rules, tables: Tables, r: Resolution, nextId: nat)
    requires ProposalsInv(rules, tables, nextId) && Settles(tables, r)
    ensures ProposalsInv(rules, Settled(tables, map[r.proposal.id := r]), nextId)
  {
    SettledKeepsProposals(rules, tables, map[r.proposal.id := r], nextId);
  }

  lemma AcceptPersists(rules: Rules, tables: Tables, e: EntryVersion, r: Resolution, rs: seq<Resolution>,
      done: map<nat, Resolution>, nextId: nat, ids: nat, later: nat)
    requires Writable(rules, tables, nextId) && PendingInv(tables) && nextId <= ids && Buildable(rules, tables, e, ids, later)
    requires Accepts(tables, e, r)
    requires rs == Expirations(tables, e, Some(r.proposal)) && done == ById(rs)[r.proposal.id := r]
    ensures Persist(tables, ProposalAccepted(r, e, rs)) == Ok(AfterEntry(tables, e, done))
    ensures Reduce(View(tables), ProposalAccepted(r, e, rs)) == Ok(View(AfterEntry(tables, e, done)))
  {
    hide Buildable, Persist, Reduce, View, Expirations, Writable, PendingInv, ProposalsInv, ById, AfterEntry, Accepts;
    hide EntriesInv, HistoryInv, Settles, Targets, OpenAt;
    WritableProposals(rules, tables, nextId);
    WritableEntries(rules, tables, nextId);
    FreshVersion(rules, tables, e, nextId, ids, later);
    ExpirationsSettle(rules, tables, e, Some(r.proposal), nextId);
    AcceptSettlement(rules, tables, e, r, rs, ById(rs), done, nextId);
    ByIdKeys(tables, rs, r.proposal.id);
    AcceptWrites(rules, tables, r, e, rs, done, nextId, ids, later);
    AcceptReduces(rules, tables, e, r, rs, done, nextId, ids, later);
  }
}
