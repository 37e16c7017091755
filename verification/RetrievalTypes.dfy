/** Memory snapshots of src/memory/retrieval.rs: scopes, budgets, items, accounting,
    and the two independent validators (of a snapshot, and of its metadata). */
module RetrievalTypes {
  import opened Prelude
  import opened Sorting
  import opened MemoryDraft
  import opened MemoryTypes

  datatype RetrievalError = InvalidScope | InvalidSnapshot | Overflow

  datatype Purpose = General | Tagged(tags: seq<string>)
  datatype Scope = Scope(profile: nat, ns: nat, purpose: Purpose)
  datatype Budget = Budget(maxEntries: nat, maxSummaries: nat, maxBytes: nat, maxSources: nat)
  datatype SnapshotRequest = SnapshotRequest(scope: Scope, budget: Budget)

  datatype KvItem = KvItem(entry: EntryRef, displayKey: string, value: string, tags: seq<string>)

  datatype SourceRef = SourceRef(sequence: nat, eventId: nat)
  datatype SummaryRef = SummaryRef(ns: nat, profile: nat, id: nat, creationSequence: nat, sourceSetDigest: nat, contentDigest: nat)
  datatype EpisodicItem = EpisodicItem(
    summary: SummaryRef, heading: string, body: string, tags: seq<string>, sources: seq<SourceRef>, createdAt: int)

  datatype Accounting = Accounting(
    eligibleEntries: nat, acceptedEntries: nat, omittedEntries: nat,
    eligibleSummaries: nat, acceptedSummaries: nat, omittedSummaries: nat,
    acceptedBytes: nat, omittedBytes: nat, acceptedSources: nat, omittedSources: nat)

  datatype EntryOrder = EntryOrder(entryId: nat, versionId: nat, rank: nat)
  datatype SummaryOrder = SummaryOrder(summaryId: nat, rank: nat, createdAt: int)

  /** What a snapshot digest covers, which is also everything its metadata shows. */
  datatype Material = Material(
    scope: Scope, budget: Budget, entryRefs: seq<EntryRef>, summaryRefs: seq<SummaryRef>,
    entryOrder: seq<EntryOrder>, summaryOrder: seq<SummaryOrder>, accounting: Accounting)

  datatype Snapshot = Snapshot(
    scope: Scope, budget: Budget, entries: seq<KvItem>, summaries: seq<EpisodicItem>, accounting: Accounting, digest: nat)

  datatype Metadata = Metadata(material: Material, digest: nat)

  /** Serialised lengths and the snapshot digest. */
  datatype Codec = Codec(kvBytes: KvItem -> nat, episodicBytes: EpisodicItem -> nat, digest: Material -> nat)

  // ---------- eligibility and order ----------

  predicate PurposeMatches(purpose: Purpose, tags: seq<string>) {
    match purpose
    case General => tags == []
    case Tagged(wanted) => tags == [] || exists tag | tag in tags :: tag in wanted
  }

  function Rank(purpose: Purpose, tags: seq<string>): nat {
    match purpose
    case General => 0
    case Tagged(wanted) => if exists tag | tag in tags :: tag in wanted then 0 else 1
  }

  predicate EntryEligible(scope: Scope, item: KvItem) {
    item.entry.ns == scope.ns && item.entry.state.Present? && PurposeMatches(scope.purpose, item.tags)
  }

  predicate SummaryEligible(scope: Scope, item: EpisodicItem) {
    item.summary.ns == scope.ns && item.summary.profile == scope.profile && PurposeMatches(scope.purpose, item.tags)
  }

  /** References in sort-key order: key, version, entry, version id. */
  predicate RefLe(a: EntryRef, b: EntryRef) {
    if a.key != b.key then TextLe(a.key, b.key)
    else if a.version != b.version then a.version < b.version
    else if a.entryId != b.entryId then a.entryId < b.entryId
    else a.versionId <= b.versionId
  }

  /** Entries by relevance, then by reference. */
  function EntriesInOrder(purpose: Purpose): (KvItem, KvItem) -> bool {
    (a: KvItem, b: KvItem) =>
      if Rank(purpose, a.tags) != Rank(purpose, b.tags) then Rank(purpose, a.tags) < Rank(purpose, b.tags)
      else RefLe(a.entry, b.entry)
  }

  /** Summaries by relevance, newest first, then by id. */
  function SummariesInOrder(purpose: Purpose): (EpisodicItem, EpisodicItem) -> bool {
    (a: EpisodicItem, b: EpisodicItem) =>
      if Rank(purpose, a.tags) != Rank(purpose, b.tags) then Rank(purpose, a.tags) < Rank(purpose, b.tags)
      else if a.createdAt != b.createdAt then a.createdAt > b.createdAt
      else a.summary.id <= b.summary.id
  }

  function EntryIdentity(item: KvItem): (nat, nat) { (item.entry.entryId, item.entry.versionId) }
  function SummaryIdentity(item: EpisodicItem): nat { item.summary.id }

  predicate DistinctRefs(entries: seq<KvItem>, summaries: seq<EpisodicItem>) {
    && (forall i, j | 0 <= i < j < |entries| :: EntryIdentity(entries[i]) != EntryIdentity(entries[j]))
    && (forall i, j | 0 <= i < j < |summaries| :: SummaryIdentity(summaries[i]) != SummaryIdentity(summaries[j]))
  }

  // ---------- sums ----------

  function KvBytes(codec: Codec, items: seq<KvItem>): nat {
    if items == [] then 0 else codec.kvBytes(items[0]) + KvBytes(codec, items[1..])
  }

  function EpisodicBytes(codec: Codec, items: seq<EpisodicItem>): nat {
    if items == [] then 0 else codec.episodicBytes(items[0]) + EpisodicBytes(codec, items[1..])
  }

  function SourceCount(items: seq<EpisodicItem>): nat {
    if items == [] then 0 else |items[0].sources| + SourceCount(items[1..])
  }

  function Add(a: nat, b: nat): Result<nat, RetrievalError> {
    if a + b <= U64_MAX then Ok(a + b) else Err(Overflow)
  }

  // ---------- the snapshot validator ----------

  /** Every accepted total recomputed from the items, with checked additions. */
  function ValidateAccounting(codec: Codec, budget: Budget, entries: seq<KvItem>, summaries: seq<EpisodicItem>,
      a: Accounting): Result<(), RetrievalError>
  {
    var bytes, sources := KvBytes(codec, entries) + EpisodicBytes(codec, summaries), SourceCount(summaries);
    if bytes > U64_MAX || sources > U64_MAX || |entries| > U64_MAX || |summaries| > U64_MAX then Err(Overflow)
    else if a.acceptedEntries != |entries| || a.acceptedSummaries != |summaries|
            || a.acceptedBytes != bytes || a.acceptedSources != sources then Err(InvalidSnapshot)
    else
      var entryTotal :- Add(a.acceptedEntries, a.omittedEntries);
      if a.eligibleEntries != entryTotal then Err(InvalidSnapshot)
      else
        var summaryTotal :- Add(a.acceptedSummaries, a.omittedSummaries);
        if a.eligibleSummaries != summaryTotal || bytes > budget.maxBytes || sources > budget.maxSources
        then Err(InvalidSnapshot)
        else Ok(())
  }

  /** Counts within budget, everything eligible, a re-sort that changes nothing, no
      reference twice, and the accounting. */
  function ValidateShape(codec: Codec, scope: Scope, budget: Budget, entries: seq<KvItem>, summaries: seq<EpisodicItem>,
      a: Accounting): Result<(), RetrievalError>
  {
    if |entries| > budget.maxEntries || |summaries| > budget.maxSummaries then Err(InvalidSnapshot)
    else if (exists i | 0 <= i < |entries| :: !EntryEligible(scope, entries[i]))
            || (exists i | 0 <= i < |summaries| :: !SummaryEligible(scope, summaries[i])) then Err(InvalidSnapshot)
    else if Sort(EntriesInOrder(scope.purpose), entries) != entries
            || Sort(SummariesInOrder(scope.purpose), summaries) != summaries then Err(InvalidSnapshot)
    else if !DistinctRefs(entries, summaries) then Err(InvalidSnapshot)
    else ValidateAccounting(codec, budget, entries, summaries, a)
  }

  function EntryRefOf(): KvItem -> EntryRef { (item: KvItem) => item.entry }
  function SummaryRefOf(): EpisodicItem -> SummaryRef { (item: EpisodicItem) => item.summary }

  function EntryOrderOf(purpose: Purpose): KvItem -> EntryOrder {
    (item: KvItem) => EntryOrder(item.entry.entryId, item.entry.versionId, Rank(purpose, item.tags))
  }

  function SummaryOrderOf(purpose: Purpose): EpisodicItem -> SummaryOrder {
    (item: EpisodicItem) => SummaryOrder(item.summary.id, Rank(purpose, item.tags), item.createdAt)
  }

  function MaterialOf(scope: Scope, budget: Budget, entries: seq<KvItem>, summaries: seq<EpisodicItem>, a: Accounting): Material {
    Material(scope, budget, Map(entries, EntryRefOf()), Map(summaries, SummaryRefOf()),
      Map(entries, EntryOrderOf(scope.purpose)), Map(summaries, SummaryOrderOf(scope.purpose)), a)
  }

  function SnapshotMaterial(s: Snapshot): Material {
    MaterialOf(s.scope, s.budget, s.entries, s.summaries, s.accounting)
  }

  function Validate(codec: Codec, s: Snapshot): Result<(), RetrievalError> {
    var _ :- ValidateShape(codec, s.scope, s.budget, s.entries, s.summaries, s.accounting);
    if codec.digest(SnapshotMaterial(s)) != s.digest then Err(InvalidSnapshot) else Ok(())
  }

  /** `MemorySnapshot::from_parts`: the only way a snapshot comes to be. */
  function FromParts(codec: Codec, s: Snapshot): Result<Snapshot, RetrievalError> {
    var _ :- Validate(codec, s);
    Ok(s)
  }

  function MetadataOf(s: Snapshot): Metadata { Metadata(SnapshotMaterial(s), s.digest) }

  /** Rebuild a snapshot from stored metadata and the items read back. */
  function Replay(codec: Codec, m: Metadata, entries: seq<KvItem>, summaries: seq<EpisodicItem>): Result<Snapshot, RetrievalError> {
    var s :- FromParts(codec, Snapshot(m.material.scope, m.material.budget, entries, summaries, m.material.accounting, m.digest));
    if MetadataOf(s) != m then Err(InvalidSnapshot) else Ok(s)
  }

  // ---------- the metadata validator ----------

  /** Neighbouring entry references in order under the ranks recorded for them. */
  predicate RefsOrdered(refs: seq<EntryRef>, orders: seq<EntryOrder>)
    requires |refs| == |orders|
  {
    forall i | 0 <= i < |refs| - 1 ::
      !(orders[i].rank > orders[i + 1].rank || (orders[i].rank == orders[i + 1].rank && !RefLe(refs[i], refs[i + 1])))
  }

  predicate SummariesOrdered(refs: seq<SummaryRef>, orders: seq<SummaryOrder>)
    requires |refs| == |orders|
  {
    forall i | 0 <= i < |refs| - 1 ::
      !(orders[i].rank > orders[i + 1].rank
        || (orders[i].rank == orders[i + 1].rank
            && (orders[i].createdAt < orders[i + 1].createdAt
                || (orders[i].createdAt == orders[i + 1].createdAt && refs[i].id > refs[i + 1].id))))
  }

  predicate ValidRank(scope: Scope, rank: nat) { rank <= 1 && (scope.purpose.General? ==> rank == 0) }

  /** `validate_metadata_order`: ranks and identities position by position, then pairs. */
  predicate MetadataOrdered(m: Material) {
    && |m.entryRefs| == |m.entryOrder| && |m.summaryRefs| == |m.summaryOrder|
    && (forall i | 0 <= i < |m.entryRefs| ::
          && m.entryRefs[i].entryId == m.entryOrder[i].entryId && m.entryRefs[i].versionId == m.entryOrder[i].versionId
          && ValidRank(m.scope, m.entryOrder[i].rank))
    && (forall i | 0 <= i < |m.summaryRefs| ::
          m.summaryRefs[i].id == m.summaryOrder[i].summaryId && ValidRank(m.scope, m.summaryOrder[i].rank))
    && RefsOrdered(m.entryRefs, m.entryOrder)
    && SummariesOrdered(m.summaryRefs, m.summaryOrder)
  }

  function ValidateMetadataShape(m: Material): Result<(), RetrievalError> {
    var a := m.accounting;
    if |m.entryRefs| > m.budget.maxEntries || |m.summaryRefs| > m.budget.maxSummaries
       || a.acceptedBytes > m.budget.maxBytes || a.acceptedSources > m.budget.maxSources then Err(InvalidSnapshot)
    else if (exists i | 0 <= i < |m.entryRefs| :: m.entryRefs[i].ns != m.scope.ns || !m.entryRefs[i].state.Present?)
            || (exists i | 0 <= i < |m.summaryRefs| ::
                  m.summaryRefs[i].ns != m.scope.ns || m.summaryRefs[i].profile != m.scope.profile) then Err(InvalidSnapshot)
    else if (exists i, j | 0 <= i < j < |m.entryRefs| ::
               m.entryRefs[i].entryId == m.entryRefs[j].entryId && m.entryRefs[i].versionId == m.entryRefs[j].versionId)
            || (exists i, j | 0 <= i < j < |m.summaryRefs| :: m.summaryRefs[i].id == m.summaryRefs[j].id) then Err(InvalidSnapshot)
    else if !MetadataOrdered(m) then Err(InvalidSnapshot)
    else if a.acceptedEntries != |m.entryRefs| || a.acceptedSummaries != |m.summaryRefs| then Err(InvalidSnapshot)
    else
      var entryTotal :- Add(a.acceptedEntries, a.omittedEntries);
      if a.eligibleEntries != entryTotal then Err(InvalidSnapshot)
      else
        var summaryTotal :- Add(a.acceptedSummaries, a.omittedSummaries);
        if a.eligibleSummaries != summaryTotal then Err(InvalidSnapshot) else Ok(())
  }

  function ValidateMetadata(codec: Codec, m: Metadata): Result<(), RetrievalError> {
    var _ :- ValidateMetadataShape(m.material);
    if codec.digest(m.material) != m.digest then Err(InvalidSnapshot) else Ok(())
  }

  // ---------- the orders are total ----------

  lemma RefLeTotal(a: EntryRef, b: EntryRef)
    ensures RefLe(a, b) || RefLe(b, a)
    ensures RefLe(a, b) && RefLe(b, a) ==> a.entryId == b.entryId && a.versionId == b.versionId && a.key == b.key
  {
    TextTotal(a.key, b.key);
  }

  lemma RefLeTransitive(a: EntryRef, b: EntryRef, c: EntryRef)
    requires RefLe(a, b) && RefLe(b, c)
    ensures RefLe(a, c)
  {
    TextTotal(a.key, b.key);
    TextTotal(b.key, c.key);
    if TextLe(a.key, b.key) && TextLe(b.key, c.key) { TextTransitive(a.key, b.key, c.key); }
  }

  lemma EntriesOrderIsTotal(purpose: Purpose)
    ensures TotalPreorder(EntriesInOrder(purpose))
  {
    var le := EntriesInOrder(purpose);
    forall a, b ensures le(a, b) || le(b, a) { RefLeTotal(a.entry, b.entry); }
    forall a, b, c | le(a, b) && le(b, c) ensures le(a, c) {
      if Rank(purpose, a.tags) == Rank(purpose, b.tags) == Rank(purpose, c.tags) { RefLeTransitive(a.entry, b.entry, c.entry); }
    }
  }

  lemma SummariesOrderIsTotal(purpose: Purpose)
    ensures TotalPreorder(SummariesInOrder(purpose))
  {}

  /** Without a repeated reference, ties in the sort order are ties of an item with itself. */
  lemma DistinctRefsBreakTies(purpose: Purpose, entries: seq<KvItem>, summaries: seq<EpisodicItem>)
    requires DistinctRefs(entries, summaries)
    ensures AntisymmetricOn(EntriesInOrder(purpose), entries)
    ensures AntisymmetricOn(SummariesInOrder(purpose), summaries)
  {
    forall x, y | x in entries && y in entries && EntriesInOrder(purpose)(x, y) && EntriesInOrder(purpose)(y, x)
      ensures x == y
    {
      RefLeTotal(x.entry, y.entry);
      var i :| 0 <= i < |entries| && entries[i] == x;
      var j :| 0 <= j < |entries| && entries[j] == y;
      assert EntryIdentity(entries[i]) == EntryIdentity(entries[j]);
    }
    forall x, y | x in summaries && y in summaries && SummariesInOrder(purpose)(x, y) && SummariesInOrder(purpose)(y, x)
      ensures x == y
    {
      var i :| 0 <= i < |summaries| && summaries[i] == x;
      var j :| 0 <= j < |summaries| && summaries[j] == y;
      assert SummaryIdentity(summaries[i]) == SummaryIdentity(summaries[j]);
    }
  }

  // ---------- the two validators agree, and replay is the inverse of metadata ----------

  /** Re-sorting changes nothing exactly when neighbours are in order. */
  lemma ResortIsPairwise<T(!new)>(le: (T, T) -> bool, s: seq<T>)
    requires TotalPreorder(le)
    ensures Sort(le, s) == s <==> AdjacentSorted(le, s)
  {
    AdjacentSortedIsSorted(le, s);
    if Sorted(le, s) { SortFixpoint(le, s); }
    SortSorted(le, s);
  }

  lemma PairwiseOnRefs(purpose: Purpose, entries: seq<KvItem>)
    ensures RefsOrdered(Map(entries, EntryRefOf()), Map(entries, EntryOrderOf(purpose)))
            <==> AdjacentSorted(EntriesInOrder(purpose), entries)
  {
    hide Rank, RefLe, Map;
    var refs, orders := Map(entries, EntryRefOf()), Map(entries, EntryOrderOf(purpose));
    forall i | 0 <= i < |entries| ensures refs[i] == entries[i].entry && orders[i].rank == Rank(purpose, entries[i].tags) {}
  }

  lemma PairwiseOnSummaries(purpose: Purpose, summaries: seq<EpisodicItem>)
    ensures SummariesOrdered(Map(summaries, SummaryRefOf()), Map(summaries, SummaryOrderOf(purpose)))
            <==> AdjacentSorted(SummariesInOrder(purpose), summaries)
  {
    hide Rank, Map;
    var refs, orders := Map(summaries, SummaryRefOf()), Map(summaries, SummaryOrderOf(purpose));
    forall i | 0 <= i < |summaries|
      ensures refs[i] == summaries[i].summary && orders[i].rank == Rank(purpose, summaries[i].tags)
      ensures orders[i].createdAt == summaries[i].createdAt
    {}
  }

  /** The metadata validator's pairwise order is the snapshot validator's re-sort. */
  lemma MetadataOrderIsResort(scope: Scope, budget: Budget, entries: seq<KvItem>, summaries: seq<EpisodicItem>, a: Accounting)
    ensures MetadataOrdered(MaterialOf(scope, budget, entries, summaries, a)) <==>
              && Sort(EntriesInOrder(scope.purpose), entries) == entries
              && Sort(SummariesInOrder(scope.purpose), summaries) == summaries
  {
    hide Rank, Sort, Map, RefsOrdered, SummariesOrdered, AdjacentSorted, Sorted, EntriesInOrder, SummariesInOrder, TotalPreorder;
    EntriesOrderIsTotal(scope.purpose);
    SummariesOrderIsTotal(scope.purpose);
    ResortIsPairwise(EntriesInOrder(scope.purpose), entries);
    ResortIsPairwise(SummariesInOrder(scope.purpose), summaries);
    PairwiseOnRefs(scope.purpose, entries);
    PairwiseOnSummaries(scope.purpose, summaries);
    RanksAreValid(scope);
  }

  lemma RanksAreValid(scope: Scope)
    ensures forall tags: seq<string> :: ValidRank(scope, Rank(scope.purpose, tags))
  {}

  /** Metadata of a valid snapshot passes the metadata validator. */
  lemma MetadataIsValid(codec: Codec, s: Snapshot)
    requires Validate(codec, s).Ok?
    ensures ValidateMetadata(codec, MetadataOf(s)).Ok?
  {
    hide Rank, Sort, Map, MetadataOrdered, PurposeMatches, KvBytes, EpisodicBytes, SourceCount;
    MetadataOrderIsResort(s.scope, s.budget, s.entries, s.summaries, s.accounting);
    var m := SnapshotMaterial(s);
    forall i | 0 <= i < |s.entries| ensures m.entryRefs[i] == s.entries[i].entry && EntryEligible(s.scope, s.entries[i]) {}
    forall i | 0 <= i < |s.summaries|
      ensures m.summaryRefs[i] == s.summaries[i].summary && SummaryEligible(s.scope, s.summaries[i])
    {}
    forall i, j | 0 <= i < j < |s.entries| ensures EntryIdentity(s.entries[i]) != EntryIdentity(s.entries[j]) {}
    forall i, j | 0 <= i < j < |s.summaries| ensures SummaryIdentity(s.summaries[i]) != SummaryIdentity(s.summaries[j]) {}
  }

  /** Replaying a valid snapshot's metadata over its own items gives it back. */
  lemma ReplayRestores(codec: Codec, s: Snapshot)
    requires Validate(codec, s).Ok?
    ensures Replay(codec, MetadataOf(s), s.entries, s.summaries) == Ok(s)
  {}

  /** Whatever replay returns shows exactly the metadata it was given, and is valid. */
  lemma ReplayReproducesMetadata(codec: Codec, m: Metadata, entries: seq<KvItem>, summaries: seq<EpisodicItem>)
    requires Replay(codec, m, entries, summaries).Ok?
    ensures var s := Replay(codec, m, entries, summaries).value;
            && MetadataOf(s) == m && Validate(codec, s).Ok? && ValidateMetadata(codec, m).Ok?
            && s.entries == entries && s.summaries == summaries
  {
    MetadataIsValid(codec, Replay(codec, m, entries, summaries).value);
  }

  // ---------- items are determined by their references ----------

  datatype EpisodicContent = EpisodicContent(heading: string, body: string, tags: seq<string>, createdAt: int, sourceSetDigest: nat)

  datatype EpisodicDigests = EpisodicDigests(content: EpisodicContent -> nat, sources: seq<SourceRef> -> nat)

  ghost predicate Injective<T(!new), U>(f: T -> U) { forall x, y | f(x) == f(y) :: x == y }

  /** The digest checks of `MemoryKvContextItem::validate`. */
  predicate KvItemSealed(env: Env, item: KvItem) {
    && item.entry.state.Present?
    && env.contentDigest(Content(item.displayKey, item.entry.key, Present, Some(item.value), item.tags)) == item.entry.digest
  }

  /** The digest checks of `EpisodicContextItem::validate`. */
  predicate EpisodicItemSealed(digests: EpisodicDigests, item: EpisodicItem) {
    && digests.sources(item.sources) == item.summary.sourceSetDigest
    && digests.content(EpisodicContent(item.heading, item.body, item.tags, item.createdAt, item.summary.sourceSetDigest))
       == item.summary.contentDigest
  }

  /** With collision-free digests, stored metadata replays to at most one snapshot: no
      other sealed items, in any number or order, are accepted in their place. */
  lemma ReplayIsUnique(codec: Codec, env: Env, digests: EpisodicDigests, m: Metadata,
      entries: seq<KvItem>, summaries: seq<EpisodicItem>, entries': seq<KvItem>, summaries': seq<EpisodicItem>)
    requires Injective(env.contentDigest) && Injective(digests.content) && Injective(digests.sources)
    requires forall item | item in entries || item in entries' :: KvItemSealed(env, item)
    requires forall item | item in summaries || item in summaries' :: EpisodicItemSealed(digests, item)
    requires Replay(codec, m, entries, summaries).Ok? && Replay(codec, m, entries', summaries').Ok?
    ensures Replay(codec, m, entries, summaries) == Replay(codec, m, entries', summaries')
  {
    hide Validate, ValidateMetadata, Replay, EntryOrderOf, SummaryOrderOf, Map;
    ReplayReproducesMetadata(codec, m, entries, summaries);
    ReplayReproducesMetadata(codec, m, entries', summaries');
    var refs, refs' := Map(entries, EntryRefOf()), Map(entries', EntryRefOf());
    forall i | 0 <= i < |entries| ensures entries[i] == entries'[i] {
      assert refs[i] == refs'[i];
      assert KvItemSealed(env, entries[i]) && KvItemSealed(env, entries'[i]);
    }
    var ids, ids' := Map(summaries, SummaryRefOf()), Map(summaries', SummaryRefOf());
    forall i | 0 <= i < |summaries| ensures summaries[i] == summaries'[i] {
      assert ids[i] == ids'[i];
      assert EpisodicItemSealed(digests, summaries[i]) && EpisodicItemSealed(digests, summaries'[i]);
    }
    assert entries == entries' && summaries == summaries';
  }
}
