/** `select_snapshot` of src/memory/retrieval.rs: filter, sort, admit greedily under four
    shared budgets with checked counters, then validate what was built. */
module Retrieval {
  import opened Prelude
  import opened Sorting
  import opened RetrievalTypes

  /** What has been accepted so far. */
  datatype Building = Building(entries: seq<KvItem>, summaries: seq<EpisodicItem>, accounting: Accounting)

  const EMPTY := Building([], [], Accounting(0, 0, 0, 0, 0, 0, 0, 0, 0, 0))

  /** The byte budget, looked at only while an entry slot is free. */
  function EntryFits(request: SnapshotRequest, b: Building, bytes: nat): Result<bool, RetrievalError> {
    if |b.entries| >= request.budget.maxEntries then Ok(false)
    else
      var total :- Add(b.accounting.acceptedBytes, bytes);
      Ok(total <= request.budget.maxBytes)
  }

  function AfterEntry(codec: Codec, request: SnapshotRequest, b: Building, item: KvItem): Result<Building, RetrievalError> {
    if !EntryEligible(request.scope, item) then Ok(b)
    else
      var a, bytes := b.accounting, codec.kvBytes(item);
      if bytes > U64_MAX then Err(Overflow)
      else
        var eligible :- Add(a.eligibleEntries, 1);
        var admit :- EntryFits(request, b, bytes);
        if admit then
          var accepted :- Add(a.acceptedEntries, 1);
          var acceptedBytes :- Add(a.acceptedBytes, bytes);
          Ok(b.(entries := b.entries + [item],
                accounting := a.(eligibleEntries := eligible, acceptedEntries := accepted, acceptedBytes := acceptedBytes)))
        else
          var omitted :- Add(a.omittedEntries, 1);
          var omittedBytes :- Add(a.omittedBytes, bytes);
          Ok(b.(accounting := a.(eligibleEntries := eligible, omittedEntries := omitted, omittedBytes := omittedBytes)))
  }

  /** The byte and source budgets, checked left to right. */
  function SummaryFits(request: SnapshotRequest, b: Building, bytes: nat, sources: nat): Result<bool, RetrievalError> {
    if |b.summaries| >= request.budget.maxSummaries then Ok(false)
    else
      var total :- Add(b.accounting.acceptedBytes, bytes);
      if total > request.budget.maxBytes then Ok(false)
      else
        var all :- Add(b.accounting.acceptedSources, sources);
        Ok(all <= request.budget.maxSources)
  }

  function AfterSummary(codec: Codec, request: SnapshotRequest, b: Building, item: EpisodicItem): Result<Building, RetrievalError> {
    if !SummaryEligible(request.scope, item) then Ok(b)
    else
      var a, bytes, sources := b.accounting, codec.episodicBytes(item), |item.sources|;
      if bytes > U64_MAX || sources > U64_MAX then Err(Overflow)
      else
        var eligible :- Add(a.eligibleSummaries, 1);
        var admit :- SummaryFits(request, b, bytes, sources);
        if admit then
          var accepted :- Add(a.acceptedSummaries, 1);
          var acceptedBytes :- Add(a.acceptedBytes, bytes);
          var acceptedSources :- Add(a.acceptedSources, sources);
          Ok(b.(summaries := b.summaries + [item],
                accounting := a.(eligibleSummaries := eligible, acceptedSummaries := accepted,
                                 acceptedBytes := acceptedBytes, acceptedSources := acceptedSources)))
        else
          var omitted :- Add(a.omittedSummaries, 1);
          var omittedBytes :- Add(a.omittedBytes, bytes);
          var omittedSources :- Add(a.omittedSources, sources);
          Ok(b.(accounting := a.(eligibleSummaries := eligible, omittedSummaries := omitted,
                                 omittedBytes := omittedBytes, omittedSources := omittedSources)))
  }

  function AfterEntries(codec: Codec, request: SnapshotRequest, b: Building, items: seq<KvItem>): Result<Building, RetrievalError>
    decreases |items|
  {
    if items == [] then Ok(b)
    else
      var next :- AfterEntry(codec, request, b, items[0]);
      AfterEntries(codec, request, next, items[1..])
  }

  function AfterSummaries(codec: Codec, request: SnapshotRequest, b: Building, items: seq<EpisodicItem>): Result<Building, RetrievalError>
    decreases |items|
  {
    if items == [] then Ok(b)
    else
      var next :- AfterSummary(codec, request, b, items[0]);
      AfterSummaries(codec, request, next, items[1..])
  }

  function Finish(codec: Codec, request: SnapshotRequest, b: Building): Result<Snapshot, RetrievalError> {
    var digest := codec.digest(MaterialOf(request.scope, request.budget, b.entries, b.summaries, b.accounting));
    FromParts(codec, Snapshot(request.scope, request.budget, b.entries, b.summaries, b.accounting, digest))
  }

  function EligibleEntry(scope: Scope): KvItem -> bool { (item: KvItem) => EntryEligible(scope, item) }
  function EligibleSummary(scope: Scope): EpisodicItem -> bool { (item: EpisodicItem) => SummaryEligible(scope, item) }

  function SortedEntries(scope: Scope, entries: seq<KvItem>): seq<KvItem> {
    Sort(EntriesInOrder(scope.purpose), Filter(entries, EligibleEntry(scope)))
  }

  function SortedSummaries(scope: Scope, summaries: seq<EpisodicItem>): seq<EpisodicItem> {
    Sort(SummariesInOrder(scope.purpose), Filter(summaries, EligibleSummary(scope)))
  }

  /** Selection from sorted eligible items. */
  function SelectSorted(codec: Codec, purposeOk: Purpose -> bool, request: SnapshotRequest, entries: seq<KvItem>,
      summaries: seq<EpisodicItem>): Result<Snapshot, RetrievalError>
  {
    if !DistinctRefs(entries, summaries) then Err(InvalidSnapshot)
    else if !purposeOk(request.scope.purpose) then Err(InvalidScope)
    else
      var withEntries :- AfterEntries(codec, request, EMPTY, entries);
      var full :- AfterSummaries(codec, request, withEntries, summaries);
      Finish(codec, request, full)
  }

  /** `select_snapshot` on items that were all read successfully. */
  function Select(codec: Codec, purposeOk: Purpose -> bool, request: SnapshotRequest, entries: seq<KvItem>,
      summaries: seq<EpisodicItem>): Result<Snapshot, RetrievalError>
  {
    SelectSorted(codec, purposeOk, request, SortedEntries(request.scope, entries), SortedSummaries(request.scope, summaries))
  }

  /** The first error among the items read, if any. */
  function Collect<T>(items: seq<Result<T, RetrievalError>>): Result<seq<T>, RetrievalError>
    decreases |items|
  {
    if items == [] then Ok([])
    else
      var first :- items[0];
      var rest :- Collect(items[1..]);
      Ok([first] + rest)
  }

  function SelectSnapshot(codec: Codec, purposeOk: Purpose -> bool, request: SnapshotRequest,
      entries: seq<Result<KvItem, RetrievalError>>, summaries: seq<Result<EpisodicItem, RetrievalError>>): Result<Snapshot, RetrievalError>
  {
    var readEntries :- Collect(entries);
    var readSummaries :- Collect(summaries);
    Select(codec, purposeOk, request, readEntries, readSummaries)
  }

  // ---------- order independence ----------

  lemma SelectedFrom(scope: Scope, entries: seq<KvItem>, summaries: seq<EpisodicItem>)
    ensures multiset(SortedEntries(scope, entries)) == multiset(Filter(entries, EligibleEntry(scope)))
    ensures multiset(SortedSummaries(scope, summaries)) == multiset(Filter(summaries, EligibleSummary(scope)))
    ensures Sorted(EntriesInOrder(scope.purpose), SortedEntries(scope, entries))
    ensures Sorted(SummariesInOrder(scope.purpose), SortedSummaries(scope, summaries))
  {
    EntriesOrderIsTotal(scope.purpose);
    SummariesOrderIsTotal(scope.purpose);
    SortMultiset(EntriesInOrder(scope.purpose), Filter(entries, EligibleEntry(scope)));
    SortMultiset(SummariesInOrder(scope.purpose), Filter(summaries, EligibleSummary(scope)));
    SortSorted(EntriesInOrder(scope.purpose), Filter(entries, EligibleEntry(scope)));
    SortSorted(SummariesInOrder(scope.purpose), Filter(summaries, EligibleSummary(scope)));
  }

  function IdentityOf(): KvItem -> (nat, nat) { (item: KvItem) => EntryIdentity(item) }
  function SummaryIdentityOf(): EpisodicItem -> nat { (item: EpisodicItem) => SummaryIdentity(item) }

  lemma DistinctRefsAsLists(entries: seq<KvItem>, summaries: seq<EpisodicItem>)
    ensures DistinctRefs(entries, summaries) <==>
              Distinct(Map(entries, IdentityOf())) && Distinct(Map(summaries, SummaryIdentityOf()))
  {}

  /** Whether a reference repeats does not depend on the order. */
  lemma DistinctRefsPermutation(entries: seq<KvItem>, summaries: seq<EpisodicItem>, entries': seq<KvItem>, summaries': seq<EpisodicItem>)
    requires multiset(entries) == multiset(entries') && multiset(summaries) == multiset(summaries')
    requires DistinctRefs(entries, summaries)
    ensures DistinctRefs(entries', summaries')
  {
    hide DistinctRefs, Distinct, Map;
    DistinctRefsAsLists(entries, summaries);
    DistinctRefsAsLists(entries', summaries');
    MapMultiset(entries, entries', IdentityOf());
    MapMultiset(summaries, summaries', SummaryIdentityOf());
    DistinctPermutation(Map(entries, IdentityOf()), Map(entries', IdentityOf()));
    DistinctPermutation(Map(summaries, SummaryIdentityOf()), Map(summaries', SummaryIdentityOf()));
  }

  /** The result is a function of the eligible items as a collection: neither their order
      nor any ineligible item matters, for every outcome including the errors. */
  lemma SelectIgnoresOrder(codec: Codec, purposeOk: Purpose -> bool, request: SnapshotRequest, entries: seq<KvItem>,
      summaries: seq<EpisodicItem>, entries': seq<KvItem>, summaries': seq<EpisodicItem>)
    requires multiset(Filter(entries, EligibleEntry(request.scope))) == multiset(Filter(entries', EligibleEntry(request.scope)))
    requires multiset(Filter(summaries, EligibleSummary(request.scope))) == multiset(Filter(summaries', EligibleSummary(request.scope)))
    ensures Select(codec, purposeOk, request, entries, summaries) == Select(codec, purposeOk, request, entries', summaries')
  {
    hide Filter, DistinctRefs, Sorted, SortedEntries, SortedSummaries, EntriesInOrder, SummariesInOrder, AntisymmetricOn;
    hide AfterEntries, AfterSummaries, Finish;
    var scope := request.scope;
    SelectedFrom(scope, entries, summaries);
    SelectedFrom(scope, entries', summaries');
    var e, s, e', s' := SortedEntries(scope, entries), SortedSummaries(scope, summaries),
                        SortedEntries(scope, entries'), SortedSummaries(scope, summaries');
    if DistinctRefs(e, s) {
      DistinctRefsPermutation(e, s, e', s');
      DistinctRefsBreakTies(scope.purpose, e, s);
      SortedUnique(EntriesInOrder(scope.purpose), e, e');
      SortedUnique(SummariesInOrder(scope.purpose), s, s');
    } else if DistinctRefs(e', s') {
      DistinctRefsPermutation(e', s', e, s);
    }
  }

  /** In particular, shuffling the items read changes nothing. */
  lemma SelectIgnoresShuffling(codec: Codec, purposeOk: Purpose -> bool, request: SnapshotRequest, entries: seq<KvItem>,
      summaries: seq<EpisodicItem>, entries': seq<KvItem>, summaries': seq<EpisodicItem>)
    requires multiset(entries) == multiset(entries') && multiset(summaries) == multiset(summaries')
    ensures Select(codec, purposeOk, request, entries, summaries) == Select(codec, purposeOk, request, entries', summaries')
  {
    hide Select, Filter;
    FilterKeepsMultiset(entries, entries', EligibleEntry(request.scope));
    FilterKeepsMultiset(summaries, summaries', EligibleSummary(request.scope));
    SelectIgnoresOrder(codec, purposeOk, request, entries, summaries, entries', summaries');
  }

  // ---------- what a selection contains ----------

  lemma {:induction false} KvBytesAppend(codec: Codec, items: seq<KvItem>, item: KvItem)
    ensures KvBytes(codec, items + [item]) == KvBytes(codec, items) + codec.kvBytes(item)
  {
    if items == [] {
      assert [] + [item] == [item];
      assert [item][1..] == [];
    } else {
      assert (items + [item])[1..] == items[1..] + [item];
      KvBytesAppend(codec, items[1..], item);
    }
  }

  lemma {:induction false} EpisodicTotalsAppend(codec: Codec, items: seq<EpisodicItem>, item: EpisodicItem)
    ensures EpisodicBytes(codec, items + [item]) == EpisodicBytes(codec, items) + codec.episodicBytes(item)
    ensures SourceCount(items + [item]) == SourceCount(items) + |item.sources|
  {
    if items == [] {
      assert [] + [item] == [item];
      assert [item][1..] == [];
    } else {
      assert (items + [item])[1..] == items[1..] + [item];
      EpisodicTotalsAppend(codec, items[1..], item);
    }
  }

  /** After the entries in `seen`: a sublist within budget, exact counters, and nothing
      left out that would still fit. */
  ghost predicate EntriesConsidered(codec: Codec, budget: Budget, seen: seq<KvItem>, b: Building) {
    && b.summaries == []
    && Sublist(b.entries, seen) && |b.entries| <= |seen| <= U64_MAX
    && |b.entries| <= budget.maxEntries && KvBytes(codec, b.entries) <= budget.maxBytes
    && KvBytes(codec, b.entries) <= KvBytes(codec, seen)
    && b.accounting == Accounting(|seen|, |b.entries|, |seen| - |b.entries|, 0, 0, 0,
                                  KvBytes(codec, b.entries), KvBytes(codec, seen) - KvBytes(codec, b.entries), 0, 0)
    && NoEntryFits(codec, budget, seen, b.entries)
  }

  /** No entry that was seen and not kept would fit with what was kept. */
  ghost predicate NoEntryFits(codec: Codec, budget: Budget, seen: seq<KvItem>, kept: seq<KvItem>) {
    forall item | item in seen :: item in kept || |kept| == budget.maxEntries
                                  || KvBytes(codec, kept) + codec.kvBytes(item) > budget.maxBytes
  }

  lemma OneMoreEntry(codec: Codec, budget: Budget, seen: seq<KvItem>, kept: seq<KvItem>, item: KvItem)
    requires NoEntryFits(codec, budget, seen, kept)
    ensures |kept| < budget.maxEntries ==> NoEntryFits(codec, budget, seen + [item], kept + [item])
    ensures |kept| == budget.maxEntries || KvBytes(codec, kept) + codec.kvBytes(item) > budget.maxBytes ==>
              NoEntryFits(codec, budget, seen + [item], kept)
  {
    hide KvBytes;
    KvBytesAppend(codec, kept, item);
    forall x | x in seen + [item] ensures x in seen || x == item {}
    forall x | x in kept ensures x in kept + [item] {}
    assert item in kept + [item];
  }

  lemma EntryConsidered(codec: Codec, request: SnapshotRequest, seen: seq<KvItem>, b: Building, item: KvItem)
    requires EntriesConsidered(codec, request.budget, seen, b) && EntryEligible(request.scope, item)
    ensures AfterEntry(codec, request, b, item).Ok? ==>
              EntriesConsidered(codec, request.budget, seen + [item], AfterEntry(codec, request, b, item).value)
    ensures |seen| + 1 <= U64_MAX && KvBytes(codec, seen + [item]) <= U64_MAX ==> AfterEntry(codec, request, b, item).Ok?
    ensures AfterEntry(codec, request, b, item).Err? ==> AfterEntry(codec, request, b, item) == Err(Overflow)
  {
    hide EntryEligible, KvBytes, Sublist, NoEntryFits;
    KvBytesAppend(codec, seen, item);
    KvBytesAppend(codec, b.entries, item);
    SublistExtends(b.entries, seen, item);
    OneMoreEntry(codec, request.budget, seen, b.entries, item);
  }

  lemma {:induction false} AllEntriesConsidered(codec: Codec, request: SnapshotRequest, seen: seq<KvItem>, b: Building,
      items: seq<KvItem>)
    requires EntriesConsidered(codec, request.budget, seen, b)
    requires forall item | item in items :: EntryEligible(request.scope, item)
    ensures var r := AfterEntries(codec, request, b, items);
            && (r.Ok? ==> EntriesConsidered(codec, request.budget, seen + items, r.value))
            && (r.Err? ==> r == Err(Overflow))
            && (|seen + items| <= U64_MAX && KvBytes(codec, seen + items) <= U64_MAX ==> r.Ok?)
    decreases |items|
  {
    hide EntriesConsidered, AfterEntry, EntryEligible, KvBytes;
    if items == [] {
      assert seen + items == seen;
    } else {
      EntryConsidered(codec, request, seen, b, items[0]);
      assert (seen + [items[0]]) + items[1..] == seen + items;
      KvBytesPrefix(codec, seen + [items[0]], items[1..]);
      if AfterEntry(codec, request, b, items[0]).Ok? {
        AllEntriesConsidered(codec, request, seen + [items[0]], AfterEntry(codec, request, b, items[0]).value, items[1..]);
      }
    }
  }

  lemma {:induction false} KvBytesPrefix(codec: Codec, items: seq<KvItem>, more: seq<KvItem>)
    ensures KvBytes(codec, items) <= KvBytes(codec, items + more)
  {
    if items != [] {
      assert (items + more)[1..] == items[1..] + more;
      KvBytesPrefix(codec, items[1..], more);
    }
  }

  /** After the summaries in `seen`, on top of the entries accepted in `base`. */
  ghost predicate SummariesConsidered(codec: Codec, budget: Budget, base: Building, seen: seq<EpisodicItem>, b: Building) {
    && b.entries == base.entries
    && Sublist(b.summaries, seen) && |b.summaries| <= |seen| <= U64_MAX
    && |b.summaries| <= budget.maxSummaries
    && base.accounting.acceptedBytes + EpisodicBytes(codec, b.summaries) <= budget.maxBytes
    && SourceCount(b.summaries) <= budget.maxSources
    && EpisodicBytes(codec, b.summaries) <= EpisodicBytes(codec, seen) && SourceCount(b.summaries) <= SourceCount(seen)
    && b.accounting == base.accounting.(
         eligibleSummaries := |seen|, acceptedSummaries := |b.summaries|, omittedSummaries := |seen| - |b.summaries|,
         acceptedBytes := base.accounting.acceptedBytes + EpisodicBytes(codec, b.summaries),
         omittedBytes := base.accounting.omittedBytes + EpisodicBytes(codec, seen) - EpisodicBytes(codec, b.summaries),
         acceptedSources := SourceCount(b.summaries), omittedSources := SourceCount(seen) - SourceCount(b.summaries))
    && NoSummaryFits(codec, budget, base.accounting.acceptedBytes, seen, b.summaries)
  }

  /** No summary that was seen and not kept would fit with what was kept on top of `bytes`. */
  ghost predicate NoSummaryFits(codec: Codec, budget: Budget, bytes: nat, seen: seq<EpisodicItem>, kept: seq<EpisodicItem>) {
    forall item | item in seen :: item in kept || |kept| == budget.maxSummaries
                                  || bytes + EpisodicBytes(codec, kept) + codec.episodicBytes(item) > budget.maxBytes
                                  || SourceCount(kept) + |item.sources| > budget.maxSources
  }

  lemma OneMoreSummary(codec: Codec, budget: Budget, bytes: nat, seen: seq<EpisodicItem>, kept: seq<EpisodicItem>, item: EpisodicItem)
    requires NoSummaryFits(codec, budget, bytes, seen, kept)
    ensures |kept| < budget.maxSummaries ==> NoSummaryFits(codec, budget, bytes, seen + [item], kept + [item])
    ensures |kept| == budget.maxSummaries || bytes + EpisodicBytes(codec, kept) + codec.episodicBytes(item) > budget.maxBytes
            || SourceCount(kept) + |item.sources| > budget.maxSources ==>
              NoSummaryFits(codec, budget, bytes, seen + [item], kept)
  {
    hide EpisodicBytes, SourceCount;
    EpisodicTotalsAppend(codec, kept, item);
    forall x | x in seen + [item] ensures x in seen || x == item {}
    forall x | x in kept ensures x in kept + [item] {}
    assert item in kept + [item];
  }

  lemma SummaryConsidered(codec: Codec, request: SnapshotRequest, base: Building, seen: seq<EpisodicItem>, b: Building,
      item: EpisodicItem)
    requires SummariesConsidered(codec, request.budget, base, seen, b) && SummaryEligible(request.scope, item)
    ensures AfterSummary(codec, request, b, item).Ok? ==>
              SummariesConsidered(codec, request.budget, base, seen + [item], AfterSummary(codec, request, b, item).value)
    ensures |seen| + 1 <= U64_MAX && SourceCount(seen + [item]) <= U64_MAX
            && base.accounting.acceptedBytes + base.accounting.omittedBytes + EpisodicBytes(codec, seen + [item]) <= U64_MAX
            ==> AfterSummary(codec, request, b, item).Ok?
    ensures AfterSummary(codec, request, b, item).Err? ==> AfterSummary(codec, request, b, item) == Err(Overflow)
  {
    hide SummaryEligible, EpisodicBytes, SourceCount, Sublist, NoSummaryFits;
    EpisodicTotalsAppend(codec, seen, item);
    EpisodicTotalsAppend(codec, b.summaries, item);
    SublistExtends(b.summaries, seen, item);
    OneMoreSummary(codec, request.budget, base.accounting.acceptedBytes, seen, b.summaries, item);
  }

  lemma {:induction false} EpisodicTotalsPrefix(codec: Codec, items: seq<EpisodicItem>, more: seq<EpisodicItem>)
    ensures EpisodicBytes(codec, items) <= EpisodicBytes(codec, items + more)
    ensures SourceCount(items) <= SourceCount(items + more)
  {
    if items != [] {
      assert (items + more)[1..] == items[1..] + more;
      EpisodicTotalsPrefix(codec, items[1..], more);
    }
  }

  lemma {:induction false} AllSummariesConsidered(codec: Codec, request: SnapshotRequest, base: Building,
      seen: seq<EpisodicItem>, b: Building, items: seq<EpisodicItem>)
    requires SummariesConsidered(codec, request.budget, base, seen, b)
    requires forall item | item in items :: SummaryEligible(request.scope, item)
    ensures var r := AfterSummaries(codec, request, b, items);
            && (r.Ok? ==> SummariesConsidered(codec, request.budget, base, seen + items, r.value))
            && (r.Err? ==> r == Err(Overflow))
            && (|seen + items| <= U64_MAX && SourceCount(seen + items) <= U64_MAX
                && base.accounting.acceptedBytes + base.accounting.omittedBytes + EpisodicBytes(codec, seen + items) <= U64_MAX
                ==> r.Ok?)
    decreases |items|
  {
    hide SummariesConsidered, AfterSummary, SummaryEligible, EpisodicBytes, SourceCount;
    if items == [] {
      assert seen + items == seen;
    } else {
      SummaryConsidered(codec, request, base, seen, b, items[0]);
      assert (seen + [items[0]]) + items[1..] == seen + items;
      EpisodicTotalsPrefix(codec, seen + [items[0]], items[1..]);
      if AfterSummary(codec, request, b, items[0]).Ok? {
        AllSummariesConsidered(codec, request, base, seen + [items[0]], AfterSummary(codec, request, b, items[0]).value, items[1..]);
      }
    }
  }

  // ---------- the whole selection ----------

  /** The bounds the budget constructor enforces. */
  predicate ValidBudget(budget: Budget) {
    budget.maxEntries <= 32 && budget.maxSummaries <= 8 && budget.maxBytes <= 32768 && budget.maxSources <= 128
  }

  function KvRefsDiffer(): (KvItem, KvItem) -> bool { (a: KvItem, b: KvItem) => EntryIdentity(a) != EntryIdentity(b) }
  function SummaryIdsDiffer(): (EpisodicItem, EpisodicItem) -> bool {
    (a: EpisodicItem, b: EpisodicItem) => SummaryIdentity(a) != SummaryIdentity(b)
  }

  lemma SublistsStayDistinct(entries: seq<KvItem>, summaries: seq<EpisodicItem>, e: seq<KvItem>, s: seq<EpisodicItem>)
    requires DistinctRefs(entries, summaries) && Sublist(e, entries) && Sublist(s, summaries)
    ensures DistinctRefs(e, s)
  {
    assert Sorted(KvRefsDiffer(), entries) && Sorted(SummaryIdsDiffer(), summaries);
    SublistSorted(KvRefsDiffer(), e, entries);
    SublistSorted(SummaryIdsDiffer(), s, summaries);
  }

  /** Sublists of the sorted eligible items pass the shape checks that do not count. */
  lemma SublistsStayInShape(scope: Scope, entries: seq<KvItem>, summaries: seq<EpisodicItem>, e: seq<KvItem>, s: seq<EpisodicItem>)
    requires Sorted(EntriesInOrder(scope.purpose), entries) && Sorted(SummariesInOrder(scope.purpose), summaries)
    requires forall item | item in entries :: EntryEligible(scope, item)
    requires forall item | item in summaries :: SummaryEligible(scope, item)
    requires Sublist(e, entries) && Sublist(s, summaries)
    ensures Sort(EntriesInOrder(scope.purpose), e) == e && Sort(SummariesInOrder(scope.purpose), s) == s
    ensures forall i | 0 <= i < |e| :: EntryEligible(scope, e[i])
    ensures forall i | 0 <= i < |s| :: SummaryEligible(scope, s[i])
  {
    hide EntryEligible, SummaryEligible, EntriesInOrder, SummariesInOrder, Sort, Sorted, Sublist;
    SublistSorted(EntriesInOrder(scope.purpose), e, entries);
    SublistSorted(SummariesInOrder(scope.purpose), s, summaries);
    SortFixpoint(EntriesInOrder(scope.purpose), e);
    SortFixpoint(SummariesInOrder(scope.purpose), s);
    SublistElements(e, entries);
    SublistElements(s, summaries);
  }

  /** What a snapshot `s` selected from sorted items promises. */
  ghost predicate Selection(codec: Codec, request: SnapshotRequest, entries: seq<KvItem>, summaries: seq<EpisodicItem>, s: Snapshot) {
    && s.scope == request.scope && s.budget == request.budget
    && Sublist(s.entries, entries) && Sublist(s.summaries, summaries)
    && Validate(codec, s).Ok?
    && Conserves(codec, entries, summaries, s.accounting)
    && Maximal(codec, entries, summaries, s)
  }

  /** Accepted and omitted entries, summaries, bytes and sources add up to what was eligible. */
  ghost predicate Conserves(codec: Codec, entries: seq<KvItem>, summaries: seq<EpisodicItem>, a: Accounting) {
    && a.eligibleEntries == a.acceptedEntries + a.omittedEntries == |entries|
    && a.eligibleSummaries == a.acceptedSummaries + a.omittedSummaries == |summaries|
    && a.acceptedBytes + a.omittedBytes == KvBytes(codec, entries) + EpisodicBytes(codec, summaries)
    && a.acceptedSources + a.omittedSources == SourceCount(summaries)
  }

  /** No omitted item could join the finished snapshot without breaking a budget. */
  ghost predicate Maximal(codec: Codec, entries: seq<KvItem>, summaries: seq<EpisodicItem>, s: Snapshot) {
    && (forall item | item in entries :: item in s.entries || |s.entries| == s.budget.maxEntries
          || s.accounting.acceptedBytes + codec.kvBytes(item) > s.budget.maxBytes)
    && (forall item | item in summaries :: item in s.summaries || |s.summaries| == s.budget.maxSummaries
          || s.accounting.acceptedBytes + codec.episodicBytes(item) > s.budget.maxBytes
          || s.accounting.acceptedSources + |item.sources| > s.budget.maxSources)
  }

  lemma AccountingIsExact(codec: Codec, budget: Budget, entries: seq<KvItem>, summaries: seq<EpisodicItem>, base: Building, b: Building)
    requires ValidBudget(budget)
    requires EntriesConsidered(codec, budget, entries, base) && SummariesConsidered(codec, budget, base, summaries, b)
    ensures ValidateAccounting(codec, budget, b.entries, b.summaries, b.accounting).Ok?
    ensures Conserves(codec, entries, summaries, b.accounting)
  {
    hide KvBytes, EpisodicBytes, SourceCount, Sublist;
  }

  lemma NothingMoreFits(codec: Codec, request: SnapshotRequest, entries: seq<KvItem>, summaries: seq<EpisodicItem>,
      base: Building, b: Building, s: Snapshot)
    requires EntriesConsidered(codec, request.budget, entries, base)
    requires SummariesConsidered(codec, request.budget, base, summaries, b)
    requires s.entries == b.entries && s.summaries == b.summaries && s.accounting == b.accounting && s.budget == request.budget
    ensures Maximal(codec, entries, summaries, s)
  {
    hide KvBytes, EpisodicBytes, SourceCount, Sublist;
  }

  /** The validator that re-sorts and re-sums never refuses what the builder built. */
  lemma FinishSucceeds(codec: Codec, request: SnapshotRequest, entries: seq<KvItem>, summaries: seq<EpisodicItem>,
      base: Building, b: Building)
    requires ValidBudget(request.budget) && DistinctRefs(entries, summaries)
    requires Sorted(EntriesInOrder(request.scope.purpose), entries) && Sorted(SummariesInOrder(request.scope.purpose), summaries)
    requires forall item | item in entries :: EntryEligible(request.scope, item)
    requires forall item | item in summaries :: SummaryEligible(request.scope, item)
    requires EntriesConsidered(codec, request.budget, entries, base)
    requires SummariesConsidered(codec, request.budget, base, summaries, b)
    ensures Finish(codec, request, b).Ok? && Selection(codec, request, entries, summaries, Finish(codec, request, b).value)
  {
    AccountingIsExact(codec, request.budget, entries, summaries, base, b);
    hide KvBytes, EpisodicBytes, SourceCount, Sublist, DistinctRefs, Sorted, Sort, EntryEligible, SummaryEligible;
    hide ValidateAccounting, Conserves, MaterialOf, Maximal;
    NothingMoreFits(codec, request, entries, summaries, base, b,
      Snapshot(request.scope, request.budget, b.entries, b.summaries, b.accounting,
        codec.digest(MaterialOf(request.scope, request.budget, b.entries, b.summaries, b.accounting))));
    SublistsStayDistinct(entries, summaries, b.entries, b.summaries);
    SublistsStayInShape(request.scope, entries, summaries, b.entries, b.summaries);
  }

  lemma SortedItemsAreEligible(scope: Scope, entries: seq<KvItem>, summaries: seq<EpisodicItem>)
    ensures forall item | item in SortedEntries(scope, entries) :: EntryEligible(scope, item)
    ensures forall item | item in SortedSummaries(scope, summaries) :: SummaryEligible(scope, item)
  {
    hide SortedEntries, SortedSummaries, EntryEligible, SummaryEligible;
    SelectedFrom(scope, entries, summaries);
    SameElements(SortedEntries(scope, entries), Filter(entries, EligibleEntry(scope)));
    SameElements(SortedSummaries(scope, summaries), Filter(summaries, EligibleSummary(scope)));
    forall item | item in SortedEntries(scope, entries) ensures EntryEligible(scope, item) {
      FilterMultiset(entries, EligibleEntry(scope), item);
    }
    forall item | item in SortedSummaries(scope, summaries) ensures SummaryEligible(scope, item) {
      FilterMultiset(summaries, EligibleSummary(scope), item);
    }
  }

  ghost predicate TotalsFit(codec: Codec, entries: seq<KvItem>, summaries: seq<EpisodicItem>) {
    && |entries| <= U64_MAX && |summaries| <= U64_MAX && SourceCount(summaries) <= U64_MAX
    && KvBytes(codec, entries) + EpisodicBytes(codec, summaries) <= U64_MAX
  }

  /** Selection refuses exactly repeated references, fails otherwise only when a counter
      overflows (never when the eligible totals are representable), and what it returns is
      a valid, conserving and maximal choice from the sorted eligible items. */
  lemma SelectionMeaning(codec: Codec, purposeOk: Purpose -> bool, request: SnapshotRequest, entries: seq<KvItem>,
      summaries: seq<EpisodicItem>)
    requires purposeOk(request.scope.purpose) && ValidBudget(request.budget)
    ensures var e, s := SortedEntries(request.scope, entries), SortedSummaries(request.scope, summaries);
            var r := Select(codec, purposeOk, request, entries, summaries);
            && (r == Err(InvalidSnapshot) <==> !DistinctRefs(e, s))
            && (r.Err? ==> r.error in {InvalidSnapshot, Overflow})
            && (DistinctRefs(e, s) && TotalsFit(codec, e, s) ==> r.Ok?)
            && (r.Ok? ==> Selection(codec, request, e, s, r.value))
  {
    hide SortedEntries, SortedSummaries, DistinctRefs, Finish, Selection, EntryEligible, SummaryEligible, KvBytes, EpisodicBytes;
    hide SourceCount, Sorted, AfterEntries, AfterSummaries, EntriesInOrder, SummariesInOrder;
    var e, s := SortedEntries(request.scope, entries), SortedSummaries(request.scope, summaries);
    SelectedFrom(request.scope, entries, summaries);
    SortedItemsAreEligible(request.scope, entries, summaries);
    if DistinctRefs(e, s) {
      NothingConsidered(codec, request.budget);
      AllEntriesConsidered(codec, request, [], EMPTY, e);
      assert [] + e == e && [] + s == s;
      var withEntries := AfterEntries(codec, request, EMPTY, e);
      if withEntries.Ok? {
        NoSummaryConsidered(codec, request.budget, e, withEntries.value);
        AllSummariesConsidered(codec, request, withEntries.value, [], withEntries.value, s);
        var full := AfterSummaries(codec, request, withEntries.value, s);
        if full.Ok? { FinishSucceeds(codec, request, e, s, withEntries.value, full.value); }
      }
    }
  }

  lemma NothingConsidered(codec: Codec, budget: Budget)
    ensures EntriesConsidered(codec, budget, [], EMPTY)
  {}

  lemma NoSummaryConsidered(codec: Codec, budget: Budget, seen: seq<KvItem>, base: Building)
    requires EntriesConsidered(codec, budget, seen, base)
    ensures SummariesConsidered(codec, budget, base, [], base)
    ensures base.accounting.acceptedBytes + base.accounting.omittedBytes == KvBytes(codec, seen)
  {}

  // ---------- reading the items first ----------

  ghost predicate AllRead<T>(items: seq<Result<T, RetrievalError>>) {
    forall i | 0 <= i < |items| :: items[i].Ok?
  }

  /** What was read, item by item. */
  ghost predicate Read<T>(items: seq<Result<T, RetrievalError>>, values: seq<T>) {
    |values| == |items| && forall i | 0 <= i < |items| :: items[i] == Ok(values[i])
  }

  ghost predicate FirstFailure<T>(items: seq<Result<T, RetrievalError>>, i: nat) {
    i < |items| && items[i].Err? && forall j | 0 <= j < i :: items[j].Ok?
  }

  lemma {:induction false} CollectRead<T>(items: seq<Result<T, RetrievalError>>, values: seq<T>)
    requires Read(items, values)
    ensures Collect(items) == Ok(values)
  {
    if items != [] {
      CollectRead(items[1..], values[1..]);
      assert values == [values[0]] + values[1..];
    } else {
      assert values == [];
    }
  }

  lemma {:induction false} CollectFails<T>(items: seq<Result<T, RetrievalError>>, i: nat)
    requires FirstFailure(items, i)
    ensures Collect(items) == Err(items[i].error)
  {
    if i > 0 { CollectFails(items[1..], i - 1); }
  }

  /** The first entry that cannot be read decides, then the first such summary; otherwise the
      snapshot refuses exactly repeated references among the sorted eligible items, fails on
      overflow only, and is a valid, conserving and maximal choice from them. */
  lemma SnapshotMeaning(codec: Codec, purposeOk: Purpose -> bool, request: SnapshotRequest,
      entries: seq<Result<KvItem, RetrievalError>>, summaries: seq<Result<EpisodicItem, RetrievalError>>)
    requires purposeOk(request.scope.purpose) && ValidBudget(request.budget)
    ensures forall i: nat | FirstFailure(entries, i) :: SelectSnapshot(codec, purposeOk, request, entries, summaries) == Err(entries[i].error)
    ensures AllRead(entries) ==> forall i: nat | FirstFailure(summaries, i) ::
              SelectSnapshot(codec, purposeOk, request, entries, summaries) == Err(summaries[i].error)
    ensures forall e, s | Read(entries, e) && Read(summaries, s) ::
              var se, ss := SortedEntries(request.scope, e), SortedSummaries(request.scope, s);
              var r := SelectSnapshot(codec, purposeOk, request, entries, summaries);
              && (r == Err(InvalidSnapshot) <==> !DistinctRefs(se, ss))
              && (r.Err? ==> r.error in {InvalidSnapshot, Overflow})
              && (DistinctRefs(se, ss) && TotalsFit(codec, se, ss) ==> r.Ok?)
              && (r.Ok? ==> Selection(codec, request, se, ss, r.value))
  {
    hide Select, Collect, SortedEntries, SortedSummaries, DistinctRefs, Selection, TotalsFit, Read;
    forall i: nat | FirstFailure(entries, i) ensures Collect(entries) == Err(entries[i].error) { CollectFails(entries, i); }
    if AllRead(entries) {
      var e := seq(|entries|, (i: nat) requires i < |entries| && entries[i].Ok? => entries[i].value);
      assert Read(entries, e) by { ReadValues(entries, e); }
      CollectRead(entries, e);
      forall i: nat | FirstFailure(summaries, i) ensures Collect(summaries) == Err(summaries[i].error) { CollectFails(summaries, i); }
    }
    forall e, s | Read(entries, e) && Read(summaries, s)
      ensures SelectSnapshot(codec, purposeOk, request, entries, summaries) == Select(codec, purposeOk, request, e, s)
    {
      CollectRead(entries, e);
      CollectRead(summaries, s);
    }
    forall e, s | Read(entries, e) && Read(summaries, s)
      ensures var se, ss := SortedEntries(request.scope, e), SortedSummaries(request.scope, s);
              var r := Select(codec, purposeOk, request, e, s);
              && (r == Err(InvalidSnapshot) <==> !DistinctRefs(se, ss))
              && (r.Err? ==> r.error in {InvalidSnapshot, Overflow})
              && (DistinctRefs(se, ss) && TotalsFit(codec, se, ss) ==> r.Ok?)
              && (r.Ok? ==> Selection(codec, request, se, ss, r.value))
    {
      SelectionMeaning(codec, purposeOk, request, e, s);
    }
  }

  lemma ReadValues<T>(items: seq<Result<T, RetrievalError>>, values: seq<T>)
    requires |values| == |items| && forall i | 0 <= i < |items| :: items[i].Ok? && values[i] == items[i].value
    ensures Read(items, values)
  {}

  /** Shuffling what was read, or adding and removing ineligible items, changes nothing. */
  lemma SnapshotIgnoresOrder(codec: Codec, purposeOk: Purpose -> bool, request: SnapshotRequest,
      entries: seq<Result<KvItem, RetrievalError>>, summaries: seq<Result<EpisodicItem, RetrievalError>>,
      entries': seq<Result<KvItem, RetrievalError>>, summaries': seq<Result<EpisodicItem, RetrievalError>>,
      e: seq<KvItem>, s: seq<EpisodicItem>, e': seq<KvItem>, s': seq<EpisodicItem>)
    requires Read(entries, e) && Read(summaries, s) && Read(entries', e') && Read(summaries', s')
    requires multiset(Filter(e, EligibleEntry(request.scope))) == multiset(Filter(e', EligibleEntry(request.scope)))
    requires multiset(Filter(s, EligibleSummary(request.scope))) == multiset(Filter(s', EligibleSummary(request.scope)))
    ensures SelectSnapshot(codec, purposeOk, request, entries, summaries)
            == SelectSnapshot(codec, purposeOk, request, entries', summaries')
  {
    hide Select, Collect, Filter;
    CollectRead(entries, e);
    CollectRead(summaries, s);
    CollectRead(entries', e');
    CollectRead(summaries', s');
    SelectIgnoresOrder(codec, purposeOk, request, e, s, e', s');
  }

  // ---------- the selection as it runs ----------

  /** `MemorySnapshotBuilder`: lists and counters updated item by item. */
  class SnapshotBuilder {
    const request: SnapshotRequest
    var entries: seq<KvItem>
    var summaries: seq<EpisodicItem>
    var accounting: Accounting

    constructor (request: SnapshotRequest)
      ensures this.request == request && Value() == EMPTY
    {
      this.request := request;
      entries, summaries, accounting := [], [], Accounting(0, 0, 0, 0, 0, 0, 0, 0, 0, 0);
    }

    function Value(): Building
      reads this
    {
      Building(entries, summaries, accounting)
    }

    /** Counters are updated in a copy that replaces the accounting only at the end. */
    method ConsiderEntry(codec: Codec, item: KvItem) returns (r: Result<(), RetrievalError>)
      modifies this
      ensures var next := AfterEntry(codec, request, old(Value()), item);
              && (r.Ok? <==> next.Ok?) && (r.Err? ==> next == Err(r.error))
              && (next.Ok? ==> Value() == next.value)
    {
      if !EntryEligible(request.scope, item) { return Ok(()); }
      var bytes := codec.kvBytes(item);
      if bytes > U64_MAX { return Err(Overflow); }
      var next := accounting;
      if next.eligibleEntries + 1 > U64_MAX { return Err(Overflow); }
      next := next.(eligibleEntries := next.eligibleEntries + 1);
      var admit := |entries| < request.budget.maxEntries;
      if admit {
        if next.acceptedBytes + bytes > U64_MAX { return Err(Overflow); }
        admit := next.acceptedBytes + bytes <= request.budget.maxBytes;
      }
      if admit {
        if next.acceptedEntries + 1 > U64_MAX || next.acceptedBytes + bytes > U64_MAX { return Err(Overflow); }
        next := next.(acceptedEntries := next.acceptedEntries + 1, acceptedBytes := next.acceptedBytes + bytes);
        entries := entries + [item];
      } else {
        if next.omittedEntries + 1 > U64_MAX || next.omittedBytes + bytes > U64_MAX { return Err(Overflow); }
        next := next.(omittedEntries := next.omittedEntries + 1, omittedBytes := next.omittedBytes + bytes);
      }
      accounting := next;
      return Ok(());
    }

    method ConsiderSummary(codec: Codec, item: EpisodicItem) returns (r: Result<(), RetrievalError>)
      modifies this
      ensures var next := AfterSummary(codec, request, old(Value()), item);
              && (r.Ok? <==> next.Ok?) && (r.Err? ==> next == Err(r.error))
              && (next.Ok? ==> Value() == next.value)
    {
      if !SummaryEligible(request.scope, item) { return Ok(()); }
      var bytes, sources := codec.episodicBytes(item), |item.sources|;
      if bytes > U64_MAX || sources > U64_MAX { return Err(Overflow); }
      var next := accounting;
      if next.eligibleSummaries + 1 > U64_MAX { return Err(Overflow); }
      next := next.(eligibleSummaries := next.eligibleSummaries + 1);
      var admit := |summaries| < request.budget.maxSummaries;
      if admit {
        if next.acceptedBytes + bytes > U64_MAX { return Err(Overflow); }
        admit := next.acceptedBytes + bytes <= request.budget.maxBytes;
      }
      if admit {
        if next.acceptedSources + sources > U64_MAX { return Err(Overflow); }
        admit := next.acceptedSources + sources <= request.budget.maxSources;
      }
      if admit {
        if next.acceptedSummaries + 1 > U64_MAX { return Err(Overflow); }
        next := next.(acceptedSummaries := next.acceptedSummaries + 1, acceptedBytes := next.acceptedBytes + bytes,
                      acceptedSources := next.acceptedSources + sources);
        summaries := summaries + [item];
      } else {
        if next.omittedSummaries + 1 > U64_MAX || next.omittedBytes + bytes > U64_MAX
           || next.omittedSources + sources > U64_MAX { return Err(Overflow); }
        next := next.(omittedSummaries := next.omittedSummaries + 1, omittedBytes := next.omittedBytes + bytes,
                      omittedSources := next.omittedSources + sources);
      }
      accounting := next;
      return Ok(());
    }
  }

  /** The check that inserts every identity into a set. */
  method RejectDuplicateRefs(entries: seq<KvItem>, summaries: seq<EpisodicItem>) returns (ok: bool)
    ensures ok <==> DistinctRefs(entries, summaries)
  {
    var entryIds: set<(nat, nat)> := {};
    for i := 0 to |entries|
      invariant entryIds == set k | 0 <= k < i :: EntryIdentity(entries[k])
      invariant forall j, k | 0 <= j < k < i :: EntryIdentity(entries[j]) != EntryIdentity(entries[k])
    {
      if EntryIdentity(entries[i]) in entryIds { return false; }
      entryIds := entryIds + {EntryIdentity(entries[i])};
    }
    var summaryIds: set<nat> := {};
    for i := 0 to |summaries|
      invariant summaryIds == set k | 0 <= k < i :: SummaryIdentity(summaries[k])
      invariant forall j, k | 0 <= j < k < i :: SummaryIdentity(summaries[j]) != SummaryIdentity(summaries[k])
    {
      if SummaryIdentity(summaries[i]) in summaryIds { return false; }
      summaryIds := summaryIds + {SummaryIdentity(summaries[i])};
    }
    return true;
  }

  /** The two admission loops of `select_snapshot` over a builder. */
  method BuildSnapshot(codec: Codec, purposeOk: Purpose -> bool, request: SnapshotRequest, entries: seq<KvItem>,
      summaries: seq<EpisodicItem>) returns (r: Result<Snapshot, RetrievalError>)
    ensures r == SelectSorted(codec, purposeOk, request, entries, summaries)
  {
    var distinct := RejectDuplicateRefs(entries, summaries);
    if !distinct { return Err(InvalidSnapshot); }
    if !purposeOk(request.scope.purpose) { return Err(InvalidScope); }
    var builder := new SnapshotBuilder(request);
    ghost var withEntries := AfterEntries(codec, request, EMPTY, entries);
    for i := 0 to |entries|
      invariant withEntries == AfterEntries(codec, request, builder.Value(), entries[i..])
    {
      assert entries[i..][0] == entries[i] && entries[i..][1..] == entries[i + 1..];
      var step := builder.ConsiderEntry(codec, entries[i]);
      if step.Err? { return Err(step.error); }
    }
    assert entries[|entries|..] == [];
    ghost var full := AfterSummaries(codec, request, builder.Value(), summaries);
    for i := 0 to |summaries|
      invariant full == AfterSummaries(codec, request, builder.Value(), summaries[i..])
    {
      assert summaries[i..][0] == summaries[i] && summaries[i..][1..] == summaries[i + 1..];
      var step := builder.ConsiderSummary(codec, summaries[i]);
      if step.Err? { return Err(step.error); }
    }
    assert summaries[|summaries|..] == [];
    r := Finish(codec, request, builder.Value());
  }

  lemma CollectNext<T>(items: seq<Result<T, RetrievalError>>, i: nat, read: seq<T>)
    requires i < |items| && Read(items[..i], read) && items[i].Ok?
    ensures Read(items[..i + 1], read + [items[i].value])
  {}

  /** Reading stops at the first failure. */
  method ReadItems<T>(items: seq<Result<T, RetrievalError>>) returns (r: Result<seq<T>, RetrievalError>)
    ensures r == Collect(items)
  {
    hide Collect;
    var values: seq<T> := [];
    for i := 0 to |items|
      invariant Read(items[..i], values)
    {
      if items[i].Err? {
        CollectFails(items, i);
        return Err(items[i].error);
      }
      CollectNext(items, i, values);
      values := values + [items[i].value];
    }
    assert items[..|items|] == items;
    CollectRead(items, values);
    return Ok(values);
  }

  /** `select_snapshot`: read, filter and sort both kinds of item, then admit them. */
  method TakeSnapshot(codec: Codec, purposeOk: Purpose -> bool, request: SnapshotRequest,
      entries: seq<Result<KvItem, RetrievalError>>, summaries: seq<Result<EpisodicItem, RetrievalError>>)
    returns (r: Result<Snapshot, RetrievalError>)
    ensures r == SelectSnapshot(codec, purposeOk, request, entries, summaries)
  {
    hide Collect, SelectSorted, SortedEntries, SortedSummaries;
    var readEntries := ReadItems(entries);
    if readEntries.Err? { return Err(readEntries.error); }
    var readSummaries := ReadItems(summaries);
    if readSummaries.Err? { return Err(readSummaries.error); }
    r := BuildSnapshot(codec, purposeOk, request, SortedEntries(request.scope, readEntries.value),
      SortedSummaries(request.scope, readSummaries.value));
  }
}
