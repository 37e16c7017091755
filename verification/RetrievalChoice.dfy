/** What a memory snapshot contains and in which order, said of the items alone: which of
    them are wanted, which comes before which, and which is left out. */
module RetrievalChoice {
  import opened Prelude
  import opened Sorting
  import opened MemoryTypes
  import opened RetrievalTypes
  import opened Retrieval

  // ---------- what is wanted, and what comes first ----------

  /** The scope asks for tags and the item carries one of them. */
  ghost predicate Shares(purpose: Purpose, tags: seq<string>) {
    purpose.Tagged? && exists i, j :: 0 <= i < |tags| && 0 <= j < |purpose.tags| && tags[i] == purpose.tags[j]
  }

  /** Present rows of the namespace that are untagged or carry a tag asked for. */
  ghost predicate WantedEntry(scope: Scope, item: KvItem) {
    item.entry.ns == scope.ns && item.entry.state == Present && (item.tags == [] || Shares(scope.purpose, item.tags))
  }

  ghost predicate WantedSummary(scope: Scope, item: EpisodicItem) {
    && item.summary.ns == scope.ns && item.summary.profile == scope.profile
    && (item.tags == [] || Shares(scope.purpose, item.tags))
  }

  /** By key, then version, then entry, then version id. */
  ghost predicate RefBefore(a: EntryRef, b: EntryRef) {
    || TextBefore(a.key, b.key)
    || (a.key == b.key && a.version < b.version)
    || (a.key == b.key && a.version == b.version && a.entryId < b.entryId)
    || (a.key == b.key && a.version == b.version && a.entryId == b.entryId && a.versionId < b.versionId)
  }

  /** What shares a tag comes before what does not; alike in that, entries go by reference. */
  ghost predicate EntryBefore(purpose: Purpose, a: KvItem, b: KvItem) {
    || (Shares(purpose, a.tags) && !Shares(purpose, b.tags))
    || ((Shares(purpose, a.tags) <==> Shares(purpose, b.tags)) && RefBefore(a.entry, b.entry))
  }

  /** Alike in sharing a tag, summaries go newest first, then by id. */
  ghost predicate SummaryBefore(purpose: Purpose, a: EpisodicItem, b: EpisodicItem) {
    || (Shares(purpose, a.tags) && !Shares(purpose, b.tags))
    || ((Shares(purpose, a.tags) <==> Shares(purpose, b.tags))
        && (a.createdAt > b.createdAt || (a.createdAt == b.createdAt && a.summary.id < b.summary.id)))
  }

  lemma RankMeaning(purpose: Purpose, tags: seq<string>)
    ensures Rank(purpose, tags) == if purpose.General? || Shares(purpose, tags) then 0 else 1
    ensures PurposeMatches(purpose, tags) <==> tags == [] || Shares(purpose, tags)
  {
    if purpose.Tagged? && (exists tag | tag in tags :: tag in purpose.tags) {
      var tag :| tag in tags && tag in purpose.tags;
      var i :| 0 <= i < |tags| && tags[i] == tag;
      var j :| 0 <= j < |purpose.tags| && purpose.tags[j] == tag;
      assert Shares(purpose, tags);
    }
    if Shares(purpose, tags) {
      var i, j :| 0 <= i < |tags| && 0 <= j < |purpose.tags| && tags[i] == purpose.tags[j];
      assert tags[i] in tags && tags[i] in purpose.tags;
    }
  }

  lemma RefLeMeaning(a: EntryRef, b: EntryRef)
    ensures RefBefore(a, b) <==> RefLe(a, b) && !RefLe(b, a)
  {
    TextLeMeaning(a.key, b.key);
    TextLeMeaning(b.key, a.key);
    TextTotal(a.key, b.key);
    NotBeforeItself(a.key);
  }

  lemma NotBeforeItself(a: string)
    ensures !TextBefore(a, a)
  {}

  lemma EntryOrderMeaning(purpose: Purpose, a: KvItem, b: KvItem)
    ensures EntryBefore(purpose, a, b) <==> EntriesInOrder(purpose)(a, b) && !EntriesInOrder(purpose)(b, a)
    ensures forall scope: Scope | scope.purpose == purpose :: WantedEntry(scope, a) <==> EntryEligible(scope, a)
  {
    hide Rank, RefLe, RefBefore, Shares, PurposeMatches;
    RankMeaning(purpose, a.tags);
    RankMeaning(purpose, b.tags);
    NothingIsShared(purpose);
    RefLeMeaning(a.entry, b.entry);
    RefLeTotal(a.entry, b.entry);
  }

  lemma NothingIsShared(purpose: Purpose)
    ensures purpose.General? ==> forall tags :: !Shares(purpose, tags)
  {}

  lemma SummaryOrderMeaning(purpose: Purpose, a: EpisodicItem, b: EpisodicItem)
    ensures SummaryBefore(purpose, a, b) <==> SummariesInOrder(purpose)(a, b) && !SummariesInOrder(purpose)(b, a)
    ensures forall scope: Scope | scope.purpose == purpose :: WantedSummary(scope, a) <==> SummaryEligible(scope, a)
  {
    hide Rank, Shares, PurposeMatches;
    RankMeaning(purpose, a.tags);
    RankMeaning(purpose, b.tags);
    NothingIsShared(purpose);
  }

  // ---------- greedy admission ----------

  /** Every element of `seen` that was not kept met a full list: what had been kept of the
      elements before it left no room, and the rest of what is kept comes after it. */
  ghost predicate Greedy<T>(full: (seq<T>, T) -> bool, seen: seq<T>, kept: seq<T>) {
    forall i | 0 <= i < |seen| && seen[i] !in kept :: Refused(full, seen, kept, i)
  }

  ghost predicate Refused<T>(full: (seq<T>, T) -> bool, seen: seq<T>, kept: seq<T>, i: nat)
    requires i < |seen|
  {
    exists k :: 0 <= k <= |kept| && RefusedAt(full, seen, kept, i, k)
  }

  ghost predicate RefusedAt<T>(full: (seq<T>, T) -> bool, seen: seq<T>, kept: seq<T>, i: nat, k: nat)
    requires i < |seen| && k <= |kept|
  {
    && (forall x | x in kept[..k] :: x in seen[..i])
    && (forall x | x in kept[k..] :: x in seen[i + 1..])
    && full(kept[..k], seen[i])
  }

  lemma RefusalStands<T>(full: (seq<T>, T) -> bool, seen: seq<T>, kept: seq<T>, item: T, i: nat)
    requires i < |seen| && Refused(full, seen, kept, i)
    ensures Refused(full, seen + [item], kept, i) && Refused(full, seen + [item], kept + [item], i)
  {
    var k :| 0 <= k <= |kept| && RefusedAt(full, seen, kept, i, k);
    var seen', kept' := seen + [item], kept + [item];
    assert seen'[..i] == seen[..i] && seen'[i + 1..] == seen[i + 1..] + [item];
    assert kept'[..k] == kept[..k] && kept'[k..] == kept[k..] + [item];
    assert RefusedAt(full, seen', kept, i, k) && RefusedAt(full, seen', kept', i, k);
  }

  lemma GreedyStep<T>(full: (seq<T>, T) -> bool, seen: seq<T>, kept: seq<T>, item: T)
    requires Greedy(full, seen, kept) && Sublist(kept, seen)
    ensures Greedy(full, seen + [item], kept + [item])
    ensures full(kept, item) ==> Greedy(full, seen + [item], kept)
  {
    hide Refused;
    var seen', n := seen + [item], |seen|;
    forall i | 0 <= i < n && seen[i] !in kept
      ensures Refused(full, seen', kept, i) && Refused(full, seen', kept + [item], i)
    {
      RefusalStands(full, seen, kept, item, i);
    }
    forall x | x in kept ensures x in kept + [item] {}
    assert item in kept + [item];
    if full(kept, item) { LastRefused(full, seen, kept, item); }
  }

  lemma LastRefused<T>(full: (seq<T>, T) -> bool, seen: seq<T>, kept: seq<T>, item: T)
    requires full(kept, item) && Sublist(kept, seen)
    ensures Refused(full, seen + [item], kept, |seen|)
  {
    SublistElements(kept, seen);
    assert (seen + [item])[..|seen|] == seen && kept[..|kept|] == kept && kept[|kept|..] == [];
    assert RefusedAt(full, seen + [item], kept, |seen|, |kept|);
  }

  // ---------- the entries ----------

  function EntriesFull(codec: Codec, budget: Budget): (seq<KvItem>, KvItem) -> bool {
    (kept: seq<KvItem>, item: KvItem) =>
      |kept| >= budget.maxEntries || KvBytes(codec, kept) + codec.kvBytes(item) > budget.maxBytes
  }

  lemma EntryGreedy(codec: Codec, request: SnapshotRequest, seen: seq<KvItem>, b: Building, item: KvItem)
    requires EntriesConsidered(codec, request.budget, seen, b) && EntryEligible(request.scope, item)
    requires Greedy(EntriesFull(codec, request.budget), seen, b.entries)
    ensures AfterEntry(codec, request, b, item).Ok? ==>
              Greedy(EntriesFull(codec, request.budget), seen + [item], AfterEntry(codec, request, b, item).value.entries)
  {
    hide EntryEligible, KvBytes, Sublist, NoEntryFits, Greedy;
    GreedyStep(EntriesFull(codec, request.budget), seen, b.entries, item);
  }

  lemma {:induction false} EntriesAreGreedy(codec: Codec, request: SnapshotRequest, seen: seq<KvItem>, b: Building, items: seq<KvItem>)
    requires EntriesConsidered(codec, request.budget, seen, b)
    requires forall item | item in items :: EntryEligible(request.scope, item)
    requires Greedy(EntriesFull(codec, request.budget), seen, b.entries)
    ensures AfterEntries(codec, request, b, items).Ok? ==>
              Greedy(EntriesFull(codec, request.budget), seen + items, AfterEntries(codec, request, b, items).value.entries)
    decreases |items|
  {
    hide EntriesConsidered, AfterEntry, EntryEligible, KvBytes, Greedy, EntriesFull;
    if items == [] {
      assert seen + items == seen;
    } else {
      assert (seen + [items[0]]) + items[1..] == seen + items;
      EntryConsidered(codec, request, seen, b, items[0]);
      EntryGreedy(codec, request, seen, b, items[0]);
      if AfterEntry(codec, request, b, items[0]).Ok? {
        EntriesAreGreedy(codec, request, seen + [items[0]], AfterEntry(codec, request, b, items[0]).value, items[1..]);
      }
    }
  }

  // ---------- the summaries ----------

  function SummariesFull(codec: Codec, budget: Budget, bytes: nat): (seq<EpisodicItem>, EpisodicItem) -> bool {
    (kept: seq<EpisodicItem>, item: EpisodicItem) =>
      || |kept| >= budget.maxSummaries
      || bytes + EpisodicBytes(codec, kept) + codec.episodicBytes(item) > budget.maxBytes
      || SourceCount(kept) + |item.sources| > budget.maxSources
  }

  lemma SummaryGreedy(codec: Codec, request: SnapshotRequest, base: Building, seen: seq<EpisodicItem>, b: Building, item: EpisodicItem)
    requires SummariesConsidered(codec, request.budget, base, seen, b) && SummaryEligible(request.scope, item)
    requires Greedy(SummariesFull(codec, request.budget, base.accounting.acceptedBytes), seen, b.summaries)
    ensures AfterSummary(codec, request, b, item).Ok? ==>
              Greedy(SummariesFull(codec, request.budget, base.accounting.acceptedBytes), seen + [item],
                AfterSummary(codec, request, b, item).value.summaries)
  {
    hide SummaryEligible, EpisodicBytes, SourceCount, Sublist, NoSummaryFits, Greedy;
    GreedyStep(SummariesFull(codec, request.budget, base.accounting.acceptedBytes), seen, b.summaries, item);
  }

  lemma {:induction false} SummariesAreGreedy(codec: Codec, request: SnapshotRequest, base: Building, seen: seq<EpisodicItem>,
      b: Building, items: seq<EpisodicItem>)
    requires SummariesConsidered(codec, request.budget, base, seen, b)
    requires forall item | item in items :: SummaryEligible(request.scope, item)
    requires Greedy(SummariesFull(codec, request.budget, base.accounting.acceptedBytes), seen, b.summaries)
    ensures AfterSummaries(codec, request, b, items).Ok? ==>
              Greedy(SummariesFull(codec, request.budget, base.accounting.acceptedBytes), seen + items,
                AfterSummaries(codec, request, b, items).value.summaries)
    decreases |items|
  {
    hide SummariesConsidered, AfterSummary, SummaryEligible, EpisodicBytes, SourceCount, Greedy, SummariesFull;
    if items == [] {
      assert seen + items == seen;
    } else {
      assert (seen + [items[0]]) + items[1..] == seen + items;
      SummaryConsidered(codec, request, base, seen, b, items[0]);
      SummaryGreedy(codec, request, base, seen, b, items[0]);
      if AfterSummary(codec, request, b, items[0]).Ok? {
        SummariesAreGreedy(codec, request, base, seen + [items[0]], AfterSummary(codec, request, b, items[0]).value, items[1..]);
      }
    }
  }

  // ---------- the choice, of either kind of item ----------

  /** `chosen` is in order, each element found room when its turn came, and every other wanted
      element found none behind the chosen elements that come before it. */
  ghost predicate Choice<T(!new)>(before: (T, T) -> bool, full: (seq<T>, T) -> bool, wanted: T -> bool, chosen: seq<T>) {
    && Sorted(before, chosen)
    && (forall i | 0 <= i < |chosen| :: wanted(chosen[i]) && !full(chosen[..i], chosen[i]))
    && (forall x | wanted(x) && x !in chosen :: LeftOut(before, full, chosen, x))
  }

  ghost predicate LeftOut<T(!new)>(before: (T, T) -> bool, full: (seq<T>, T) -> bool, chosen: seq<T>, x: T) {
    exists k :: 0 <= k <= |chosen| && LeftOutAt(before, full, chosen, x, k)
  }

  ghost predicate LeftOutAt<T>(before: (T, T) -> bool, full: (seq<T>, T) -> bool, chosen: seq<T>, x: T, k: nat)
    requires k <= |chosen|
  {
    && (forall j | 0 <= j < k :: before(chosen[j], x))
    && (forall j | k <= j < |chosen| :: before(x, chosen[j]))
    && full(chosen[..k], x)
  }

  ghost predicate Asymmetric<T(!new)>(before: (T, T) -> bool) { forall x, y :: !(before(x, y) && before(y, x)) }

  /** Two choices that agree up to `i` cannot disagree there. */
  lemma SameNext<T(!new)>(before: (T, T) -> bool, full: (seq<T>, T) -> bool, wanted: T -> bool, a: seq<T>, b: seq<T>, i: nat)
    requires Asymmetric(before) && Choice(before, full, wanted, a) && Choice(before, full, wanted, b)
    requires i < |a| && i <= |b| && a[..i] == b[..i]
    ensures i < |b| && a[i] == b[i]
  {
    hide LeftOutAt;
    assert forall m | 0 <= m < i :: a[m] == a[..i][m] && b[m] == b[..i][m];
    if i < |b| && before(b[i], a[i]) {
      NotLater(before, full, wanted, b, a, i);
    } else {
      NotLater(before, full, wanted, a, b, i);
    }
  }

  /** The next element of one choice is chosen by the other too, unless something before it is. */
  lemma NotLater<T(!new)>(before: (T, T) -> bool, full: (seq<T>, T) -> bool, wanted: T -> bool, a: seq<T>, b: seq<T>, i: nat)
    requires Asymmetric(before) && Choice(before, full, wanted, a) && Choice(before, full, wanted, b)
    requires i < |a| && i <= |b| && a[..i] == b[..i]
    requires forall m | 0 <= m < i :: a[m] == b[m]
    requires i < |b| ==> !before(b[i], a[i])
    ensures i < |b| && b[i] == a[i]
  {
    var x := a[i];
    forall m | 0 <= m < i ensures before(b[m], x) { assert before(a[m], a[i]); }
    if x !in b { LeftOutThere(before, full, b, x, i); }
    var j :| 0 <= j < |b| && b[j] == x;
    assert j < i ==> before(x, x);
    if i < |b| {
      var y := b[i];
      assert i < j ==> before(y, x);
    }
  }

  lemma LeftOutThere<T(!new)>(before: (T, T) -> bool, full: (seq<T>, T) -> bool, b: seq<T>, x: T, i: nat)
    requires Asymmetric(before) && LeftOut(before, full, b, x) && i <= |b|
    requires forall m | 0 <= m < i :: before(b[m], x)
    requires i < |b| ==> !before(b[i], x)
    ensures full(b[..i], x)
  {
    var k :| 0 <= k <= |b| && LeftOutAt(before, full, b, x, k);
    if k < |b| { assert before(x, b[k]) && !before(b[k], x); }
    if i < |b| {
      var y := b[i];
      assert i < k ==> before(y, x);
    }
  }

  /** There is only one choice. */
  lemma ChoiceIsUnique<T(!new)>(before: (T, T) -> bool, full: (seq<T>, T) -> bool, wanted: T -> bool, a: seq<T>, b: seq<T>)
    requires Asymmetric(before) && Choice(before, full, wanted, a) && Choice(before, full, wanted, b)
    ensures a == b
  {
    hide Choice, Asymmetric;
    AgreeUpTo(before, full, wanted, a, b, Min(|a|, |b|));
    if |a| < |b| { SameNext(before, full, wanted, b, a, |a|); }
    if |b| < |a| { SameNext(before, full, wanted, a, b, |b|); }
  }

  lemma {:induction false} AgreeUpTo<T(!new)>(before: (T, T) -> bool, full: (seq<T>, T) -> bool, wanted: T -> bool, a: seq<T>, b: seq<T>, n: nat)
    requires Asymmetric(before) && Choice(before, full, wanted, a) && Choice(before, full, wanted, b)
    requires n <= |a| && n <= |b|
    ensures a[..n] == b[..n]
  {
    hide Choice, Asymmetric;
    if n > 0 {
      AgreeUpTo(before, full, wanted, a, b, n - 1);
      SameNext(before, full, wanted, a, b, n - 1);
      assert a[..n] == a[..n - 1] + [a[n - 1]] && b[..n] == b[..n - 1] + [b[n - 1]];
    }
  }

  /** What greedy admission keeps of a strictly sorted list is the choice from it. */
  lemma GreedyIsTheChoice<T(!new)>(le: (T, T) -> bool, before: (T, T) -> bool, full: (seq<T>, T) -> bool, wanted: T -> bool,
      seen: seq<T>, kept: seq<T>)
    requires forall x, y :: before(x, y) <==> le(x, y) && !le(y, x)
    requires Sorted(le, seen) && AntisymmetricOn(le, seen) && Distinct(seen)
    requires Sublist(kept, seen) && Greedy(full, seen, kept)
    requires forall i | 0 <= i < |kept| :: !full(kept[..i], kept[i])
    requires forall x :: wanted(x) <==> x in seen
    ensures Choice(before, full, wanted, kept)
  {
    StrictlySorted(le, before, seen);
    SublistSorted(before, kept, seen);
    SublistElements(kept, seen);
    forall x | wanted(x) && x !in kept ensures LeftOut(before, full, kept, x) {
      var i :| 0 <= i < |seen| && seen[i] == x;
      assert Refused(full, seen, kept, i);
      RefusedIsLeftOut(before, full, seen, kept, i);
    }
  }

  lemma StrictlySorted<T(!new)>(le: (T, T) -> bool, before: (T, T) -> bool, seen: seq<T>)
    requires forall x, y :: before(x, y) <==> le(x, y) && !le(y, x)
    requires Sorted(le, seen) && AntisymmetricOn(le, seen) && Distinct(seen)
    ensures Sorted(before, seen)
  {
    forall i, j | 0 <= i < j < |seen| ensures before(seen[i], seen[j]) {
      assert seen[i] in seen && seen[j] in seen && seen[i] != seen[j];
    }
  }

  lemma RefusedIsLeftOut<T(!new)>(before: (T, T) -> bool, full: (seq<T>, T) -> bool, seen: seq<T>, kept: seq<T>, i: nat)
    requires Sorted(before, seen) && i < |seen| && Refused(full, seen, kept, i)
    ensures LeftOut(before, full, kept, seen[i])
  {
    var k :| 0 <= k <= |kept| && RefusedAt(full, seen, kept, i, k);
    forall j | 0 <= j < k ensures before(kept[j], seen[i]) {
      assert kept[j] == kept[..k][j] && kept[j] in kept[..k];
      var m :| 0 <= m < i && seen[..i][m] == kept[j];
      assert before(seen[m], seen[i]);
    }
    forall j | k <= j < |kept| ensures before(seen[i], kept[j]) {
      assert kept[j] == kept[k..][j - k] && kept[j] in kept[k..];
      var m :| 0 <= m < |seen[i + 1..]| && seen[i + 1..][m] == kept[j];
      assert before(seen[i], seen[i + 1 + m]);
    }
    assert LeftOutAt(before, full, kept, seen[i], k);
  }

  // ---------- the snapshot is the choice ----------

  ghost function EntryPrecedes(purpose: Purpose): (KvItem, KvItem) -> bool {
    (a: KvItem, b: KvItem) => EntryBefore(purpose, a, b)
  }

  ghost function SummaryPrecedes(purpose: Purpose): (EpisodicItem, EpisodicItem) -> bool {
    (a: EpisodicItem, b: EpisodicItem) => SummaryBefore(purpose, a, b)
  }

  ghost function EntryWanted(scope: Scope, items: seq<KvItem>): KvItem -> bool {
    (item: KvItem) => item in items && WantedEntry(scope, item)
  }

  ghost function SummaryWanted(scope: Scope, items: seq<EpisodicItem>): EpisodicItem -> bool {
    (item: EpisodicItem) => item in items && WantedSummary(scope, item)
  }

  /** The entries are the choice among those wanted, under the entry and byte budgets. */
  ghost predicate ChoosesEntries(codec: Codec, request: SnapshotRequest, items: seq<KvItem>, chosen: seq<KvItem>) {
    Choice(EntryPrecedes(request.scope.purpose), EntriesFull(codec, request.budget), EntryWanted(request.scope, items), chosen)
  }

  /** The summaries are the choice under their own budgets and the bytes the entries leave. */
  ghost predicate ChoosesSummaries(codec: Codec, request: SnapshotRequest, items: seq<EpisodicItem>, bytes: nat,
      chosen: seq<EpisodicItem>)
  {
    Choice(SummaryPrecedes(request.scope.purpose), SummariesFull(codec, request.budget, bytes),
      SummaryWanted(request.scope, items), chosen)
  }

  lemma PrecedesIsAsymmetric(purpose: Purpose)
    ensures Asymmetric(EntryPrecedes(purpose)) && Asymmetric(SummaryPrecedes(purpose))
  {
    hide EntryBefore, SummaryBefore, EntriesInOrder, SummariesInOrder;
    forall a, b ensures !(EntryPrecedes(purpose)(a, b) && EntryPrecedes(purpose)(b, a)) {
      EntryOrderMeaning(purpose, a, b);
      EntryOrderMeaning(purpose, b, a);
    }
    forall a, b ensures !(SummaryPrecedes(purpose)(a, b) && SummaryPrecedes(purpose)(b, a)) {
      SummaryOrderMeaning(purpose, a, b);
      SummaryOrderMeaning(purpose, b, a);
    }
  }

  lemma KeptEntriesFit(codec: Codec, budget: Budget, kept: seq<KvItem>, i: nat)
    requires i < |kept| <= budget.maxEntries && KvBytes(codec, kept) <= budget.maxBytes
    ensures !EntriesFull(codec, budget)(kept[..i], kept[i])
  {
    assert kept[..i] + [kept[i]] == kept[..i + 1] && kept[..i + 1] + kept[i + 1..] == kept;
    KvBytesAppend(codec, kept[..i], kept[i]);
    KvBytesPrefix(codec, kept[..i + 1], kept[i + 1..]);
  }

  lemma KeptSummariesFit(codec: Codec, budget: Budget, bytes: nat, kept: seq<EpisodicItem>, i: nat)
    requires i < |kept| <= budget.maxSummaries && bytes + EpisodicBytes(codec, kept) <= budget.maxBytes
    requires SourceCount(kept) <= budget.maxSources
    ensures !SummariesFull(codec, budget, bytes)(kept[..i], kept[i])
  {
    assert kept[..i] + [kept[i]] == kept[..i + 1] && kept[..i + 1] + kept[i + 1..] == kept;
    EpisodicTotalsAppend(codec, kept[..i], kept[i]);
    EpisodicTotalsPrefix(codec, kept[..i + 1], kept[i + 1..]);
  }

  lemma EntriesAreTheChoice(codec: Codec, request: SnapshotRequest, items: seq<KvItem>, sorted: seq<KvItem>, b: Building)
    requires sorted == SortedEntries(request.scope, items) && DistinctRefs(sorted, [])
    requires EntriesConsidered(codec, request.budget, sorted, b)
    requires Greedy(EntriesFull(codec, request.budget), sorted, b.entries)
    ensures ChoosesEntries(codec, request, items, b.entries)
  {
    hide SortedEntries, KvBytes, Greedy, Sublist, Choice, EntryBefore, EntriesInOrder, NoEntryFits, WantedEntry, EntryEligible;
    hide DistinctRefs, Distinct, AntisymmetricOn, Sorted, Filter, EntriesFull;
    var purpose := request.scope.purpose;
    SelectedFrom(request.scope, items, []);
    DistinctRefsBreakTies(purpose, sorted, []);
    EntriesAreDistinct(sorted);
    forall a, b ensures EntryPrecedes(purpose)(a, b) <==> EntriesInOrder(purpose)(a, b) && !EntriesInOrder(purpose)(b, a) {
      EntryOrderMeaning(purpose, a, b);
    }
    forall x ensures EntryWanted(request.scope, items)(x) <==> x in sorted { WantedIsSorted(request.scope, items, x); }
    forall i | 0 <= i < |b.entries| ensures !EntriesFull(codec, request.budget)(b.entries[..i], b.entries[i]) {
      KeptEntriesFit(codec, request.budget, b.entries, i);
    }
    GreedyIsTheChoice(EntriesInOrder(purpose), EntryPrecedes(purpose), EntriesFull(codec, request.budget),
      EntryWanted(request.scope, items), sorted, b.entries);
  }

  lemma EntriesAreDistinct(items: seq<KvItem>)
    requires DistinctRefs(items, [])
    ensures Distinct(items)
  {
    forall i, j | 0 <= i < j < |items| ensures items[i] != items[j] {
      assert EntryIdentity(items[i]) != EntryIdentity(items[j]);
    }
  }

  lemma SummariesAreDistinct(items: seq<EpisodicItem>)
    requires DistinctRefs([], items)
    ensures Distinct(items)
  {
    forall i, j | 0 <= i < j < |items| ensures items[i] != items[j] {
      assert SummaryIdentity(items[i]) != SummaryIdentity(items[j]);
    }
  }

  lemma WantedIsSorted(scope: Scope, items: seq<KvItem>, x: KvItem)
    ensures x in SortedEntries(scope, items) <==> x in items && WantedEntry(scope, x)
  {
    hide EntriesInOrder, WantedEntry, EntryEligible, Sort, Sorted, Filter;
    SelectedFrom(scope, items, []);
    SameElements(SortedEntries(scope, items), Filter(items, EligibleEntry(scope)));
    FilterMultiset(items, EligibleEntry(scope), x);
    EntryOrderMeaning(scope.purpose, x, x);
  }

  lemma WantedIsSortedToo(scope: Scope, items: seq<EpisodicItem>, x: EpisodicItem)
    ensures x in SortedSummaries(scope, items) <==> x in items && WantedSummary(scope, x)
  {
    hide SummariesInOrder, WantedSummary, SummaryEligible, Sort, Sorted, Filter;
    SelectedFrom(scope, [], items);
    SameElements(SortedSummaries(scope, items), Filter(items, EligibleSummary(scope)));
    FilterMultiset(items, EligibleSummary(scope), x);
    SummaryOrderMeaning(scope.purpose, x, x);
  }

  lemma SummariesAreTheChoice(codec: Codec, request: SnapshotRequest, items: seq<EpisodicItem>, sorted: seq<EpisodicItem>,
      base: Building, b: Building, bytes: nat)
    requires sorted == SortedSummaries(request.scope, items) && DistinctRefs([], sorted)
    requires SummariesConsidered(codec, request.budget, base, sorted, b) && bytes == base.accounting.acceptedBytes
    requires Greedy(SummariesFull(codec, request.budget, bytes), sorted, b.summaries)
    ensures ChoosesSummaries(codec, request, items, bytes, b.summaries)
  {
    hide SortedSummaries, EpisodicBytes, SourceCount, Greedy, Sublist, Choice, SummaryBefore, SummariesInOrder, NoSummaryFits;
    hide WantedSummary, SummaryEligible, DistinctRefs, Distinct, AntisymmetricOn, Sorted, Filter, SummariesFull;
    var purpose := request.scope.purpose;
    SelectedFrom(request.scope, [], items);
    DistinctRefsBreakTies(purpose, [], sorted);
    SummariesAreDistinct(sorted);
    forall a, b ensures SummaryPrecedes(purpose)(a, b) <==> SummariesInOrder(purpose)(a, b) && !SummariesInOrder(purpose)(b, a) {
      SummaryOrderMeaning(purpose, a, b);
    }
    forall x ensures SummaryWanted(request.scope, items)(x) <==> x in sorted { WantedIsSortedToo(request.scope, items, x); }
    forall i | 0 <= i < |b.summaries| ensures !SummariesFull(codec, request.budget, bytes)(b.summaries[..i], b.summaries[i]) {
      KeptSummariesFit(codec, request.budget, bytes, b.summaries, i);
    }
    GreedyIsTheChoice(SummariesInOrder(purpose), SummaryPrecedes(purpose), SummariesFull(codec, request.budget, bytes),
      SummaryWanted(request.scope, items), sorted, b.summaries);
  }

  // ---------- repeated references ----------

  /** Two wanted items of the same kind carry one reference. */
  ghost predicate RepeatsARef(scope: Scope, entries: seq<KvItem>, summaries: seq<EpisodicItem>) {
    || (exists i, j :: 0 <= i < j < |entries| && RepeatsEntry(scope, entries[i], entries[j]))
    || (exists i, j :: 0 <= i < j < |summaries| && RepeatsSummary(scope, summaries[i], summaries[j]))
  }

  ghost predicate RepeatsEntry(scope: Scope, a: KvItem, b: KvItem) {
    && WantedEntry(scope, a) && WantedEntry(scope, b)
    && a.entry.entryId == b.entry.entryId && a.entry.versionId == b.entry.versionId
  }

  ghost predicate RepeatsSummary(scope: Scope, a: EpisodicItem, b: EpisodicItem) {
    WantedSummary(scope, a) && WantedSummary(scope, b) && a.summary.id == b.summary.id
  }

  ghost predicate KeptSorted<T(!new)>(le: (T, T) -> bool, keep: T -> bool, s: seq<T>) {
    forall i, j | 0 <= i < j < |s| && keep(s[i]) && keep(s[j]) :: le(s[i], s[j])
  }

  lemma SortedHead<T(!new)>(le: (T, T) -> bool, keep: T -> bool, x: T, s: seq<T>)
    ensures KeptSorted(le, keep, [x] + s) <==> KeptSorted(le, keep, s) && (keep(x) ==> forall y | y in s && keep(y) :: le(x, y))
    ensures Sorted(le, [x] + s) <==> Sorted(le, s) && (forall y | y in s :: le(x, y))
  {
    var all := [x] + s;
    forall i | 0 <= i < |s| ensures s[i] == all[i + 1] {}
    if KeptSorted(le, keep, all) {
      forall y | y in s && keep(y) && keep(x) ensures le(x, y) {
        var i :| 0 <= i < |s| && s[i] == y;
        assert le(all[0], all[i + 1]);
      }
      forall i, j | 0 <= i < j < |s| && keep(s[i]) && keep(s[j]) ensures le(s[i], s[j]) { assert le(all[i + 1], all[j + 1]); }
    }
    if Sorted(le, all) {
      forall y | y in s ensures le(x, y) {
        var i :| 0 <= i < |s| && s[i] == y;
        assert le(all[0], all[i + 1]);
      }
      forall i, j | 0 <= i < j < |s| ensures le(s[i], s[j]) { assert le(all[i + 1], all[j + 1]); }
    }
  }

  /** What relates all kept pairs relates all pairs of the filtered list. */
  lemma {:induction false} FilteredSorted<T(!new)>(le: (T, T) -> bool, keep: T -> bool, s: seq<T>)
    ensures Sorted(le, Filter(s, keep)) <==> KeptSorted(le, keep, s)
  {
    if s != [] {
      FilteredSorted(le, keep, s[1..]);
      FilteredHead(le, keep, s[0], s[1..]);
      assert s == [s[0]] + s[1..];
    }
  }

  lemma FilteredHead<T(!new)>(le: (T, T) -> bool, keep: T -> bool, x: T, rest: seq<T>)
    requires Sorted(le, Filter(rest, keep)) <==> KeptSorted(le, keep, rest)
    ensures Sorted(le, Filter([x] + rest, keep)) <==> KeptSorted(le, keep, [x] + rest)
  {
    hide Sorted, KeptSorted, Filter;
    FilterCons(x, rest, keep);
    SortedHead(le, keep, x, rest);
    SortedHead(le, keep, x, Filter(rest, keep));
    forall y ensures y in Filter(rest, keep) <==> y in rest && keep(y) { FilterMultiset(rest, keep, y); }
  }

  lemma FilterCons<T>(x: T, rest: seq<T>, keep: T -> bool)
    ensures Filter([x] + rest, keep) == if keep(x) then [x] + Filter(rest, keep) else Filter(rest, keep)
  {
    assert ([x] + rest)[1..] == rest;
  }

  lemma RepeatsMeaning(scope: Scope, entries: seq<KvItem>, summaries: seq<EpisodicItem>)
    ensures RepeatsARef(scope, entries, summaries) <==>
              !DistinctRefs(SortedEntries(scope, entries), SortedSummaries(scope, summaries))
  {
    hide EntryEligible, SummaryEligible, WantedEntry, WantedSummary, EntriesInOrder, SummariesInOrder, SortedEntries, SortedSummaries;
    hide DistinctRefs, Sorted;
    var e, s := Filter(entries, EligibleEntry(scope)), Filter(summaries, EligibleSummary(scope));
    SelectedFrom(scope, entries, summaries);
    var e', s' := SortedEntries(scope, entries), SortedSummaries(scope, summaries);
    if DistinctRefs(e, s) { DistinctRefsPermutation(e, s, e', s'); }
    if DistinctRefs(e', s') { DistinctRefsPermutation(e', s', e, s); }
    DistinctIsSorted(e, s);
    FilteredSorted(KvRefsDiffer(), EligibleEntry(scope), entries);
    FilteredSorted(SummaryIdsDiffer(), EligibleSummary(scope), summaries);
    forall item: KvItem ensures WantedEntry(scope, item) <==> EligibleEntry(scope)(item) {
      EntryOrderMeaning(scope.purpose, item, item);
    }
    forall item: EpisodicItem ensures WantedSummary(scope, item) <==> EligibleSummary(scope)(item) {
      SummaryOrderMeaning(scope.purpose, item, item);
    }
  }

  lemma DistinctIsSorted(entries: seq<KvItem>, summaries: seq<EpisodicItem>)
    ensures DistinctRefs(entries, summaries) <==> Sorted(KvRefsDiffer(), entries) && Sorted(SummaryIdsDiffer(), summaries)
  {}

  // ---------- the main result ----------

  lemma SelectionIsTheChoice(codec: Codec, purposeOk: Purpose -> bool, request: SnapshotRequest, entries: seq<KvItem>,
      summaries: seq<EpisodicItem>)
    requires ValidBudget(request.budget)
    ensures var r := Select(codec, purposeOk, request, entries, summaries);
            && (r == Err(InvalidSnapshot) <==> RepeatsARef(request.scope, entries, summaries))
            && (r == Err(InvalidScope) <==> !RepeatsARef(request.scope, entries, summaries) && !purposeOk(request.scope.purpose))
            && (r.Ok? ==>
                  && ChoosesEntries(codec, request, entries, r.value.entries)
                  && ChoosesSummaries(codec, request, summaries, KvBytes(codec, r.value.entries), r.value.summaries))
  {
    hide SortedEntries, SortedSummaries, DistinctRefs, EntryEligible, SummaryEligible, KvBytes, EpisodicBytes, Selection, TotalsFit;
    hide SourceCount, Sorted, AfterEntries, AfterSummaries, EntriesInOrder, SummariesInOrder, RepeatsARef, Greedy;
    hide ChoosesEntries, ChoosesSummaries, EntriesConsidered, SummariesConsidered, Finish, EntriesFull, SummariesFull;
    var e, s := SortedEntries(request.scope, entries), SortedSummaries(request.scope, summaries);
    RepeatsMeaning(request.scope, entries, summaries);
    if DistinctRefs(e, s) && purposeOk(request.scope.purpose) {
      SelectionMeaning(codec, purposeOk, request, entries, summaries);
      if Select(codec, purposeOk, request, entries, summaries).Ok? {
        AdmittedIsTheChoice(codec, request, entries, summaries, e, s);
        FinishKeeps(codec, request, AfterSummaries(codec, request, AfterEntries(codec, request, EMPTY, e).value, s).value);
      }
    }
  }

  lemma FinishKeeps(codec: Codec, request: SnapshotRequest, b: Building)
    requires Finish(codec, request, b).Ok?
    ensures var s := Finish(codec, request, b).value;
            s.entries == b.entries && s.summaries == b.summaries && s.scope == request.scope && s.budget == request.budget
  {
    hide MaterialOf, ValidateShape;
  }

  lemma DistinctKinds(e: seq<KvItem>, s: seq<EpisodicItem>)
    requires DistinctRefs(e, s)
    ensures DistinctRefs(e, []) && DistinctRefs([], s)
  {}

  lemma AdmittedIsTheChoice(codec: Codec, request: SnapshotRequest, entries: seq<KvItem>, summaries: seq<EpisodicItem>,
      e: seq<KvItem>, s: seq<EpisodicItem>)
    requires e == SortedEntries(request.scope, entries) && s == SortedSummaries(request.scope, summaries) && DistinctRefs(e, s)
    requires AfterEntries(codec, request, EMPTY, e).Ok?
    requires AfterSummaries(codec, request, AfterEntries(codec, request, EMPTY, e).value, s).Ok?
    ensures var base := AfterEntries(codec, request, EMPTY, e).value;
            var b := AfterSummaries(codec, request, base, s).value;
            && b.entries == base.entries && ChoosesEntries(codec, request, entries, b.entries)
            && ChoosesSummaries(codec, request, summaries, KvBytes(codec, b.entries), b.summaries)
  {
    hide SortedEntries, SortedSummaries, DistinctRefs, EntryEligible, SummaryEligible, KvBytes, EpisodicBytes, SourceCount;
    hide AfterEntries, AfterSummaries, Greedy, ChoosesEntries, ChoosesSummaries, EntriesConsidered, SummariesConsidered;
    hide EntriesFull, SummariesFull;
    SortedItemsAreEligible(request.scope, entries, summaries);
    DistinctKinds(e, s);
    var base := AfterEntries(codec, request, EMPTY, e).value;
    var b := AfterSummaries(codec, request, base, s).value;
    NothingConsidered(codec, request.budget);
    NothingIsGreedy(EntriesFull(codec, request.budget));
    assert [] + e == e && [] + s == s;
    AllEntriesConsidered(codec, request, [], EMPTY, e);
    EntriesAreGreedy(codec, request, [], EMPTY, e);
    EntriesAreTheChoice(codec, request, entries, e, base);
    NoSummaryConsidered(codec, request.budget, e, base);
    EntriesCount(codec, request.budget, e, base);
    NothingIsGreedy(SummariesFull(codec, request.budget, base.accounting.acceptedBytes));
    AllSummariesConsidered(codec, request, base, [], base, s);
    SummariesAreGreedy(codec, request, base, [], base, s);
    SummariesAreTheChoice(codec, request, summaries, s, base, b, base.accounting.acceptedBytes);
    EntriesStay(codec, request.budget, base, s, b);
  }

  lemma NothingIsGreedy<T>(full: (seq<T>, T) -> bool)
    ensures Greedy(full, [], [])
  {}

  lemma EntriesCount(codec: Codec, budget: Budget, seen: seq<KvItem>, base: Building)
    requires EntriesConsidered(codec, budget, seen, base)
    ensures base.summaries == [] && base.accounting.acceptedBytes == KvBytes(codec, base.entries)
  {}

  lemma EntriesStay(codec: Codec, budget: Budget, base: Building, seen: seq<EpisodicItem>, b: Building)
    requires SummariesConsidered(codec, budget, base, seen, b)
    ensures b.entries == base.entries
  {}

  /** Of the items read, a snapshot holds the one greedy choice: in order of relevance, each
      wanted item that still fitted when its turn came, and no other.  It is refused exactly for
      a repeated wanted reference, or a scope that is not valid. */
  lemma SnapshotIsTheChoice(codec: Codec, purposeOk: Purpose -> bool, request: SnapshotRequest,
      entries: seq<Result<KvItem, RetrievalError>>, summaries: seq<Result<EpisodicItem, RetrievalError>>,
      e: seq<KvItem>, s: seq<EpisodicItem>)
    requires ValidBudget(request.budget) && Read(entries, e) && Read(summaries, s)
    ensures var r := SelectSnapshot(codec, purposeOk, request, entries, summaries);
            && (r == Err(InvalidSnapshot) <==> RepeatsARef(request.scope, e, s))
            && (r == Err(InvalidScope) <==> !RepeatsARef(request.scope, e, s) && !purposeOk(request.scope.purpose))
            && (r.Ok? ==>
                  && r.value.scope == request.scope && r.value.budget == request.budget
                  && ChoosesEntries(codec, request, e, r.value.entries)
                  && ChoosesSummaries(codec, request, s, KvBytes(codec, r.value.entries), r.value.summaries)
                  && (forall chosen | ChoosesEntries(codec, request, e, chosen) :: chosen == r.value.entries)
                  && (forall chosen | ChoosesSummaries(codec, request, s, KvBytes(codec, r.value.entries), chosen) ::
                        chosen == r.value.summaries))
  {
    hide Select, Collect, RepeatsARef, Choice, Asymmetric, EntriesFull, SummariesFull, EntryPrecedes, SummaryPrecedes;
    hide EntryWanted, SummaryWanted, KvBytes;
    CollectRead(entries, e);
    CollectRead(summaries, s);
    SelectionIsTheChoice(codec, purposeOk, request, e, s);
    PrecedesIsAsymmetric(request.scope.purpose);
    var r := Select(codec, purposeOk, request, e, s);
    if r.Ok? {
      SelectKeepsRequest(codec, purposeOk, request, e, s);
      var scope, budget, bytes := request.scope, request.budget, KvBytes(codec, r.value.entries);
      forall chosen | ChoosesEntries(codec, request, e, chosen) ensures chosen == r.value.entries {
        ChoiceIsUnique(EntryPrecedes(scope.purpose), EntriesFull(codec, budget), EntryWanted(scope, e), chosen, r.value.entries);
      }
      forall chosen | ChoosesSummaries(codec, request, s, bytes, chosen) ensures chosen == r.value.summaries {
        ChoiceIsUnique(SummaryPrecedes(scope.purpose), SummariesFull(codec, budget, bytes), SummaryWanted(scope, s), chosen,
          r.value.summaries);
      }
    }
  }

  lemma SelectKeepsRequest(codec: Codec, purposeOk: Purpose -> bool, request: SnapshotRequest, entries: seq<KvItem>,
      summaries: seq<EpisodicItem>)
    requires Select(codec, purposeOk, request, entries, summaries).Ok?
    ensures var s := Select(codec, purposeOk, request, entries, summaries).value;
            s.scope == request.scope && s.budget == request.budget
  {
    hide SortedEntries, SortedSummaries, DistinctRefs, AfterEntries, AfterSummaries, Validate, MaterialOf;
  }

  /** The first `k` chosen entries come before the item and leave it no slot or no bytes. */
  ghost predicate FullBefore(codec: Codec, request: SnapshotRequest, chosen: seq<KvItem>, item: KvItem, k: nat)
    requires k <= |chosen|
  {
    && (forall j | 0 <= j < k :: EntryBefore(request.scope.purpose, chosen[j], item))
    && (k == request.budget.maxEntries || KvBytes(codec, chosen[..k]) + codec.kvBytes(item) > request.budget.maxBytes)
  }

  /** So whatever shares a tag asked for stands before whatever does not, and an omitted item
      that shares one did not fit next to the sharing items that come before it. */
  lemma SharingItemsFirst(codec: Codec, purposeOk: Purpose -> bool, request: SnapshotRequest,
      entries: seq<Result<KvItem, RetrievalError>>, summaries: seq<Result<EpisodicItem, RetrievalError>>,
      e: seq<KvItem>, s: seq<EpisodicItem>, item: KvItem)
    requires ValidBudget(request.budget) && Read(entries, e) && Read(summaries, s)
    requires SelectSnapshot(codec, purposeOk, request, entries, summaries).Ok?
    ensures var chosen := SelectSnapshot(codec, purposeOk, request, entries, summaries).value.entries;
            var purpose := request.scope.purpose;
            && (forall i, j | 0 <= i < j < |chosen| && Shares(purpose, chosen[j].tags) :: Shares(purpose, chosen[i].tags))
            && (item in e && WantedEntry(request.scope, item) && Shares(purpose, item.tags) && item !in chosen ==>
                  exists k :: 0 <= k <= |chosen| && FullBefore(codec, request, chosen, item, k)
                    && forall j | 0 <= j < k :: Shares(purpose, chosen[j].tags))
  {
    hide SelectSnapshot, RepeatsARef, KvBytes, ChoosesEntries, ChoosesSummaries, RefBefore, Shares, WantedEntry;
    SnapshotIsTheChoice(codec, purposeOk, request, entries, summaries, e, s);
    var chosen := SelectSnapshot(codec, purposeOk, request, entries, summaries).value.entries;
    ChosenInOrder(codec, request, e, chosen);
    if item in e && WantedEntry(request.scope, item) && Shares(request.scope.purpose, item.tags) && item !in chosen {
      LeftOutMeaning(codec, request, e, chosen, item);
    }
  }

  lemma ChosenInOrder(codec: Codec, request: SnapshotRequest, items: seq<KvItem>, chosen: seq<KvItem>)
    requires ChoosesEntries(codec, request, items, chosen)
    ensures forall i, j | 0 <= i < j < |chosen| :: EntryBefore(request.scope.purpose, chosen[i], chosen[j])
    ensures |chosen| <= request.budget.maxEntries
  {
    hide EntryBefore, KvBytes, LeftOut, EntryWanted;
    var purpose, n := request.scope.purpose, |chosen|;
    forall i, j | 0 <= i < j < |chosen| ensures EntryBefore(purpose, chosen[i], chosen[j]) {
      assert EntryPrecedes(purpose)(chosen[i], chosen[j]);
    }
    if n > 0 { assert !EntriesFull(codec, request.budget)(chosen[..n - 1], chosen[n - 1]); }
  }

  lemma LeftOutMeaning(codec: Codec, request: SnapshotRequest, items: seq<KvItem>, chosen: seq<KvItem>, item: KvItem)
    requires ChoosesEntries(codec, request, items, chosen)
    requires item in items && WantedEntry(request.scope, item) && item !in chosen
    ensures exists k :: 0 <= k <= |chosen| && FullBefore(codec, request, chosen, item, k)
  {
    hide EntryBefore, KvBytes, WantedEntry;
    var purpose := request.scope.purpose;
    ChosenInOrder(codec, request, items, chosen);
    assert EntryWanted(request.scope, items)(item);
    assert LeftOut(EntryPrecedes(purpose), EntriesFull(codec, request.budget), chosen, item);
    var k :| 0 <= k <= |chosen| && LeftOutAt(EntryPrecedes(purpose), EntriesFull(codec, request.budget), chosen, item, k);
    forall j | 0 <= j < k ensures EntryBefore(purpose, chosen[j], item) { assert EntryPrecedes(purpose)(chosen[j], item); }
    assert FullBefore(codec, request, chosen, item, k);
  }

  // ---------- what metadata is accepted ----------

  /** Ranks are recorded as 0 for what shares a tag, or everything in general scope, and 1 else. */
  ghost predicate RankFits(scope: Scope, rank: nat) { rank == 0 || (rank == 1 && scope.purpose.Tagged?) }

  /** Entries recorded in order: each under its own identity and a fitting rank, none twice, all
      strictly ascending by rank and reference. */
  ghost predicate EntriesRecorded(scope: Scope, refs: seq<EntryRef>, orders: seq<EntryOrder>) {
    && |refs| == |orders|
    && (forall i | 0 <= i < |refs| ::
          && refs[i].entryId == orders[i].entryId && refs[i].versionId == orders[i].versionId && RankFits(scope, orders[i].rank))
    && (forall i, j | 0 <= i < j < |refs| :: (refs[i].entryId, refs[i].versionId) != (refs[j].entryId, refs[j].versionId))
    && (forall i, j | 0 <= i < j < |refs| ::
          orders[i].rank < orders[j].rank || (orders[i].rank == orders[j].rank && RefBefore(refs[i], refs[j])))
  }

  /** Summaries strictly ascending by rank, newest first, then by id. */
  ghost predicate SummariesRecorded(scope: Scope, refs: seq<SummaryRef>, orders: seq<SummaryOrder>) {
    && |refs| == |orders|
    && (forall i | 0 <= i < |refs| :: refs[i].id == orders[i].summaryId && RankFits(scope, orders[i].rank))
    && (forall i, j | 0 <= i < j < |refs| :: refs[i].id != refs[j].id)
    && (forall i, j | 0 <= i < j < |refs| ::
          || orders[i].rank < orders[j].rank
          || (orders[i].rank == orders[j].rank && orders[i].createdAt > orders[j].createdAt)
          || (orders[i].rank == orders[j].rank && orders[i].createdAt == orders[j].createdAt && refs[i].id < refs[j].id))
  }

  /** The counts are those of the lists, within budget, and add up. */
  ghost predicate CountsRecorded(m: Material) {
    var a := m.accounting;
    && a.acceptedEntries == |m.entryRefs| <= m.budget.maxEntries && a.acceptedSummaries == |m.summaryRefs| <= m.budget.maxSummaries
    && a.acceptedBytes <= m.budget.maxBytes && a.acceptedSources <= m.budget.maxSources
    && a.eligibleEntries == a.acceptedEntries + a.omittedEntries <= U64_MAX
    && a.eligibleSummaries == a.acceptedSummaries + a.omittedSummaries <= U64_MAX
  }

  ghost predicate ScopeRecorded(m: Material) {
    && (forall i | 0 <= i < |m.entryRefs| :: m.entryRefs[i].ns == m.scope.ns && m.entryRefs[i].state == Present)
    && (forall i | 0 <= i < |m.summaryRefs| :: m.summaryRefs[i].ns == m.scope.ns && m.summaryRefs[i].profile == m.scope.profile)
  }

  function RankedRefs(refs: seq<EntryRef>, orders: seq<EntryOrder>): seq<(EntryRef, nat)>
    requires |refs| == |orders|
  {
    seq(|refs|, (i: nat) requires i < |refs| && |refs| == |orders| => (refs[i], orders[i].rank))
  }

  function RankedLe(): ((EntryRef, nat), (EntryRef, nat)) -> bool {
    (a: (EntryRef, nat), b: (EntryRef, nat)) => a.1 < b.1 || (a.1 == b.1 && RefLe(a.0, b.0))
  }

  lemma RankedLeTotal()
    ensures TotalPreorder(RankedLe())
  {
    forall a, b ensures RankedLe()(a, b) || RankedLe()(b, a) { RefLeTotal(a.0, b.0); }
    forall a, b, c | RankedLe()(a, b) && RankedLe()(b, c) ensures RankedLe()(a, c) {
      if a.1 == b.1 == c.1 { RefLeTransitive(a.0, b.0, c.0); }
    }
  }

  /** Neighbours in order are all in order, strictly once identities do not repeat. */
  lemma EntryPairsMeaning(refs: seq<EntryRef>, orders: seq<EntryOrder>)
    requires |refs| == |orders|
    requires forall i, j | 0 <= i < j < |refs| :: (refs[i].entryId, refs[i].versionId) != (refs[j].entryId, refs[j].versionId)
    ensures RefsOrdered(refs, orders) <==>
              forall i, j | 0 <= i < j < |refs| ::
                orders[i].rank < orders[j].rank || (orders[i].rank == orders[j].rank && RefBefore(refs[i], refs[j]))
  {
    hide RefLe, RefBefore;
    var ranked := RankedRefs(refs, orders);
    RankedLeTotal();
    AdjacentSortedIsSorted(RankedLe(), ranked);
    forall i, j | 0 <= i < j < |refs|
      ensures RankedLe()(ranked[i], ranked[j]) <==>
                orders[i].rank < orders[j].rank || (orders[i].rank == orders[j].rank && RefBefore(refs[i], refs[j]))
    {
      RefLeMeaning(refs[i], refs[j]);
      RefLeTotal(refs[i], refs[j]);
    }
    AdjacentRefs(refs, orders);
  }

  lemma AdjacentRefs(refs: seq<EntryRef>, orders: seq<EntryOrder>)
    requires |refs| == |orders|
    ensures RefsOrdered(refs, orders) <==> AdjacentSorted(RankedLe(), RankedRefs(refs, orders))
  {
    hide RefLe;
    var ranked := RankedRefs(refs, orders);
    forall i | 0 <= i < |refs| - 1
      ensures RankedLe()(ranked[i], ranked[i + 1]) <==>
                !(orders[i].rank > orders[i + 1].rank || (orders[i].rank == orders[i + 1].rank && !RefLe(refs[i], refs[i + 1])))
    {}
  }

  function RankedSummaries(refs: seq<SummaryRef>, orders: seq<SummaryOrder>): seq<(nat, SummaryOrder)>
    requires |refs| == |orders|
  {
    seq(|refs|, (i: nat) requires i < |refs| && |refs| == |orders| => (refs[i].id, orders[i]))
  }

  function NewerLe(): ((nat, SummaryOrder), (nat, SummaryOrder)) -> bool {
    (a: (nat, SummaryOrder), b: (nat, SummaryOrder)) =>
      || a.1.rank < b.1.rank
      || (a.1.rank == b.1.rank && a.1.createdAt > b.1.createdAt)
      || (a.1.rank == b.1.rank && a.1.createdAt == b.1.createdAt && a.0 <= b.0)
  }

  lemma SummaryPairsMeaning(refs: seq<SummaryRef>, orders: seq<SummaryOrder>)
    requires |refs| == |orders|
    requires forall i, j | 0 <= i < j < |refs| :: refs[i].id != refs[j].id
    ensures SummariesOrdered(refs, orders) <==>
              forall i, j | 0 <= i < j < |refs| ::
                || orders[i].rank < orders[j].rank
                || (orders[i].rank == orders[j].rank && orders[i].createdAt > orders[j].createdAt)
                || (orders[i].rank == orders[j].rank && orders[i].createdAt == orders[j].createdAt && refs[i].id < refs[j].id)
  {
    var ranked := RankedSummaries(refs, orders);
    assert TotalPreorder(NewerLe());
    AdjacentSortedIsSorted(NewerLe(), ranked);
    forall i, j | 0 <= i < j < |refs|
      ensures NewerLe()(ranked[i], ranked[j]) <==>
                || orders[i].rank < orders[j].rank
                || (orders[i].rank == orders[j].rank && orders[i].createdAt > orders[j].createdAt)
                || (orders[i].rank == orders[j].rank && orders[i].createdAt == orders[j].createdAt && refs[i].id < refs[j].id)
    {
      assert refs[i].id != refs[j].id;
    }
    AdjacentSummaries(refs, orders);
  }

  lemma AdjacentSummaries(refs: seq<SummaryRef>, orders: seq<SummaryOrder>)
    requires |refs| == |orders|
    ensures SummariesOrdered(refs, orders) <==> AdjacentSorted(NewerLe(), RankedSummaries(refs, orders))
  {
    var ranked := RankedSummaries(refs, orders);
    forall i | 0 <= i < |refs| - 1
      ensures NewerLe()(ranked[i], ranked[i + 1]) <==>
                !(orders[i].rank > orders[i + 1].rank
                  || (orders[i].rank == orders[i + 1].rank
                      && (orders[i].createdAt < orders[i + 1].createdAt
                          || (orders[i].createdAt == orders[i + 1].createdAt && refs[i].id > refs[i + 1].id))))
    {}
  }

  /** The metadata validator accepts exactly metadata whose counts add up within budget, whose
      references belong to the scope, do not repeat and are in strict order under ranks that fit,
      and whose digest recomputes. */
  lemma MetadataAcceptedExactly(codec: Codec, m: Metadata)
    ensures ValidateMetadata(codec, m).Ok? <==>
              && CountsRecorded(m.material) && ScopeRecorded(m.material)
              && EntriesRecorded(m.material.scope, m.material.entryRefs, m.material.entryOrder)
              && SummariesRecorded(m.material.scope, m.material.summaryRefs, m.material.summaryOrder)
              && codec.digest(m.material) == m.digest
  {
    hide RefsOrdered, SummariesOrdered, RefBefore;
    var entries, orders := m.material.entryRefs, m.material.entryOrder;
    var summaries, orders' := m.material.summaryRefs, m.material.summaryOrder;
    if |entries| == |orders|
       && (forall i, j | 0 <= i < j < |entries| :: (entries[i].entryId, entries[i].versionId) != (entries[j].entryId, entries[j].versionId)) {
      EntryPairsMeaning(entries, orders);
    }
    if |summaries| == |orders'| && (forall i, j | 0 <= i < j < |summaries| :: summaries[i].id != summaries[j].id) {
      SummaryPairsMeaning(summaries, orders');
    }
  }
}
