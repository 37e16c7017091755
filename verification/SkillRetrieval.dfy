/** `retrieve_assigned_skills` of src/skills/retrieval.rs: resolve every assignment, then
    take a prefix within three budgets. */
module SkillRetrieval {
  import opened Prelude
  import opened Sorting
  import opened SkillsProjection

  datatype SkillBudget = SkillBudget(skillCount: nat, acceptedBytes: nat, resourceCount: nat)

  datatype Retrieved = Retrieved(
    skills: seq<SkillVersion>, acceptedBytes: nat, resourceCount: nat, omittedSkills: nat, omittedResources: nat)

  /** Serialised length of a skill's content. */
  type Bytes = Content -> nat

  predicate AssignmentLe(a: SkillRef, b: SkillRef) {
    if a.skillId != b.skillId then a.skillId < b.skillId
    else if a.version != b.version then a.version < b.version
    else a.versionId <= b.versionId
  }

  // ---------- resolving ----------

  predicate DistinctVersionIds(available: seq<SkillVersion>) {
    forall i, j | 0 <= i < j < |available| :: available[i].versionId != available[j].versionId
  }

  function IndexVersions(available: seq<SkillVersion>): map<nat, SkillVersion> {
    if available == [] then map[] else IndexVersions(available[..|available| - 1])[available[|available| - 1].versionId := available[|available| - 1]]
  }

  predicate Resolves(index: map<nat, SkillVersion>, a: SkillRef) {
    a.versionId in index && index[a.versionId].Reference() == a
  }

  function Resolve(index: map<nat, SkillVersion>): SkillRef -> Option<SkillVersion> {
    (a: SkillRef) => if Resolves(index, a) then Some(index[a.versionId]) else None
  }

  function ResolveAll(index: map<nat, SkillVersion>, assignments: seq<SkillRef>): Result<seq<SkillVersion>, SkillError> {
    if exists i | 0 <= i < |assignments| :: !Resolves(index, assignments[i]) then Err(InvalidSkillVersion)
    else Ok(FilterMap(assignments, Resolve(index)))
  }

  // ---------- the budgeted prefix ----------

  function TotalBytes(bytes: Bytes, skills: seq<SkillVersion>): nat {
    if skills == [] then 0 else TotalBytes(bytes, skills[..|skills| - 1]) + bytes(skills[|skills| - 1].content)
  }

  function TotalResources(skills: seq<SkillVersion>): nat {
    if skills == [] then 0 else TotalResources(skills[..|skills| - 1]) + |skills[|skills| - 1].content.resources|
  }

  predicate Fits(bytes: Bytes, budget: SkillBudget, skills: seq<SkillVersion>) {
    |skills| <= budget.skillCount && TotalBytes(bytes, skills) <= budget.acceptedBytes
    && TotalResources(skills) <= budget.resourceCount
  }

  /** `n` is the length of the longest prefix that fits. */
  ghost predicate LongestFit(bytes: Bytes, budget: SkillBudget, skills: seq<SkillVersion>, n: nat) {
    n <= |skills| && forall m | 0 <= m <= |skills| :: Fits(bytes, budget, skills[..m]) <==> m <= n
  }

  lemma {:induction false} TotalsGrow(bytes: Bytes, skills: seq<SkillVersion>, m: nat)
    requires m <= |skills|
    ensures TotalBytes(bytes, skills[..m]) <= TotalBytes(bytes, skills)
    ensures TotalResources(skills[..m]) <= TotalResources(skills)
    decreases |skills|
  {
    if m == |skills| {
      assert skills[..m] == skills;
    } else {
      var front := skills[..|skills| - 1];
      assert front[..m] == skills[..m];
      TotalsGrow(bytes, front, m);
    }
  }

  /** Fitting is inherited by shorter prefixes, so one failure settles all longer ones. */
  lemma FitsIsDownward(bytes: Bytes, budget: SkillBudget, skills: seq<SkillVersion>, n: nat, m: nat)
    requires m <= n <= |skills| && Fits(bytes, budget, skills[..n])
    ensures Fits(bytes, budget, skills[..m])
  {
    assert skills[..n][..m] == skills[..m];
    TotalsGrow(bytes, skills[..n], m);
  }

  /** What the retrieval is: accepted prefix, exact totals, and everything else omitted. */
  function Outcome(bytes: Bytes, skills: seq<SkillVersion>, n: nat): Retrieved
    requires n <= |skills|
  {
    Retrieved(skills[..n], TotalBytes(bytes, skills[..n]), TotalResources(skills[..n]), |skills| - n, TotalResources(skills[n..]))
  }

  /** The first prefix length from `n` on whose extension does not fit. */
  function PrefixLength(bytes: Bytes, budget: SkillBudget, skills: seq<SkillVersion>, n: nat): (k: nat)
    requires n <= |skills|
    ensures n <= k <= |skills|
    decreases |skills| - n
  {
    if n == |skills| || !Fits(bytes, budget, skills[..n + 1]) then n else PrefixLength(bytes, budget, skills, n + 1)
  }

  lemma {:induction false} PrefixLengthFits(bytes: Bytes, budget: SkillBudget, skills: seq<SkillVersion>, n: nat)
    requires n <= |skills| && Fits(bytes, budget, skills[..n])
    ensures Fits(bytes, budget, skills[..PrefixLength(bytes, budget, skills, n)])
    ensures var k := PrefixLength(bytes, budget, skills, n); k == |skills| || !Fits(bytes, budget, skills[..k + 1])
    decreases |skills| - n
  {
    if n < |skills| && Fits(bytes, budget, skills[..n + 1]) { PrefixLengthFits(bytes, budget, skills, n + 1); }
  }

  /** The prefix taken is the longest that fits all three budgets. */
  lemma PrefixIsLongest(bytes: Bytes, budget: SkillBudget, skills: seq<SkillVersion>)
    ensures LongestFit(bytes, budget, skills, PrefixLength(bytes, budget, skills, 0))
  {
    var k := PrefixLength(bytes, budget, skills, 0);
    PrefixLengthFits(bytes, budget, skills, 0);
    forall m | 0 <= m <= |skills| ensures Fits(bytes, budget, skills[..m]) <==> m <= k {
      if m <= k {
        FitsIsDownward(bytes, budget, skills, k, m);
      } else if Fits(bytes, budget, skills[..m]) {
        FitsIsDownward(bytes, budget, skills, m, k + 1);
      }
    }
  }

  function Retrieve(bytes: Bytes, assignments: seq<SkillRef>, available: seq<SkillVersion>, budget: SkillBudget): Result<Retrieved, SkillError> {
    if !DistinctVersionIds(available) then Err(InvalidSkillVersion)
    else
      var resolved :- ResolveAll(IndexVersions(available), Sort(AssignmentLe, assignments));
      Ok(Outcome(bytes, resolved, PrefixLength(bytes, budget, resolved, 0)))
  }

  /** Nothing is lost: accepted and omitted skills and resources add up to what was assigned. */
  lemma RetrievalConserves(bytes: Bytes, assignments: seq<SkillRef>, available: seq<SkillVersion>, budget: SkillBudget)
    requires Retrieve(bytes, assignments, available, budget).Ok?
    ensures var r := Retrieve(bytes, assignments, available, budget).value;
            var resolved := ResolveAll(IndexVersions(available), Sort(AssignmentLe, assignments)).value;
            && |r.skills| + r.omittedSkills == |resolved| == |assignments|
            && r.resourceCount + r.omittedResources == TotalResources(resolved)
            && r.skills == resolved[..|r.skills|] && LongestFit(bytes, budget, resolved, |r.skills|)
            && r.acceptedBytes == TotalBytes(bytes, r.skills)
  {
    var sorted := Sort(AssignmentLe, assignments);
    var index := IndexVersions(available);
    SortMultiset(AssignmentLe, assignments);
    FilterMapAll(sorted, Resolve(index));
    var resolved := ResolveAll(index, sorted).value;
    PrefixIsLongest(bytes, budget, resolved);
    SplitResources(resolved, PrefixLength(bytes, budget, resolved, 0));
  }

  lemma {:induction false} SplitResources(skills: seq<SkillVersion>, n: nat)
    requires n <= |skills|
    ensures TotalResources(skills[..n]) + TotalResources(skills[n..]) == TotalResources(skills)
    decreases |skills|
  {
    if n == |skills| {
      assert skills[..n] == skills;
    } else {
      var front := skills[..|skills| - 1];
      assert front[..n] == skills[..n];
      assert skills[n..][..|skills| - n - 1] == front[n..];
      SplitResources(front, n);
    }
  }

  // ---------- order independence ----------

  lemma AssignmentLeTotal()
    ensures TotalPreorder(AssignmentLe)
  {}

  lemma {:induction false} IndexMeaning(available: seq<SkillVersion>)
    requires DistinctVersionIds(available)
    ensures forall id :: id in IndexVersions(available) <==> exists i :: 0 <= i < |available| && available[i].versionId == id
    ensures forall i | 0 <= i < |available| :: IndexVersions(available)[available[i].versionId] == available[i]
  {
    if available != [] {
      var front, last := available[..|available| - 1], available[|available| - 1];
      IndexMeaning(front);
      forall id ensures id in IndexVersions(available) <==> exists i :: 0 <= i < |available| && available[i].versionId == id {
        if id in IndexVersions(front) {
          var i :| 0 <= i < |front| && front[i].versionId == id;
          assert available[i].versionId == id;
        }
        if i :| 0 <= i < |available| && available[i].versionId == id {
          if i < |front| { assert front[i].versionId == id; }
        }
      }
    }
  }

  function VersionIdOf(): SkillVersion -> nat { (v: SkillVersion) => v.versionId }

  lemma DistinctIdsPermutation(available: seq<SkillVersion>, shuffled: seq<SkillVersion>)
    requires multiset(available) == multiset(shuffled) && DistinctVersionIds(available)
    ensures DistinctVersionIds(shuffled)
  {
    MapMultiset(available, shuffled, VersionIdOf());
    assert Distinct(Map(available, VersionIdOf()));
    DistinctPermutation(Map(available, VersionIdOf()), Map(shuffled, VersionIdOf()));
    var ids := Map(shuffled, VersionIdOf());
    forall i, j | 0 <= i < j < |shuffled| ensures shuffled[i].versionId != shuffled[j].versionId { assert ids[i] != ids[j]; }
  }

  lemma IndexIgnoresOrder(available: seq<SkillVersion>, shuffled: seq<SkillVersion>)
    requires multiset(available) == multiset(shuffled) && DistinctVersionIds(available)
    ensures IndexVersions(available) == IndexVersions(shuffled)
  {
    SameElements(available, shuffled);
    DistinctIdsPermutation(available, shuffled);
    IndexMeaning(available);
    IndexMeaning(shuffled);
    var a, b := IndexVersions(available), IndexVersions(shuffled);
    forall id ensures id in a <==> id in b
      ensures id in a ==> a[id] == b[id]
    {
      if id in a {
        var i :| 0 <= i < |available| && available[i].versionId == id;
        assert available[i] in shuffled;
        var j :| 0 <= j < |shuffled| && shuffled[j] == available[i];
      }
      if id in b {
        var j :| 0 <= j < |shuffled| && shuffled[j].versionId == id;
        assert shuffled[j] in available;
        var i :| 0 <= i < |available| && available[i] == shuffled[j];
      }
    }
  }

  /** Assignments that all resolve are determined by their sort keys. */
  lemma ResolvedAssignmentsBreakTies(index: map<nat, SkillVersion>, assignments: seq<SkillRef>)
    requires forall a | a in assignments :: Resolves(index, a)
    ensures AntisymmetricOn(AssignmentLe, assignments)
  {}

  /** The result, error or not, depends on neither the order of the assignments nor the
      order of the available versions. */
  lemma RetrieveIgnoresOrder(bytes: Bytes, assignments: seq<SkillRef>, available: seq<SkillVersion>, budget: SkillBudget,
      assignments': seq<SkillRef>, available': seq<SkillVersion>)
    requires multiset(assignments) == multiset(assignments') && multiset(available) == multiset(available')
    ensures Retrieve(bytes, assignments, available, budget) == Retrieve(bytes, assignments', available', budget)
  {
    hide DistinctVersionIds, IndexVersions, PrefixLength, Outcome, Resolves, AntisymmetricOn, FilterMap;
    if DistinctVersionIds(available) {
      DistinctIdsPermutation(available, available');
      IndexIgnoresOrder(available, available');
      SortedAssignments(IndexVersions(available), assignments, assignments');
    } else if DistinctVersionIds(available') {
      DistinctIdsPermutation(available', available);
    }
  }

  lemma SortedAssignments(index: map<nat, SkillVersion>, assignments: seq<SkillRef>, assignments': seq<SkillRef>)
    requires multiset(assignments) == multiset(assignments')
    ensures ResolveAll(index, Sort(AssignmentLe, assignments)) == ResolveAll(index, Sort(AssignmentLe, assignments'))
  {
    hide Resolves, AntisymmetricOn, FilterMap;
    var sorted, sorted' := Sort(AssignmentLe, assignments), Sort(AssignmentLe, assignments');
    SortMultiset(AssignmentLe, assignments);
    SortMultiset(AssignmentLe, assignments');
    SameElements(assignments, sorted);
    SameElements(assignments', sorted');
    SameElements(sorted, sorted');
    if i :| 0 <= i < |sorted| && !Resolves(index, sorted[i]) {
      assert sorted[i] in sorted';
    } else {
      forall a | a in assignments ensures Resolves(index, a) { assert a in sorted; }
      forall a | a in sorted' ensures Resolves(index, a) { assert a in sorted; }
      AssignmentLeTotal();
      ResolvedAssignmentsBreakTies(index, assignments);
      SortPermutation(AssignmentLe, assignments, assignments');
    }
  }

  // ---------- what is retrieved ----------

  /** By skill, then version, then version id. */
  ghost predicate InOrder(a: SkillVersion, b: SkillVersion) {
    || a.skillId < b.skillId
    || (a.skillId == b.skillId && a.version < b.version)
    || (a.skillId == b.skillId && a.version == b.version && a.versionId <= b.versionId)
  }

  function ReferenceOf(): SkillVersion -> SkillRef { (v: SkillVersion) => v.Reference() }

  /** The assigned versions, each available, in order. */
  ghost predicate Assigned(assignments: seq<SkillRef>, available: seq<SkillVersion>, ordered: seq<SkillVersion>) {
    && multiset(Map(ordered, ReferenceOf())) == multiset(assignments)
    && (forall v | v in ordered :: v in available)
    && (forall i, j | 0 <= i < j < |ordered| :: InOrder(ordered[i], ordered[j]))
  }

  lemma ResolvedVersions(assignments: seq<SkillRef>, available: seq<SkillVersion>)
    requires DistinctVersionIds(available) && ResolveAll(IndexVersions(available), Sort(AssignmentLe, assignments)).Ok?
    ensures Assigned(assignments, available, ResolveAll(IndexVersions(available), Sort(AssignmentLe, assignments)).value)
  {
    hide IndexVersions, FilterMap, Sort;
    var sorted, index := Sort(AssignmentLe, assignments), IndexVersions(available);
    var ordered := ResolveAll(index, sorted).value;
    SortMultiset(AssignmentLe, assignments);
    AssignmentLeTotal();
    SortSorted(AssignmentLe, assignments);
    FilterMapAll(sorted, Resolve(index));
    IndexMeaning(available);
    forall i | 0 <= i < |ordered| ensures ordered[i].Reference() == sorted[i] && ordered[i] in available {
      assert Resolves(index, sorted[i]);
    }
    assert Map(ordered, ReferenceOf()) == sorted;
    forall i, j | 0 <= i < j < |ordered| ensures InOrder(ordered[i], ordered[j]) { assert AssignmentLe(sorted[i], sorted[j]); }
  }

  /** Retrieval succeeds exactly when no version id is offered twice and every assignment is the
      reference of a version offered; it takes, of the assigned versions in order, the longest
      beginning that fits the budgets, and counts the rest as omitted. */
  lemma RetrievalMeaning(bytes: Bytes, assignments: seq<SkillRef>, available: seq<SkillVersion>, budget: SkillBudget)
    ensures Retrieve(bytes, assignments, available, budget).Ok? <==>
              && DistinctVersionIds(available)
              && forall a | a in assignments :: exists i :: 0 <= i < |available| && available[i].Reference() == a
    ensures Retrieve(bytes, assignments, available, budget).Ok? ==>
              var r := Retrieve(bytes, assignments, available, budget).value;
              exists ordered ::
                && Assigned(assignments, available, ordered)
                && |r.skills| <= |ordered| && r.skills == ordered[..|r.skills|]
                && LongestFit(bytes, budget, ordered, |r.skills|)
                && r.acceptedBytes == TotalBytes(bytes, r.skills) && r.resourceCount == TotalResources(r.skills)
                && r.omittedSkills == |ordered| - |r.skills| && r.omittedResources == TotalResources(ordered[|r.skills|..])
  {
    hide IndexVersions, FilterMap, Sort, Assigned, LongestFit, PrefixLength, TotalBytes, TotalResources, DistinctVersionIds;
    if DistinctVersionIds(available) {
      AllResolve(assignments, available);
      if Retrieve(bytes, assignments, available, budget).Ok? {
        ResolvedVersions(assignments, available);
        PrefixIsLongest(bytes, budget, ResolveAll(IndexVersions(available), Sort(AssignmentLe, assignments)).value);
      }
    }
  }

  lemma AllResolve(assignments: seq<SkillRef>, available: seq<SkillVersion>)
    requires DistinctVersionIds(available)
    ensures ResolveAll(IndexVersions(available), Sort(AssignmentLe, assignments)).Ok? <==>
              forall a | a in assignments :: exists i :: 0 <= i < |available| && available[i].Reference() == a
  {
    hide IndexVersions, FilterMap, Sort;
    var sorted, index := Sort(AssignmentLe, assignments), IndexVersions(available);
    SortMultiset(AssignmentLe, assignments);
    SameElements(sorted, assignments);
    IndexMeaning(available);
    forall a: SkillRef ensures Resolves(index, a) <==> exists i :: 0 <= i < |available| && available[i].Reference() == a {
      if Resolves(index, a) {
        var i :| 0 <= i < |available| && available[i].versionId == a.versionId;
      }
    }
    if i :| 0 <= i < |sorted| && !Resolves(index, sorted[i]) { assert sorted[i] in assignments; }
    if a :| a in assignments && !Resolves(index, a) {
      assert a in sorted;
      var i :| 0 <= i < |sorted| && sorted[i] == a;
    }
  }

  // ---------- the retrieval as it runs ----------

  method BuildIndex(available: seq<SkillVersion>) returns (r: Result<map<nat, SkillVersion>, SkillError>)
    ensures r.Ok? <==> DistinctVersionIds(available)
    ensures r.Ok? ==> r.value == IndexVersions(available)
    ensures r.Err? ==> r.error == InvalidSkillVersion
  {
    var versionsById: map<nat, SkillVersion> := map[];
    for i := 0 to |available|
      invariant versionsById == IndexVersions(available[..i])
      invariant versionsById.Keys == set k | 0 <= k < i :: available[k].versionId
      invariant forall j, k | 0 <= j < k < i :: available[j].versionId != available[k].versionId
    {
      assert available[..i + 1][..i] == available[..i];
      if available[i].versionId in versionsById { return Err(InvalidSkillVersion); }
      versionsById := versionsById[available[i].versionId := available[i]];
    }
    assert available[..|available|] == available;
    return Ok(versionsById);
  }

  method ResolveAssignments(index: map<nat, SkillVersion>, assignments: seq<SkillRef>) returns (r: Result<seq<SkillVersion>, SkillError>)
    ensures r == ResolveAll(index, assignments)
  {
    var resolved: seq<SkillVersion> := [];
    for i := 0 to |assignments|
      invariant forall k | 0 <= k < i :: Resolves(index, assignments[k])
      invariant |resolved| == i && forall k | 0 <= k < i :: resolved[k] == index[assignments[k].versionId]
    {
      if assignments[i].versionId !in index || index[assignments[i].versionId].Reference() != assignments[i] {
        return Err(InvalidSkillVersion);
      }
      resolved := resolved + [index[assignments[i].versionId]];
    }
    FilterMapAll(assignments, Resolve(index));
    assert resolved == FilterMap(assignments, Resolve(index));
    return Ok(resolved);
  }

  lemma OneMore(bytes: Bytes, budget: SkillBudget, skills: seq<SkillVersion>, n: nat)
    requires n < |skills|
    ensures TotalBytes(bytes, skills[..n + 1]) == TotalBytes(bytes, skills[..n]) + bytes(skills[n].content)
    ensures TotalResources(skills[..n + 1]) == TotalResources(skills[..n]) + |skills[n].content.resources|
    ensures PrefixLength(bytes, budget, skills, n)
            == if Fits(bytes, budget, skills[..n + 1]) then PrefixLength(bytes, budget, skills, n + 1) else n
  {
    assert skills[..n + 1][..n] == skills[..n];
  }

  lemma NothingTaken(bytes: Bytes)
    ensures TotalBytes(bytes, []) == 0 && TotalResources([]) == 0
  {}

  lemma AllTaken(bytes: Bytes, budget: SkillBudget, skills: seq<SkillVersion>)
    ensures PrefixLength(bytes, budget, skills, |skills|) == |skills|
  {}

  /** The accumulating loop with its early exit. */
  method RetrieveAssigned(bytes: Bytes, assignments: seq<SkillRef>, available: seq<SkillVersion>, budget: SkillBudget)
    returns (r: Result<Retrieved, SkillError>)
    ensures r == Retrieve(bytes, assignments, available, budget)
  {
    hide TotalBytes, TotalResources, PrefixLength, FilterMap;
    NothingTaken(bytes);
    var index := BuildIndex(available);
    if index.Err? { return Err(index.error); }
    var resolving := ResolveAssignments(index.value, Sort(AssignmentLe, assignments));
    if resolving.Err? { return Err(resolving.error); }
    var resolved := resolving.value;
    var skills: seq<SkillVersion>, acceptedBytes, resourceCount := [], 0, 0;
    for i := 0 to |resolved|
      invariant skills == resolved[..i] && Fits(bytes, budget, skills)
      invariant acceptedBytes == TotalBytes(bytes, skills) && resourceCount == TotalResources(skills)
      invariant PrefixLength(bytes, budget, resolved, 0) == PrefixLength(bytes, budget, resolved, i)
    {
      OneMore(bytes, budget, resolved, i);
      var sectionBytes, sectionResources := bytes(resolved[i].content), |resolved[i].content.resources|;
      if |skills| >= budget.skillCount || acceptedBytes + sectionBytes > budget.acceptedBytes
         || resourceCount + sectionResources > budget.resourceCount {
        return Ok(Retrieved(skills, acceptedBytes, resourceCount, |resolved| - i, TotalResources(resolved[i..])));
      }
      acceptedBytes, resourceCount := acceptedBytes + sectionBytes, resourceCount + sectionResources;
      skills := skills + [resolved[i]];
    }
    AllTaken(bytes, budget, resolved);
    assert resolved[..|resolved|] == resolved && resolved[|resolved|..] == [];
    return Ok(Retrieved(skills, acceptedBytes, resourceCount, 0, 0));
  }
}
