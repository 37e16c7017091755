/** `diff_profile` of src/agents/diff.rs, and the profile versions the service prepares
    (src/app/service.rs): what a diff shows, what it hides, and that no version is made
    without one. */
module ProfileDiff {
  import opened Prelude
  import opened Sorting
  import opened ProfileDraft

  /** How a skill reference is printed in a diff: its content digest is not shown. */
  datatype Summary = Summary(skillId: nat, versionId: nat, version: nat)

  datatype Change =
    | TextChanged(field: Field, before: string, after: string)
    | RoleChanged(roleBefore: Role, roleAfter: Role)
    | TagsChanged(tagsBefore: seq<string>, tagsAfter: seq<string>)
    | BindingsChanged(bindingsBefore: Bindings, bindingsAfter: Bindings)
    | SkillAdded(added: Summary)
    | SkillUpgraded(upgradedFrom: Summary, upgradedTo: Summary)
    | SkillRemoved(removed: Summary)

  datatype ProfileVersion = ProfileVersion(
    profileId: nat, versionId: nat, version: nat, draft: Draft, nameKey: string, ns: nat,
    createdAt: int, supersedes: Option<nat>, digest: nat)

  function Shown(r: SkillRef): Summary { Summary(r.skillId, r.versionId, r.version) }

  // ---------- the diff ----------

  function TextChange(field: Field, before: string, after: string): seq<Change> {
    if before != after then [TextChanged(field, before, after)] else []
  }

  function FieldChanges(current: Draft, candidate: Draft): seq<Change> {
    TextChange(DisplayName, current.displayName, candidate.displayName)
    + TextChange(Description, current.description, candidate.description)
    + (if current.role != candidate.role then [RoleChanged(current.role, candidate.role)] else [])
    + TextChange(PrimarySpecialty, current.primarySpecialty, candidate.primarySpecialty)
    + (if current.tags != candidate.tags then [TagsChanged(current.tags, candidate.tags)] else [])
    + TextChange(Personality, current.personality, candidate.personality)
    + TextChange(Instructions, current.instructions, candidate.instructions)
    + (if current.bindings != candidate.bindings then [BindingsChanged(current.bindings, candidate.bindings)] else [])
  }

  /** The first reference to a skill. */
  function FindSkill(refs: seq<SkillRef>, skillId: nat): (r: Option<SkillRef>)
    ensures r.Some? <==> HasSkill(refs, skillId)
    ensures r.Some? ==> r.value in refs && r.value.skillId == skillId
  {
    if refs == [] then None
    else if refs[0].skillId == skillId then Some(refs[0])
    else
      var rest := FindSkill(refs[1..], skillId);
      assert HasSkill(refs[1..], skillId) ==> HasSkill(refs, skillId) by {
        if HasSkill(refs[1..], skillId) {
          var i :| 0 <= i < |refs[1..]| && refs[1..][i].skillId == skillId;
          assert refs[i + 1].skillId == skillId;
        }
      }
      assert HasSkill(refs, skillId) ==> HasSkill(refs[1..], skillId) by {
        if HasSkill(refs, skillId) {
          var i :| 0 <= i < |refs| && refs[i].skillId == skillId;
          assert refs[1..][i - 1].skillId == skillId;
        }
      }
      rest
  }

  function CandidateChange(current: seq<SkillRef>, candidate: SkillRef): seq<Change> {
    match FindSkill(current, candidate.skillId)
    case None => [SkillAdded(Shown(candidate))]
    case Some(r) => if r != candidate then [SkillUpgraded(Shown(r), Shown(candidate))] else []
  }

  function RemovalChange(candidate: seq<SkillRef>, current: SkillRef): seq<Change> {
    if HasSkill(candidate, current.skillId) then [] else [SkillRemoved(Shown(current))]
  }

  function Flatten(parts: seq<seq<Change>>): seq<Change> {
    if parts == [] then [] else parts[0] + Flatten(parts[1..])
  }

  function CandidateChangeFrom(current: seq<SkillRef>): SkillRef -> seq<Change> { (r: SkillRef) => CandidateChange(current, r) }
  function RemovalChangeFrom(candidate: seq<SkillRef>): SkillRef -> seq<Change> { (r: SkillRef) => RemovalChange(candidate, r) }

  function SkillChanges(current: seq<SkillRef>, candidate: seq<SkillRef>): seq<Change> {
    Flatten(Map(candidate, CandidateChangeFrom(current))) + Flatten(Map(current, RemovalChangeFrom(candidate)))
  }

  function Changes(current: Draft, candidate: Draft): seq<Change> {
    FieldChanges(current, candidate) + SkillChanges(current.skillRefs, candidate.skillRefs)
  }

  function DiffProfile(foldCase: string -> string, current: Draft, candidate: Draft): Result<seq<Change>, ProfileError> {
    var canonical :- Canonicalize(foldCase, candidate);
    var changes := Changes(current, canonical);
    if changes == [] then Err(AgentProfileUnchanged) else Ok(changes)
  }

  // ---------- which field changes a diff lists ----------

  /** The text a draft has in a text field. */
  ghost function TextIn(d: Draft, field: Field): Option<string> {
    match field
    case DisplayName => Some(d.displayName)
    case Description => Some(d.description)
    case PrimarySpecialty => Some(d.primarySpecialty)
    case Personality => Some(d.personality)
    case Instructions => Some(d.instructions)
    case _ => None
  }

  ghost predicate ShowsSkill(c: Change) { c.SkillAdded? || c.SkillUpgraded? || c.SkillRemoved? }

  /** Besides skills a diff lists exactly the fields that differ, each with the value it had and
      the value it would have, and none twice. */
  lemma FieldChangesMeaning(current: Draft, candidate: Draft, c: Change)
    requires !ShowsSkill(c)
    ensures c in Changes(current, candidate) <==>
              match c
              case TextChanged(field, before, after) =>
                TextIn(current, field) == Some(before) && TextIn(candidate, field) == Some(after) && before != after
              case RoleChanged(before, after) => before == current.role && after == candidate.role && before != after
              case TagsChanged(before, after) => before == current.tags && after == candidate.tags && before != after
              case BindingsChanged(before, after) => before == current.bindings && after == candidate.bindings && before != after
    ensures c in Changes(current, candidate) ==> multiset(Changes(current, candidate))[c] == 1
  {
    var fields, skills := FieldChanges(current, candidate), SkillChanges(current.skillRefs, candidate.skillRefs);
    SkillChangesAreSkills(current.skillRefs, candidate.skillRefs);
    NotAmong(skills, c);
    assert multiset(fields + skills)[c] == multiset(fields)[c];
    FieldsOnce(current, candidate, c);
  }

  lemma NotAmong(s: seq<Change>, c: Change)
    requires c !in s
    ensures multiset(s)[c] == 0
  {}

  lemma FieldsOnce(current: Draft, candidate: Draft, c: Change)
    requires !ShowsSkill(c)
    ensures c in FieldChanges(current, candidate) <==>
              match c
              case TextChanged(field, before, after) =>
                TextIn(current, field) == Some(before) && TextIn(candidate, field) == Some(after) && before != after
              case RoleChanged(before, after) => before == current.role && after == candidate.role && before != after
              case TagsChanged(before, after) => before == current.tags && after == candidate.tags && before != after
              case BindingsChanged(before, after) => before == current.bindings && after == candidate.bindings && before != after
    ensures c in FieldChanges(current, candidate) ==> multiset(FieldChanges(current, candidate))[c] == 1
  {
    hide FieldChanges;
    FieldCounts(current, candidate, c);
    InList(FieldChanges(current, candidate), c);
  }

  lemma InList(s: seq<Change>, c: Change)
    ensures c in s <==> multiset(s)[c] > 0
  {}

  ghost function Times(shown: bool): nat { if shown then 1 else 0 }

  lemma TextCounts(field: Field, before: string, after: string, c: Change)
    ensures multiset(TextChange(field, before, after))[c] == Times(before != after && c == TextChanged(field, before, after))
  {}

  /** How often a change is listed, field by field. */
  lemma FieldCounts(current: Draft, candidate: Draft, c: Change)
    ensures multiset(FieldChanges(current, candidate))[c] ==
              Times(current.displayName != candidate.displayName && c == TextChanged(DisplayName, current.displayName, candidate.displayName))
              + Times(current.description != candidate.description && c == TextChanged(Description, current.description, candidate.description))
              + Times(current.role != candidate.role && c == RoleChanged(current.role, candidate.role))
              + Times(current.primarySpecialty != candidate.primarySpecialty
                      && c == TextChanged(PrimarySpecialty, current.primarySpecialty, candidate.primarySpecialty))
              + Times(current.tags != candidate.tags && c == TagsChanged(current.tags, candidate.tags))
              + Times(current.personality != candidate.personality && c == TextChanged(Personality, current.personality, candidate.personality))
              + Times(current.instructions != candidate.instructions
                      && c == TextChanged(Instructions, current.instructions, candidate.instructions))
              + Times(current.bindings != candidate.bindings && c == BindingsChanged(current.bindings, candidate.bindings))
  {
    hide TextChange;
    TextCounts(DisplayName, current.displayName, candidate.displayName, c);
    TextCounts(Description, current.description, candidate.description, c);
    TextCounts(PrimarySpecialty, current.primarySpecialty, candidate.primarySpecialty, c);
    TextCounts(Personality, current.personality, candidate.personality, c);
    TextCounts(Instructions, current.instructions, candidate.instructions, c);
  }

  lemma {:induction false} FlattenSkills(parts: seq<seq<Change>>)
    requires forall i, c | 0 <= i < |parts| && c in parts[i] :: ShowsSkill(c)
    ensures forall c | c in Flatten(parts) :: ShowsSkill(c)
  {
    if parts != [] { FlattenSkills(parts[1..]); }
  }

  lemma SkillChangesAreSkills(current: seq<SkillRef>, candidate: seq<SkillRef>)
    ensures forall c | c in SkillChanges(current, candidate) :: ShowsSkill(c)
  {
    FlattenSkills(Map(candidate, CandidateChangeFrom(current)));
    FlattenSkills(Map(current, RemovalChangeFrom(candidate)));
  }

  // ---------- what a diff says ----------

  lemma {:induction false} FlattenMembers(parts: seq<seq<Change>>, c: Change)
    ensures c in Flatten(parts) <==> exists i :: 0 <= i < |parts| && c in parts[i]
  {
    if parts != [] {
      FlattenMembers(parts[1..], c);
      if c in Flatten(parts[1..]) {
        var i :| 0 <= i < |parts[1..]| && c in parts[1..][i];
        assert c in parts[i + 1];
      }
      if i :| 0 <= i < |parts| && c in parts[i] {
        if i > 0 { assert c in parts[1..][i - 1]; }
      }
    }
  }

  ghost predicate Canonicals(current: seq<SkillRef>, candidate: seq<SkillRef>) {
    CanonicalSkillRefs(current) == Ok(current) && CanonicalSkillRefs(candidate) == Ok(candidate)
  }

  /** Which skill changes a diff lists: one addition or upgrade per new reference, one
      removal per reference whose skill is gone. */
  lemma SkillChangeMembers(current: seq<SkillRef>, candidate: seq<SkillRef>, c: Change)
    ensures c in SkillChanges(current, candidate) <==>
              || (exists r :: r in candidate && c in CandidateChange(current, r))
              || (exists r :: r in current && c in RemovalChange(candidate, r))
  {
    hide CandidateChange, RemovalChange, Flatten;
    var parts, removals := Map(candidate, CandidateChangeFrom(current)), Map(current, RemovalChangeFrom(candidate));
    FlattenMembers(parts, c);
    FlattenMembers(removals, c);
    if r :| r in candidate && c in CandidateChange(current, r) {
      var i :| 0 <= i < |candidate| && candidate[i] == r;
      assert c in parts[i];
    }
    if r :| r in current && c in RemovalChange(candidate, r) {
      var i :| 0 <= i < |current| && current[i] == r;
      assert c in removals[i];
    }
  }

  lemma CanonicalListIsOrdered(refs: seq<SkillRef>)
    requires CanonicalSkillRefs(refs) == Ok(refs)
    ensures Sorted(SkillIdLe, refs) && DistinctSkills(refs)
  {
    SkillIdLeTotal();
    SortSorted(SkillIdLe, refs);
  }

  lemma SameRefs(current: seq<SkillRef>, candidate: seq<SkillRef>)
    requires Canonicals(current, candidate)
    requires forall r :: r in current <==> r in candidate
    ensures current == candidate
  {
    CanonicalListIsOrdered(current);
    CanonicalListIsOrdered(candidate);
    DistinctSkillsBreakTies(current);
    SortedMembersUnique(SkillIdLe, current, candidate);
  }

  lemma FindListed(refs: seq<SkillRef>, r: SkillRef)
    requires DistinctSkills(refs) && r in refs
    ensures FindSkill(refs, r.skillId) == Some(r)
  {
    var i :| 0 <= i < |refs| && refs[i] == r;
    var found := FindSkill(refs, r.skillId).value;
    var j :| 0 <= j < |refs| && refs[j] == found;
  }

  /** The skill part of a diff is empty exactly when the references are the same. */
  lemma NoSkillChangeMeaning(current: seq<SkillRef>, candidate: seq<SkillRef>)
    requires Canonicals(current, candidate)
    ensures SkillChanges(current, candidate) == [] <==> current == candidate
  {
    hide SkillChanges, CanonicalSkillRefs, FindSkill, HasSkill, Shown;
    CanonicalListIsOrdered(current);
    CanonicalListIsOrdered(candidate);
    if SkillChanges(current, candidate) == [] {
      forall r ensures r in current <==> r in candidate { UnchangedMember(current, candidate, r); }
      SameRefs(current, candidate);
    } else if current == candidate {
      var c := SkillChanges(current, candidate)[0];
      SkillChangeMembers(current, candidate, c);
      forall r | r in current ensures CandidateChange(current, r) == [] && RemovalChange(current, r) == [] {
        FindListed(current, r);
      }
      assert false;
    }
  }

  lemma UnchangedMember(current: seq<SkillRef>, candidate: seq<SkillRef>, r: SkillRef)
    requires DistinctSkills(current) && DistinctSkills(candidate)
    requires SkillChanges(current, candidate) == []
    ensures r in current <==> r in candidate
  {
    hide SkillChanges, DistinctSkills;
    if r in candidate && r !in current {
      SkillChangeMembers(current, candidate, CandidateChange(current, r)[0]);
    }
    if r in current && r !in candidate {
      if HasSkill(candidate, r.skillId) {
        var other := FindSkill(candidate, r.skillId).value;
        FindListed(current, r);
        SkillChangeMembers(current, candidate, CandidateChange(current, other)[0]);
      } else {
        SkillChangeMembers(current, candidate, RemovalChange(candidate, r)[0]);
      }
    }
  }

  /** A diff is refused as "unchanged" exactly when every compared field is equal. */
  lemma UnchangedMeaning(foldCase: string -> string, current: Draft, candidate: Draft)
    requires Canonical(foldCase, current) && Canonicalize(foldCase, candidate).Ok?
    ensures var canonical := Canonicalize(foldCase, candidate).value;
            DiffProfile(foldCase, current, candidate) == Err(AgentProfileUnchanged) <==>
              current == canonical.(provenance := current.provenance)
  {
    hide SkillChanges, CanonicalText, CanonicalSpecialtyTags, CanonicalSkillRefs;
    CanonicalRefs(foldCase, current);
    CanonicalizeIdempotent(foldCase, candidate);
    var canonical := Canonicalize(foldCase, candidate).value;
    CanonicalRefs(foldCase, canonical);
    NoSkillChangeMeaning(current.skillRefs, canonical.skillRefs);
  }

  // ---------- how much of the candidate a diff shows ----------

  ghost predicate ShownIn(refs: seq<SkillRef>, m: Summary) { exists r :: r in refs && Shown(r) == m }

  /** What a reader of the diff can conclude about the candidate's references. */
  ghost predicate Reconstructed(current: seq<SkillRef>, changes: seq<Change>, m: Summary) {
    || SkillAdded(m) in changes
    || (exists from :: SkillUpgraded(from, m) in changes)
    || (ShownIn(current, m) && SkillRemoved(m) !in changes && forall to :: SkillUpgraded(m, to) !in changes)
  }

  /** The skill entries of a diff rebuild the candidate's references from the current
      ones, as far as references are shown. */
  lemma DiffShowsCandidate(current: seq<SkillRef>, candidate: seq<SkillRef>, m: Summary)
    requires Canonicals(current, candidate)
    ensures ShownIn(candidate, m) <==> Reconstructed(current, SkillChanges(current, candidate), m)
  {
    hide SkillChanges, CanonicalSkillRefs;
    CanonicalListIsOrdered(current);
    CanonicalListIsOrdered(candidate);
    var changes := SkillChanges(current, candidate);
    if ShownIn(candidate, m) {
      var r :| r in candidate && Shown(r) == m;
      CandidateIsReconstructed(current, candidate, r);
    }
    if Reconstructed(current, changes, m) {
      ReconstructedIsCandidate(current, candidate, m);
    }
  }

  lemma CandidateIsReconstructed(current: seq<SkillRef>, candidate: seq<SkillRef>, r: SkillRef)
    requires DistinctSkills(current) && DistinctSkills(candidate) && r in candidate
    ensures Reconstructed(current, SkillChanges(current, candidate), Shown(r))
  {
    hide SkillChanges, DistinctSkills;
    var m, changes := Shown(r), SkillChanges(current, candidate);
    match FindSkill(current, r.skillId) {
      case None =>
        assert SkillAdded(m) in CandidateChange(current, r);
        SkillChangeMembers(current, candidate, SkillAdded(m));
      case Some(c) =>
        if c != r {
          assert SkillUpgraded(Shown(c), m) in CandidateChange(current, r);
          SkillChangeMembers(current, candidate, SkillUpgraded(Shown(c), m));
        } else {
          FindListed(candidate, r);
          SkillChangeMembers(current, candidate, SkillRemoved(m));
          forall to ensures SkillUpgraded(m, to) !in changes {
            SkillChangeMembers(current, candidate, SkillUpgraded(m, to));
            forall other | other in candidate ensures SkillUpgraded(m, to) !in CandidateChange(current, other) {
              FindListed(candidate, other);
            }
          }
        }
    }
  }

  lemma ReconstructedIsCandidate(current: seq<SkillRef>, candidate: seq<SkillRef>, m: Summary)
    requires DistinctSkills(current) && DistinctSkills(candidate)
    requires Reconstructed(current, SkillChanges(current, candidate), m)
    ensures ShownIn(candidate, m)
  {
    hide SkillChanges, DistinctSkills;
    var changes := SkillChanges(current, candidate);
    if SkillAdded(m) in changes {
      SkillChangeMembers(current, candidate, SkillAdded(m));
    } else if from :| SkillUpgraded(from, m) in changes {
      SkillChangeMembers(current, candidate, SkillUpgraded(from, m));
    } else {
      var r :| r in current && Shown(r) == m;
      FindListed(current, r);
      if HasSkill(candidate, r.skillId) {
        var other := FindSkill(candidate, r.skillId).value;
        if other != r {
          assert SkillUpgraded(m, Shown(other)) in CandidateChange(current, other);
          SkillChangeMembers(current, candidate, SkillUpgraded(m, Shown(other)));
        }
      } else {
        assert SkillRemoved(m) in RemovalChange(candidate, r);
        SkillChangeMembers(current, candidate, SkillRemoved(m));
      }
    }
  }

  /** No other candidate has the same skill diff. */
  ghost predicate DiffDetermines(current: seq<SkillRef>, candidate: seq<SkillRef>) {
    forall other | CanonicalSkillRefs(other) == Ok(other) && SkillChanges(current, other) == SkillChanges(current, candidate) ::
      other == candidate
  }

  /** A digest that differs from two others. */
  function OtherDigest(a: nat, b: nat): (d: nat)
    ensures d != a && d != b
  {
    a + b + 1
  }

  lemma SkillsOfUpdate(refs: seq<SkillRef>, i: nat, r: SkillRef)
    requires CanonicalSkillRefs(refs) == Ok(refs) && i < |refs| && r.skillId == refs[i].skillId
    ensures CanonicalSkillRefs(refs[i := r]) == Ok(refs[i := r])
    ensures forall id :: HasSkill(refs[i := r], id) <==> HasSkill(refs, id)
  {
    CanonicalListIsOrdered(refs);
    SortFixpoint(SkillIdLe, refs[i := r]);
    forall id ensures HasSkill(refs[i := r], id) <==> HasSkill(refs, id) {
      if HasSkill(refs, id) {
        var k :| 0 <= k < |refs| && refs[k].skillId == id;
        assert refs[i := r][k].skillId == id;
      }
    }
  }

  /** Changing only the digest of an added or upgraded reference leaves the diff as it is. */
  lemma DigestIsNotShown(current: seq<SkillRef>, candidate: seq<SkillRef>, i: nat, digest: nat)
    requires Canonicals(current, candidate) && i < |candidate| && candidate[i] !in current
    requires candidate[i].(digest := digest) !in current
    ensures var other := candidate[i := candidate[i].(digest := digest)];
            CanonicalSkillRefs(other) == Ok(other) && SkillChanges(current, other) == SkillChanges(current, candidate)
  {
    hide CanonicalSkillRefs, HasSkill;
    var r := candidate[i].(digest := digest);
    var other := candidate[i := r];
    SkillsOfUpdate(candidate, i, r);
    assert Map(other, CandidateChangeFrom(current)) == Map(candidate, CandidateChangeFrom(current));
    assert Map(current, RemovalChangeFrom(other)) == Map(current, RemovalChangeFrom(candidate));
  }

  /** The skill entries determine the candidate's references exactly when the candidate
      adds and upgrades nothing: for every other candidate there is a second one, differing
      in a content digest only, with the very same diff. */
  lemma DiffDeterminesExactly(current: seq<SkillRef>, candidate: seq<SkillRef>)
    requires Canonicals(current, candidate)
    ensures DiffDetermines(current, candidate) <==> forall r | r in candidate :: r in current
  {
    hide CanonicalSkillRefs, SkillChanges;
    if r :| r in candidate && r !in current {
      var i :| 0 <= i < |candidate| && candidate[i] == r;
      var digest := match FindSkill(current, r.skillId) case None => r.digest + 1 case Some(c) => OtherDigest(r.digest, c.digest);
      CanonicalListIsOrdered(current);
      if r.(digest := digest) in current { FindListed(current, r.(digest := digest)); }
      DigestIsNotShown(current, candidate, i, digest);
      assert candidate[i := r.(digest := digest)][i] != candidate[i];
    } else {
      forall other | CanonicalSkillRefs(other) == Ok(other) && SkillChanges(current, other) == SkillChanges(current, candidate)
        ensures other == candidate
      {
        RemovalsDetermine(current, candidate, other);
      }
    }
  }

  lemma RemovalsDetermine(current: seq<SkillRef>, candidate: seq<SkillRef>, other: seq<SkillRef>)
    requires Canonicals(current, candidate) && Canonicals(current, other)
    requires forall r | r in candidate :: r in current
    requires SkillChanges(current, other) == SkillChanges(current, candidate)
    ensures other == candidate
  {
    hide CanonicalSkillRefs, SkillChanges;
    CanonicalListIsOrdered(current);
    CanonicalListIsOrdered(candidate);
    CanonicalListIsOrdered(other);
    forall r ensures r in other <==> r in candidate { RemovalsDetermineMember(current, candidate, other, r); }
    SameRefs(other, candidate);
  }

  lemma RemovalsDetermineMember(current: seq<SkillRef>, candidate: seq<SkillRef>, other: seq<SkillRef>, r: SkillRef)
    requires DistinctSkills(current) && DistinctSkills(candidate) && DistinctSkills(other)
    requires forall r | r in candidate :: r in current
    requires SkillChanges(current, other) == SkillChanges(current, candidate)
    ensures r in other <==> r in candidate
  {
    hide SkillChanges, DistinctSkills;
    OnlyRemovals(current, candidate);
    if r in other && r !in current {
      var c := CandidateChange(current, r)[0];
      SkillChangeMembers(current, other, c);
    }
    if r in current {
      FindListed(current, r);
      SkillChangeMembers(current, other, SkillRemoved(Shown(r)));
      SkillChangeMembers(current, candidate, SkillRemoved(Shown(r)));
      KeptUnlessRemoved(current, candidate, r);
      KeptOrChanged(current, other, r, candidate);
    }
  }

  lemma OnlyRemovals(current: seq<SkillRef>, candidate: seq<SkillRef>)
    requires DistinctSkills(current) && forall r | r in candidate :: r in current
    ensures forall c | c in SkillChanges(current, candidate) :: c.SkillRemoved?
  {
    hide SkillChanges, DistinctSkills;
    forall c | c in SkillChanges(current, candidate) ensures c.SkillRemoved? {
      SkillChangeMembers(current, candidate, c);
      forall r | r in candidate ensures CandidateChange(current, r) == [] { FindListed(current, r); }
    }
  }

  lemma ListedHasSkill(refs: seq<SkillRef>, r: SkillRef)
    ensures r in refs ==> HasSkill(refs, r.skillId)
  {
    if r in refs {
      var i :| 0 <= i < |refs| && refs[i] == r;
    }
  }

  /** A current reference is in a removal-only candidate unless its removal is listed. */
  lemma KeptUnlessRemoved(current: seq<SkillRef>, candidate: seq<SkillRef>, r: SkillRef)
    requires DistinctSkills(current) && DistinctSkills(candidate) && r in current
    requires forall r | r in candidate :: r in current
    ensures r in candidate <==> SkillRemoved(Shown(r)) !in SkillChanges(current, candidate)
  {
    hide SkillChanges, DistinctSkills;
    SkillChangeMembers(current, candidate, SkillRemoved(Shown(r)));
    FindListed(current, r);
    if HasSkill(candidate, r.skillId) {
      var found := FindSkill(candidate, r.skillId).value;
      FindListed(current, found);
    } else {
      assert SkillRemoved(Shown(r)) in RemovalChange(candidate, r);
    }
    ListedHasSkill(candidate, r);
  }

  /** The same for any candidate whose diff is the diff of a removal-only one. */
  lemma KeptOrChanged(current: seq<SkillRef>, other: seq<SkillRef>, r: SkillRef, candidate: seq<SkillRef>)
    requires DistinctSkills(current) && DistinctSkills(other) && DistinctSkills(candidate) && r in current
    requires forall r | r in candidate :: r in current
    requires SkillChanges(current, other) == SkillChanges(current, candidate)
    ensures r in other <==> SkillRemoved(Shown(r)) !in SkillChanges(current, other)
  {
    hide SkillChanges, DistinctSkills;
    OnlyRemovals(current, candidate);
    forall x | x in other ensures x in current {
      if x !in current { SkillChangeMembers(current, other, CandidateChange(current, x)[0]); }
    }
    KeptUnlessRemoved(current, other, r);
  }

  /** When version ids determine references, as they do for references that resolve to
      stored skill versions, a diff does determine the candidate. */
  lemma ResolvedRefsAreDetermined(current: seq<SkillRef>, candidate: seq<SkillRef>, other: seq<SkillRef>)
    requires Canonicals(current, candidate) && Canonicals(current, other)
    requires forall r, r' | r in candidate && r' in other && r.versionId == r'.versionId :: r == r'
    requires SkillChanges(current, other) == SkillChanges(current, candidate)
    ensures other == candidate
  {
    hide CanonicalSkillRefs, SkillChanges, Reconstructed;
    forall r ensures r in other <==> r in candidate {
      DiffShowsCandidate(current, candidate, Shown(r));
      DiffShowsCandidate(current, other, Shown(r));
      if r in candidate {
        assert ShownIn(candidate, Shown(r));
        var r' :| r' in other && Shown(r') == Shown(r);
      }
      if r in other {
        assert ShownIn(other, Shown(r));
        var r' :| r' in candidate && Shown(r') == Shown(r);
      }
    }
    SameRefs(other, candidate);
  }

  // ---------- versions ----------

  /** What a version's digest covers: everything but the digest. */
  function FromDraft(foldCase: string -> string, seal: ProfileVersion -> nat, v: ProfileVersion): Result<ProfileVersion, ProfileError> {
    var draft :- Canonicalize(foldCase, v.draft);
    var nameKey :- NameKey(foldCase, draft.displayName);
    var unsealed := v.(draft := draft.(provenance := v.draft.provenance), nameKey := nameKey, digest := 0);
    Ok(unsealed.(digest := seal(unsealed)))
  }

  function CreateVersion(foldCase: string -> string, seal: ProfileVersion -> nat, profileId: nat, versionId: nat, ns: nat,
      now: int, draft: Draft): Result<ProfileVersion, ProfileError>
  {
    FromDraft(foldCase, seal, ProfileVersion(profileId, versionId, 1, draft, [], ns, now, None, 0))
  }

  function NextVersion(foldCase: string -> string, seal: ProfileVersion -> nat, current: ProfileVersion, versionId: nat,
      now: int, draft: Draft): Result<ProfileVersion, ProfileError>
  {
    if current.version >= U64_MAX then Err(InvalidObjectVersion)
    else FromDraft(foldCase, seal, ProfileVersion(current.profileId, versionId, current.version + 1,
           draft.(provenance := current.draft.provenance), [], current.ns, now, Some(current.versionId), 0))
  }

  // ---------- what the service prepares ----------

  datatype AssignmentError = SkillNotFound | SkillAlreadyAssigned | AgentSkillLimitExceeded | SkillNotAssigned
    | AgentProfileNotFound | StaleAgentProfileVersion | ReviewRefused | NameTaken | Domain(cause: ProfileError)

  datatype Assignment = Assign(skill: SkillRef) | Upgrade(expected: SkillRef, replacement: SkillRef) | Unassign(unassigned: SkillRef)

  function Lift<T>(r: Result<T, ProfileError>): Result<T, AssignmentError> {
    match r case Ok(v) => Ok(v) case Err(e) => Err(Domain(e))
  }

  /** `validate_assignment_operation`; `stored` tells which references resolve. */
  function ValidateAssignment(foldCase: string -> string, stored: SkillRef -> bool, current: Draft, op: Assignment): Result<Draft, AssignmentError> {
    match op
    case Assign(skill) =>
      if !stored(skill) then Err(SkillNotFound)
      else if HasSkill(current.skillRefs, skill.skillId) then Err(SkillAlreadyAssigned)
      else if |current.skillRefs| >= 16 then Err(AgentSkillLimitExceeded)
      else Lift(AssignSkill(foldCase, current, skill))
    case Upgrade(expected, replacement) =>
      if !stored(expected) || !stored(replacement) then Err(SkillNotFound)
      else if expected !in current.skillRefs then Err(SkillNotAssigned)
      else Lift(UpgradeSkill(foldCase, current, expected, replacement))
    case Unassign(expected) =>
      if !stored(expected) then Err(SkillNotFound)
      else if expected !in current.skillRefs then Err(SkillNotAssigned)
      else Lift(UnassignSkill(foldCase, current, expected))
  }

  /** `prepare_agent_skill_event` up to the event's constructor. */
  function PrepareAssignment(foldCase: string -> string, seal: ProfileVersion -> nat, stored: SkillRef -> bool,
      active: Option<ProfileVersion>, expectedActive: nat, op: Assignment, versionId: nat, now: int): Result<ProfileVersion, AssignmentError>
  {
    if active.None? then Err(AgentProfileNotFound)
    else if active.value.versionId != expectedActive then Err(StaleAgentProfileVersion)
    else
      var candidate :- ValidateAssignment(foldCase, stored, active.value.draft, op);
      Lift(NextVersion(foldCase, seal, active.value, versionId, now, candidate))
  }

  /** The activation arm: the candidate must differ from the version it was reviewed
      against, the review must hold, and that version must still be the active one. */
  function PrepareActivation(foldCase: string -> string, seal: ProfileVersion -> nat, base: Option<ProfileVersion>,
      active: Option<ProfileVersion>, expectedActive: nat, candidate: Draft, reviewHeld: bool, nameFree: bool,
      versionId: nat, now: int): Result<ProfileVersion, AssignmentError>
  {
    if base.None? then Err(StaleAgentProfileVersion)
    else
      var _ :- Lift(DiffProfile(foldCase, base.value.draft, candidate));
      if !reviewHeld then Err(ReviewRefused)
      else if active.None? then Err(AgentProfileNotFound)
      else if active.value.versionId != expectedActive then Err(StaleAgentProfileVersion)
      else if !nameFree then Err(NameTaken)
      else Lift(NextVersion(foldCase, seal, active.value, versionId, now, candidate))
  }

  /** The versions in circulation: a canonical draft, by construction. */
  predicate SealedVersion(foldCase: string -> string, v: ProfileVersion) { Canonical(foldCase, v.draft) }

  lemma ProvenanceIsCarried(foldCase: string -> string, d: Draft, provenance: Option<nat>)
    ensures Canonicalize(foldCase, d.(provenance := provenance)) ==
              match Canonicalize(foldCase, d) case Err(e) => Err(e) case Ok(c) => Ok(c.(provenance := provenance))
  {
    hide Visible, NameKey, CanonicalSpecialtyTags, CanonicalSkillRefs;
  }

  /** A version can be made from exactly the drafts that have a canonical form: it holds that form,
      is known by the key of the name shown, and is sealed over all the rest as given. */
  lemma MadeVersionMeaning(foldCase: string -> string, seal: ProfileVersion -> nat, v: ProfileVersion)
    ensures FromDraft(foldCase, seal, v).Ok? <==> Canonicalize(foldCase, v.draft).Ok?
    ensures FromDraft(foldCase, seal, v).Ok? ==>
              var made := FromDraft(foldCase, seal, v).value;
              && Canonicalize(foldCase, v.draft) == Ok(made.draft) && Canonical(foldCase, made.draft)
              && NameKey(foldCase, made.draft.displayName) == Ok(made.nameKey)
              && NameKey(foldCase, v.draft.displayName) == Ok(made.nameKey)
              && made.digest == seal(made.(digest := 0))
              && made.profileId == v.profileId && made.versionId == v.versionId && made.version == v.version && made.ns == v.ns
              && made.createdAt == v.createdAt && made.supersedes == v.supersedes
  {
    hide Canonicalize, ComparisonKey, Showable, ComparedBy;
    if Canonicalize(foldCase, v.draft).Ok? {
      CanonicalizeMeaning(foldCase, v.draft);
      CanonicalizeIdempotent(foldCase, v.draft);
      ComparisonKeyMeaning(foldCase, DisplayName, v.draft.displayName, 64);
      assert Canonicalize(foldCase, v.draft).value.(provenance := v.draft.provenance) == Canonicalize(foldCase, v.draft).value;
    }
  }

  /** The first version of a profile. */
  lemma CreatedVersionMeaning(foldCase: string -> string, seal: ProfileVersion -> nat, profileId: nat, versionId: nat, ns: nat,
      now: int, draft: Draft)
    ensures var r := CreateVersion(foldCase, seal, profileId, versionId, ns, now, draft);
            && (r.Ok? <==> Canonicalize(foldCase, draft).Ok?)
            && (r.Ok? ==>
                  && r.value.version == 1 && r.value.supersedes == None
                  && r.value.profileId == profileId && r.value.versionId == versionId && r.value.ns == ns && r.value.createdAt == now
                  && Canonicalize(foldCase, draft) == Ok(r.value.draft)
                  && NameKey(foldCase, r.value.draft.displayName) == NameKey(foldCase, draft.displayName) == Ok(r.value.nameKey)
                  && r.value.digest == seal(r.value.(digest := 0)))
  {
    hide Canonicalize, NameKey;
    MadeVersionMeaning(foldCase, seal, ProfileVersion(profileId, versionId, 1, draft, [], ns, now, None, 0));
  }

  /** The version after `current`: it keeps profile, namespace and template. */
  lemma NextVersionMeaning(foldCase: string -> string, seal: ProfileVersion -> nat, current: ProfileVersion, versionId: nat,
      now: int, draft: Draft)
    ensures var r := NextVersion(foldCase, seal, current, versionId, now, draft);
            && (r.Ok? <==> current.version < U64_MAX && Canonicalize(foldCase, draft).Ok?)
            && (r.Ok? ==>
                  && r.value.version == current.version + 1 && r.value.supersedes == Some(current.versionId)
                  && r.value.profileId == current.profileId && r.value.versionId == versionId && r.value.ns == current.ns
                  && r.value.createdAt == now && r.value.draft.provenance == current.draft.provenance
                  && r.value.draft == Canonicalize(foldCase, draft).value.(provenance := current.draft.provenance)
                  && Canonical(foldCase, r.value.draft)
                  && NameKey(foldCase, r.value.draft.displayName) == NameKey(foldCase, draft.displayName) == Ok(r.value.nameKey)
                  && r.value.digest == seal(r.value.(digest := 0)))
  {
    hide Canonicalize, NameKey;
    var given := draft.(provenance := current.draft.provenance);
    ProvenanceIsCarried(foldCase, draft, current.draft.provenance);
    MadeVersionMeaning(foldCase, seal, ProfileVersion(current.profileId, versionId, current.version + 1, given, [], current.ns,
      now, Some(current.versionId), 0));
  }

  lemma NextVersionKeeps(foldCase: string -> string, seal: ProfileVersion -> nat, current: ProfileVersion, versionId: nat,
      now: int, draft: Draft)
    requires Canonical(foldCase, draft) && NextVersion(foldCase, seal, current, versionId, now, draft).Ok?
    ensures var v := NextVersion(foldCase, seal, current, versionId, now, draft).value;
            && SealedVersion(foldCase, v) && v.draft == draft.(provenance := current.draft.provenance)
            && v.profileId == current.profileId && v.ns == current.ns && v.version == current.version + 1
            && v.versionId == versionId && v.supersedes == Some(current.versionId)
  {
    hide Canonicalize, NameKey;
    ProvenanceIsCarried(foldCase, draft, current.draft.provenance);
  }

  /** The service's own checks leave exactly one way for an assignment to fail below them:
      an upgrade that names the same reference twice or two different skills. */
  lemma AssignmentMeaning(foldCase: string -> string, stored: SkillRef -> bool, current: Draft, op: Assignment)
    requires Canonical(foldCase, current)
    ensures ValidateAssignment(foldCase, stored, current, op).Ok? <==>
              match op
              case Assign(skill) =>
                stored(skill) && !HasSkill(current.skillRefs, skill.skillId) && |current.skillRefs| < 16
              case Upgrade(expected, replacement) =>
                stored(expected) && stored(replacement) && expected in current.skillRefs
                && expected != replacement && expected.skillId == replacement.skillId
              case Unassign(expected) => stored(expected) && expected in current.skillRefs
    ensures ValidateAssignment(foldCase, stored, current, op).Ok? ==>
              var after := ValidateAssignment(foldCase, stored, current, op).value;
              && Canonical(foldCase, after) && after.(skillRefs := current.skillRefs) == current
              && match op
                 case Assign(skill) => multiset(after.skillRefs) == multiset(current.skillRefs) + multiset{skill}
                 case Upgrade(expected, replacement) =>
                   multiset(after.skillRefs) + multiset{expected} == multiset(current.skillRefs) + multiset{replacement}
                 case Unassign(expected) => multiset(after.skillRefs) + multiset{expected} == multiset(current.skillRefs)
  {
    hide Canonical, AssignSkill, UpgradeSkill, UnassignSkill, HasSkill;
    match op {
      case Assign(skill) => AssignMeaning(foldCase, current, skill);
      case Upgrade(expected, replacement) => UpgradeMeaning(foldCase, current, expected, replacement);
      case Unassign(expected) => UnassignMeaning(foldCase, current, expected);
    }
  }

  /** A draft whose references changed differs from the one before. */
  lemma AssignmentChangesRefs(foldCase: string -> string, stored: SkillRef -> bool, current: Draft, op: Assignment)
    requires Canonical(foldCase, current) && ValidateAssignment(foldCase, stored, current, op).Ok?
    ensures ValidateAssignment(foldCase, stored, current, op).value.skillRefs != current.skillRefs
  {
    hide Canonical, ValidateAssignment, HasSkill;
    AssignmentMeaning(foldCase, stored, current, op);
    var after, before := ValidateAssignment(foldCase, stored, current, op).value, current.skillRefs;
    match op {
      case Assign(skill) => assert |multiset(after.skillRefs)| == |multiset(before)| + 1;
      case Unassign(expected) => assert |multiset(after.skillRefs)| + 1 == |multiset(before)|;
      case Upgrade(expected, replacement) =>
        assert (multiset(after.skillRefs) + multiset{expected})[replacement]
               == (multiset(before) + multiset{replacement})[replacement];
    }
  }

  /** Every version made by assigning, upgrading or unassigning a skill differs from the
      version it supersedes by a diff that is not empty. */
  lemma AssignmentAlwaysDiffers(foldCase: string -> string, seal: ProfileVersion -> nat, stored: SkillRef -> bool,
      active: ProfileVersion, expectedActive: nat, op: Assignment, versionId: nat, now: int)
    requires SealedVersion(foldCase, active)
    requires PrepareAssignment(foldCase, seal, stored, Some(active), expectedActive, op, versionId, now).Ok?
    ensures var v := PrepareAssignment(foldCase, seal, stored, Some(active), expectedActive, op, versionId, now).value;
            && DiffProfile(foldCase, active.draft, v.draft).Ok? && DiffProfile(foldCase, active.draft, v.draft).value != []
            && SealedVersion(foldCase, v) && v.supersedes == Some(active.versionId) && v.version == active.version + 1
  {
    hide Canonicalize, ValidateAssignment, NextVersion, Changes;
    AssignmentChangesRefs(foldCase, stored, active.draft, op);
    AssignmentMeaning(foldCase, stored, active.draft, op);
    var candidate := ValidateAssignment(foldCase, stored, active.draft, op).value;
    NextVersionKeeps(foldCase, seal, active, versionId, now, candidate);
    var v := NextVersion(foldCase, seal, active, versionId, now, candidate).value;
    UnchangedMeaning(foldCase, active.draft, v.draft);
  }

  /** So does every activated version; the reviewed base is the version it supersedes
      because versions are looked up by their id. */
  lemma ActivationAlwaysDiffers(foldCase: string -> string, seal: ProfileVersion -> nat, base: ProfileVersion,
      active: ProfileVersion, expectedActive: nat, candidate: Draft, reviewHeld: bool, nameFree: bool, versionId: nat, now: int)
    requires SealedVersion(foldCase, active) && base.versionId == expectedActive
    requires active.versionId == base.versionId ==> active == base
    requires PrepareActivation(foldCase, seal, Some(base), Some(active), expectedActive, candidate, reviewHeld, nameFree, versionId, now).Ok?
    ensures var v := PrepareActivation(foldCase, seal, Some(base), Some(active), expectedActive, candidate, reviewHeld,
                       nameFree, versionId, now).value;
            && DiffProfile(foldCase, active.draft, v.draft).Ok? && DiffProfile(foldCase, active.draft, v.draft).value != []
            && v.supersedes == Some(active.versionId) && v.version == active.version + 1
  {
    hide Canonicalize, Changes, NameKey;
    CanonicalizeIdempotent(foldCase, candidate);
    ProvenanceIsCarried(foldCase, candidate, active.draft.provenance);
    var v := NextVersion(foldCase, seal, active, versionId, now, candidate).value;
    CanonicalizeIdempotent(foldCase, candidate.(provenance := active.draft.provenance));
    UnchangedMeaning(foldCase, active.draft, candidate);
    UnchangedMeaning(foldCase, active.draft, v.draft);
  }

  // ---------- an assignment's diff is one entry ----------

  lemma {:induction false} FlattenEmpty(parts: seq<seq<Change>>)
    requires forall i | 0 <= i < |parts| :: parts[i] == []
    ensures Flatten(parts) == []
  {
    if parts != [] { FlattenEmpty(parts[1..]); }
  }

  lemma {:induction false} FlattenOne(parts: seq<seq<Change>>, i: nat, c: Change)
    requires i < |parts| && parts[i] == [c]
    requires forall k | 0 <= k < |parts| && k != i :: parts[k] == []
    ensures Flatten(parts) == [c]
  {
    if i == 0 {
      FlattenEmpty(parts[1..]);
    } else {
      FlattenOne(parts[1..], i - 1, c);
    }
  }

  lemma InEither(a: multiset<SkillRef>, b: multiset<SkillRef>, x: SkillRef)
    ensures x in a + b <==> x in a || x in b
  {}

  /** Assigning shows as the one addition, upgrading as the one upgrade, unassigning as
      the one removal; nothing else is listed. */
  lemma AssignmentDiffIsOneEntry(foldCase: string -> string, stored: SkillRef -> bool, current: Draft, op: Assignment)
    requires Canonical(foldCase, current) && ValidateAssignment(foldCase, stored, current, op).Ok?
    ensures Changes(current, ValidateAssignment(foldCase, stored, current, op).value) ==
              match op
              case Assign(skill) => [SkillAdded(Shown(skill))]
              case Upgrade(expected, replacement) => [SkillUpgraded(Shown(expected), Shown(replacement))]
              case Unassign(expected) => [SkillRemoved(Shown(expected))]
  {
    hide Canonical, ValidateAssignment, SkillChanges, CanonicalSkillRefs, Sorted, DistinctSkills, HasSkill;
    AssignmentMeaning(foldCase, stored, current, op);
    var after := ValidateAssignment(foldCase, stored, current, op).value;
    CanonicalRefs(foldCase, current);
    CanonicalRefs(foldCase, after);
    match op {
      case Assign(skill) => OneAddition(current.skillRefs, after.skillRefs, skill);
      case Upgrade(expected, replacement) => OneUpgrade(current.skillRefs, after.skillRefs, expected, replacement);
      case Unassign(expected) => OneRemoval(current.skillRefs, after.skillRefs, expected);
    }
  }

  lemma MembersPlus(s: seq<SkillRef>, t: seq<SkillRef>, x: SkillRef)
    requires multiset(s) == multiset(t) + multiset{x}
    ensures forall r :: r in s <==> r in t || r == x
  {
    forall r ensures r in s <==> r in t || r == x {
      InEither(multiset(t), multiset{x}, r);
    }
  }

  /** Nothing of the current list is removed when its skills are all still there. */
  lemma NoRemovals(current: seq<SkillRef>, candidate: seq<SkillRef>)
    requires forall r | r in current :: HasSkill(candidate, r.skillId)
    ensures Flatten(Map(current, RemovalChangeFrom(candidate))) == []
  {
    hide HasSkill, Flatten;
    FlattenEmpty(Map(current, RemovalChangeFrom(candidate)));
  }

  /** One element of the candidate list shows a change, the others are listed as they are. */
  lemma OneCandidateChange(current: seq<SkillRef>, candidate: seq<SkillRef>, x: SkillRef, c: Change)
    requires DistinctSkills(current) && DistinctSkills(candidate) && x in candidate && CandidateChange(current, x) == [c]
    requires forall r | r in candidate && r != x :: r in current
    ensures Flatten(Map(candidate, CandidateChangeFrom(current))) == [c]
  {
    hide Flatten, CandidateChange;
    var parts := Map(candidate, CandidateChangeFrom(current));
    var i :| 0 <= i < |candidate| && candidate[i] == x;
    forall k | 0 <= k < |candidate| && k != i ensures parts[k] == [] {
      assert candidate[k] in candidate && candidate[k] != x;
      ListedUnchanged(current, candidate[k]);
    }
    FlattenOne(parts, i, c);
  }

  lemma ListedUnchanged(current: seq<SkillRef>, r: SkillRef)
    requires DistinctSkills(current) && r in current
    ensures CandidateChange(current, r) == []
  {
    FindListed(current, r);
  }

  lemma OneAddition(current: seq<SkillRef>, after: seq<SkillRef>, skill: SkillRef)
    requires DistinctSkills(current) && DistinctSkills(after) && !HasSkill(current, skill.skillId)
    requires multiset(after) == multiset(current) + multiset{skill}
    ensures SkillChanges(current, after) == [SkillAdded(Shown(skill))]
  {
    hide HasSkill, DistinctSkills, Flatten;
    MembersPlus(after, current, skill);
    OneCandidateChange(current, after, skill, SkillAdded(Shown(skill)));
    forall r | r in current ensures HasSkill(after, r.skillId) { ListedHasSkill(after, r); }
    NoRemovals(current, after);
  }

  lemma OneUpgrade(current: seq<SkillRef>, after: seq<SkillRef>, expected: SkillRef, replacement: SkillRef)
    requires DistinctSkills(current) && DistinctSkills(after) && expected in current
    requires expected != replacement && expected.skillId == replacement.skillId
    requires multiset(after) + multiset{expected} == multiset(current) + multiset{replacement}
    ensures SkillChanges(current, after) == [SkillUpgraded(Shown(expected), Shown(replacement))]
  {
    hide DistinctSkills, Flatten, HasSkill;
    forall r ensures (r in after || r == expected) <==> (r in current || r == replacement) {
      InEither(multiset(after), multiset{expected}, r);
      InEither(multiset(current), multiset{replacement}, r);
    }
    FindListed(current, expected);
    OneCandidateChange(current, after, replacement, SkillUpgraded(Shown(expected), Shown(replacement)));
    ListedHasSkill(after, replacement);
    forall r | r in current ensures HasSkill(after, r.skillId) { ListedHasSkill(after, r); }
    NoRemovals(current, after);
  }

  lemma OneRemoval(current: seq<SkillRef>, after: seq<SkillRef>, expected: SkillRef)
    requires DistinctSkills(current) && DistinctSkills(after) && expected in current
    requires multiset(after) + multiset{expected} == multiset(current)
    ensures SkillChanges(current, after) == [SkillRemoved(Shown(expected))]
  {
    hide Flatten, CandidateChange;
    MembersPlus(current, after, expected);
    forall r | r in after ensures CandidateChange(current, r) == [] { ListedUnchanged(current, r); }
    FlattenEmpty(Map(after, CandidateChangeFrom(current)));
    var removals := Map(current, RemovalChangeFrom(after));
    var i :| 0 <= i < |current| && current[i] == expected;
    OneMultiplicity(current, expected);
    assert expected !in after by { assert multiset(after)[expected] + 1 == multiset(current)[expected]; }
    forall k | 0 <= k < |current| && k != i ensures removals[k] == [] {
      assert current[k] in after;
      ListedHasSkill(after, current[k]);
    }
    forall j | 0 <= j < |after| ensures after[j].skillId != expected.skillId {
      assert after[j] in after && after[j] in current;
      var m :| 0 <= m < |current| && current[m] == after[j];
      assert m != i;
    }
    FlattenOne(removals, i, SkillRemoved(Shown(expected)));
  }

  lemma OneMultiplicity(refs: seq<SkillRef>, r: SkillRef)
    requires DistinctSkills(refs)
    ensures multiset(refs)[r] <= 1
  {
    assert Distinct(refs);
    DistinctAtMostOnce(refs, r);
  }

  // ---------- the diff as it runs ----------

  /** `push_skill_ref_changes`: two passes, each searching the other list. */
  method PushSkillRefChanges(changes: seq<Change>, current: seq<SkillRef>, candidate: seq<SkillRef>) returns (all: seq<Change>)
    ensures all == changes + SkillChanges(current, candidate)
  {
    all := changes;
    for i := 0 to |candidate|
      invariant all == changes + Flatten(Map(candidate[..i], CandidateChangeFrom(current)))
    {
      var found := FindSkill(current, candidate[i].skillId);
      FlattenNext(candidate, i, CandidateChangeFrom(current));
      if found.None? {
        all := all + [SkillAdded(Shown(candidate[i]))];
      } else if found.value != candidate[i] {
        all := all + [SkillUpgraded(Shown(found.value), Shown(candidate[i]))];
      }
    }
    assert candidate[..|candidate|] == candidate;
    ghost var added := all;
    for i := 0 to |current|
      invariant all == added + Flatten(Map(current[..i], RemovalChangeFrom(candidate)))
    {
      FlattenNext(current, i, RemovalChangeFrom(candidate));
      if !HasSkill(candidate, current[i].skillId) {
        all := all + [SkillRemoved(Shown(current[i]))];
      }
    }
    assert current[..|current|] == current;
  }

  lemma FlattenNext(refs: seq<SkillRef>, i: nat, f: SkillRef -> seq<Change>)
    requires i < |refs|
    ensures Flatten(Map(refs[..i + 1], f)) == Flatten(Map(refs[..i], f)) + f(refs[i])
  {
    assert Map(refs[..i + 1], f) == Map(refs[..i], f) + [f(refs[i])];
    FlattenAppend(Map(refs[..i], f), f(refs[i]));
  }

  lemma {:induction false} FlattenAppend(parts: seq<seq<Change>>, last: seq<Change>)
    ensures Flatten(parts + [last]) == Flatten(parts) + last
  {
    if parts == [] {
      assert [] + [last] == [last];
    } else {
      assert (parts + [last])[1..] == parts[1..] + [last];
      FlattenAppend(parts[1..], last);
    }
  }

  method PushTextChange(changes: seq<Change>, field: Field, before: string, after: string) returns (all: seq<Change>)
    ensures all == changes + TextChange(field, before, after)
  {
    all := changes;
    if before != after { all := all + [TextChanged(field, before, after)]; }
  }

  method PushFieldChanges(current: Draft, to: Draft) returns (changes: seq<Change>)
    ensures changes == FieldChanges(current, to)
  {
    hide TextChange;
    changes := PushTextChange([], DisplayName, current.displayName, to.displayName);
    assert [] + TextChange(DisplayName, current.displayName, to.displayName) == TextChange(DisplayName, current.displayName, to.displayName);
    changes := PushTextChange(changes, Description, current.description, to.description);
    changes := changes + if current.role != to.role then [RoleChanged(current.role, to.role)] else [];
    changes := PushTextChange(changes, PrimarySpecialty, current.primarySpecialty, to.primarySpecialty);
    changes := changes + if current.tags != to.tags then [TagsChanged(current.tags, to.tags)] else [];
    changes := PushTextChange(changes, Personality, current.personality, to.personality);
    changes := PushTextChange(changes, Instructions, current.instructions, to.instructions);
    changes := changes + if current.bindings != to.bindings then [BindingsChanged(current.bindings, to.bindings)] else [];
  }

  method ComputeDiff(foldCase: string -> string, current: Draft, candidate: Draft) returns (r: Result<seq<Change>, ProfileError>)
    ensures r == DiffProfile(foldCase, current, candidate)
  {
    hide SkillChanges, FieldChanges, Canonicalize;
    var canonical := CreateDraft(foldCase, candidate);
    if canonical.Err? { return Err(canonical.error); }
    var changes := PushFieldChanges(current, canonical.value);
    changes := PushSkillRefChanges(changes, current.skillRefs, canonical.value.skillRefs);
    if changes == [] { return Err(AgentProfileUnchanged); }
    return Ok(changes);
  }
}
