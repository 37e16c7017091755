/** Agent profile drafts and versions of src/agents/profile.rs: canonical form, skill
    assignment, and the checks the service puts in front of it (src/app/service.rs). */
module ProfileDraft {
  import opened Prelude
  import opened Sorting
  import opened TagLists
  import opened TextRules

  datatype Field = DisplayName | Description | PrimarySpecialty | SpecialtyTag | Personality | Instructions | SkillRefs | McpRefs

  datatype ProfileError = UnsafeProfileText(field: Field) | InvalidProfileField(field: Field) | TooManyProfileTags
    | DuplicateProfileTag | AgentProfileUnchanged | InvalidObjectVersion

  datatype Role = Bull | Bear | Chief | Engineering | Custom
  datatype Bindings = Bindings(inference: Option<nat>, engineering: Option<nat>)

  datatype SkillRef = SkillRef(skillId: nat, versionId: nat, version: nat, digest: nat)

  datatype Draft = Draft(
    displayName: string, description: string, role: Role, primarySpecialty: string, tags: seq<string>,
    personality: string, instructions: string, bindings: Bindings, skillRefs: seq<SkillRef>, mcpRefs: seq<string>,
    provenance: Option<nat>)

  const MAX_SPECIALTY_TAGS := 5
  const MAX_SKILL_REFS := 16

  // ---------- text ----------

  function Visible(field: Field, value: string, maxBytes: nat, allowEmpty: bool): Result<string, ProfileError> {
    match CanonicalVisibleText(value, maxBytes, allowEmpty)
    case Ok(text) => Ok(text)
    case Err(UnsafeText) => Err(UnsafeProfileText(field))
    case Err(InvalidField) => Err(InvalidProfileField(field))
  }

  /** The comparison key of visible text; `foldCase` stands for NFKC and case folding. */
  function ComparisonKey(foldCase: string -> string, field: Field, value: string, maxBytes: nat): Result<string, ProfileError> {
    var visible :- Visible(field, value, maxBytes, false);
    var key := Fold(foldCase(visible));
    if key == [] then Err(InvalidProfileField(field)) else Ok(key)
  }

  function NameKey(foldCase: string -> string, value: string): Result<string, ProfileError> {
    ComparisonKey(foldCase, DisplayName, value, 64)
  }

  function TagPair(foldCase: string -> string, primaryKey: string, tag: string): Result<Keyed, ProfileError> {
    var visible :- Visible(SpecialtyTag, tag, 48, false);
    var key :- ComparisonKey(foldCase, SpecialtyTag, visible, 48);
    if key == primaryKey then Err(DuplicateProfileTag) else Ok((key, visible))
  }

  function ParseTag(foldCase: string -> string, primaryKey: string): Parser<ProfileError> {
    tag => TagPair(foldCase, primaryKey, tag)
  }

  /** The five text fields in canonical form. */
  function CanonicalText(foldCase: string -> string, d: Draft): Result<Draft, ProfileError> {
    var displayName :- Visible(DisplayName, d.displayName, 64, false);
    var _ :- NameKey(foldCase, displayName);
    var description :- Visible(Description, d.description, 256, true);
    var primarySpecialty :- Visible(PrimarySpecialty, d.primarySpecialty, 64, false);
    var personality :- Visible(Personality, d.personality, 1024, false);
    var instructions :- Visible(Instructions, d.instructions, 4096, false);
    Ok(d.(displayName := displayName, description := description, primarySpecialty := primarySpecialty,
          personality := personality, instructions := instructions))
  }

  function CanonicalSpecialtyTags(foldCase: string -> string, primarySpecialty: string, tags: seq<string>): Result<seq<string>, ProfileError> {
    if |tags| > MAX_SPECIALTY_TAGS then Err(TooManyProfileTags)
    else
      var primaryKey :- NameKey(foldCase, primarySpecialty);
      CanonicalTags(ParseTag(foldCase, primaryKey), DuplicateProfileTag, tags)
  }

  // ---------- skill references ----------

  predicate SkillIdLe(a: SkillRef, b: SkillRef) { a.skillId <= b.skillId }

  predicate DistinctSkills(refs: seq<SkillRef>) {
    forall i, j | 0 <= i < j < |refs| :: refs[i].skillId != refs[j].skillId
  }

  function CanonicalSkillRefs(refs: seq<SkillRef>): Result<seq<SkillRef>, ProfileError> {
    if |refs| > MAX_SKILL_REFS || !DistinctSkills(refs) then Err(InvalidProfileField(SkillRefs))
    else Ok(Sort(SkillIdLe, refs))
  }

  /** `new_with_provenance` on the parts of `d`, which is also `canonicalized`. */
  function Canonicalize(foldCase: string -> string, d: Draft): Result<Draft, ProfileError> {
    var text :- CanonicalText(foldCase, d);
    var tags :- CanonicalSpecialtyTags(foldCase, text.primarySpecialty, d.tags);
    var refs :- CanonicalSkillRefs(d.skillRefs);
    if d.mcpRefs != [] then Err(InvalidProfileField(McpRefs))
    else Ok(text.(tags := tags, skillRefs := refs))
  }

  predicate Canonical(foldCase: string -> string, d: Draft) { Canonicalize(foldCase, d) == Ok(d) }

  // ---------- canonical form is stable and ignores order ----------

  lemma SkillIdLeTotal()
    ensures TotalPreorder(SkillIdLe)
  {}

  lemma DistinctSkillsBreakTies(refs: seq<SkillRef>)
    requires DistinctSkills(refs)
    ensures AntisymmetricOn(SkillIdLe, refs)
  {
    forall x, y | x in refs && y in refs && SkillIdLe(x, y) && SkillIdLe(y, x) ensures x == y {
      var i :| 0 <= i < |refs| && refs[i] == x;
      var j :| 0 <= j < |refs| && refs[j] == y;
    }
  }

  function SkillIdOf(): SkillRef -> nat { (r: SkillRef) => r.skillId }

  lemma DistinctSkillsPermutation(refs: seq<SkillRef>, shuffled: seq<SkillRef>)
    requires multiset(refs) == multiset(shuffled) && DistinctSkills(refs)
    ensures DistinctSkills(shuffled)
  {
    MapMultiset(refs, shuffled, SkillIdOf());
    assert Distinct(Map(refs, SkillIdOf()));
    DistinctPermutation(Map(refs, SkillIdOf()), Map(shuffled, SkillIdOf()));
    var ids := Map(shuffled, SkillIdOf());
    forall i, j | 0 <= i < j < |shuffled| ensures shuffled[i].skillId != shuffled[j].skillId {
      assert ids[i] != ids[j];
    }
  }

  /** Same references in any order: same canonical list, or the same refusal. */
  lemma SkillRefsIgnoreOrder(refs: seq<SkillRef>, shuffled: seq<SkillRef>)
    requires multiset(refs) == multiset(shuffled)
    ensures CanonicalSkillRefs(refs) == CanonicalSkillRefs(shuffled)
  {
    SameElements(refs, shuffled);
    SkillIdLeTotal();
    if DistinctSkills(refs) {
      DistinctSkillsPermutation(refs, shuffled);
      DistinctSkillsBreakTies(refs);
      SortPermutation(SkillIdLe, refs, shuffled);
    } else if DistinctSkills(shuffled) {
      DistinctSkillsPermutation(shuffled, refs);
    }
  }

  lemma SkillRefsIdempotent(refs: seq<SkillRef>)
    requires CanonicalSkillRefs(refs).Ok?
    ensures CanonicalSkillRefs(CanonicalSkillRefs(refs).value) == CanonicalSkillRefs(refs)
  {
    SortMultiset(SkillIdLe, refs);
    SkillRefsIgnoreOrder(Sort(SkillIdLe, refs), refs);
  }

  lemma VisibleIdempotent(field: Field, value: string, maxBytes: nat, allowEmpty: bool)
    requires Visible(field, value, maxBytes, allowEmpty).Ok?
    ensures var text := Visible(field, value, maxBytes, allowEmpty).value;
            Visible(field, text, maxBytes, allowEmpty) == Ok(text)
  {
    CanonicalVisibleTextIdempotent(value, maxBytes, allowEmpty);
  }

  lemma CanonicalTextIdempotent(foldCase: string -> string, d: Draft)
    requires CanonicalText(foldCase, d).Ok?
    ensures var text := CanonicalText(foldCase, d).value; CanonicalText(foldCase, text) == Ok(text)
    ensures forall tags, refs :: CanonicalText(foldCase, CanonicalText(foldCase, d).value.(tags := tags, skillRefs := refs))
              == Ok(CanonicalText(foldCase, d).value.(tags := tags, skillRefs := refs))
  {
    hide Visible;
    VisibleIdempotent(DisplayName, d.displayName, 64, false);
    VisibleIdempotent(Description, d.description, 256, true);
    VisibleIdempotent(PrimarySpecialty, d.primarySpecialty, 64, false);
    VisibleIdempotent(Personality, d.personality, 1024, false);
    VisibleIdempotent(Instructions, d.instructions, 4096, false);
  }

  lemma ParseTagStable(foldCase: string -> string, primaryKey: string)
    ensures Stable(ParseTag(foldCase, primaryKey))
  {
    forall tag | TagPair(foldCase, primaryKey, tag).Ok?
      ensures TagPair(foldCase, primaryKey, TagPair(foldCase, primaryKey, tag).value.1) == TagPair(foldCase, primaryKey, tag)
    {
      VisibleIdempotent(SpecialtyTag, tag, 48, false);
    }
  }

  lemma SpecialtyTagsIdempotent(foldCase: string -> string, primarySpecialty: string, tags: seq<string>)
    requires CanonicalSpecialtyTags(foldCase, primarySpecialty, tags).Ok?
    ensures var canonical := CanonicalSpecialtyTags(foldCase, primarySpecialty, tags).value;
            CanonicalSpecialtyTags(foldCase, primarySpecialty, canonical) == Ok(canonical)
  {
    hide Visible, ParseTag, ComparisonKey, Stable;
    var primaryKey := NameKey(foldCase, primarySpecialty).value;
    ParseTagStable(foldCase, primaryKey);
    CanonicalTagsIdempotent(ParseTag(foldCase, primaryKey), DuplicateProfileTag, tags);
  }

  /** Canonicalising twice is canonicalising once. */
  lemma CanonicalizeIdempotent(foldCase: string -> string, d: Draft)
    requires Canonicalize(foldCase, d).Ok?
    ensures Canonical(foldCase, Canonicalize(foldCase, d).value)
  {
    hide CanonicalText, CanonicalSpecialtyTags, CanonicalSkillRefs;
    CanonicalTextIdempotent(foldCase, d);
    SpecialtyTagsIdempotent(foldCase, CanonicalText(foldCase, d).value.primarySpecialty, d.tags);
    SkillRefsIdempotent(d.skillRefs);
    TextKeepsTheRest(foldCase, d);
  }

  lemma TextKeepsTheRest(foldCase: string -> string, d: Draft)
    requires CanonicalText(foldCase, d).Ok?
    ensures var text := CanonicalText(foldCase, d).value;
            && text.mcpRefs == d.mcpRefs && text.tags == d.tags && text.skillRefs == d.skillRefs
            && text.role == d.role && text.bindings == d.bindings && text.provenance == d.provenance
  {
    hide Visible, NameKey;
  }

  /** An accepted draft is accepted with its tags and references in any order, with the
      same canonical form; a refused one is refused. */
  lemma CanonicalizeIgnoresOrder(foldCase: string -> string, d: Draft, tags: seq<string>, refs: seq<SkillRef>)
    requires multiset(tags) == multiset(d.tags) && multiset(refs) == multiset(d.skillRefs)
    ensures Canonicalize(foldCase, d).Ok? <==> Canonicalize(foldCase, d.(tags := tags, skillRefs := refs)).Ok?
    ensures Canonicalize(foldCase, d).Ok? ==>
              Canonicalize(foldCase, d.(tags := tags, skillRefs := refs)) == Canonicalize(foldCase, d)
  {
    hide CanonicalSpecialtyTags, CanonicalSkillRefs, Visible, NameKey;
    SkillRefsIgnoreOrder(d.skillRefs, refs);
    if CanonicalText(foldCase, d).Ok? {
      var primary := CanonicalText(foldCase, d).value.primarySpecialty;
      SpecialtyTagsIgnoreOrder(foldCase, primary, d.tags, tags);
      SpecialtyTagsIgnoreOrder(foldCase, primary, tags, d.tags);
    }
  }

  lemma SpecialtyTagsIgnoreOrder(foldCase: string -> string, primarySpecialty: string, tags: seq<string>, shuffled: seq<string>)
    requires multiset(tags) == multiset(shuffled)
    ensures CanonicalSpecialtyTags(foldCase, primarySpecialty, tags).Ok? ==>
              CanonicalSpecialtyTags(foldCase, primarySpecialty, shuffled) == CanonicalSpecialtyTags(foldCase, primarySpecialty, tags)
  {
    hide NameKey, ParseTag;
    SameElements(tags, shuffled);
    if CanonicalSpecialtyTags(foldCase, primarySpecialty, tags).Ok? {
      CanonicalTagsIgnoreOrder(ParseTag(foldCase, NameKey(foldCase, primarySpecialty).value), DuplicateProfileTag, tags, shuffled);
    }
  }

  // ---------- what canonical form is ----------

  /** Text that can be shown: nothing unsafe, and its words have an admissible length. */
  ghost predicate Showable(value: string, maxBytes: nat, allowEmpty: bool) {
    && (forall c | c in value :: !IsUnsafeTerminalCharacter(c))
    && (allowEmpty || Fold(value) != []) && ByteLength(Fold(value)) <= maxBytes
  }

  /** What a name or tag is compared by. */
  ghost function ComparedBy(foldCase: string -> string, value: string): string { Fold(foldCase(Fold(value))) }

  lemma VisibleMeaning(field: Field, value: string, maxBytes: nat, allowEmpty: bool)
    ensures Visible(field, value, maxBytes, allowEmpty).Ok? <==> Showable(value, maxBytes, allowEmpty)
    ensures Showable(value, maxBytes, allowEmpty) ==> Visible(field, value, maxBytes, allowEmpty) == Ok(Fold(value))
  {}

  lemma ComparisonKeyMeaning(foldCase: string -> string, field: Field, value: string, maxBytes: nat)
    ensures ComparisonKey(foldCase, field, value, maxBytes).Ok? <==>
              Showable(value, maxBytes, false) && ComparedBy(foldCase, value) != []
    ensures ComparisonKey(foldCase, field, value, maxBytes).Ok? ==>
              ComparisonKey(foldCase, field, value, maxBytes) == Ok(ComparedBy(foldCase, value))
              && ComparisonKey(foldCase, field, Fold(value), maxBytes) == Ok(ComparedBy(foldCase, value))
  {
    hide Visible, Showable, Fold;
    VisibleMeaning(field, value, maxBytes, false);
    VisibleMeaning(field, Fold(value), maxBytes, false);
    if Showable(value, maxBytes, false) {
      VisibleIdempotent(field, value, maxBytes, false);
      FoldIdempotent(value);
    }
  }

  /** A tag that can be shown and is compared by something other than the primary specialty. */
  ghost predicate TagOk(foldCase: string -> string, primaryKey: string, tag: string) {
    Showable(tag, 48, false) && ComparedBy(foldCase, tag) !in {[], primaryKey}
  }

  lemma TagPairMeaning(foldCase: string -> string, primaryKey: string, tag: string)
    ensures ParseTag(foldCase, primaryKey)(tag).Ok? <==> TagOk(foldCase, primaryKey, tag)
    ensures TagOk(foldCase, primaryKey, tag) ==>
              ParseTag(foldCase, primaryKey)(tag) == Ok((ComparedBy(foldCase, tag), Fold(tag)))
  {
    hide Visible, Showable, Fold, ComparisonKey;
    VisibleMeaning(SpecialtyTag, tag, 48, false);
    ComparisonKeyMeaning(foldCase, SpecialtyTag, tag, 48);
    if Showable(tag, 48, false) {
      VisibleIdempotent(SpecialtyTag, tag, 48, false);
      VisibleMeaning(SpecialtyTag, Fold(tag), 48, false);
      ComparisonKeyMeaning(foldCase, SpecialtyTag, Fold(tag), 48);
      FoldIdempotent(tag);
    }
  }

  /** At most five tags, each fit to be one, no two compared by the same key. */
  ghost predicate TagsOk(foldCase: string -> string, primaryKey: string, tags: seq<string>) {
    && |tags| <= 5 && (forall i | 0 <= i < |tags| :: TagOk(foldCase, primaryKey, tags[i]))
    && (forall i, j | 0 <= i < j < |tags| :: ComparedBy(foldCase, tags[i]) != ComparedBy(foldCase, tags[j]))
  }

  lemma AllTagsOk(foldCase: string -> string, primaryKey: string, tags: seq<string>)
    ensures Acceptable(ParseTag(foldCase, primaryKey), tags, {}) <==> forall i | 0 <= i < |tags| :: TagOk(foldCase, primaryKey, tags[i])
    ensures Acceptable(ParseTag(foldCase, primaryKey), tags, {}) ==>
              forall i | 0 <= i < |tags| :: Keys(Map(tags, Parsed(ParseTag(foldCase, primaryKey))))[i] == ComparedBy(foldCase, tags[i])
  {
    hide TagPair, TagOk, ComparedBy;
    forall tag
      ensures ParseTag(foldCase, primaryKey)(tag).Ok? <==> TagOk(foldCase, primaryKey, tag)
      ensures TagOk(foldCase, primaryKey, tag) ==> ParseTag(foldCase, primaryKey)(tag).value.0 == ComparedBy(foldCase, tag)
    {
      TagPairMeaning(foldCase, primaryKey, tag);
    }
    forall i | 0 <= i < |tags| ensures tags[i] in tags {}
  }

  lemma SpecialtyTagsMeaning(foldCase: string -> string, primary: string, tags: seq<string>)
    requires Showable(primary, 64, false)
    ensures CanonicalSpecialtyTags(foldCase, Fold(primary), tags).Ok? <==>
              ComparedBy(foldCase, primary) != [] && TagsOk(foldCase, ComparedBy(foldCase, primary), tags)
    ensures CanonicalSpecialtyTags(foldCase, Fold(primary), tags).Ok? ==>
              CanonicalSpecialtyTags(foldCase, Fold(primary), tags)
              == CanonicalTags(ParseTag(foldCase, ComparedBy(foldCase, primary)), DuplicateProfileTag, tags)
  {
    hide TagPair, TagOk, ComparedBy, Showable, Fold, ComparisonKey;
    var key := ComparedBy(foldCase, primary);
    ComparisonKeyMeaning(foldCase, DisplayName, primary, 64);
    ShownAgain(foldCase, primary, 64);
    ComparisonKeyMeaning(foldCase, DisplayName, Fold(primary), 64);
    PairsMeaning(ParseTag(foldCase, key), DuplicateProfileTag, tags, {});
    AllTagsOk(foldCase, key, tags);
  }

  lemma ShownAgain(foldCase: string -> string, value: string, maxBytes: nat)
    requires Showable(value, maxBytes, false)
    ensures Showable(Fold(value), maxBytes, false) && ComparedBy(foldCase, Fold(value)) == ComparedBy(foldCase, value)
  {
    FoldIdempotent(value);
    VisibleIdempotent(DisplayName, value, maxBytes, false);
    VisibleMeaning(DisplayName, Fold(value), maxBytes, false);
  }

  /** Every text field can be shown, and the name can be compared. */
  ghost predicate TextsOk(foldCase: string -> string, d: Draft) {
    && Showable(d.displayName, 64, false) && ComparedBy(foldCase, d.displayName) != []
    && Showable(d.description, 256, true) && Showable(d.primarySpecialty, 64, false)
    && Showable(d.personality, 1024, false) && Showable(d.instructions, 4096, false)
  }

  lemma CanonicalTextMeaning(foldCase: string -> string, d: Draft)
    ensures CanonicalText(foldCase, d).Ok? <==> TextsOk(foldCase, d)
    ensures CanonicalText(foldCase, d).Ok? ==>
              CanonicalText(foldCase, d) == Ok(d.(displayName := Fold(d.displayName), description := Fold(d.description),
                primarySpecialty := Fold(d.primarySpecialty), personality := Fold(d.personality), instructions := Fold(d.instructions)))
  {
    hide Visible, Showable, ComparedBy, Fold, ComparisonKey;
    VisibleMeaning(DisplayName, d.displayName, 64, false);
    VisibleMeaning(Description, d.description, 256, true);
    VisibleMeaning(PrimarySpecialty, d.primarySpecialty, 64, false);
    VisibleMeaning(Personality, d.personality, 1024, false);
    VisibleMeaning(Instructions, d.instructions, 4096, false);
    if Showable(d.displayName, 64, false) {
      ShownAgain(foldCase, d.displayName, 64);
      ComparisonKeyMeaning(foldCase, DisplayName, Fold(d.displayName), 64);
    }
  }

  lemma SkillRefsMeaning(refs: seq<SkillRef>)
    ensures CanonicalSkillRefs(refs).Ok? <==>
              |refs| <= 16 && forall i, j | 0 <= i < j < |refs| :: refs[i].skillId != refs[j].skillId
    ensures CanonicalSkillRefs(refs).Ok? ==>
              var sorted := CanonicalSkillRefs(refs).value;
              && multiset(sorted) == multiset(refs)
              && forall i, j | 0 <= i < j < |sorted| :: sorted[i].skillId < sorted[j].skillId
  {
    if CanonicalSkillRefs(refs).Ok? {
      SkillIdLeTotal();
      SortSorted(SkillIdLe, refs);
      SortMultiset(SkillIdLe, refs);
      DistinctSkillsPermutation(refs, Sort(SkillIdLe, refs));
    }
  }

  /** A draft has a canonical form exactly when its texts can be shown, its tags and references
      are few enough and do not repeat, and it names no server; each field is then its own text
      folded, the references its own in ascending order, and all else is as given. */
  lemma CanonicalizeMeaning(foldCase: string -> string, d: Draft)
    ensures Canonicalize(foldCase, d).Ok? <==>
              && TextsOk(foldCase, d) && ComparedBy(foldCase, d.primarySpecialty) != []
              && TagsOk(foldCase, ComparedBy(foldCase, d.primarySpecialty), d.tags)
              && |d.skillRefs| <= 16 && (forall i, j | 0 <= i < j < |d.skillRefs| :: d.skillRefs[i].skillId != d.skillRefs[j].skillId)
              && d.mcpRefs == []
    ensures Canonicalize(foldCase, d).Ok? ==>
              var c := Canonicalize(foldCase, d).value;
              && c.displayName == Fold(d.displayName) && c.description == Fold(d.description)
              && c.primarySpecialty == Fold(d.primarySpecialty) && c.personality == Fold(d.personality)
              && c.instructions == Fold(d.instructions)
              && c.role == d.role && c.bindings == d.bindings && c.mcpRefs == d.mcpRefs && c.provenance == d.provenance
              && multiset(c.skillRefs) == multiset(d.skillRefs)
              && (forall i, j | 0 <= i < j < |c.skillRefs| :: c.skillRefs[i].skillId < c.skillRefs[j].skillId)
              && CanonicalTags(ParseTag(foldCase, ComparedBy(foldCase, d.primarySpecialty)), DuplicateProfileTag, d.tags) == Ok(c.tags)
  {
    hide CanonicalText, CanonicalSpecialtyTags, CanonicalSkillRefs, Showable, ComparedBy, Fold, TagsOk, CanonicalTags;
    CanonicalTextMeaning(foldCase, d);
    SkillRefsMeaning(d.skillRefs);
    if TextsOk(foldCase, d) { SpecialtyTagsMeaning(foldCase, d.primarySpecialty, d.tags); }
  }

  // ---------- assigning skills ----------

  predicate HasSkill(refs: seq<SkillRef>, skillId: nat) { exists i | 0 <= i < |refs| :: refs[i].skillId == skillId }

  /** The position of a reference, if it is listed. */
  function Position(refs: seq<SkillRef>, expected: SkillRef): (r: Option<nat>)
    ensures r.Some? <==> expected in refs
    ensures r.Some? ==> r.value < |refs| && refs[r.value] == expected
  {
    if refs == [] then None
    else if refs[0] == expected then Some(0)
    else match Position(refs[1..], expected) case None => None case Some(i) => Some(i + 1)
  }

  function AssignSkill(foldCase: string -> string, d: Draft, skill: SkillRef): Result<Draft, ProfileError> {
    if HasSkill(d.skillRefs, skill.skillId) then Err(AgentProfileUnchanged)
    else Canonicalize(foldCase, d.(skillRefs := d.skillRefs + [skill]))
  }

  function UpgradeSkill(foldCase: string -> string, d: Draft, expected: SkillRef, replacement: SkillRef): Result<Draft, ProfileError> {
    if expected == replacement || expected.skillId != replacement.skillId then Err(AgentProfileUnchanged)
    else match Position(d.skillRefs, expected)
      case None => Err(AgentProfileUnchanged)
      case Some(i) => Canonicalize(foldCase, d.(skillRefs := d.skillRefs[i := replacement]))
  }

  function UnassignSkill(foldCase: string -> string, d: Draft, expected: SkillRef): Result<Draft, ProfileError> {
    match Position(d.skillRefs, expected)
    case None => Err(AgentProfileUnchanged)
    case Some(i) => Canonicalize(foldCase, d.(skillRefs := d.skillRefs[..i] + d.skillRefs[i + 1..]))
  }

  /** On a canonical draft only the references are looked at again. */
  lemma CanonicalizeOnlyRefs(foldCase: string -> string, d: Draft, refs: seq<SkillRef>)
    requires Canonical(foldCase, d)
    ensures Canonicalize(foldCase, d.(skillRefs := refs)) ==
              match CanonicalSkillRefs(refs) case Err(e) => Err(e) case Ok(sorted) => Ok(d.(skillRefs := sorted))
  {
    hide CanonicalSpecialtyTags, CanonicalSkillRefs, Visible, NameKey;
  }

  lemma CanonicalRefs(foldCase: string -> string, d: Draft)
    requires Canonical(foldCase, d)
    ensures CanonicalSkillRefs(d.skillRefs) == Ok(d.skillRefs)
    ensures DistinctSkills(d.skillRefs) && Sorted(SkillIdLe, d.skillRefs) && |d.skillRefs| <= MAX_SKILL_REFS
  {
    hide CanonicalText, CanonicalSpecialtyTags, Sort;
    SkillIdLeTotal();
    SortSorted(SkillIdLe, d.skillRefs);
  }

  /** Two canonical reference lists with the same elements are the same list. */
  lemma CanonicalRefsUnique(refs: seq<SkillRef>, other: seq<SkillRef>)
    requires CanonicalSkillRefs(refs) == Ok(refs) && CanonicalSkillRefs(other) == Ok(other)
    requires multiset(refs) == multiset(other)
    ensures refs == other
  {
    SkillRefsIgnoreOrder(refs, other);
  }

  lemma AssignMeaning(foldCase: string -> string, d: Draft, skill: SkillRef)
    requires Canonical(foldCase, d)
    ensures AssignSkill(foldCase, d, skill).Ok? <==> !HasSkill(d.skillRefs, skill.skillId) && |d.skillRefs| < MAX_SKILL_REFS
    ensures AssignSkill(foldCase, d, skill).Ok? ==>
              var after := AssignSkill(foldCase, d, skill).value;
              && after.(skillRefs := d.skillRefs) == d && Canonical(foldCase, after)
              && multiset(after.skillRefs) == multiset(d.skillRefs) + multiset{skill}
  {
    hide Canonicalize, Sort;
    CanonicalRefs(foldCase, d);
    CanonicalizeOnlyRefs(foldCase, d, d.skillRefs + [skill]);
    SortMultiset(SkillIdLe, d.skillRefs + [skill]);
    if AssignSkill(foldCase, d, skill).Ok? { CanonicalizeIdempotent(foldCase, d.(skillRefs := d.skillRefs + [skill])); }
  }

  lemma UnassignMeaning(foldCase: string -> string, d: Draft, expected: SkillRef)
    requires Canonical(foldCase, d)
    ensures UnassignSkill(foldCase, d, expected).Ok? <==> expected in d.skillRefs
    ensures expected in d.skillRefs ==>
              var after := UnassignSkill(foldCase, d, expected).value;
              && after.(skillRefs := d.skillRefs) == d && Canonical(foldCase, after)
              && multiset(after.skillRefs) + multiset{expected} == multiset(d.skillRefs)
  {
    hide Canonicalize, Sort;
    CanonicalRefs(foldCase, d);
    if expected in d.skillRefs {
      var i := Position(d.skillRefs, expected).value;
      var rest := d.skillRefs[..i] + d.skillRefs[i + 1..];
      MultisetWithout(d.skillRefs, i);
      CanonicalizeOnlyRefs(foldCase, d, rest);
      SortMultiset(SkillIdLe, rest);
      CanonicalizeIdempotent(foldCase, d.(skillRefs := rest));
    }
  }

  lemma UpgradeMeaning(foldCase: string -> string, d: Draft, expected: SkillRef, replacement: SkillRef)
    requires Canonical(foldCase, d)
    ensures UpgradeSkill(foldCase, d, expected, replacement).Ok? <==>
              expected in d.skillRefs && expected != replacement && expected.skillId == replacement.skillId
    ensures UpgradeSkill(foldCase, d, expected, replacement).Ok? ==>
              var after := UpgradeSkill(foldCase, d, expected, replacement).value;
              && after.(skillRefs := d.skillRefs) == d && Canonical(foldCase, after)
              && multiset(after.skillRefs) + multiset{expected} == multiset(d.skillRefs) + multiset{replacement}
  {
    hide Canonicalize, Sort;
    CanonicalRefs(foldCase, d);
    if expected in d.skillRefs && expected != replacement && expected.skillId == replacement.skillId {
      var i := Position(d.skillRefs, expected).value;
      var replaced := d.skillRefs[i := replacement];
      MultisetWithout(d.skillRefs, i);
      MultisetWithout(replaced, i);
      assert replaced[..i] + replaced[i + 1..] == d.skillRefs[..i] + d.skillRefs[i + 1..];
      CanonicalizeOnlyRefs(foldCase, d, replaced);
      SortMultiset(SkillIdLe, replaced);
      CanonicalizeIdempotent(foldCase, d.(skillRefs := replaced));
    }
  }

  /** Unassigning undoes assigning, exactly. */
  lemma UnassignUndoesAssign(foldCase: string -> string, d: Draft, skill: SkillRef)
    requires Canonical(foldCase, d) && AssignSkill(foldCase, d, skill).Ok?
    ensures UnassignSkill(foldCase, AssignSkill(foldCase, d, skill).value, skill) == Ok(d)
  {
    hide Canonical, AssignSkill, UnassignSkill, CanonicalSkillRefs, DistinctSkills, Sorted, Position, HasSkill;
    AssignMeaning(foldCase, d, skill);
    var after := AssignSkill(foldCase, d, skill).value;
    assert skill in multiset(after.skillRefs);
    UnassignMeaning(foldCase, after, skill);
    var back := UnassignSkill(foldCase, after, skill).value;
    CanonicalRefs(foldCase, d);
    CanonicalRefs(foldCase, back);
    CancelOne(multiset(back.skillRefs), multiset(d.skillRefs), skill);
    CanonicalRefsUnique(back.skillRefs, d.skillRefs);
  }

  lemma CancelOne<T>(a: multiset<T>, b: multiset<T>, x: T)
    requires a + multiset{x} == b + multiset{x}
    ensures a == b
  {
    assert a == (a + multiset{x}) - multiset{x};
    assert b == (b + multiset{x}) - multiset{x};
  }

  /** Upgrading back undoes an upgrade, exactly. */
  lemma UpgradeIsReversible(foldCase: string -> string, d: Draft, expected: SkillRef, replacement: SkillRef)
    requires Canonical(foldCase, d) && UpgradeSkill(foldCase, d, expected, replacement).Ok?
    ensures UpgradeSkill(foldCase, UpgradeSkill(foldCase, d, expected, replacement).value, replacement, expected) == Ok(d)
  {
    hide Canonical, UpgradeSkill, CanonicalSkillRefs, DistinctSkills, Sorted, Position;
    UpgradeMeaning(foldCase, d, expected, replacement);
    var after := UpgradeSkill(foldCase, d, expected, replacement).value;
    assert replacement in multiset(after.skillRefs) by {
      assert (multiset(after.skillRefs) + multiset{expected})[replacement] >= 1;
    }
    UpgradeMeaning(foldCase, after, replacement, expected);
    var back := UpgradeSkill(foldCase, after, replacement, expected).value;
    CanonicalRefs(foldCase, d);
    CanonicalRefs(foldCase, back);
    CancelOne(multiset(back.skillRefs), multiset(d.skillRefs), replacement);
    CanonicalRefsUnique(back.skillRefs, d.skillRefs);
  }

  // ---------- the constructor as it runs ----------

  /** The set-and-vector loop over the references, then the sort. */
  method CollectSkillRefs(refs: seq<SkillRef>) returns (r: Result<seq<SkillRef>, ProfileError>)
    ensures r == CanonicalSkillRefs(refs)
  {
    if |refs| > MAX_SKILL_REFS { return Err(InvalidProfileField(SkillRefs)); }
    var skillIds: set<nat> := {};
    var canonical: seq<SkillRef> := [];
    for i := 0 to |refs|
      invariant canonical == refs[..i]
      invariant skillIds == set k | 0 <= k < i :: refs[k].skillId
      invariant forall j, k | 0 <= j < k < i :: refs[j].skillId != refs[k].skillId
    {
      if refs[i].skillId in skillIds { return Err(InvalidProfileField(SkillRefs)); }
      skillIds := skillIds + {refs[i].skillId};
      canonical := canonical + [refs[i]];
    }
    assert refs[..|refs|] == refs;
    return Ok(Sort(SkillIdLe, canonical));
  }

  method CreateDraft(foldCase: string -> string, d: Draft) returns (r: Result<Draft, ProfileError>)
    ensures r == Canonicalize(foldCase, d)
  {
    hide Visible, ComparisonKey, ParseTag, Sort;
    var text := CanonicalText(foldCase, d);
    if text.Err? { return Err(text.error); }
    if |d.tags| > MAX_SPECIALTY_TAGS { return Err(TooManyProfileTags); }
    var primaryKey := NameKey(foldCase, text.value.primarySpecialty);
    if primaryKey.Err? { return Err(primaryKey.error); }
    var tags := CollectTags(ParseTag(foldCase, primaryKey.value), DuplicateProfileTag, d.tags);
    if tags.Err? { return Err(tags.error); }
    var refs := CollectSkillRefs(d.skillRefs);
    if refs.Err? { return Err(refs.error); }
    if d.mcpRefs != [] { return Err(InvalidProfileField(McpRefs)); }
    return Ok(text.value.(tags := tags.value, skillRefs := refs.value));
  }
}
