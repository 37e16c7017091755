/** `MemoryEntryDraft` and key normalisation of src/memory/entry.rs. */
module MemoryDraft {
  import opened Prelude
  import Sorting
  import opened TagLists
  import opened TextRules

  const DISPLAY_KEY_MAX_BYTES := 96
  const VALUE_MAX_BYTES := 4096
  const MAX_PURPOSE_TAGS := 8
  const PURPOSE_TAG_MAX_BYTES := 32

  /** What the program takes from libraries and from its credential scanner:
      NFKC followed by case folding, the reserved-key test, the plaintext test.
      Nothing is assumed about any of them. */
  datatype Library = Library(
    foldCase: string -> string,
    reserved: string -> bool,
    plaintextOk: string -> bool)

  /** A key-value candidate; `Canonical` drafts are the only ones that can be built. */
  datatype Draft = Draft(displayKey: string, value: string, tags: seq<string>)

  function ComparisonKey(lib: Library, value: string): Result<string, TextError> {
    var key := Fold(lib.foldCase(value));
    if key == [] then Err(InvalidField) else Ok(key)
  }

  function NormalizeMemoryKey(lib: Library, displayKey: string): Result<string, TextError> {
    var line :- CanonicalMemoryLine(displayKey, 1, DISPLAY_KEY_MAX_BYTES);
    var key :- ComparisonKey(lib, line);
    if lib.reserved(key) then Err(InvalidField) else Ok(key)
  }

  /** A tag with the key it is compared by. */
  function TagPair(lib: Library, tag: string): Result<(string, string), TextError> {
    var line :- CanonicalMemoryLine(tag, 1, PURPOSE_TAG_MAX_BYTES);
    var key :- ComparisonKey(lib, line);
    if key == "general" then Err(InvalidField) else Ok((key, line))
  }

  function ParseTag(lib: Library): Parser<TextError> { tag => TagPair(lib, tag) }

  function CanonicalPurposeTags(lib: Library, tags: seq<string>): Result<seq<string>, TextError> {
    if |tags| > MAX_PURPOSE_TAGS then Err(InvalidField) else CanonicalTags(ParseTag(lib), InvalidField, tags)
  }

  /** The display key and the value, canonical and admissible. */
  function DraftText(lib: Library, displayKey: string, value: string): Result<(string, string), TextError> {
    var line :- CanonicalMemoryLine(displayKey, 1, DISPLAY_KEY_MAX_BYTES);
    var _ :- NormalizeMemoryKey(lib, line);
    var text :- CanonicalMemoryMultiline(value, 1, VALUE_MAX_BYTES);
    if !lib.plaintextOk(text) then Err(UnsafeText) else Ok((line, text))
  }

  function NewDraft(lib: Library, displayKey: string, value: string, tags: seq<string>): Result<Draft, TextError> {
    var text :- DraftText(lib, displayKey, value);
    var canonical :- CanonicalPurposeTags(lib, tags);
    Ok(Draft(text.0, text.1, canonical))
  }

  predicate Canonical(lib: Library, d: Draft) {
    NewDraft(lib, d.displayKey, d.value, d.tags) == Ok(d)
  }

  function DraftKey(lib: Library, d: Draft): string
    requires Canonical(lib, d)
  {
    assert CanonicalMemoryLine(d.displayKey, 1, DISPLAY_KEY_MAX_BYTES) == Ok(d.displayKey);
    NormalizeMemoryKey(lib, d.displayKey).value
  }

  lemma ParseTagStable(lib: Library)
    ensures Stable(ParseTag(lib))
  {
    forall tag | TagPair(lib, tag).Ok? ensures TagPair(lib, TagPair(lib, tag).value.1) == TagPair(lib, tag) {
      CanonicalMemoryLineIdempotent(tag, 1, PURPOSE_TAG_MAX_BYTES);
    }
  }

  /** Everything the constructor returns is canonical: rebuilding it is the identity. */
  lemma DraftIdempotent(lib: Library, displayKey: string, value: string, tags: seq<string>)
    requires NewDraft(lib, displayKey, value, tags).Ok?
    ensures Canonical(lib, NewDraft(lib, displayKey, value, tags).value)
  {
    CanonicalMemoryLineIdempotent(displayKey, 1, DISPLAY_KEY_MAX_BYTES);
    CanonicalMemoryMultilineIdempotent(value, 1, VALUE_MAX_BYTES);
    ParseTagStable(lib);
    CanonicalTagsIdempotent(ParseTag(lib), InvalidField, tags);
  }

  /** What a text is compared by. */
  ghost function FoldedLine(lib: Library, line: Result<string, TextError>): string
    requires line.Ok?
  {
    Fold(lib.foldCase(line.value))
  }

  /** The tag has a line and something to be compared by that is not the key of general memory. */
  ghost predicate TagOk(lib: Library, tag: string) {
    var line := CanonicalMemoryLine(tag, 1, 32);
    line.Ok? && FoldedLine(lib, line) !in {[], "general"}
  }

  lemma ParseTagMeaning(lib: Library, tag: string)
    ensures ParseTag(lib)(tag).Ok? <==> TagOk(lib, tag)
    ensures TagOk(lib, tag) ==>
              && CanonicalMemoryLine(tag, 1, 32).Ok?
              && ParseTag(lib)(tag) == Ok((FoldedLine(lib, CanonicalMemoryLine(tag, 1, 32)), CanonicalMemoryLine(tag, 1, 32).value))
  {}

  /** At most eight tags, each fit to be one, no two compared by the same key. */
  ghost predicate TagsOk(lib: Library, tags: seq<string>) {
    && |tags| <= 8 && (forall i | 0 <= i < |tags| :: TagOk(lib, tags[i]))
    && (forall i, j | 0 <= i < j < |tags| ::
          FoldedLine(lib, CanonicalMemoryLine(tags[i], 1, 32)) != FoldedLine(lib, CanonicalMemoryLine(tags[j], 1, 32)))
  }

  lemma PurposeTagsMeaning(lib: Library, tags: seq<string>)
    ensures CanonicalPurposeTags(lib, tags).Ok? <==> TagsOk(lib, tags)
  {
    hide TagPair, FoldedLine, TagOk;
    PairsMeaning(ParseTag(lib), InvalidField, tags, {});
    AllTagsOk(lib, tags);
    if Acceptable(ParseTag(lib), tags, {}) { TagKeys(lib, tags); }
  }

  lemma AllTagsOk(lib: Library, tags: seq<string>)
    ensures Acceptable(ParseTag(lib), tags, {}) <==> forall i | 0 <= i < |tags| :: TagOk(lib, tags[i])
  {
    hide TagPair, FoldedLine, TagOk;
    forall tag ensures ParseTag(lib)(tag).Ok? <==> TagOk(lib, tag) { ParseTagMeaning(lib, tag); }
    forall i | 0 <= i < |tags| ensures tags[i] in tags {}
  }

  lemma TagKeys(lib: Library, tags: seq<string>)
    requires Acceptable(ParseTag(lib), tags, {})
    ensures forall i | 0 <= i < |tags| ::
              TagOk(lib, tags[i])
              && Keys(Map(tags, Parsed(ParseTag(lib))))[i] == FoldedLine(lib, CanonicalMemoryLine(tags[i], 1, 32))
  {
    hide TagPair, FoldedLine, CanonicalMemoryLine, Map, Acceptable;
    AllTagsOk(lib, tags);
    forall i | 0 <= i < |tags|
      ensures TagOk(lib, tags[i])
      ensures Keys(Map(tags, Parsed(ParseTag(lib))))[i] == FoldedLine(lib, CanonicalMemoryLine(tags[i], 1, 32))
    {
      ParseTagMeaning(lib, tags[i]);
    }
  }

  /** A draft is its own display key, value and tags in canonical form; it exists exactly when
      each of them has one, the key is not reserved and the value passes the plaintext test. */
  lemma DraftMeaning(lib: Library, displayKey: string, value: string, tags: seq<string>)
    ensures var line, text := CanonicalMemoryLine(displayKey, 1, 96), CanonicalMemoryMultiline(value, 1, 4096);
            var r := NewDraft(lib, displayKey, value, tags);
            && (r.Ok? <==>
                  && line.Ok? && FoldedLine(lib, line) != [] && !lib.reserved(FoldedLine(lib, line))
                  && text.Ok? && lib.plaintextOk(text.value) && TagsOk(lib, tags))
            && (r.Ok? ==>
                  && r.value.displayKey == line.value && r.value.value == text.value
                  && CanonicalTags(ParseTag(lib), InvalidField, tags) == Ok(r.value.tags)
                  && Canonical(lib, r.value) && DraftKey(lib, r.value) == FoldedLine(lib, line))
  {
    hide CanonicalMemoryLine, CanonicalMemoryMultiline, TagsOk, CanonicalTags;
    PurposeTagsMeaning(lib, tags);
    if CanonicalMemoryLine(displayKey, 1, 96).Ok? { CanonicalMemoryLineIdempotent(displayKey, 1, 96); }
    if NewDraft(lib, displayKey, value, tags).Ok? { DraftIdempotent(lib, displayKey, value, tags); }
  }

  /** Reordering the tags changes neither acceptance nor the draft. */
  lemma DraftIgnoresTagOrder(lib: Library, displayKey: string, value: string, tags: seq<string>, shuffled: seq<string>)
    requires multiset(tags) == multiset(shuffled)
    ensures NewDraft(lib, displayKey, value, tags).Ok? <==> NewDraft(lib, displayKey, value, shuffled).Ok?
    ensures NewDraft(lib, displayKey, value, tags).Ok? ==>
              NewDraft(lib, displayKey, value, tags) == NewDraft(lib, displayKey, value, shuffled)
  {
    PurposeTagsIgnoreOrder(lib, tags, shuffled);
    PurposeTagsIgnoreOrder(lib, shuffled, tags);
  }

  lemma PurposeTagsIgnoreOrder(lib: Library, tags: seq<string>, shuffled: seq<string>)
    requires multiset(tags) == multiset(shuffled)
    ensures CanonicalPurposeTags(lib, tags).Ok? ==>
              CanonicalPurposeTags(lib, shuffled) == CanonicalPurposeTags(lib, tags)
  {
    Sorting.SameElements(tags, shuffled);
    if CanonicalPurposeTags(lib, tags).Ok? {
      CanonicalTagsIgnoreOrder(ParseTag(lib), InvalidField, tags, shuffled);
    }
  }

  /** The constructor as the source runs it, the tag loop included. */
  method CreateDraft(lib: Library, displayKey: string, value: string, tags: seq<string>)
    returns (r: Result<Draft, TextError>)
    ensures r == NewDraft(lib, displayKey, value, tags)
  {
    var line := CanonicalMemoryLine(displayKey, 1, DISPLAY_KEY_MAX_BYTES);
    if line.Err? { return Err(line.error); }
    var key := NormalizeMemoryKey(lib, line.value);
    if key.Err? { return Err(key.error); }
    var text := CanonicalMemoryMultiline(value, 1, VALUE_MAX_BYTES);
    if text.Err? { return Err(text.error); }
    if !lib.plaintextOk(text.value) { return Err(UnsafeText); }
    if |tags| > MAX_PURPOSE_TAGS { return Err(InvalidField); }
    var canonical := CollectTags(ParseTag(lib), InvalidField, tags);
    if canonical.Err? { return Err(canonical.error); }
    return Ok(Draft(line.value, text.value, canonical.value));
  }
}
