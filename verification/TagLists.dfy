/** The tag loop shared by memory drafts and agent profile drafts: parse every tag
    to a comparison key and a canonical text, refuse a repeated key, sort by key. */
module TagLists {
  import opened Prelude
  import opened Sorting

  /** A canonical tag text under the key it is compared by. */
  type Keyed = (string, string)

  /** How one tag is parsed; total, so that a failure is a value. */
  type Parser<!E> = string -> Result<Keyed, E>

  function KeyOf(pair: Keyed): string { pair.0 }
  function TextOf(pair: Keyed): string { pair.1 }
  function Keys(pairs: seq<Keyed>): seq<string> { Map(pairs, KeyOf) }
  predicate KeyLe(a: Keyed, b: Keyed) { TextLe(a.0, b.0) }

  function Parsed<E>(parse: Parser<E>): string -> Keyed {
    tag => var r := parse(tag); if r.Ok? then r.value else ([], [])
  }

  /** The loop: first failure wins, `seen` holds the keys met so far. */
  function Pairs<E>(parse: Parser<E>, duplicate: E, tags: seq<string>, seen: set<string>): Result<seq<Keyed>, E> {
    if tags == [] then Ok([])
    else
      var pair :- parse(tags[0]);
      if pair.0 in seen then Err(duplicate)
      else
        var rest :- Pairs(parse, duplicate, tags[1..], seen + {pair.0});
        Ok([pair] + rest)
  }

  function CanonicalTags<E>(parse: Parser<E>, duplicate: E, tags: seq<string>): Result<seq<string>, E> {
    var pairs :- Pairs(parse, duplicate, tags, {});
    Ok(Map(Sort(KeyLe, pairs), TextOf))
  }

  ghost predicate Acceptable<E>(parse: Parser<E>, tags: seq<string>, seen: set<string>) {
    forall tag | tag in tags :: parse(tag).Ok? && parse(tag).value.0 !in seen
  }

  lemma KeyLeTotal()
    ensures TotalPreorder(KeyLe)
  {
    TextLeIsTotalOrder();
  }

  lemma DistinctCons(x: string, s: seq<string>)
    ensures Distinct([x] + s) <==> Distinct(s) && x !in s
  {
    var t := [x] + s;
    assert forall i | 0 <= i < |s| :: t[i + 1] == s[i];
    if Distinct(t) {
      forall i, j | 0 <= i < j < |s| ensures s[i] != s[j] { assert t[i + 1] != t[j + 1]; }
      forall i | 0 <= i < |s| ensures s[i] != x { assert t[0] != t[i + 1]; }
    }
  }

  lemma AcceptableCons<E>(parse: Parser<E>, tags: seq<string>, seen: set<string>)
    requires tags != [] && parse(tags[0]).Ok?
    ensures var key := parse(tags[0]).value.0;
            Acceptable(parse, tags, seen) <==> key !in seen && Acceptable(parse, tags[1..], seen)
  {
    assert forall tag :: tag in tags <==> tag == tags[0] || tag in tags[1..];
  }

  lemma AcceptableAvoids<E>(parse: Parser<E>, tags: seq<string>, seen: set<string>, key: string)
    requires Acceptable(parse, tags, {})
    ensures Acceptable(parse, tags, seen + {key}) <==>
            Acceptable(parse, tags, seen) && key !in Keys(Map(tags, Parsed(parse)))
  {
    var keys := Keys(Map(tags, Parsed(parse)));
    forall i | 0 <= i < |tags| ensures keys[i] == parse(tags[i]).value.0 && parse(tags[i]).Ok? {
      assert tags[i] in tags;
    }
  }

  /** The loop succeeds exactly when every tag parses on its own and no two share a
      key; its result is then the tags parsed one by one. */
  lemma {:induction false} PairsMeaning<E>(parse: Parser<E>, duplicate: E, tags: seq<string>, seen: set<string>)
    ensures Pairs(parse, duplicate, tags, seen).Ok? <==>
            Acceptable(parse, tags, seen) && Distinct(Keys(Map(tags, Parsed(parse))))
    ensures Pairs(parse, duplicate, tags, seen).Ok? ==>
              Pairs(parse, duplicate, tags, seen).value == Map(tags, Parsed(parse))
  {
    if tags != [] {
      if parse(tags[0]).Ok? {
        var rest, key := tags[1..], parse(tags[0]).value.0;
        PairsMeaning(parse, duplicate, rest, seen + {key});
        AcceptableCons(parse, tags, seen);
        if Acceptable(parse, rest, {}) {
          AcceptableAvoids(parse, rest, seen, key);
        }
        assert Map(tags, Parsed(parse)) == [parse(tags[0]).value] + Map(rest, Parsed(parse));
        DistinctCons(key, Keys(Map(rest, Parsed(parse))));
      } else {
        assert tags[0] in tags;
      }
    }
  }

  lemma DistinctKeysAntisymmetric(pairs: seq<Keyed>)
    requires Distinct(Keys(pairs))
    ensures AntisymmetricOn(KeyLe, pairs)
  {
    TextLeIsTotalOrder();
    forall x, y | x in pairs && y in pairs && KeyLe(x, y) && KeyLe(y, x) ensures x == y {
      var i :| 0 <= i < |pairs| && pairs[i] == x;
      var j :| 0 <= j < |pairs| && pairs[j] == y;
      assert Keys(pairs)[i] == Keys(pairs)[j];
    }
  }

  /** An accepted list is accepted in any order, with one canonical form. */
  lemma CanonicalTagsIgnoreOrder<E>(parse: Parser<E>, duplicate: E, tags: seq<string>, shuffled: seq<string>)
    requires multiset(tags) == multiset(shuffled)
    requires CanonicalTags(parse, duplicate, tags).Ok?
    ensures CanonicalTags(parse, duplicate, shuffled) == CanonicalTags(parse, duplicate, tags)
  {
    SameElements(tags, shuffled);
    PairsMeaning(parse, duplicate, tags, {});
    PairsMeaning(parse, duplicate, shuffled, {});
    var pairs, pairs' := Map(tags, Parsed(parse)), Map(shuffled, Parsed(parse));
    MapMultiset(tags, shuffled, Parsed(parse));
    MapMultiset(pairs, pairs', KeyOf);
    DistinctPermutation(Keys(pairs), Keys(pairs'));
    DistinctKeysAntisymmetric(pairs);
    KeyLeTotal();
    SortPermutation(KeyLe, pairs, pairs');
  }

  /** The canonical tags are the texts of the tags parsed one by one, each once, by strictly
      ascending key. */
  lemma CanonicalTagsMeaning<E>(parse: Parser<E>, duplicate: E, tags: seq<string>)
    requires CanonicalTags(parse, duplicate, tags).Ok?
    ensures exists pairs: seq<Keyed> ::
              && multiset(pairs) == multiset(Map(tags, Parsed(parse)))
              && (forall i, j | 0 <= i < j < |pairs| :: TextBefore(pairs[i].0, pairs[j].0))
              && CanonicalTags(parse, duplicate, tags).value == Map(pairs, TextOf)
  {
    PairsMeaning(parse, duplicate, tags, {});
    var parsed := Map(tags, Parsed(parse));
    var pairs := Sort(KeyLe, parsed);
    KeyLeTotal();
    SortSorted(KeyLe, parsed);
    SortMultiset(KeyLe, parsed);
    MapMultiset(parsed, pairs, KeyOf);
    DistinctPermutation(Keys(parsed), Keys(pairs));
    forall i, j | 0 <= i < j < |pairs| ensures TextBefore(pairs[i].0, pairs[j].0) {
      assert KeyLe(pairs[i], pairs[j]) && Keys(pairs)[i] != Keys(pairs)[j];
      TextLeMeaning(pairs[i].0, pairs[j].0);
    }
  }

  /** A parser that accepts its own output unchanged. */
  ghost predicate Stable<E(!new)>(parse: Parser<E>) {
    forall tag | parse(tag).Ok? :: parse(parse(tag).value.1) == parse(tag)
  }

  /** With such a parser canonical tags are a fixed point. */
  lemma CanonicalTagsIdempotent<E(!new)>(parse: Parser<E>, duplicate: E, tags: seq<string>)
    requires Stable(parse)
    requires CanonicalTags(parse, duplicate, tags).Ok?
    ensures var canonical := CanonicalTags(parse, duplicate, tags).value;
            && CanonicalTags(parse, duplicate, canonical) == Ok(canonical)
            && |canonical| == |tags|
  {
    PairsMeaning(parse, duplicate, tags, {});
    var pairs := Map(tags, Parsed(parse));
    var sorted := Sort(KeyLe, pairs);
    var canonical := Map(sorted, TextOf);
    KeyLeTotal();
    SortSorted(KeyLe, pairs);
    SortMultiset(KeyLe, pairs);
    SortedTagsReparse(parse, tags, sorted);
    MapMultiset(pairs, sorted, KeyOf);
    DistinctPermutation(Keys(pairs), Keys(sorted));
    PairsMeaning(parse, duplicate, canonical, {});
    SortFixpoint(KeyLe, sorted);
  }

  lemma SortedTagsReparse<E(!new)>(parse: Parser<E>, tags: seq<string>, sorted: seq<Keyed>)
    requires Stable(parse) && Acceptable(parse, tags, {})
    requires multiset(sorted) == multiset(Map(tags, Parsed(parse)))
    ensures Acceptable(parse, Map(sorted, TextOf), {})
    ensures Map(Map(sorted, TextOf), Parsed(parse)) == sorted
  {
    var canonical := Map(sorted, TextOf);
    SameElements(sorted, Map(tags, Parsed(parse)));
    forall i | 0 <= i < |sorted| ensures parse(canonical[i]) == Ok(sorted[i]) {
      assert sorted[i] in Map(tags, Parsed(parse));
      var k :| 0 <= k < |tags| && Map(tags, Parsed(parse))[k] == sorted[i];
      assert tags[k] in tags;
      assert parse(tags[k]).Ok?;
    }
  }

  /** The loop itself, with its key set and its list of pairs. */
  method CollectTags<E>(parse: Parser<E>, duplicate: E, tags: seq<string>) returns (r: Result<seq<string>, E>)
    ensures r == CanonicalTags(parse, duplicate, tags)
  {
    var tagKeys: set<string> := {};
    var canonicalTags: seq<Keyed> := [];
    assert tags[0..] == tags;
    PrefixedNone(Pairs(parse, duplicate, tags, {}));
    for i := 0 to |tags|
      invariant Pairs(parse, duplicate, tags, {}) == Prefixed(canonicalTags, Pairs(parse, duplicate, tags[i..], tagKeys))
    {
      assert tags[i..][1..] == tags[i + 1..];
      var pair := parse(tags[i]);
      if pair.Err? { return Err(pair.error); }
      if pair.value.0 in tagKeys { return Err(duplicate); }
      PrefixedTwice(canonicalTags, pair.value, Pairs(parse, duplicate, tags[i + 1..], tagKeys + {pair.value.0}));
      tagKeys := tagKeys + {pair.value.0};
      canonicalTags := canonicalTags + [pair.value];
    }
    assert tags[|tags|..] == [];
    assert canonicalTags + [] == canonicalTags;
    return Ok(Map(Sort(KeyLe, canonicalTags), TextOf));
  }

  ghost function Prefixed<E>(front: seq<Keyed>, rest: Result<seq<Keyed>, E>): Result<seq<Keyed>, E> {
    if rest.Ok? then Ok(front + rest.value) else rest
  }

  lemma PrefixedNone<E>(rest: Result<seq<Keyed>, E>)
    ensures Prefixed([], rest) == rest
  {
    if rest.Ok? {
      assert [] + rest.value == rest.value;
    }
  }

  lemma PrefixedTwice<E>(front: seq<Keyed>, x: Keyed, rest: Result<seq<Keyed>, E>)
    ensures Prefixed(front, Prefixed([x], rest)) == Prefixed(front + [x], rest)
  {
    if rest.Ok? {
      assert front + ([x] + rest.value) == front + [x] + rest.value;
    }
  }
}
