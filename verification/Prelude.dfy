/** Shared vocabulary: optional and fallible values, machine-integer bounds, and
    the few facts about sequences that every other module uses. */
module Prelude {
  datatype Option<+T> = None | Some(value: T)

  /** The outcome of a fallible operation; usable with `:-`. */
  datatype Result<+T, +E> = Ok(value: T) | Err(error: E) {
    predicate IsFailure() { Err? }

    function PropagateFailure<U>(): Result<U, E>
      requires Err?
    {
      Err(error)
    }

    function Extract(): T
      requires Ok?
    {
      value
    }
  }

  /** Who acts: the person at the terminal, the program, or an agent profile. */
  datatype Actor = Human | System | Agent(profileId: nat)

  const U64_MAX: nat := 0xFFFF_FFFF_FFFF_FFFF
  const I64_MAX: nat := 0x7FFF_FFFF_FFFF_FFFF

  function Min(a: nat, b: nat): nat { if a < b then a else b }

  /** The elements of `s` that satisfy `keep`, in order. */
  function Filter<T>(s: seq<T>, keep: T -> bool): seq<T> {
    if s == [] then []
    else (if keep(s[0]) then [s[0]] else []) + Filter(s[1..], keep)
  }

  function Map<T, U>(s: seq<T>, f: T -> U): (r: seq<U>)
    ensures |r| == |s|
    ensures forall i | 0 <= i < |s| :: r[i] == f(s[i])
  {
    if s == [] then [] else [f(s[0])] + Map(s[1..], f)
  }

  /** Filtering keeps exactly the satisfying occurrences. */
  lemma {:induction false} FilterMultiset<T>(s: seq<T>, keep: T -> bool, x: T)
    ensures multiset(Filter(s, keep))[x] == if keep(x) then multiset(s)[x] else 0
    ensures x in Filter(s, keep) <==> x in s && keep(x)
  {
    if s != [] {
      FilterMultiset(s[1..], keep, x);
      assert s == [s[0]] + s[1..];
      if keep(s[0]) {
        assert Filter(s, keep) == [s[0]] + Filter(s[1..], keep);
      } else {
        assert Filter(s, keep) == Filter(s[1..], keep);
      }
    }
    assert x in Filter(s, keep) <==> multiset(Filter(s, keep))[x] > 0;
    assert x in s <==> multiset(s)[x] > 0;
  }

  lemma {:induction false} FilterConcat<T>(s: seq<T>, t: seq<T>, keep: T -> bool)
    ensures Filter(s + t, keep) == Filter(s, keep) + Filter(t, keep)
  {
    if s == [] {
      assert s + t == t;
    } else {
      hide Filter;
      FilterConcat(s[1..], t, keep);
      FilterHead(s, keep);
      FilterHead(s + t, keep);
      assert (s + t)[1..] == s[1..] + t;
      Associates(IfKept(s[0], keep), Filter(s[1..], keep), Filter(t, keep));
    }
  }

  function IfKept<T>(x: T, keep: T -> bool): seq<T> { if keep(x) then [x] else [] }

  lemma FilterHead<T>(s: seq<T>, keep: T -> bool)
    requires s != []
    ensures Filter(s, keep) == IfKept(s[0], keep) + Filter(s[1..], keep)
  {}

  lemma Associates<T>(a: seq<T>, b: seq<T>, c: seq<T>)
    ensures a + (b + c) == (a + b) + c
  {}

  lemma FilterAppend<T>(s: seq<T>, x: T, keep: T -> bool)
    ensures Filter(s + [x], keep) == Filter(s, keep) + (if keep(x) then [x] else [])
  {
    FilterConcat(s, [x], keep);
    assert [x][1..] == [];
  }

  lemma FilterAround<T>(t: seq<T>, i: nat, keep: T -> bool)
    requires i < |t|
    ensures multiset(Filter(t, keep)) == multiset(Filter([t[i]], keep)) + multiset(Filter(t[..i] + t[i + 1..], keep))
  {
    hide Filter;
    FilterConcat(t[..i], t[i + 1..], keep);
    assert t == t[..i] + ([t[i]] + t[i + 1..]);
    FilterConcat(t[..i], [t[i]] + t[i + 1..], keep);
    FilterConcat([t[i]], t[i + 1..], keep);
  }

  /** Filtering a rearrangement rearranges what is kept. */
  lemma {:induction false} FilterKeepsMultiset<T>(s: seq<T>, t: seq<T>, keep: T -> bool)
    requires multiset(s) == multiset(t)
    ensures multiset(Filter(s, keep)) == multiset(Filter(t, keep))
  {
    hide Filter;
    if s == [] {
      assert |multiset(t)| == 0;
    } else {
      var i := IndexIn(s, t);
      var rest := t[..i] + t[i + 1..];
      RestsAgree(s, t, i);
      FilterKeepsMultiset(s[1..], rest, keep);
      assert s[..0] + s[1..] == s[1..];
      FilterAround(s, 0, keep);
      FilterAround(t, i, keep);
    }
  }

  /** Without the first of `s`, and without it in `t`. */
  lemma RestsAgree<T>(s: seq<T>, t: seq<T>, i: nat)
    requires multiset(s) == multiset(t) && s != [] && i < |t| && t[i] == s[0]
    ensures multiset(s[1..]) == multiset(t[..i] + t[i + 1..])
  {
    MultisetWithout(s, 0);
    MultisetWithout(t, i);
    assert s[..0] + s[1..] == s[1..];
    assert multiset(s[1..]) == multiset(s) - multiset{s[0]};
    assert multiset(t[..i] + t[i + 1..]) == multiset(t) - multiset{t[i]};
  }

  lemma IndexIn<T>(s: seq<T>, t: seq<T>) returns (i: nat)
    requires multiset(s) == multiset(t) && s != []
    ensures i < |t| && t[i] == s[0]
  {
    assert s[0] in multiset(t);
    i :| i < |t| && t[i] == s[0];
  }

  predicate Distinct<T(==)>(s: seq<T>) {
    forall i, j | 0 <= i < j < |s| :: s[i] != s[j]
  }

  /** A sequence lists no element twice exactly when no multiplicity exceeds one. */
  lemma DistinctMultiplicity<T>(s: seq<T>)
    ensures Distinct(s) <==> forall x :: multiset(s)[x] <= 1
  {
    if Distinct(s) {
      forall x ensures multiset(s)[x] <= 1 { DistinctAtMostOnce(s, x); }
    }
    if i, j :| 0 <= i < j < |s| && s[i] == s[j] {
      assert s == s[..j] + [s[j]] + s[j + 1..];
      assert s[..j][i] == s[i];
      assert s[i] in s[..j];
      assert multiset(s)[s[i]] >= 2;
    }
  }

  lemma {:induction false} DistinctAtMostOnce<T>(s: seq<T>, x: T)
    requires Distinct(s)
    ensures multiset(s)[x] <= 1
  {
    if s != [] {
      assert s == [s[0]] + s[1..];
      DistinctAtMostOnce(s[1..], x);
      if x == s[0] {
        assert x !in s[1..];
      }
    }
  }

  lemma DistinctPermutation<T>(s: seq<T>, t: seq<T>)
    requires multiset(s) == multiset(t) && Distinct(s)
    ensures Distinct(t)
  {
    DistinctMultiplicity(s);
    DistinctMultiplicity(t);
  }

  lemma MultisetWithout<T>(s: seq<T>, i: nat)
    requires i < |s|
    ensures multiset(s) == multiset{s[i]} + multiset(s[..i] + s[i + 1..])
  {
    assert s == s[..i] + [s[i]] + s[i + 1..];
  }

  /** Mapping a rearrangement rearranges the map. */
  lemma {:induction false} MapMultiset<T, U>(s: seq<T>, t: seq<T>, f: T -> U)
    requires multiset(s) == multiset(t)
    ensures multiset(Map(s, f)) == multiset(Map(t, f))
  {
    assert |multiset(s)| == |multiset(t)|;
    if s != [] {
      assert s[0] in multiset(t);
      var i :| 0 <= i < |t| && t[i] == s[0];
      var rest := t[..i] + t[i + 1..];
      MultisetWithout(t, i);
      assert s == [s[0]] + s[1..];
      assert multiset(s[1..]) == multiset(s) - multiset{s[0]};
      assert multiset(rest) == multiset(t) - multiset{t[i]};
      MapMultiset(s[1..], rest, f);
      MapWithout(t, i, f);
      MultisetWithout(Map(t, f), i);
      assert Map(s, f) == [f(s[0])] + Map(s[1..], f);
    }
  }

  lemma {:induction false} MapWithout<T, U>(t: seq<T>, i: nat, f: T -> U)
    requires i < |t|
    ensures Map(t[..i] + t[i + 1..], f) == Map(t, f)[..i] + Map(t, f)[i + 1..]
  {
    var mapped, expected := Map(t[..i] + t[i + 1..], f), Map(t, f)[..i] + Map(t, f)[i + 1..];
    forall k | 0 <= k < |mapped| ensures mapped[k] == expected[k] {
      assert (t[..i] + t[i + 1..])[k] == if k < i then t[k] else t[k + 1];
    }
  }

  // ---------- looking up lists of keys ----------

  /** What the lookups find, in order; missing rows are skipped. */
  function FilterMap<K, V>(keys: seq<K>, lookup: K -> Option<V>): seq<V> {
    if keys == [] then []
    else (match lookup(keys[0]) case Some(x) => [x] case None => []) + FilterMap(keys[1..], lookup)
  }

  function Take<T>(s: seq<T>, limit: nat): seq<T> { if limit < |s| then s[..limit] else s }

  function Reverse<T>(s: seq<T>): (r: seq<T>)
    ensures |r| == |s| && forall i | 0 <= i < |s| :: r[i] == s[|s| - 1 - i]
  {
    if s == [] then [] else Reverse(s[1..]) + [s[0]]
  }

  lemma FilterMapCons<K, V>(key: K, keys: seq<K>, lookup: K -> Option<V>)
    ensures FilterMap([key] + keys, lookup)
            == (match lookup(key) case Some(x) => [x] case None => []) + FilterMap(keys, lookup)
  {
    assert ([key] + keys)[1..] == keys;
  }

  /** When every lookup succeeds, nothing is skipped. */
  lemma {:induction false} FilterMapAll<K, V>(keys: seq<K>, lookup: K -> Option<V>)
    requires forall i | 0 <= i < |keys| :: lookup(keys[i]).Some?
    ensures |FilterMap(keys, lookup)| == |keys|
    ensures forall i | 0 <= i < |keys| :: FilterMap(keys, lookup)[i] == lookup(keys[i]).value
  {
    if keys != [] {
      FilterMapAll(keys[1..], lookup);
    }
  }

  lemma FilterMapTake<K, V>(keys: seq<K>, lookup: K -> Option<V>, limit: nat)
    requires forall i | 0 <= i < |keys| :: lookup(keys[i]).Some?
    ensures FilterMap(Take(keys, limit), lookup) == Take(FilterMap(keys, lookup), limit)
  {
    FilterMapAll(keys, lookup);
    FilterMapAll(Take(keys, limit), lookup);
  }

  lemma FilterMapReverse<K, V>(keys: seq<K>, lookup: K -> Option<V>)
    requires forall i | 0 <= i < |keys| :: lookup(keys[i]).Some?
    ensures FilterMap(Reverse(keys), lookup) == Reverse(FilterMap(keys, lookup))
    ensures forall i | 0 <= i < |keys| :: lookup(Reverse(keys)[i]).Some?
  {
    hide Reverse, FilterMap;
    FilterMapAll(keys, lookup);
    forall i | 0 <= i < |keys| ensures Reverse(keys)[i] == keys[|keys| - 1 - i] {}
    FilterMapAll(Reverse(keys), lookup);
    var found, expected := FilterMap(Reverse(keys), lookup), Reverse(FilterMap(keys, lookup));
    forall i | 0 <= i < |keys| ensures found[i] == expected[i] {
      assert expected[i] == FilterMap(keys, lookup)[|keys| - 1 - i];
    }
  }

  /** Taking keys from the end is taking results from the end, when all are found. */
  lemma NewestFirst<K, V>(keys: seq<K>, lookup: K -> Option<V>, limit: nat)
    requires forall i | 0 <= i < |keys| :: lookup(keys[i]).Some?
    ensures FilterMap(Take(Reverse(keys), limit), lookup) == Take(Reverse(FilterMap(keys, lookup)), limit)
  {
    hide Reverse, FilterMap, Take;
    FilterMapReverse(keys, lookup);
    FilterMapTake(Reverse(keys), lookup, limit);
  }

  lemma {:induction false} FilterMapMembers<K, V>(keys: seq<K>, lookup: K -> Option<V>, x: V)
    ensures x in FilterMap(keys, lookup) <==> exists k :: k in keys && lookup(k) == Some(x)
  {
    if keys != [] {
      FilterMapMembers(keys[1..], lookup, x);
      assert forall k :: k in keys <==> k == keys[0] || k in keys[1..];
    }
  }
}
