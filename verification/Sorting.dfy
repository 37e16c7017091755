/** A stable sort over an arbitrary order, and the order of text by code point.
    The facts that matter are uniqueness (a sorted arrangement is determined by
    its elements) and the agreement of adjacent-pair and all-pair sortedness. */
module Sorting {
  import opened Prelude

  ghost predicate TotalPreorder<T(!new)>(le: (T, T) -> bool) {
    && (forall x, y :: le(x, y) || le(y, x))
    && (forall x, y, z :: le(x, y) && le(y, z) ==> le(x, z))
  }

  /** Ties under `le` between elements of `s` are ties between equal elements. */
  ghost predicate AntisymmetricOn<T>(le: (T, T) -> bool, s: seq<T>) {
    forall x, y | x in s && y in s && le(x, y) && le(y, x) :: x == y
  }

  predicate Sorted<T>(le: (T, T) -> bool, s: seq<T>) {
    forall i, j | 0 <= i < j < |s| :: le(s[i], s[j])
  }

  predicate AdjacentSorted<T>(le: (T, T) -> bool, s: seq<T>) {
    forall i | 0 <= i < |s| - 1 :: le(s[i], s[i + 1])
  }

  function Insert<T>(le: (T, T) -> bool, x: T, s: seq<T>): seq<T> {
    if s == [] then [x]
    else if le(x, s[0]) then [x] + s
    else [s[0]] + Insert(le, x, s[1..])
  }

  /** Stable: an element goes before the first later element it does not exceed. */
  function Sort<T>(le: (T, T) -> bool, s: seq<T>): seq<T> {
    if s == [] then [] else Insert(le, s[0], Sort(le, s[1..]))
  }

  lemma {:induction false} InsertMultiset<T>(le: (T, T) -> bool, x: T, s: seq<T>)
    ensures multiset(Insert(le, x, s)) == multiset{x} + multiset(s)
  {
    if s != [] && !le(x, s[0]) {
      InsertMultiset(le, x, s[1..]);
      assert s == [s[0]] + s[1..];
    }
  }

  lemma {:induction false} SortMultiset<T>(le: (T, T) -> bool, s: seq<T>)
    ensures multiset(Sort(le, s)) == multiset(s)
    ensures |Sort(le, s)| == |s|
  {
    if s != [] {
      SortMultiset(le, s[1..]);
      InsertMultiset(le, s[0], Sort(le, s[1..]));
      assert s == [s[0]] + s[1..];
    }
    assert |multiset(Sort(le, s))| == |multiset(s)|;
  }

  lemma SameElements<T>(s: seq<T>, t: seq<T>)
    requires multiset(s) == multiset(t)
    ensures |s| == |t|
    ensures forall x :: x in s <==> x in t
  {
    assert |multiset(s)| == |multiset(t)|;
    forall x ensures x in s <==> x in t {
      assert x in s <==> x in multiset(s);
      assert x in t <==> x in multiset(t);
    }
  }

  lemma {:induction false} InsertSorted<T(!new)>(le: (T, T) -> bool, x: T, s: seq<T>)
    requires TotalPreorder(le) && Sorted(le, s)
    ensures Sorted(le, Insert(le, x, s))
  {
    if s != [] && !le(x, s[0]) {
      InsertSorted(le, x, s[1..]);
      InsertMultiset(le, x, s[1..]);
      var rest := Insert(le, x, s[1..]);
      forall j | 0 <= j < |rest| ensures le(s[0], rest[j]) {
        assert rest[j] in multiset(rest);
        if rest[j] != x {
          assert rest[j] in s[1..];
        }
      }
    }
  }

  lemma {:induction false} SortSorted<T(!new)>(le: (T, T) -> bool, s: seq<T>)
    requires TotalPreorder(le)
    ensures Sorted(le, Sort(le, s))
  {
    if s != [] {
      SortSorted(le, s[1..]);
      InsertSorted(le, s[0], Sort(le, s[1..]));
    }
  }

  /** Sorting leaves a sorted sequence alone. */
  lemma {:induction false} SortFixpoint<T>(le: (T, T) -> bool, s: seq<T>)
    requires Sorted(le, s)
    ensures Sort(le, s) == s
  {
    if s != [] {
      SortFixpoint(le, s[1..]);
      assert s == [s[0]] + s[1..];
      if |s| > 1 {
        assert le(s[0], s[1]);
      }
    }
  }

  /** There is only one sorted arrangement when ties are between equal elements. */
  lemma {:induction false} SortedUnique<T>(le: (T, T) -> bool, s: seq<T>, t: seq<T>)
    requires Sorted(le, s) && Sorted(le, t)
    requires multiset(s) == multiset(t)
    requires AntisymmetricOn(le, s)
    ensures s == t
  {
    hide Sorted, AntisymmetricOn;
    SameElements(s, t);
    if s != [] {
      SameFirst(le, s, t);
      SameRest(s, t);
      RestSorted(le, s);
      RestSorted(le, t);
      RestAntisymmetric(le, s);
      SortedUnique(le, s[1..], t[1..]);
      assert s == [s[0]] + s[1..] && t == [t[0]] + t[1..];
    }
  }

  lemma SameRest<T>(s: seq<T>, t: seq<T>)
    requires multiset(s) == multiset(t) && s != [] && t != [] && s[0] == t[0]
    ensures multiset(s[1..]) == multiset(t[1..])
  {
    assert s == [s[0]] + s[1..] && t == [t[0]] + t[1..];
    assert multiset(s[1..]) == multiset(s) - multiset{s[0]};
    assert multiset(t[1..]) == multiset(t) - multiset{t[0]};
  }

  lemma RestSorted<T>(le: (T, T) -> bool, s: seq<T>)
    requires Sorted(le, s) && s != []
    ensures Sorted(le, s[1..])
  {}

  lemma RestAntisymmetric<T>(le: (T, T) -> bool, s: seq<T>)
    requires AntisymmetricOn(le, s) && s != []
    ensures AntisymmetricOn(le, s[1..])
  {}

  lemma SomeMember<T(!new)>(s: seq<T>)
    ensures s != [] ==> exists x :: x in s
  {
    if s != [] { assert s[0] in s; }
  }

  /** Without repetitions the members alone determine the sorted list. */
  lemma {:induction false} SortedMembersUnique<T(!new)>(le: (T, T) -> bool, s: seq<T>, t: seq<T>)
    requires Sorted(le, s) && Sorted(le, t) && Distinct(s) && Distinct(t)
    requires AntisymmetricOn(le, s)
    requires forall x :: x in s <==> x in t
    ensures s == t
  {
    if s == [] {
      SomeMember(t);
    } else {
      assert s[0] in t;
      SameFirst(le, s, t);
      forall x ensures x in s[1..] <==> x in t[1..] {
        MemberOfRest(s, x);
        MemberOfRest(t, x);
      }
      SortedMembersUnique(le, s[1..], t[1..]);
      assert s == [s[0]] + s[1..] && t == [t[0]] + t[1..];
    }
  }

  lemma MemberOfRest<T>(s: seq<T>, x: T)
    requires s != [] && Distinct(s)
    ensures x in s[1..] <==> x in s && x != s[0]
  {
    assert s == [s[0]] + s[1..];
  }

  lemma SameFirst<T>(le: (T, T) -> bool, s: seq<T>, t: seq<T>)
    requires Sorted(le, s) && Sorted(le, t) && s != [] && t != []
    requires AntisymmetricOn(le, s)
    requires forall x :: x in s <==> x in t
    ensures s[0] == t[0]
  {
    assert s[0] in t && t[0] in s;
    var i :| 0 <= i < |t| && t[i] == s[0];
    var j :| 0 <= j < |s| && s[j] == t[0];
    if 0 < i && 0 < j {
      assert le(t[0], t[i]);
      assert le(s[0], s[j]);
    }
  }

  /** Sorting forgets the order of its input. */
  lemma SortPermutation<T(!new)>(le: (T, T) -> bool, s: seq<T>, t: seq<T>)
    requires TotalPreorder(le)
    requires multiset(s) == multiset(t)
    requires AntisymmetricOn(le, s)
    ensures Sort(le, s) == Sort(le, t)
  {
    SortMultiset(le, s);
    SortMultiset(le, t);
    SortSorted(le, s);
    SortSorted(le, t);
    SameElements(s, Sort(le, s));
    SortedUnique(le, Sort(le, s), Sort(le, t));
  }

  /** Comparing neighbours is enough. */
  lemma AdjacentSortedIsSorted<T(!new)>(le: (T, T) -> bool, s: seq<T>)
    requires TotalPreorder(le)
    ensures AdjacentSorted(le, s) <==> Sorted(le, s)
  {
    if AdjacentSorted(le, s) {
      forall i, j | 0 <= i < j < |s| ensures le(s[i], s[j]) {
        AdjacentReaches(le, s, i, j);
      }
    }
  }

  lemma {:induction false} AdjacentReaches<T(!new)>(le: (T, T) -> bool, s: seq<T>, i: nat, j: nat)
    requires TotalPreorder(le) && AdjacentSorted(le, s)
    requires i < j < |s|
    ensures le(s[i], s[j])
    decreases j - i
  {
    assert le(s[j - 1], s[j - 1 + 1]);
    if i + 1 < j {
      AdjacentReaches(le, s, i, j - 1);
    }
  }

  // ---------- sublists ----------

  /** `s` is what remains of `t` after leaving elements out. */
  ghost predicate Sublist<T>(s: seq<T>, t: seq<T>)
    decreases |t|
  {
    s == [] || (t != [] && ((s[|s| - 1] == t[|t| - 1] && Sublist(s[..|s| - 1], t[..|t| - 1])) || Sublist(s, t[..|t| - 1])))
  }

  lemma {:induction false} SublistExtends<T>(s: seq<T>, t: seq<T>, x: T)
    requires Sublist(s, t)
    ensures Sublist(s, t + [x]) && Sublist(s + [x], t + [x])
  {
    var s', t' := s + [x], t + [x];
    assert t'[..|t'| - 1] == t && s'[..|s'| - 1] == s;
    assert s'[|s'| - 1] == t'[|t'| - 1];
  }

  lemma {:induction false} SublistElements<T>(s: seq<T>, t: seq<T>)
    requires Sublist(s, t)
    ensures |s| <= |t| && forall x | x in s :: x in t
    decreases |t|
  {
    if s != [] {
      if s[|s| - 1] == t[|t| - 1] && Sublist(s[..|s| - 1], t[..|t| - 1]) {
        SublistElements(s[..|s| - 1], t[..|t| - 1]);
        assert s == s[..|s| - 1] + [s[|s| - 1]];
      } else {
        SublistElements(s, t[..|t| - 1]);
      }
    }
  }

  /** Whatever relates every earlier element to every later one still does after leaving some out. */
  lemma {:induction false} SublistSorted<T>(le: (T, T) -> bool, s: seq<T>, t: seq<T>)
    requires Sublist(s, t) && Sorted(le, t)
    ensures Sorted(le, s)
    decreases |t|
  {
    if s != [] {
      var front := t[..|t| - 1];
      if s[|s| - 1] == t[|t| - 1] && Sublist(s[..|s| - 1], front) {
        SublistSorted(le, s[..|s| - 1], front);
        SublistElements(s[..|s| - 1], front);
        forall i | 0 <= i < |s| - 1 ensures le(s[i], s[|s| - 1]) {
          assert s[..|s| - 1][i] in front;
        }
      } else {
        SublistSorted(le, s, front);
      }
    }
  }

  // ---------- ordered enumeration of a set ----------

  predicate NatLe(a: nat, b: nat) { a <= b }

  lemma {:induction false} LeastExists<T(!new)>(le: (T, T) -> bool, s: set<T>)
    requires TotalPreorder(le) && s != {}
    ensures exists m :: m in s && forall x | x in s :: le(m, x)
  {
    var a :| a in s;
    var rest := s - {a};
    var least := a;
    if rest != {} {
      LeastExists(le, rest);
      var m :| m in rest && forall x | x in rest :: le(m, x);
      least := if le(a, m) then a else m;
      assert le(least, a) && le(least, m);
    }
    forall x | x in s ensures le(least, x) {
      assert x == a || x in rest;
      assert le(a, a);
    }
    assert least in s;
  }

  /** The elements of `s`, each once, in ascending order: how an ordered map is iterated. */
  ghost function Enumerate<T(!new)>(le: (T, T) -> bool, s: set<T>): seq<T>
    requires TotalPreorder(le)
  {
    if s == {} then []
    else
      LeastExists(le, s);
      var m :| m in s && forall x | x in s :: le(m, x);
      [m] + Enumerate(le, s - {m})
  }

  lemma {:induction false} EnumerateMeaning<T(!new)>(le: (T, T) -> bool, s: set<T>)
    requires TotalPreorder(le)
    ensures Sorted(le, Enumerate(le, s)) && Distinct(Enumerate(le, s))
    ensures forall x :: x in Enumerate(le, s) <==> x in s
    ensures |Enumerate(le, s)| == |s|
  {
    if s != {} {
      var r := Enumerate(le, s);
      EnumerateMeaning(le, s - {r[0]});
      var rest := Enumerate(le, s - {r[0]});
      assert r == [r[0]] + rest;
      forall x ensures x in r <==> x in s {
        assert x in r <==> x == r[0] || x in rest;
      }
      forall j | 0 < j < |r| ensures le(r[0], r[j]) && r[0] != r[j] {
        assert r[j] in rest;
      }
    }
  }

  /** The numbers one to n in order. */
  ghost function UpTo(n: nat): (r: seq<nat>)
    ensures |r| == n && forall i | 0 <= i < n :: r[i] == i + 1
  {
    seq(n, (i: nat) => i + 1)
  }

  lemma EnumerateUpTo(keys: set<nat>, n: nat)
    requires forall v :: v in keys <==> 1 <= v <= n
    ensures Enumerate(NatLe, keys) == UpTo(n)
  {
    EnumerateMeaning(NatLe, keys);
    forall v: nat ensures v in UpTo(n) <==> v in keys {
      if v in keys { assert UpTo(n)[v - 1] == v; }
    }
    SortedMembersUnique(NatLe, Enumerate(NatLe, keys), UpTo(n));
  }

  // ---------- text order ----------

  /** Lexicographic order by code point, which is also byte order in UTF-8. */
  predicate TextLe(a: string, b: string) {
    if a == [] then true
    else if b == [] then false
    else if a[0] != b[0] then a[0] < b[0]
    else TextLe(a[1..], b[1..])
  }

  lemma {:induction false} TextTotal(a: string, b: string)
    ensures TextLe(a, b) || TextLe(b, a)
    ensures TextLe(a, b) && TextLe(b, a) ==> a == b
  {
    if a != [] && b != [] && a[0] == b[0] {
      TextTotal(a[1..], b[1..]);
      assert a == [a[0]] + a[1..] && b == [b[0]] + b[1..];
    }
  }

  lemma {:induction false} TextTransitive(a: string, b: string, c: string)
    requires TextLe(a, b) && TextLe(b, c)
    ensures TextLe(a, c)
  {
    if a != [] && a[0] == b[0] && b[0] == c[0] {
      TextTransitive(a[1..], b[1..], c[1..]);
    }
  }

  /** `a` is a proper beginning of `b`, or has the smaller character where they first differ. */
  ghost predicate TextBefore(a: string, b: string) {
    exists k :: 0 <= k <= |a| && k < |b| && a[..k] == b[..k] && (k == |a| || a[k] < b[k])
  }

  lemma {:induction false} TextLeMeaning(a: string, b: string)
    ensures TextLe(a, b) <==> a == b || TextBefore(a, b)
  {
    hide TextBefore;
    if a == [] || b == [] {
      EmptyComesFirst(a, b);
    } else if a[0] == b[0] {
      TextLeMeaning(a[1..], b[1..]);
      assert a == [a[0]] + a[1..] && b == [b[0]] + b[1..];
      RestDecides(a, b);
    } else {
      FirstDecides(a, b);
    }
  }

  lemma EmptyComesFirst(a: string, b: string)
    requires a == [] || b == []
    ensures TextBefore(a, b) <==> a == [] && b != []
  {
    if b != [] { assert a[..0] == b[..0]; }
  }

  lemma RestDecides(a: string, b: string)
    requires a != [] && b != [] && a[0] == b[0]
    ensures TextBefore(a, b) <==> TextBefore(a[1..], b[1..])
  {
    var a', b' := a[1..], b[1..];
    if TextBefore(a', b') {
      var k :| 0 <= k <= |a'| && k < |b'| && a'[..k] == b'[..k] && (k == |a'| || a'[k] < b'[k]);
      assert a[..k + 1] == [a[0]] + a'[..k] && b[..k + 1] == [b[0]] + b'[..k];
    }
    if TextBefore(a, b) {
      var k :| 0 <= k <= |a| && k < |b| && a[..k] == b[..k] && (k == |a| || a[k] < b[k]);
      assert k > 0;
      assert a'[..k - 1] == a[..k][1..] && b'[..k - 1] == b[..k][1..];
    }
  }

  lemma FirstDecides(a: string, b: string)
    requires a != [] && b != [] && a[0] != b[0]
    ensures TextBefore(a, b) <==> a[0] < b[0]
  {
    SameBeginning(a, b);
    assert a[..0] == b[..0];
  }

  lemma SameBeginning(a: string, b: string)
    requires a != [] && b != []
    ensures forall k | 0 < k <= |a| && k <= |b| && a[..k] == b[..k] :: a[0] == b[0]
  {
    forall k | 0 < k <= |a| && k <= |b| && a[..k] == b[..k] ensures a[0] == b[0] {
      assert a[..k][0] == b[..k][0];
    }
  }

  lemma TextLeIsTotalOrder()
    ensures forall a, b :: TextLe(a, b) || TextLe(b, a)
    ensures forall a, b | TextLe(a, b) && TextLe(b, a) :: a == b
    ensures forall a, b, c | TextLe(a, b) && TextLe(b, c) :: TextLe(a, c)
  {
    forall a, b ensures TextLe(a, b) || TextLe(b, a) { TextTotal(a, b); }
    forall a, b | TextLe(a, b) && TextLe(b, a) ensures a == b { TextTotal(a, b); }
    forall a, b, c | TextLe(a, b) && TextLe(b, c) ensures TextLe(a, c) { TextTransitive(a, b, c); }
  }
}
