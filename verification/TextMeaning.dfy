/** What the text rules keep, said of the positions in the text: which characters survive the
    rewriting of line endings, and which words folding joins. */
module TextMeaning {
  import opened Prelude
  import opened TextRules

  // ---------- line endings ----------

  /** A carriage return that belongs to the line feed after it. */
  predicate BeforeLineFeed(s: string, i: nat)
    requires i < |s|
  {
    s[i] == '\r' && i + 1 < |s| && s[i + 1] == '\n'
  }

  /** Every position but those, in order; any other carriage return reads as a line feed. */
  ghost predicate Rewritten(s: string, kept: seq<nat>, r: string) {
    && (forall a, b | 0 <= a < b < |kept| :: kept[a] < kept[b])
    && (forall i: nat :: i in kept <==> i < |s| && !BeforeLineFeed(s, i))
    && |r| == |kept|
    && (forall a | 0 <= a < |kept| :: kept[a] < |s| && r[a] == if s[kept[a]] == '\r' then '\n' else s[kept[a]])
  }

  /** The same of the text from `i` on. */
  ghost predicate RewrittenFrom(s: string, i: nat, kept: seq<nat>, r: string) {
    && (forall a, b | 0 <= a < b < |kept| :: kept[a] < kept[b])
    && (forall k: nat :: k in kept <==> i <= k < |s| && !BeforeLineFeed(s, k))
    && |r| == |kept|
    && (forall a | 0 <= a < |kept| :: kept[a] < |s| && r[a] == if s[kept[a]] == '\r' then '\n' else s[kept[a]])
  }

  lemma KeepOne(s: string, i: nat, kept: seq<nat>, r: string)
    requires i < |s| && !BeforeLineFeed(s, i) && RewrittenFrom(s, i + 1, kept, r)
    ensures RewrittenFrom(s, i, [i] + kept, [if s[i] == '\r' then '\n' else s[i]] + r)
  {
    var kept' := [i] + kept;
    forall a, b | 0 <= a < b < |kept'| ensures kept'[a] < kept'[b] {
      assert kept'[b] == kept[b - 1] && kept[b - 1] in kept;
    }
    forall k: nat ensures k in kept' <==> i <= k < |s| && !BeforeLineFeed(s, k) {
      assert k in kept' <==> k == i || k in kept;
    }
  }

  lemma DropOne(s: string, i: nat, kept: seq<nat>, r: string)
    requires i < |s| && BeforeLineFeed(s, i) && RewrittenFrom(s, i + 1, kept, r)
    ensures RewrittenFrom(s, i, kept, r)
  {}

  lemma {:induction false} LinesFrom(s: string, i: nat) returns (kept: seq<nat>)
    requires i <= |s|
    ensures RewrittenFrom(s, i, kept, NormalizeLineEndings(s[i..]))
    decreases |s| - i
  {
    if i == |s| {
      kept := [];
    } else if BeforeLineFeed(s, i) {
      var rest := LinesFrom(s, i + 2);
      assert s[i..][2..] == s[i + 2..];
      KeepOne(s, i + 1, rest, NormalizeLineEndings(s[i + 2..]));
      kept := [i + 1] + rest;
      DropOne(s, i, kept, ['\n'] + NormalizeLineEndings(s[i + 2..]));
    } else {
      var rest := LinesFrom(s, i + 1);
      assert s[i..][1..] == s[i + 1..];
      KeepOne(s, i, rest, NormalizeLineEndings(s[i + 1..]));
      kept := [i] + rest;
    }
  }

  /** Line endings of every kind become one line feed each, and every other character stays
      where it is between them. */
  lemma LineEndingsMeaning(s: string)
    ensures exists kept :: Rewritten(s, kept, NormalizeLineEndings(s))
  {
    var kept := LinesFrom(s, 0);
    assert s[0..] == s;
    assert Rewritten(s, kept, NormalizeLineEndings(s));
  }

  // ---------- words ----------

  /** From `i` to `j` there is text without whitespace, and none just before or after. */
  ghost predicate Run(s: string, i: nat, j: nat) {
    && i < j <= |s| && (forall k | i <= k < j :: !IsWhitespace(s[k]))
    && (i == 0 || IsWhitespace(s[i - 1])) && (j == |s| || IsWhitespace(s[j]))
  }

  /** A word at its place is such a run. */
  ghost predicate WordAt(s: string, place: nat, w: string) {
    Run(s, place, place + |w|) && w == s[place..place + |w|]
  }

  /** `words` are the runs of `s` from `from` on, in order, each at its place, none left out. */
  ghost predicate RunsFrom(s: string, from: nat, places: seq<nat>, words: seq<string>) {
    && |places| == |words|
    && (forall a | 0 <= a < |words| :: from <= places[a] && WordAt(s, places[a], words[a]))
    && (forall a, b | 0 <= a < b < |words| :: places[a] + |words[a]| < places[b])
    && (forall k | from <= k < |s| && !IsWhitespace(s[k]) :: InWord(places, words, k))
  }

  ghost predicate InWord(places: seq<nat>, words: seq<string>, k: nat)
    requires |places| == |words|
  {
    exists a :: 0 <= a < |words| && places[a] <= k < places[a] + |words[a]|
  }

  lemma LaterWord(places: seq<nat>, words: seq<string>, place: nat, w: string, k: nat)
    requires |places| == |words|
    ensures InWord([place] + places, [w] + words, k) <==> place <= k < place + |w| || InWord(places, words, k)
  {
    var places', words' := [place] + places, [w] + words;
    assert places'[0] == place && words'[0] == w;
    if InWord(places, words, k) {
      var a :| 0 <= a < |words| && places[a] <= k < places[a] + |words[a]|;
      assert places'[a + 1] == places[a] && words'[a + 1] == words[a];
    }
  }

  lemma NextWord(s: string, from: nat, i: nat, places: seq<nat>, words: seq<string>)
    requires Run(s, from, i) && i < |s| && RunsFrom(s, i + 1, places, words)
    ensures RunsFrom(s, from, [from] + places, [s[from..i]] + words)
  {
    hide InWord, WordAt;
    var places', words' := [from] + places, [s[from..i]] + words;
    assert WordAt(s, from, s[from..i]) by { OneWord(s, from, i); }
    forall k | from <= k < |s| && !IsWhitespace(s[k]) ensures InWord(places', words', k) {
      LaterWord(places, words, from, s[from..i], k);
    }
    forall a, b | 0 <= a < b < |words'| ensures places'[a] + |words'[a]| < places'[b] {}
  }

  lemma OneWord(s: string, from: nat, i: nat)
    requires Run(s, from, i)
    ensures WordAt(s, from, s[from..i])
  {}

  /** The words read from `i` on with the run from `from` open are the runs from `from` on. */
  lemma {:induction false} WordsFromRuns(s: string, from: nat, i: nat) returns (places: seq<nat>)
    requires from <= i <= |s| && (from == 0 || IsWhitespace(s[from - 1]))
    requires forall k | from <= k < i :: !IsWhitespace(s[k])
    ensures RunsFrom(s, from, places, WordsFrom(s[i..], s[from..i]))
    decreases |s| - i
  {
    hide RunsFrom, NormalizeLineEndings;
    if i == |s| {
      places := LastWord(s, from);
    } else if IsWhitespace(s[i]) {
      assert s[i..][1..] == s[i + 1..] && s[i + 1..i + 1] == [];
      var rest := WordsFromRuns(s, i + 1, i + 1);
      if from < i {
        NextWord(s, from, i, rest, WordsFrom(s[i + 1..], []));
        places := [from] + rest;
      } else {
        SkipSpace(s, i, rest, WordsFrom(s[i + 1..], []));
        assert s[from..i] == [] && WordsFrom(s[i..], []) == WordsFrom(s[i + 1..], []);
        places := rest;
      }
    } else {
      assert s[i..][1..] == s[i + 1..] && s[from..i] + [s[i]] == s[from..i + 1];
      places := WordsFromRuns(s, from, i + 1);
    }
  }

  lemma LastWord(s: string, from: nat) returns (places: seq<nat>)
    requires from <= |s| && (from == 0 || IsWhitespace(s[from - 1]))
    requires forall k | from <= k < |s| :: !IsWhitespace(s[k])
    ensures RunsFrom(s, from, places, WordsFrom(s[|s|..], s[from..|s|]))
  {
    var words := WordsFrom(s[|s|..], s[from..|s|]);
    if from == |s| {
      places := [];
    } else {
      places := [from];
      OneWord(s, from, |s|);
      forall k | from <= k < |s| ensures InWord(places, words, k) { assert places[0] <= k < places[0] + |words[0]|; }
    }
  }

  lemma SkipSpace(s: string, i: nat, places: seq<nat>, words: seq<string>)
    requires i < |s| && IsWhitespace(s[i]) && RunsFrom(s, i + 1, places, words)
    ensures RunsFrom(s, i, places, words)
  {}

  /** One space between neighbours, none at either end. */
  ghost function Spaced(words: seq<string>): string {
    if words == [] then [] else if |words| == 1 then words[0] else words[0] + " " + Spaced(words[1..])
  }

  lemma {:induction false} SpacedLast(words: seq<string>, w: string)
    ensures Spaced(words + [w]) == if words == [] then w else Spaced(words) + " " + w
    decreases |words|
  {
    if words == [] {
      assert words + [w] == [w];
    } else {
      assert (words + [w])[1..] == words[1..] + [w];
      SpacedLast(words[1..], w);
    }
  }

  lemma {:induction false} JoinIsSpaced(words: seq<string>)
    ensures Join(words) == Spaced(words)
    decreases |words|
  {
    if |words| > 1 {
      var front, last := words[..|words| - 1], words[|words| - 1];
      JoinIsSpaced(front);
      assert words == front + [last];
      SpacedLast(front, last);
    }
  }

  /** Folding gives the runs of the text without whitespace, all of them, in their order, with
      one space between them and nothing else. */
  lemma FoldMeaning(s: string)
    ensures exists places, words :: RunsFrom(s, 0, places, words) && Fold(s) == Spaced(words)
  {
    var places := WordsFromRuns(s, 0, 0);
    assert s[0..] == s && s[0..0] == [];
    JoinIsSpaced(WordsFrom(s, []));
    assert RunsFrom(s, 0, places, WordsFrom(s, []));
  }

  // ---------- the canonical forms ----------

  /** A line is accepted exactly when it has no line break and no unsafe character and its words
      have the length asked for; it is then those words. */
  lemma MemoryLineMeaning(value: string, minBytes: nat, maxBytes: nat)
    ensures var r := CanonicalMemoryLine(value, minBytes, maxBytes);
            && (r == Err(UnsafeText) <==> exists c | c in value :: c == '\n' || c == '\r' || IsUnsafeMemoryCharacter(c))
            && (r.Ok? ==> r.value == Fold(value) && minBytes <= ByteLength(r.value) <= maxBytes)
            && (r == Err(InvalidField) ==> !(minBytes <= ByteLength(Fold(value)) <= maxBytes))
  {
    hide NormalizeLineEndings, Rewritten, ByteLength, Fold, IsUnsafeMemoryCharacter;
    var normalized := NormalizeLineEndings(value);
    LineEndingsMeaning(value);
    var kept :| Rewritten(value, kept, normalized);
    if exists c | c in value :: c == '\n' || c == '\r' || IsUnsafeMemoryCharacter(c) {
      var i :| 0 <= i < |value| && (value[i] == '\n' || value[i] == '\r' || IsUnsafeMemoryCharacter(value[i]));
      BadStays(value, kept, normalized, i);
    } else {
      NormalizeLineEndingsFixpoint(value);
    }
  }

  /** A bad character, or the line feed after it, survives the rewriting as a bad character. */
  lemma BadStays(s: string, kept: seq<nat>, r: string, i: nat)
    requires Rewritten(s, kept, r) && i < |s| && (s[i] == '\n' || s[i] == '\r' || IsUnsafeMemoryCharacter(s[i]))
    ensures '\n' in r || exists c | c in r :: IsUnsafeMemoryCharacter(c)
  {
    var k := if BeforeLineFeed(s, i) then i + 1 else i;
    assert k in kept;
    var a :| 0 <= a < |kept| && kept[a] == k;
    assert r[a] in r;
  }

  /** Several lines may have any line break; everything else that is unsafe is refused. */
  lemma MemoryMultilineMeaning(value: string, minBytes: nat, maxBytes: nat)
    ensures var r := CanonicalMemoryMultiline(value, minBytes, maxBytes);
            && (r == Err(UnsafeText) <==> exists c | c in value :: c != '\r' && IsUnsafeMemoryCharacter(c))
            && (r.Ok? <==>
                  && (forall c | c in value :: c != '\r' ==> !IsUnsafeMemoryCharacter(c))
                  && minBytes <= ByteLength(NormalizeLineEndings(value)) <= maxBytes)
            && (r.Ok? ==> r.value == NormalizeLineEndings(value))
  {
    hide NormalizeLineEndings, ByteLength;
    var r := NormalizeLineEndings(value);
    LineEndingsMeaning(value);
    var kept :| Rewritten(value, kept, r);
    if exists c | c in value :: c != '\r' && IsUnsafeMemoryCharacter(c) {
      var i :| 0 <= i < |value| && value[i] != '\r' && IsUnsafeMemoryCharacter(value[i]);
      assert i in kept;
      var a :| 0 <= a < |kept| && kept[a] == i;
      assert r[a] in r;
    }
    if exists c | c in r :: IsUnsafeMemoryCharacter(c) {
      var a :| 0 <= a < |r| && IsUnsafeMemoryCharacter(r[a]);
      assert value[kept[a]] in value;
    }
  }
}
