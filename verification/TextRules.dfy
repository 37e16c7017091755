/** Whitespace folding and the canonical text forms of src/memory/entry.rs and
    src/agents/normalization.rs.  Unicode normalisation and case folding stay
    uninterpreted: callers supply them as a function. */
module TextRules {
  import opened Prelude

  datatype TextError = UnsafeText | InvalidField

  predicate IsWhitespace(c: char) {
    var n := c as int;
    || 0x09 <= n <= 0x0D || n == 0x20 || n == 0x85 || n == 0xA0 || n == 0x1680
    || 0x2000 <= n <= 0x200A || n == 0x2028 || n == 0x2029 || n == 0x202F
    || n == 0x205F || n == 0x3000
  }

  // ---------- words ----------

  ghost predicate IsWord(w: string) {
    w != [] && forall c | c in w :: !IsWhitespace(c)
  }

  /** The maximal runs of non-whitespace in `s`, given the run `open` so far. */
  function WordsFrom(s: string, open: string): seq<string> {
    if s == [] then Closed(open)
    else if IsWhitespace(s[0]) then Closed(open) + WordsFrom(s[1..], [])
    else WordsFrom(s[1..], open + [s[0]])
  }

  function Closed(open: string): seq<string> {
    if open == [] then [] else [open]
  }

  function Join(words: seq<string>): string {
    if |words| == 0 then []
    else if |words| == 1 then words[0]
    else Join(words[..|words| - 1]) + " " + words[|words| - 1]
  }

  /** The words of `s`, one space between neighbours, none at either end. */
  function Fold(s: string): string { Join(WordsFrom(s, [])) }

  lemma {:induction false} WordsAreWords(s: string, open: string)
    requires forall c | c in open :: !IsWhitespace(c)
    ensures forall w | w in WordsFrom(s, open) :: IsWord(w)
  {
    if s != [] {
      if IsWhitespace(s[0]) {
        WordsAreWords(s[1..], []);
      } else {
        WordsAreWords(s[1..], open + [s[0]]);
      }
    }
  }

  lemma {:induction false} WordsOfWord(w: string, open: string, rest: string)
    requires forall c | c in w :: !IsWhitespace(c)
    ensures WordsFrom(w + rest, open) == WordsFrom(rest, open + w)
  {
    if w == [] {
      assert w + rest == rest && open + w == open;
    } else {
      assert (w + rest)[1..] == w[1..] + rest;
      WordsOfWord(w[1..], open + [w[0]], rest);
      assert open + [w[0]] + w[1..] == open + w;
    }
  }

  /** Once whitespace follows a joined list of words, exactly those words are read back. */
  lemma {:induction false} WordsOfJoin(words: seq<string>, rest: string)
    requires words != [] && forall w | w in words :: IsWord(w)
    ensures WordsFrom(Join(words) + rest, []) == words[..|words| - 1] + WordsFrom(rest, words[|words| - 1])
  {
    var last := words[|words| - 1];
    assert last in words && IsWord(last);
    if |words| == 1 {
      WordsOfWord(last, [], rest);
      assert [] + last == last;
    } else {
      var front := words[..|words| - 1];
      var tail := " " + last + rest;
      assert Join(words) + rest == Join(front) + tail;
      forall w | w in front ensures IsWord(w) { assert w in words; }
      WordsOfJoin(front, tail);
      assert IsWord(front[|front| - 1]);
      assert tail[0] == ' ' && tail[1..] == last + rest;
      WordsOfWord(last, [], rest);
      assert [] + last == last;
      assert words[..|words| - 1] == front[..|front| - 1] + [front[|front| - 1]];
    }
  }

  lemma FoldIdempotent(s: string)
    ensures Fold(Fold(s)) == Fold(s)
  {
    var words := WordsFrom(s, []);
    WordsAreWords(s, []);
    if words != [] {
      WordsOfJoin(words, []);
      assert Join(words) + [] == Join(words);
      assert IsWord(words[|words| - 1]);
      assert words[..|words| - 1] + [words[|words| - 1]] == words;
    }
  }

  lemma {:induction false} JoinChars(words: seq<string>, c: char)
    requires c in Join(words)
    ensures c == ' ' || exists i :: 0 <= i < |words| && c in words[i]
  {
    if |words| > 1 && c in Join(words[..|words| - 1]) {
      JoinChars(words[..|words| - 1], c);
      if c != ' ' {
        var i :| 0 <= i < |words| - 1 && c in words[..|words| - 1][i];
        assert c in words[i];
      }
    } else if |words| >= 1 && c != ' ' {
      assert c in words[|words| - 1];
    }
  }

  lemma {:induction false} WordChars(s: string, open: string, i: nat, c: char)
    requires i < |WordsFrom(s, open)| && c in WordsFrom(s, open)[i]
    ensures c in s || c in open
  {
    if s != [] {
      if !IsWhitespace(s[0]) {
        WordChars(s[1..], open + [s[0]], i, c);
      } else if i >= |Closed(open)| {
        WordChars(s[1..], [], i - |Closed(open)|, c);
      }
    }
  }

  /** Folding introduces no character except the single space. */
  lemma FoldChars(s: string, c: char)
    requires c in Fold(s)
    ensures c == ' ' || c in s
  {
    JoinChars(WordsFrom(s, []), c);
    if c != ' ' {
      var i :| 0 <= i < |WordsFrom(s, [])| && c in WordsFrom(s, [])[i];
      WordChars(s, [], i, c);
    }
  }

  lemma JoinSnoc(words: seq<string>, w: string)
    ensures Join(words + [w]) == if words == [] then w else Join(words) + " " + w
  {
    assert (words + [w])[..|words|] == words;
  }

  lemma {:induction false} JoinNonEmpty(words: seq<string>)
    requires words != [] && forall w | w in words :: IsWord(w)
    ensures Join(words) != []
  {
    assert IsWord(words[0]);
  }

  /** The one-pass loop with a pending-space flag computes `Fold`. */
  method FoldWhitespace(value: string) returns (folded: string)
    ensures folded == Fold(value)
  {
    folded := [];
    var pendingSpace := false;
    ghost var done: seq<string> := [];
    ghost var open: string := [];
    for i := 0 to |value|
      invariant folded == Join(done + Closed(open))
      invariant pendingSpace <==> open == [] && done != []
      invariant WordsFrom(value, []) == done + WordsFrom(value[i..], open)
      invariant forall c | c in open :: !IsWhitespace(c)
      invariant forall w | w in done :: IsWord(w)
    {
      var character := value[i];
      assert value[i..][1..] == value[i + 1..];
      if IsWhitespace(character) {
        pendingSpace := folded != [];
        if done + Closed(open) != [] {
          JoinNonEmpty(done + Closed(open));
        }
        done, open := done + Closed(open), [];
        assert done + [] == done;
      } else {
        if pendingSpace {
          folded := folded + " ";
          pendingSpace := false;
        }
        folded := folded + [character];
        JoinSnoc(done, open + [character]);
        if open != [] {
          JoinSnoc(done, open);
        } else {
          assert done + Closed(open) == done;
        }
        open := open + [character];
      }
    }
    assert value[|value|..] == [];
  }

  // ---------- line endings, unsafe characters, lengths ----------

  function NormalizeLineEndings(s: string): (r: string)
    ensures '\r' !in r
    ensures forall c | c in r :: c == '\n' || c in s
  {
    if s == [] then []
    else if s[0] == '\r' then
      ['\n'] + (if |s| > 1 && s[1] == '\n' then NormalizeLineEndings(s[2..]) else NormalizeLineEndings(s[1..]))
    else [s[0]] + NormalizeLineEndings(s[1..])
  }

  lemma {:induction false} NormalizeLineEndingsFixpoint(s: string)
    requires '\r' !in s
    ensures NormalizeLineEndings(s) == s
  {
    if s != [] {
      NormalizeLineEndingsFixpoint(s[1..]);
      assert s == [s[0]] + s[1..];
    }
  }

  predicate IsUnsafeMemoryCharacter(c: char) {
    var n := c as int;
    || n == 0 || n == 0x09 || 0x01 <= n <= 0x08 || 0x0B <= n <= 0x1F || 0x7F <= n <= 0x9F
    || n == 0x2028 || n == 0x2029 || 0x202A <= n <= 0x202E || 0x2066 <= n <= 0x2069
  }

  predicate IsUnsafeTerminalCharacter(c: char) {
    var n := c as int;
    || 0x00 <= n <= 0x1F || 0x7F <= n <= 0x9F
    || n == 0x2028 || n == 0x2029 || 0x202A <= n <= 0x202E || 0x2066 <= n <= 0x2069
  }

  /** Length in UTF-8 bytes. */
  function ByteLength(s: string): nat {
    if s == [] then 0
    else
      var n := s[0] as int;
      (if n < 0x80 then 1 else if n < 0x800 then 2 else if n < 0x10000 then 3 else 4) + ByteLength(s[1..])
  }

  function WithinLength(s: string, minBytes: nat, maxBytes: nat): Result<string, TextError> {
    if minBytes <= ByteLength(s) <= maxBytes then Ok(s) else Err(InvalidField)
  }

  function CanonicalMemoryLine(value: string, minBytes: nat, maxBytes: nat): Result<string, TextError> {
    var normalized := NormalizeLineEndings(value);
    if '\n' in normalized || exists c | c in normalized :: IsUnsafeMemoryCharacter(c) then Err(UnsafeText)
    else WithinLength(Fold(normalized), minBytes, maxBytes)
  }

  function CanonicalMemoryMultiline(value: string, minBytes: nat, maxBytes: nat): Result<string, TextError> {
    var canonical := NormalizeLineEndings(value);
    if exists c | c in canonical :: IsUnsafeMemoryCharacter(c) then Err(UnsafeText)
    else WithinLength(canonical, minBytes, maxBytes)
  }

  /** src/agents/normalization.rs: no line-ending rewriting, `\n` and `\r` unsafe. */
  function CanonicalVisibleText(value: string, maxBytes: nat, allowEmpty: bool): Result<string, TextError> {
    if exists c | c in value :: IsUnsafeTerminalCharacter(c) then Err(UnsafeText)
    else
      var canonical := Fold(value);
      if (!allowEmpty && canonical == []) || ByteLength(canonical) > maxBytes then Err(InvalidField)
      else Ok(canonical)
  }

  /** A canonical line is accepted again and unchanged. */
  lemma CanonicalMemoryLineIdempotent(value: string, minBytes: nat, maxBytes: nat)
    requires CanonicalMemoryLine(value, minBytes, maxBytes).Ok?
    ensures var line := CanonicalMemoryLine(value, minBytes, maxBytes).value;
            CanonicalMemoryLine(line, minBytes, maxBytes) == Ok(line)
  {
    var normalized := NormalizeLineEndings(value);
    var line := Fold(normalized);
    forall c | c in line ensures c != '\n' && c != '\r' && !IsUnsafeMemoryCharacter(c) {
      FoldChars(normalized, c);
    }
    NormalizeLineEndingsFixpoint(line);
    FoldIdempotent(normalized);
  }

  lemma CanonicalMemoryMultilineIdempotent(value: string, minBytes: nat, maxBytes: nat)
    requires CanonicalMemoryMultiline(value, minBytes, maxBytes).Ok?
    ensures var text := CanonicalMemoryMultiline(value, minBytes, maxBytes).value;
            CanonicalMemoryMultiline(text, minBytes, maxBytes) == Ok(text)
  {
    NormalizeLineEndingsFixpoint(NormalizeLineEndings(value));
  }

  lemma CanonicalVisibleTextIdempotent(value: string, maxBytes: nat, allowEmpty: bool)
    requires CanonicalVisibleText(value, maxBytes, allowEmpty).Ok?
    ensures var text := CanonicalVisibleText(value, maxBytes, allowEmpty).value;
            CanonicalVisibleText(text, maxBytes, allowEmpty) == Ok(text)
  {
    var text := Fold(value);
    forall c | c in text ensures !IsUnsafeTerminalCharacter(c) {
      FoldChars(value, c);
    }
    FoldIdempotent(value);
  }
}
