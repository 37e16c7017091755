/** The append-only, hash-linked event stream: src/app/event.rs and
    src/persistence/event_repository.rs. */
module EventLog {
  import opened Prelude

  const EVENT_SCHEMA_VERSION := 1

  datatype ObjectRef = ObjectRef(kind: string, id: string, version: nat, digest: nat)

  /** An event before it has a place in the stream; `E` is what happened. */
  datatype Pending<E> = Pending(
    eventId: nat, schemaVersion: nat, actor: Actor, occurredAt: int, correlation: nat, causation: Option<nat>,
    about: Option<ObjectRef>, event: E)

  datatype Envelope<E> = Envelope(sequence: nat, pending: Pending<E>, previous: Option<nat>, digest: nat)

  /** A stored row: the event as a kind and a canonical payload. */
  datatype Wire = Wire(
    sequence: nat, eventId: nat, schemaVersion: nat, actor: Actor, occurredAt: int, correlation: nat, causation: Option<nat>,
    about: Option<ObjectRef>, kind: string, payload: string, previous: Option<nat>, digest: nat)

  /** What an event digest covers: the row without its digest. */
  datatype Material = Material(
    sequence: nat, eventId: nat, schemaVersion: nat, actor: Actor, occurredAt: int, correlation: nat, causation: Option<nat>,
    about: Option<ObjectRef>, kind: string, payload: string, previous: Option<nat>)

  /** Serialisation of events and the digest. */
  datatype Codec<!E> = Codec(
    kind: E -> string, payload: E -> string, decode: (string, string) -> Option<E>, hash: Material -> nat)

  /** Serialised events read back as they were. */
  ghost predicate Decodes<E(!new)>(codec: Codec<E>) {
    forall e: E :: codec.decode(codec.kind(e), codec.payload(e)) == Some(e)
  }

  ghost predicate CollisionFree<E>(codec: Codec<E>) {
    forall a, b | codec.hash(a) == codec.hash(b) :: a == b
  }

  datatype LogError = UnsupportedEventSchema | InvalidEventRecord | InvalidPredecessorShape | EventDigestMismatch
    | EventSequenceGap | PreviousEventDigestMismatch | IdempotencyConflict | QueryFailed

  // ---------- envelopes and rows ----------

  function MaterialOf<E>(codec: Codec<E>, sequence: nat, p: Pending<E>, previous: Option<nat>): Material {
    Material(sequence, p.eventId, p.schemaVersion, p.actor, p.occurredAt, p.correlation, p.causation, p.about,
      codec.kind(p.event), codec.payload(p.event), previous)
  }

  function EnvelopeFromPending<E>(codec: Codec<E>, sequence: nat, p: Pending<E>, previous: Option<nat>): Envelope<E> {
    Envelope(sequence, p, previous, codec.hash(MaterialOf(codec, sequence, p, previous)))
  }

  function ToWire<E>(codec: Codec<E>, e: Envelope<E>): Wire {
    var p := e.pending;
    Wire(e.sequence, p.eventId, p.schemaVersion, p.actor, p.occurredAt, p.correlation, p.causation, p.about,
      codec.kind(p.event), codec.payload(p.event), e.previous, e.digest)
  }

  /** Decoding also insists on the kind and the canonical payload. */
  function DecodeEvent<E>(codec: Codec<E>, kind: string, payload: string): Option<E> {
    match codec.decode(kind, payload)
    case None => None
    case Some(event) => if codec.kind(event) == kind && codec.payload(event) == payload then Some(event) else None
  }

  function FromWire<E>(codec: Codec<E>, w: Wire): Result<Envelope<E>, LogError> {
    if w.sequence == 0 then Err(InvalidEventRecord)
    else if w.schemaVersion != EVENT_SCHEMA_VERSION then Err(UnsupportedEventSchema)
    else if (w.sequence == 1) != w.previous.None? then Err(InvalidPredecessorShape)
    else match DecodeEvent(codec, w.kind, w.payload)
      case None => Err(InvalidEventRecord)
      case Some(event) =>
        var p := Pending(w.eventId, w.schemaVersion, w.actor, w.occurredAt, w.correlation, w.causation, w.about, event);
        if codec.hash(MaterialOf(codec, w.sequence, p, w.previous)) != w.digest then Err(EventDigestMismatch)
        else Ok(Envelope(w.sequence, p, w.previous, w.digest))
  }

  /** An envelope as `append` makes them. */
  ghost predicate WellMade<E>(codec: Codec<E>, e: Envelope<E>) {
    && e.sequence >= 1 && e.pending.schemaVersion == EVENT_SCHEMA_VERSION
    && (e.sequence == 1) == e.previous.None?
    && e.digest == codec.hash(MaterialOf(codec, e.sequence, e.pending, e.previous))
  }

  /** Writing and reading back an appended envelope gives it back. */
  lemma WireRoundTrip<E(!new)>(codec: Codec<E>, e: Envelope<E>)
    requires Decodes(codec) && WellMade(codec, e)
    ensures FromWire(codec, ToWire(codec, e)) == Ok(e)
  {
    assert codec.decode(codec.kind(e.pending.event), codec.payload(e.pending.event)) == Some(e.pending.event);
  }

  /** Any row that reads back is the canonical row of what was read. */
  lemma WireIsCanonical<E>(codec: Codec<E>, w: Wire)
    requires FromWire(codec, w).Ok?
    ensures ToWire(codec, FromWire(codec, w).value) == w && WellMade(codec, FromWire(codec, w).value)
  {}

  // ---------- the stream ----------

  function FindEvent(log: seq<Wire>, eventId: nat): Option<Wire> {
    if log == [] then None else if log[0].eventId == eventId then Some(log[0]) else FindEvent(log[1..], eventId)
  }

  function ReplayOrConflict<E(==)>(existing: Envelope<E>, p: Pending<E>): Result<Envelope<E>, LogError> {
    if existing.pending == p then Ok(existing) else Err(IdempotencyConflict)
  }

  function Previous(log: seq<Wire>): Option<nat> { if log == [] then None else Some(log[|log| - 1].digest) }

  function NextSequence(log: seq<Wire>): nat { if log == [] then 1 else log[|log| - 1].sequence + 1 }

  /** The stream after an append, and what the caller gets. */
  function Append<E(==)>(codec: Codec<E>, log: seq<Wire>, p: Pending<E>): (seq<Wire>, Result<Envelope<E>, LogError>) {
    if p.schemaVersion != EVENT_SCHEMA_VERSION then (log, Err(UnsupportedEventSchema))
    else match FindEvent(log, p.eventId)
      case Some(row) =>
        (log, match FromWire(codec, row) case Err(e) => Err(e) case Ok(existing) => ReplayOrConflict(existing, p))
      case None =>
        var e := EnvelopeFromPending(codec, NextSequence(log), p, Previous(log));
        if e.sequence > I64_MAX || (p.about.Some? && p.about.value.version > I64_MAX) then (log, Err(InvalidEventRecord))
        else if exists i | 0 <= i < |log| :: log[i].digest == e.digest then (log, Err(QueryFailed))
        else (log + [ToWire(codec, e)], Ok(e))
  }

  function DecodeAll<E>(codec: Codec<E>, log: seq<Wire>): Result<seq<Envelope<E>>, LogError>
    decreases |log|
  {
    if log == [] then Ok([])
    else
      var first :- FromWire(codec, log[0]);
      var rest :- DecodeAll(codec, log[1..]);
      Ok([first] + rest)
  }

  function VerifyLinks<E>(events: seq<Envelope<E>>, index: nat, previous: Option<nat>): Result<(), LogError>
    decreases |events|
  {
    if events == [] then Ok(())
    else if events[0].sequence != index + 1 then Err(EventSequenceGap)
    else if events[0].previous != previous then Err(PreviousEventDigestMismatch)
    else VerifyLinks(events[1..], index + 1, Some(events[0].digest))
  }

  function Verify<E>(codec: Codec<E>, log: seq<Wire>): Result<(), LogError> {
    var events :- DecodeAll(codec, log);
    VerifyLinks(events, 0, None)
  }

  // ---------- what verification means ----------

  /** Row `i` reads back, is numbered `i + 1` and names the digest of the row before it. */
  ghost predicate Linked<E>(codec: Codec<E>, log: seq<Wire>, i: nat)
    requires i < |log|
  {
    && FromWire(codec, log[i]).Ok?
    && log[i].sequence == i + 1
    && log[i].previous == (if i == 0 then None else Some(log[i - 1].digest))
  }

  ghost predicate Sound<E>(codec: Codec<E>, log: seq<Wire>) {
    forall i | 0 <= i < |log| :: Linked(codec, log, i)
  }

  lemma {:induction false} DecodeAllMeaning<E>(codec: Codec<E>, log: seq<Wire>)
    ensures DecodeAll(codec, log).Ok? <==> forall i | 0 <= i < |log| :: FromWire(codec, log[i]).Ok?
    ensures DecodeAll(codec, log).Ok? ==>
              && |DecodeAll(codec, log).value| == |log|
              && forall i | 0 <= i < |log| :: FromWire(codec, log[i]) == Ok(DecodeAll(codec, log).value[i])
  {
    if log != [] {
      DecodeAllMeaning(codec, log[1..]);
      if FromWire(codec, log[0]).Ok? && DecodeAll(codec, log[1..]).Ok? {
        forall i | 0 <= i < |log| ensures FromWire(codec, log[i]) == Ok(DecodeAll(codec, log).value[i]) {
          if i > 0 { assert log[i] == log[1..][i - 1]; }
        }
      } else if FromWire(codec, log[0]).Ok? {
        var i :| 0 <= i < |log[1..]| && FromWire(codec, log[1..][i]).Err?;
        assert log[i + 1] == log[1..][i];
      }
    }
  }

  /** Event `i` of a list is numbered and linked, given what comes before the list. */
  ghost predicate LinkedIn<E>(events: seq<Envelope<E>>, i: nat, index: nat, previous: Option<nat>)
    requires i < |events|
  {
    && events[i].sequence == index + i + 1
    && events[i].previous == (if i == 0 then previous else Some(events[i - 1].digest))
  }

  lemma {:induction false} VerifyLinksMeaning<E>(events: seq<Envelope<E>>, index: nat, previous: Option<nat>)
    ensures VerifyLinks(events, index, previous).Ok? <==> forall i | 0 <= i < |events| :: LinkedIn(events, i, index, previous)
  {
    if events != [] {
      var rest := events[1..];
      VerifyLinksMeaning(rest, index + 1, Some(events[0].digest));
      assert LinkedIn(events, 0, index, previous) <==> events[0].sequence == index + 1 && events[0].previous == previous;
      forall i | 1 <= i < |events|
        ensures LinkedIn(events, i, index, previous) <==> LinkedIn(rest, i - 1, index + 1, Some(events[0].digest))
      {
        assert events[i] == rest[i - 1] && (i > 1 ==> events[i - 1] == rest[i - 2]);
      }
      if VerifyLinks(events, index, previous).Ok? {
        forall i | 0 <= i < |events| ensures LinkedIn(events, i, index, previous) {
          if i > 0 { assert LinkedIn(rest, i - 1, index + 1, Some(events[0].digest)); }
        }
      } else if LinkedIn(events, 0, index, previous) {
        var i :| 0 <= i < |rest| && !LinkedIn(rest, i, index + 1, Some(events[0].digest));
        assert !LinkedIn(events, i + 1, index, previous);
      }
    }
  }

  /** The verification loop accepts exactly the contiguously numbered, linked streams. */
  lemma VerifyMeaning<E>(codec: Codec<E>, log: seq<Wire>)
    ensures Verify(codec, log).Ok? <==> Sound(codec, log)
  {
    hide FromWire;
    DecodeAllMeaning(codec, log);
    if DecodeAll(codec, log).Ok? {
      var events := DecodeAll(codec, log).value;
      VerifyLinksMeaning(events, 0, None);
      forall i | 0 <= i < |log| ensures LinkedIn(events, i, 0, None) <==> Linked(codec, log, i) {
        RowOfEnvelope(codec, log[i], events[i]);
        if i > 0 { RowOfEnvelope(codec, log[i - 1], events[i - 1]); }
      }
    } else {
      var i :| 0 <= i < |log| && FromWire(codec, log[i]).Err?;
      assert !Linked(codec, log, i);
    }
  }

  lemma RowOfEnvelope<E>(codec: Codec<E>, w: Wire, e: Envelope<E>)
    requires FromWire(codec, w) == Ok(e)
    ensures e.sequence == w.sequence && e.previous == w.previous && e.digest == w.digest && e.pending.eventId == w.eventId
  {}

  // ---------- appending ----------

  lemma {:induction false} FindEventMeaning(log: seq<Wire>, eventId: nat)
    ensures FindEvent(log, eventId).None? <==> forall i | 0 <= i < |log| :: log[i].eventId != eventId
    ensures FindEvent(log, eventId).Some? ==> FindEvent(log, eventId).value in log && FindEvent(log, eventId).value.eventId == eventId
  {
    if log != [] && log[0].eventId != eventId {
      FindEventMeaning(log[1..], eventId);
      if FindEvent(log[1..], eventId).Some? {
        assert FindEvent(log[1..], eventId).value in log;
        var i :| 0 <= i < |log| && log[i] == FindEvent(log[1..], eventId).value;
      }
    }
  }

  lemma {:induction false} FindEventIn(log: seq<Wire>, row: Wire)
    requires row in log && forall i, j | 0 <= i < j < |log| :: log[i].eventId != log[j].eventId
    ensures FindEvent(log, row.eventId) == Some(row)
  {
    var i :| 0 <= i < |log| && log[i] == row;
    if i > 0 {
      assert log[1..][i - 1] == row;
      FindEventIn(log[1..], row);
    }
  }

  ghost predicate UniqueEvents(log: seq<Wire>) {
    forall i, j | 0 <= i < j < |log| :: log[i].eventId != log[j].eventId
  }

  /** Every append keeps the stream verifiable; it extends it by the one new event or not at all. */
  lemma AppendKeepsSound<E(!new)>(codec: Codec<E>, log: seq<Wire>, p: Pending<E>)
    requires Decodes(codec) && Sound(codec, log) && UniqueEvents(log)
    ensures var (log', r) := Append(codec, log, p);
            && Sound(codec, log') && UniqueEvents(log')
            && (log' == log || (r.Ok? && log' == log + [ToWire(codec, r.value)] && r.value.pending == p && r.value.sequence == |log| + 1))
  {
    var (log', r) := Append(codec, log, p);
    FindEventMeaning(log, p.eventId);
    if log' != log {
      if log != [] { assert Linked(codec, log, |log| - 1); }
      WireRoundTrip(codec, r.value);
      forall i | 0 <= i < |log'| ensures Linked(codec, log', i) {
        if i < |log| { assert Linked(codec, log, i); }
      }
    }
  }

  /** A stored event appended again is returned as it is stored; a different event under
      its id is refused; the stream does not change either way. */
  lemma AppendIsIdempotent<E(!new)>(codec: Codec<E>, log: seq<Wire>, row: Wire, p: Pending<E>)
    requires Sound(codec, log) && UniqueEvents(log) && row in log
    requires p.eventId == row.eventId && p.schemaVersion == EVENT_SCHEMA_VERSION
    ensures FromWire(codec, row).Ok?
    ensures var stored := FromWire(codec, row).value;
            Append(codec, log, p) == (log, if p == stored.pending then Ok(stored) else Err(IdempotencyConflict))
  {
    FindEventIn(log, row);
    var i :| 0 <= i < |log| && log[i] == row;
    assert Linked(codec, log, i);
  }

  /** With a collision-free digest a new event is always accepted, up to the limits of the
      stored integers. */
  lemma AppendSucceedsExactly<E(!new)>(codec: Codec<E>, log: seq<Wire>, p: Pending<E>)
    requires CollisionFree(codec) && Sound(codec, log) && UniqueEvents(log)
    requires forall i | 0 <= i < |log| :: log[i].eventId != p.eventId
    ensures Append(codec, log, p).1.Ok? <==>
              && p.schemaVersion == EVENT_SCHEMA_VERSION && |log| < I64_MAX
              && (p.about.Some? ==> p.about.value.version <= I64_MAX)
  {
    FindEventMeaning(log, p.eventId);
    if log != [] { assert Linked(codec, log, |log| - 1); }
    var e := EnvelopeFromPending(codec, NextSequence(log), p, Previous(log));
    forall i | 0 <= i < |log| ensures log[i].digest != e.digest {
      assert Linked(codec, log, i);
      WireIsCanonical(codec, log[i]);
    }
  }

  // ---------- runs ----------

  function AppendAll<E(==)>(codec: Codec<E>, log: seq<Wire>, ps: seq<Pending<E>>): seq<Wire>
    decreases |ps|
  {
    if ps == [] then log else AppendAll(codec, Append(codec, log, ps[0]).0, ps[1..])
  }

  /** After any run of appends the stream verifies, and earlier rows are where they were. */
  lemma {:induction false} RunVerifies<E(!new)>(codec: Codec<E>, log: seq<Wire>, ps: seq<Pending<E>>)
    requires Decodes(codec) && Sound(codec, log) && UniqueEvents(log)
    ensures var log' := AppendAll(codec, log, ps);
            Verify(codec, log').Ok? && UniqueEvents(log') && log <= log'
    decreases |ps|
  {
    hide Append, Sound, Decodes, Verify;
    VerifyMeaning(codec, log);
    if ps != [] {
      AppendKeepsSound(codec, log, ps[0]);
      RunVerifies(codec, Append(codec, log, ps[0]).0, ps[1..]);
    }
  }

  /** With a collision-free digest, the last digest determines the whole stream. */
  lemma {:induction false} LastDigestDeterminesLog<E(!new)>(codec: Codec<E>, a: seq<Wire>, b: seq<Wire>)
    requires CollisionFree(codec) && Verify(codec, a).Ok? && Verify(codec, b).Ok?
    requires a != [] && b != [] && a[|a| - 1].digest == b[|b| - 1].digest
    ensures a == b
    decreases |a|
  {
    VerifyMeaning(codec, a);
    VerifyMeaning(codec, b);
    var x, y := a[|a| - 1], b[|b| - 1];
    assert Linked(codec, a, |a| - 1) && Linked(codec, b, |b| - 1);
    WireIsCanonical(codec, x);
    WireIsCanonical(codec, y);
    assert x == y;
    var a', b' := a[..|a| - 1], b[..|b| - 1];
    if a' != [] {
      PrefixVerifies(codec, a, |a| - 1);
      PrefixVerifies(codec, b, |b| - 1);
      LastDigestDeterminesLog(codec, a', b');
    }
    assert a == a' + [x] && b == b' + [y];
  }

  lemma PrefixVerifies<E>(codec: Codec<E>, log: seq<Wire>, n: nat)
    requires Verify(codec, log).Ok? && n <= |log|
    ensures Verify(codec, log[..n]).Ok?
  {
    VerifyMeaning(codec, log);
    VerifyMeaning(codec, log[..n]);
    forall i | 0 <= i < n ensures Linked(codec, log[..n], i) { assert Linked(codec, log, i); }
  }

  // ---------- reading a tail ----------

  function Through(sequence: nat): Wire -> bool { (w: Wire) => w.sequence <= sequence }

  /** Newest first up to the limit, then turned back into stream order. */
  function TailThrough(log: seq<Wire>, limit: nat, through: nat): seq<Wire> {
    Reverse(Take(Reverse(Filter(log, Through(through))), limit))
  }

  lemma {:induction false} FilterThrough<E>(codec: Codec<E>, log: seq<Wire>, n: nat)
    requires Sound(codec, log)
    ensures Filter(log, Through(n)) == log[..Min(n, |log|)]
    decreases |log|
  {
    if log != [] {
      var front, last := log[..|log| - 1], log[|log| - 1];
      assert Linked(codec, log, |log| - 1);
      forall i | 0 <= i < |front| ensures Linked(codec, front, i) { assert Linked(codec, log, i); }
      FilterThrough(codec, front, n);
      FilterAppend(front, last, Through(n));
      assert log == front + [last];
      assert front[..Min(n, |front|)] == log[..Min(n, |front|)];
    }
  }

  /** A bounded tail is the last rows up to the sequence asked for. */
  lemma TailMeaning<E>(codec: Codec<E>, log: seq<Wire>, limit: nat, through: nat)
    requires Verify(codec, log).Ok?
    ensures var m := Min(through, |log|);
            TailThrough(log, limit, through) == log[if limit < m then m - limit else 0..m]
  {
    hide Reverse, Verify, Filter, Take;
    VerifyMeaning(codec, log);
    FilterThrough(codec, log, through);
    LastOfReversed(log[..Min(through, |log|)], limit);
  }

  lemma LastOfReversed<T>(s: seq<T>, limit: nat)
    ensures Reverse(Take(Reverse(s), limit)) == s[if limit < |s| then |s| - limit else 0..]
  {
    hide Reverse;
    ReversedPrefix(s, Min(limit, |s|));
    if limit >= |s| { assert Reverse(s)[..|s|] == Reverse(s); }
  }

  lemma {:induction false} ReversedPrefix<T>(s: seq<T>, n: nat)
    requires n <= |s|
    ensures Reverse(Reverse(s)[..n]) == s[|s| - n..]
  {
    var prefix := Reverse(s)[..n];
    ReversedAt(prefix, s, n);
  }

  /** Position by position, so that no slice is compared with another. */
  lemma ReversedAt<T>(prefix: seq<T>, s: seq<T>, n: nat)
    requires n <= |s| && |prefix| == n && forall i | 0 <= i < n :: prefix[i] == s[|s| - 1 - i]
    ensures Reverse(prefix) == s[|s| - n..]
  {
    hide Reverse;
    var back := Reverse(prefix);
    forall i | 0 <= i < n ensures back[i] == s[|s| - n + i] {
      var j := n - 1 - i;
      assert back[i] == prefix[j] && prefix[j] == s[|s| - 1 - j];
    }
  }

  // ---------- the repository as it runs ----------

  class EventStream<E(==)> {
    var rows: seq<Wire>

    constructor ()
      ensures rows == []
    {
      rows := [];
    }

    /** Insert one event, or answer a repeated one from what is stored. */
    method AppendEvent(codec: Codec<E>, p: Pending<E>) returns (r: Result<Envelope<E>, LogError>)
      modifies this
      ensures (rows, r) == Append(codec, old(rows), p)
    {
      if p.schemaVersion != EVENT_SCHEMA_VERSION { return Err(UnsupportedEventSchema); }
      var found := FindEvent(rows, p.eventId);
      if found.Some? {
        var existing := FromWire(codec, found.value);
        if existing.Err? { return Err(existing.error); }
        return ReplayOrConflict(existing.value, p);
      }
      var e := EnvelopeFromPending(codec, NextSequence(rows), p, Previous(rows));
      if e.sequence > I64_MAX || (p.about.Some? && p.about.value.version > I64_MAX) { return Err(InvalidEventRecord); }
      if exists i | 0 <= i < |rows| :: rows[i].digest == e.digest { return Err(QueryFailed); }
      rows := rows + [ToWire(codec, e)];
      return Ok(e);
    }

    /** Decode every row, then walk them with a running digest. */
    method VerifyStream(codec: Codec<E>) returns (r: Result<(), LogError>)
      ensures r == Verify(codec, rows)
    {
      hide FromWire;
      var events: seq<Envelope<E>> := [];
      DecodeAllMeaning(codec, rows);
      for i := 0 to |rows|
        invariant |events| == i && forall k | 0 <= k < i :: FromWire(codec, rows[k]) == Ok(events[k])
      {
        var decoded := FromWire(codec, rows[i]);
        if decoded.Err? {
          FirstFailure(codec, rows, i);
          return Err(decoded.error);
        }
        events := events + [decoded.value];
      }
      assert DecodeAll(codec, rows).value == events;
      var previousDigest: Option<nat> := None;
      for index := 0 to |events|
        invariant VerifyLinks(events, 0, None) == VerifyLinks(events[index..], index, previousDigest)
      {
        assert events[index..][0] == events[index] && events[index..][1..] == events[index + 1..];
        if events[index].sequence != index + 1 { return Err(EventSequenceGap); }
        if events[index].previous != previousDigest { return Err(PreviousEventDigestMismatch); }
        previousDigest := Some(events[index].digest);
      }
      assert events[|events|..] == [];
      return Ok(());
    }
  }

  lemma {:induction false} FirstFailure<E>(codec: Codec<E>, log: seq<Wire>, i: nat)
    requires i < |log| && FromWire(codec, log[i]).Err?
    requires forall k | 0 <= k < i :: FromWire(codec, log[k]).Ok?
    ensures DecodeAll(codec, log) == Err(FromWire(codec, log[i]).error)
  {
    if i > 0 { FirstFailure(codec, log[1..], i - 1); }
  }
}
