/** The fold of the event stream (src/recovery/reducer.rs) and its stored rows
    (src/persistence/projection_repository.rs).  Installation and sessions are folded here;
    the profile, skill and memory projections are the parameter `R`. */
module ProjectionStore {
  import opened Prelude
  import opened EventLog

  datatype ShutdownReason = UserQuit | InputClosed | Interrupted | ApplicationError

  datatype Event<X> =
    | InstallationInitialized(installationId: nat)
    | ProcessSessionStarted(started: nat)
    | PreviousSessionInterrupted(interrupted: nat)
    | ProcessSessionEnded(ended: nat, reason: ShutdownReason)
    | ProjectionRebuilt(throughSequence: nat)
    | Other(detail: X)

  datatype Installation = Installation(installationId: nat, createdEvent: nat, createdAt: int)
  datatype SessionEnd = SessionEnd(endedEvent: nat, endedAt: int, reason: ShutdownReason)
  datatype Session = Session(sessionId: nat, startedEvent: nat, startedAt: int, ended: Option<SessionEnd>)

  datatype State<R> = State(
    installation: Option<Installation>, sessions: map<nat, Session>, rest: R, lastSequence: nat, lastDigest: Option<nat>)

  /** The parts of the fold and of the store that belong to the other projections:
      how an event changes them, when they are valid, which rows they keep of the active
      profiles, whether their tables accept them, and the digest of a whole state. */
  datatype Engine<!R, !X, !A> = Engine(
    initial: R, apply: (R, Envelope<Event<X>>) -> Option<R>, restOk: R -> bool, activeOf: R -> A,
    mirrorOk: R -> bool, digest: State<R> -> nat)

  datatype StoreError = UnsupportedSchema | SequenceGap | SequenceOverflow | DigestMismatch | InvalidRecord | Conflict

  // ---------- the fold ----------

  function OpenSessions(sessions: map<nat, Session>): set<nat> { set id | id in sessions && sessions[id].ended.None? }

  function EndedSessions(sessions: map<nat, Session>): set<nat> { set id | id in sessions && sessions[id].ended.Some? }

  predicate ValidState<R, X, A>(engine: Engine<R, X, A>, s: State<R>) {
    && (s.lastSequence == 0) == s.lastDigest.None?
    && (s.lastSequence == 0 ==> s.installation.None?)
    && engine.restOk(s.rest)
    && (s.installation.None? ==> s.sessions == map[])
    && (forall id | id in s.sessions :: s.sessions[id].sessionId == id)
    && s.lastSequence >= (if s.installation.Some? then 1 else 0) + |s.sessions| + |EndedSessions(s.sessions)|
    && |OpenSessions(s.sessions)| <= 1
  }

  function EndSession<R>(s: State<R>, id: nat, e: nat, at: int, reason: ShutdownReason): Option<State<R>> {
    if OpenSessions(s.sessions) != {id} then None
    else Some(s.(sessions := s.sessions[id := s.sessions[id].(ended := Some(SessionEnd(e, at, reason)))]))
  }

  /** What an event does to the state, before the bookkeeping of sequence and digest. */
  function ApplyEvent<R, X, A>(engine: Engine<R, X, A>, s: State<R>, e: Envelope<Event<X>>): Option<State<R>> {
    match e.pending.event
    case InstallationInitialized(id) =>
      if s.installation.Some? then None
      else Some(s.(installation := Some(Installation(id, e.pending.eventId, e.pending.occurredAt))))
    case ProcessSessionStarted(id) =>
      if s.installation.None? || id in s.sessions || OpenSessions(s.sessions) != {} then None
      else Some(s.(sessions := s.sessions[id := Session(id, e.pending.eventId, e.pending.occurredAt, None)]))
    case PreviousSessionInterrupted(id) => EndSession(s, id, e.pending.eventId, e.pending.occurredAt, Interrupted)
    case ProcessSessionEnded(id, reason) => EndSession(s, id, e.pending.eventId, e.pending.occurredAt, reason)
    case ProjectionRebuilt(through) => if through + 1 != e.sequence then None else Some(s)
    case Other(_) =>
      match engine.apply(s.rest, e) case None => None case Some(rest) => Some(s.(rest := rest))
  }

  function Reduce<R, X, A>(engine: Engine<R, X, A>, s: State<R>, e: Envelope<Event<X>>): Result<State<R>, StoreError> {
    if e.pending.schemaVersion != EVENT_SCHEMA_VERSION then Err(UnsupportedSchema)
    else if s.lastSequence >= U64_MAX then Err(SequenceOverflow)
    else if e.sequence != s.lastSequence + 1 then Err(SequenceGap)
    else if e.previous != s.lastDigest then Err(DigestMismatch)
    else match ApplyEvent(engine, s, e)
      case None => Err(InvalidRecord)
      case Some(applied) =>
        var next := applied.(lastSequence := e.sequence, lastDigest := Some(e.digest));
        if ValidState(engine, next) then Ok(next) else Err(InvalidRecord)
  }

  function Initial<R, X, A>(engine: Engine<R, X, A>): State<R> { State(None, map[], engine.initial, 0, None) }

  function Fold<R, X, A>(engine: Engine<R, X, A>, s: State<R>, events: seq<Envelope<Event<X>>>): Result<State<R>, StoreError>
    decreases |events|
  {
    if events == [] then Ok(s)
    else
      var next :- Reduce(engine, s, events[0]);
      Fold(engine, next, events[1..])
  }

  /** The state a whole stream of decoded events stands for. */
  function FoldAll<R, X, A>(engine: Engine<R, X, A>, events: seq<Envelope<Event<X>>>): Result<State<R>, StoreError> {
    Fold(engine, Initial(engine), events)
  }

  lemma {:induction false} FoldSplit<R, X, A>(engine: Engine<R, X, A>, s: State<R>, events: seq<Envelope<Event<X>>>, n: nat)
    requires n <= |events|
    ensures Fold(engine, s, events) ==
              match Fold(engine, s, events[..n]) case Err(e) => Err(e) case Ok(mid) => Fold(engine, mid, events[n..])
    decreases n
  {
    if n > 0 {
      assert events[..n][0] == events[0] && events[..n][1..] == events[1..][..n - 1] && events[1..][n - 1..] == events[n..];
      var next := Reduce(engine, s, events[0]);
      if next.Ok? { FoldSplit(engine, next.value, events[1..], n - 1); }
    } else {
      assert events[n..] == events;
    }
  }

  lemma {:induction false} FoldCounts<R, X, A>(engine: Engine<R, X, A>, s: State<R>, events: seq<Envelope<Event<X>>>)
    requires Fold(engine, s, events).Ok?
    ensures Fold(engine, s, events).value.lastSequence == s.lastSequence + |events|
    ensures forall i | 0 <= i < |events| :: events[i].sequence == s.lastSequence + i + 1
    ensures events != [] ==> ValidState(engine, Fold(engine, s, events).value)
    decreases |events|
  {
    if events != [] {
      FoldCounts(engine, Reduce(engine, s, events[0]).value, events[1..]);
      forall i | 0 <= i < |events| ensures events[i].sequence == s.lastSequence + i + 1 {
        if i > 0 { assert events[i] == events[1..][i - 1]; }
      }
    }
  }

  // ---------- what later events cannot change ----------

  /** `validate_store_transition` on installation and sessions. */
  predicate Keeps<R>(before: State<R>, after: State<R>) {
    && (before.installation.Some? ==> after.installation == before.installation)
    && (forall id | id in before.sessions ::
          && id in after.sessions
          && after.sessions[id].sessionId == before.sessions[id].sessionId
          && after.sessions[id].startedEvent == before.sessions[id].startedEvent
          && after.sessions[id].startedAt == before.sessions[id].startedAt
          && (before.sessions[id].ended.Some? ==> after.sessions[id].ended == before.sessions[id].ended))
  }

  lemma ReduceKeeps<R, X, A>(engine: Engine<R, X, A>, s: State<R>, e: Envelope<Event<X>>)
    requires Reduce(engine, s, e).Ok?
    ensures Keeps(s, Reduce(engine, s, e).value)
  {
    hide ValidState;
    match e.pending.event {
      case PreviousSessionInterrupted(id) => assert id in OpenSessions(s.sessions);
      case ProcessSessionEnded(id, _) => assert id in OpenSessions(s.sessions);
      case _ =>
    }
  }

  /** An installation and an ended session are never changed by any later event, nor is
      when and by which event a session started. */
  lemma {:induction false} FoldKeeps<R, X, A>(engine: Engine<R, X, A>, s: State<R>, events: seq<Envelope<Event<X>>>)
    requires Fold(engine, s, events).Ok?
    ensures Keeps(s, Fold(engine, s, events).value)
    decreases |events|
  {
    hide Reduce;
    if events != [] {
      ReduceKeeps(engine, s, events[0]);
      FoldKeeps(engine, Reduce(engine, s, events[0]).value, events[1..]);
    }
  }

  // ---------- stored rows ----------

  datatype Metadata = Metadata(lastSequence: nat, lastDigest: Option<nat>, projectionDigest: nat)

  datatype Rows<A> = Rows(installation: Option<Installation>, sessions: map<nat, Session>, active: Option<A>, metadata: Option<Metadata>)

  /** No rows: as created, and as a rebuild leaves them before it stores. */
  function Cleared<A>(): Rows<A> { Rows(None, map[], None, None) }

  /** `read_projection_rows`: the stored state, with the parts that live elsewhere taken
      from `expected`; no metadata means no rows at all. */
  function ReadRows<R, X, A(==)>(engine: Engine<R, X, A>, rows: Rows<A>, expected: State<R>): Result<Option<State<R>>, StoreError> {
    if rows.metadata.None? then
      if rows.installation.None? && rows.sessions == map[] && rows.active.None? then Ok(None) else Err(InvalidRecord)
    else
      var m := rows.metadata.value;
      var state := State(rows.installation, rows.sessions, expected.rest, m.lastSequence, m.lastDigest);
      if rows.active != Some(engine.activeOf(expected.rest)) then Err(InvalidRecord)
      else if !ValidState(engine, state) then Err(InvalidRecord)
      else if engine.digest(state) != m.projectionDigest then Err(InvalidRecord)
      else Ok(Some(state))
  }

  /** `load_in`: fold the stream, then insist that the rows say the same. */
  function Load<R(==), X, A(==)>(engine: Engine<R, X, A>, rows: Rows<A>, events: seq<Envelope<Event<X>>>): Result<State<R>, StoreError> {
    var expected :- FoldAll(engine, events);
    var read :- ReadRows(engine, rows, expected);
    match read
    case None => if expected == Initial(engine) then Ok(expected) else Err(InvalidRecord)
    case Some(persisted) => if persisted == expected then Ok(persisted) else Err(InvalidRecord)
  }

  /** `load_at`: the fold of the events up to a sequence number. */
  function LoadAt<R, X, A>(engine: Engine<R, X, A>, events: seq<Envelope<Event<X>>>, through: nat): Result<State<R>, StoreError> {
    if (if events == [] then through != 0 else through > events[|events| - 1].sequence) then Err(InvalidRecord)
    else FoldAll(engine, Upto(events, through))
  }

  /** The leading events numbered at most `through`. */
  function Upto<E>(events: seq<Envelope<E>>, through: nat): seq<Envelope<E>> {
    if events == [] || events[0].sequence > through then [] else [events[0]] + Upto(events[1..], through)
  }

  function AtMost<E>(through: nat): Envelope<E> -> bool { (e: Envelope<E>) => e.sequence <= through }

  /** Rows are inserted or overwritten, never removed. */
  function WriteRows<R, X, A>(engine: Engine<R, X, A>, rows: Rows<A>, state: State<R>): Rows<A> {
    Rows(if state.installation.Some? then state.installation else rows.installation,
         rows.sessions + state.sessions,
         Some(engine.activeOf(state.rest)),
         Some(Metadata(state.lastSequence, state.lastDigest, engine.digest(state))))
  }

  function Store<R(==), X, A(==)>(engine: Engine<R, X, A>, rows: Rows<A>, events: seq<Envelope<Event<X>>>, state: State<R>): Result<Rows<A>, StoreError> {
    if !ValidState(engine, state) then Err(Conflict)
    else
      var expected :- FoldAll(engine, events);
      if state != expected then Err(Conflict)
      else
        var prefix := if rows.metadata.Some? then Filter(events, AtMost(rows.metadata.value.lastSequence)) else [];
        var before :- FoldAll(engine, prefix);
        var read :- ReadRows(engine, rows, before);
        if read.Some? && (read.value != before || state.lastSequence < read.value.lastSequence
             || (state.lastSequence == read.value.lastSequence && state != read.value) || !Keeps(read.value, state))
        then Err(Conflict)
        else if !engine.mirrorOk(state.rest) || state.lastSequence > I64_MAX then Err(Conflict)
        else Ok(WriteRows(engine, rows, state))
  }

  // ---------- storing and loading ----------

  /** A successful store was given exactly the fold of the whole stream, and loading
      afterwards returns it, whatever the rows held before. */
  lemma StoreThenLoad<R, X, A>(engine: Engine<R, X, A>, rows: Rows<A>, events: seq<Envelope<Event<X>>>, state: State<R>)
    requires Store(engine, rows, events, state).Ok?
    ensures FoldAll(engine, events) == Ok(state)
    ensures Load(engine, Store(engine, rows, events, state).value, events) == Ok(state)
  {
    hide ValidState, FoldAll;
    var prefix := if rows.metadata.Some? then Filter(events, AtMost(rows.metadata.value.lastSequence)) else [];
    var before := FoldAll(engine, prefix).value;
    var read := ReadRows(engine, rows, before).value;
    assert rows.sessions + state.sessions == state.sessions;
  }

  /** The rows are in step with the stream: loading succeeds. */
  ghost predicate InStep<R, X, A>(engine: Engine<R, X, A>, rows: Rows<A>, events: seq<Envelope<Event<X>>>) {
    Load(engine, rows, events).Ok?
  }

  lemma {:induction false} FilterAtMost<E>(events: seq<Envelope<E>>, first: nat, through: nat)
    requires forall i | 0 <= i < |events| :: events[i].sequence == first + i
    ensures through < first ==> Filter(events, AtMost(through)) == []
    ensures first <= through ==> Filter(events, AtMost(through)) == events[..Min(through + 1 - first, |events|)]
    ensures first <= through ==> Upto(events, through) == events[..Min(through + 1 - first, |events|)]
    ensures through < first ==> Upto(events, through) == []
  {
    if events != [] {
      forall i | 0 <= i < |events[1..]| ensures events[1..][i].sequence == first + 1 + i { assert events[1..][i] == events[i + 1]; }
      FilterAtMost(events[1..], first + 1, through);
      assert forall n | 1 <= n <= |events| :: events[..n] == [events[0]] + events[1..][..n - 1];
    }
  }

  /** From rows in step with a stream, storing after more events accepts exactly the fold
      of the longer stream (when the other tables accept it and its length is representable). */
  lemma StoreAcceptsExactlyTheFold<R, X, A>(engine: Engine<R, X, A>, rows: Rows<A>, events: seq<Envelope<Event<X>>>,
      more: seq<Envelope<Event<X>>>, state: State<R>)
    requires InStep(engine, rows, events) && more != []
    requires engine.mirrorOk(state.rest) && |events + more| <= I64_MAX
    ensures Store(engine, rows, events + more, state).Ok? <==> FoldAll(engine, events + more) == Ok(state)
  {
    hide ValidState, Keeps, FoldAll, ReadRows, Load, Filter, WriteRows;
    var all := events + more;
    if FoldAll(engine, all) == Ok(state) {
      var before := Load(engine, rows, events).value;
      LoadIsTheFold(engine, rows, events);
      LaterFold(engine, events, more, before, state);
      FilterAtMost(all, 1, before.lastSequence);
      PrefixOfAll(engine, rows, events, more, before);
    }
  }

  /** The fold of a longer stream counts every event and keeps what the shorter one had. */
  lemma LaterFold<R, X, A>(engine: Engine<R, X, A>, events: seq<Envelope<Event<X>>>, more: seq<Envelope<Event<X>>>,
      before: State<R>, state: State<R>)
    requires FoldAll(engine, events) == Ok(before) && FoldAll(engine, events + more) == Ok(state) && more != []
    ensures before.lastSequence == |events| && state.lastSequence == |events| + |more|
    ensures ValidState(engine, state) && Keeps(before, state)
    ensures forall i | 0 <= i < |events + more| :: (events + more)[i].sequence == 1 + i
  {
    hide ValidState, Keeps, Reduce;
    var all := events + more;
    FoldSplit(engine, Initial(engine), all, |events|);
    assert all[..|events|] == events && all[|events|..] == more;
    FoldCounts(engine, Initial(engine), events);
    FoldCounts(engine, Initial(engine), all);
    FoldCounts(engine, before, more);
    FoldKeeps(engine, before, more);
  }

  lemma PrefixOfAll<R, X, A>(engine: Engine<R, X, A>, rows: Rows<A>, events: seq<Envelope<Event<X>>>,
      more: seq<Envelope<Event<X>>>, before: State<R>)
    requires Load(engine, rows, events) == Ok(before) && before.lastSequence == |events|
    requires before.lastSequence < 1 ==> Filter(events + more, AtMost(before.lastSequence)) == []
    requires 1 <= before.lastSequence ==>
               Filter(events + more, AtMost(before.lastSequence)) == (events + more)[..Min(before.lastSequence, |events + more|)]
    ensures var prefix := if rows.metadata.Some? then Filter(events + more, AtMost(rows.metadata.value.lastSequence)) else [];
            && prefix == (if rows.metadata.Some? then events else [])
            && (rows.metadata.None? ==> before == Initial(engine))
            && (rows.metadata.Some? ==> ReadRows(engine, rows, before) == Ok(Some(before)))
            && (rows.metadata.None? ==> ReadRows(engine, rows, Initial(engine)) == Ok(None))
  {
    hide FoldAll, ValidState;
    assert (events + more)[..|events|] == events;
    if |events| == 0 { assert events == []; }
  }

  // ---------- every reachable database ----------

  datatype Database<X, A> = Database(events: seq<Envelope<Event<X>>>, rows: Rows<A>)

  /** One transaction: append events, store a state, commit; or nothing happens. */
  function Commit<R(==), X, A(==)>(engine: Engine<R, X, A>, db: Database<X, A>, more: seq<Envelope<Event<X>>>, state: State<R>): Database<X, A> {
    match Store(engine, db.rows, db.events + more, state)
    case Ok(rows) => Database(db.events + more, rows)
    case Err(_) => db
  }

  function CommitAll<R(==), X, A(==)>(engine: Engine<R, X, A>, db: Database<X, A>,
      steps: seq<(seq<Envelope<Event<X>>>, State<R>)>): Database<X, A>
    decreases |steps|
  {
    if steps == [] then db else CommitAll(engine, Commit(engine, db, steps[0].0, steps[0].1), steps[1..])
  }

  /** In every database reached by transactions, loading succeeds and returns the fold;
      the stream only grows. */
  lemma {:induction false} ReachableLoads<R, X, A>(engine: Engine<R, X, A>, db: Database<X, A>,
      steps: seq<(seq<Envelope<Event<X>>>, State<R>)>)
    requires InStep(engine, db.rows, db.events)
    ensures var after := CommitAll(engine, db, steps);
            && InStep(engine, after.rows, after.events)
            && Load(engine, after.rows, after.events) == FoldAll(engine, after.events)
            && db.events <= after.events
    decreases |steps|
  {
    hide Store, FoldAll;
    if steps == [] {
      LoadIsTheFold(engine, db.rows, db.events);
    } else {
      if Store(engine, db.rows, db.events + steps[0].0, steps[0].1).Ok? {
        StoreThenLoad(engine, db.rows, db.events + steps[0].0, steps[0].1);
      }
      ReachableLoads(engine, Commit(engine, db, steps[0].0, steps[0].1), steps[1..]);
    }
  }

  lemma LoadIsTheFold<R, X, A>(engine: Engine<R, X, A>, rows: Rows<A>, events: seq<Envelope<Event<X>>>)
    requires Load(engine, rows, events).Ok?
    ensures Load(engine, rows, events) == FoldAll(engine, events)
  {}

  lemma EmptyLoads<R, X, A>(engine: Engine<R, X, A>)
    ensures Load(engine, Cleared(), []) == Ok(Initial(engine))
  {}

  /** The state stored after event `k` is what `load_at(k)` returns at any later time. */
  lemma LoadAtIsThePast<R, X, A>(engine: Engine<R, X, A>, past: seq<Envelope<Event<X>>>, more: seq<Envelope<Event<X>>>)
    requires FoldAll(engine, past + more).Ok?
    ensures FoldAll(engine, past).Ok?
    ensures LoadAt(engine, past + more, |past|) == FoldAll(engine, past)
    ensures Keeps(FoldAll(engine, past).value, FoldAll(engine, past + more).value)
  {
    hide Reduce, Keeps, ValidState;
    var all := past + more;
    FoldSplit(engine, Initial(engine), all, |past|);
    assert all[..|past|] == past && all[|past|..] == more;
    FoldCounts(engine, Initial(engine), all);
    FilterAtMost(all, 1, |past|);
    FoldKeeps(engine, FoldAll(engine, past).value, more);
  }

  /** With every rebuildable row cleared, exactly the fold of the stream can be stored, and
      loading then returns it. */
  lemma StoreAfterClearing<R, X, A>(engine: Engine<R, X, A>, events: seq<Envelope<Event<X>>>, state: State<R>)
    requires engine.restOk(engine.initial)
    ensures Store(engine, Cleared(), events, state).Ok? <==>
              FoldAll(engine, events) == Ok(state) && engine.mirrorOk(state.rest) && |events| <= I64_MAX
    ensures Store(engine, Cleared(), events, state).Ok? ==>
              var rows := Store(engine, Cleared(), events, state).value;
              Load(engine, rows, events) == Ok(state) && rows.active == Some(engine.activeOf(state.rest))
  {
    if FoldAll(engine, events) == Ok(state) { FoldCounts(engine, Initial(engine), events); }
    if Store(engine, Cleared(), events, state).Ok? { StoreThenLoad(engine, Cleared(), events, state); }
  }

  // ---------- the store as it runs ----------

  /** The loop of `reduce_events` over a running state. */
  method ReduceEvents<R, X, A>(engine: Engine<R, X, A>, events: seq<Envelope<Event<X>>>) returns (r: Result<State<R>, StoreError>)
    ensures r == FoldAll(engine, events)
  {
    hide Reduce;
    var state := Initial(engine);
    for i := 0 to |events|
      invariant Fold(engine, state, events[i..]) == FoldAll(engine, events)
    {
      assert events[i..][0] == events[i] && events[i..][1..] == events[i + 1..];
      var next := Reduce(engine, state, events[i]);
      if next.Err? { return Err(next.error); }
      state := next.value;
    }
    assert events[|events|..] == [];
    return Ok(state);
  }

  ghost function Restricted(sessions: map<nat, Session>, ids: set<nat>): map<nat, Session> {
    map id | id in sessions && id in ids :: sessions[id]
  }

  lemma OneMoreRow(before: map<nat, Session>, sessions: map<nat, Session>, ids: set<nat>, id: nat)
    requires id in sessions
    ensures (before + Restricted(sessions, ids))[id := sessions[id]] == before + Restricted(sessions, ids + {id})
  {}

  lemma AllRows(sessions: map<nat, Session>, ids: set<nat>)
    requires ids == sessions.Keys
    ensures Restricted(sessions, ids) == sessions
  {}

  lemma NoRows(before: map<nat, Session>, sessions: map<nat, Session>, ids: set<nat>)
    requires ids == {}
    ensures before + Restricted(sessions, ids) == before
  {}

  /** One insert-or-update per session. */
  method UpsertSessions(rows: map<nat, Session>, sessions: map<nat, Session>) returns (all: map<nat, Session>)
    ensures all == rows + sessions
  {
    hide Restricted;
    all := rows;
    var rest := sessions.Keys;
    NoRows(rows, sessions, sessions.Keys - rest);
    while rest != {}
      invariant rest <= sessions.Keys
      invariant all == rows + Restricted(sessions, sessions.Keys - rest)
      decreases |rest|
    {
      var id :| id in rest;
      OneMoreRow(rows, sessions, sessions.Keys - rest, id);
      assert sessions.Keys - (rest - {id}) == sessions.Keys - rest + {id};
      all := all[id := sessions[id]];
      rest := rest - {id};
    }
    AllRows(sessions, sessions.Keys - rest);
  }

  class ProjectionRows<A(==)> {
    var installation: Option<Installation>
    var sessions: map<nat, Session>
    var active: Option<A>
    var metadata: Option<Metadata>

    constructor ()
      ensures Value() == Cleared()
    {
      installation, sessions, active, metadata := None, map[], None, None;
    }

    function Value(): Rows<A>
      reads this
    {
      Rows(installation, sessions, active, metadata)
    }

    /** `clear_rebuildable_projection_rows`. */
    method Clear()
      modifies this
      ensures Value() == Cleared()
    {
      installation, sessions, active, metadata := None, map[], None, None;
    }

    /** `write_projection_rows`: one upsert per row, the metadata last. */
    method Write<R, X>(engine: Engine<R, X, A>, state: State<R>)
      modifies this
      ensures Value() == WriteRows(engine, old(Value()), state)
    {
      if state.installation.Some? { installation := state.installation; }
      sessions := UpsertSessions(sessions, state.sessions);
      active := Some(engine.activeOf(state.rest));
      metadata := Some(Metadata(state.lastSequence, state.lastDigest, engine.digest(state)));
    }

    /** `store`: every check before the first write. */
    method Save<R(==), X>(engine: Engine<R, X, A>, events: seq<Envelope<Event<X>>>, state: State<R>) returns (r: Result<(), StoreError>)
      modifies this
      ensures var next := Store(engine, old(Value()), events, state);
              && (r.Ok? <==> next.Ok?) && (r.Err? ==> next == Err(r.error))
              && Value() == if next.Ok? then next.value else old(Value())
    {
      hide ValidState, Reduce, Keeps;
      if !ValidState(engine, state) { return Err(Conflict); }
      var expected := ReduceEvents(engine, events);
      if expected.Err? { return Err(expected.error); }
      if state != expected.value { return Err(Conflict); }
      var prefix := if metadata.Some? then Filter(events, AtMost(metadata.value.lastSequence)) else [];
      var before := ReduceEvents(engine, prefix);
      if before.Err? { return Err(before.error); }
      var read := ReadRows(engine, Value(), before.value);
      if read.Err? { return Err(read.error); }
      if read.value.Some? {
        var persisted := read.value.value;
        if persisted != before.value { return Err(Conflict); }
        if state.lastSequence < persisted.lastSequence { return Err(Conflict); }
        if state.lastSequence == persisted.lastSequence && state != persisted { return Err(Conflict); }
        if !Keeps(persisted, state) { return Err(Conflict); }
      }
      if !engine.mirrorOk(state.rest) || state.lastSequence > I64_MAX { return Err(Conflict); }
      Write(engine, state);
      return Ok(());
    }
  }
}
