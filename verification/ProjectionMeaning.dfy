/** What the fold of a stream says, in terms of the events in it: who installed, which
    sessions started and how each ended, and which event may come next. */
module ProjectionMeaning {
  import opened Prelude
  import opened EventLog
  import opened ProjectionStore

  // ---------- what events tell ----------

  predicate Installs<X>(e: Envelope<Event<X>>) { e.pending.event.InstallationInitialized? }

  predicate Starts<X(==)>(e: Envelope<Event<X>>, id: nat) { e.pending.event == ProcessSessionStarted(id) }

  /** How the event ends a session, and which: an interruption noticed later ends it too. */
  function Ending<X>(e: Envelope<Event<X>>): Option<(nat, ShutdownReason)> {
    match e.pending.event
    case ProcessSessionEnded(id, reason) => Some((id, reason))
    case PreviousSessionInterrupted(id) => Some((id, Interrupted))
    case _ => None
  }

  predicate EndsSession<X>(e: Envelope<Event<X>>, id: nat) { Ending(e).Some? && Ending(e).value.0 == id }

  ghost predicate Installed<X>(events: seq<Envelope<Event<X>>>) { exists i :: 0 <= i < |events| && Installs(events[i]) }

  ghost predicate Started<X>(events: seq<Envelope<Event<X>>>, id: nat) { exists i :: 0 <= i < |events| && Starts(events[i], id) }

  ghost predicate Over<X>(events: seq<Envelope<Event<X>>>, id: nat) { exists i :: 0 <= i < |events| && EndsSession(events[i], id) }

  // ---------- the state says what the events told ----------

  /** The installation is that of the one event that installed. */
  ghost predicate TellsInstallation<R, X>(events: seq<Envelope<Event<X>>>, s: State<R>) {
    && (s.installation.Some? <==> Installed(events))
    && (forall i | 0 <= i < |events| && Installs(events[i]) ::
          s.installation == Some(Installation(events[i].pending.event.installationId, events[i].pending.eventId, events[i].pending.occurredAt)))
    && (forall i, j | 0 <= i < j < |events| :: !(Installs(events[i]) && Installs(events[j])))
  }

  /** A session is there exactly when the one event that started it is, with that event's mark. */
  ghost predicate TellsStarts<R, X>(events: seq<Envelope<Event<X>>>, s: State<R>) {
    && (forall id :: id in s.sessions <==> Started(events, id))
    && (forall i, id | 0 <= i < |events| && Starts(events[i], id) ::
          && id in s.sessions && s.sessions[id].sessionId == id
          && s.sessions[id].startedEvent == events[i].pending.eventId && s.sessions[id].startedAt == events[i].pending.occurredAt)
    && (forall i, j, id | 0 <= i < j < |events| :: !(Starts(events[i], id) && Starts(events[j], id)))
  }

  /** It has ended exactly when the one event that ended it is there, as that event says. */
  ghost predicate TellsEnds<R, X>(events: seq<Envelope<Event<X>>>, s: State<R>) {
    && (forall id | id in s.sessions :: s.sessions[id].ended.Some? <==> Over(events, id))
    && (forall i | 0 <= i < |events| && Ending(events[i]).Some? ::
          var id := Ending(events[i]).value.0;
          && id in s.sessions
          && s.sessions[id].ended == Some(SessionEnd(events[i].pending.eventId, events[i].pending.occurredAt, Ending(events[i]).value.1)))
    && (forall i, j, id | 0 <= i < j < |events| :: !(EndsSession(events[i], id) && EndsSession(events[j], id)))
  }

  ghost predicate Tells<R, X>(events: seq<Envelope<Event<X>>>, s: State<R>) {
    TellsInstallation(events, s) && TellsStarts(events, s) && TellsEnds(events, s)
  }

  lemma InstallationStep<R, X, A>(engine: Engine<R, X, A>, front: seq<Envelope<Event<X>>>, e: Envelope<Event<X>>, s: State<R>)
    requires TellsInstallation(front, s) && Reduce(engine, s, e).Ok?
    ensures TellsInstallation(front + [e], Reduce(engine, s, e).value)
  {
    hide ValidState;
    var all := front + [e];
    assert all[|front|] == e;
    if Installed(front) {
      var i :| 0 <= i < |front| && Installs(front[i]);
      assert Installs(all[i]);
    }
  }

  /** What one event does to the sessions. */
  ghost function SessionsAfter<X>(sessions: map<nat, Session>, e: Envelope<Event<X>>): map<nat, Session> {
    match e.pending.event
    case ProcessSessionStarted(id) => sessions[id := Session(id, e.pending.eventId, e.pending.occurredAt, None)]
    case _ =>
      if Ending(e).Some? && Ending(e).value.0 in sessions then
        var (id, reason) := Ending(e).value;
        sessions[id := sessions[id].(ended := Some(SessionEnd(e.pending.eventId, e.pending.occurredAt, reason)))]
      else sessions
  }

  /** A start is of a new session, an ending of an open one. */
  lemma SessionsStep<R, X, A>(engine: Engine<R, X, A>, s: State<R>, e: Envelope<Event<X>>)
    requires Reduce(engine, s, e).Ok?
    ensures Reduce(engine, s, e).value.sessions == SessionsAfter(s.sessions, e)
    ensures forall id | Starts(e, id) :: id !in s.sessions
    ensures forall id | id in s.sessions ::
              var after := SessionsAfter(s.sessions, e);
              && id in after && after[id].sessionId == s.sessions[id].sessionId
              && after[id].startedEvent == s.sessions[id].startedEvent && after[id].startedAt == s.sessions[id].startedAt
    ensures forall id | Starts(e, id) ::
              SessionsAfter(s.sessions, e) == s.sessions[id := Session(id, e.pending.eventId, e.pending.occurredAt, None)]
    ensures Ending(e).Some? ==> Ending(e).value.0 in s.sessions && s.sessions[Ending(e).value.0].ended.None?
  {
    hide ValidState;
    if Ending(e).Some? { assert Ending(e).value.0 in OpenSessions(s.sessions); }
  }

  lemma StartsStep<R, X, A>(engine: Engine<R, X, A>, front: seq<Envelope<Event<X>>>, e: Envelope<Event<X>>, s: State<R>)
    requires TellsStarts(front, s) && Reduce(engine, s, e).Ok?
    ensures TellsStarts(front + [e], Reduce(engine, s, e).value)
  {
    hide Reduce;
    var all, s' := front + [e], Reduce(engine, s, e).value;
    SessionsStep(engine, s, e);
    forall id ensures Started(all, id) <==> Started(front, id) || Starts(e, id) { StartedLater(front, e, id); }
    forall i, id | 0 <= i < |all| && Starts(all[i], id)
      ensures id in s'.sessions && s'.sessions[id].sessionId == id
      ensures s'.sessions[id].startedEvent == all[i].pending.eventId && s'.sessions[id].startedAt == all[i].pending.occurredAt
    {
      if i < |front| { assert Starts(front[i], id); }
    }
    forall i, j, id | 0 <= i < j < |all| ensures !(Starts(all[i], id) && Starts(all[j], id)) {
      if Starts(all[i], id) { assert Starts(front[i], id); }
    }
  }

  lemma StartedLater<X>(front: seq<Envelope<Event<X>>>, e: Envelope<Event<X>>, id: nat)
    ensures Started(front + [e], id) <==> Started(front, id) || Starts(e, id)
  {
    var all := front + [e];
    if Started(front, id) {
      var i :| 0 <= i < |front| && Starts(front[i], id);
      assert Starts(all[i], id);
    }
    if Starts(e, id) { assert Starts(all[|front|], id); }
  }

  lemma OverLater<X>(front: seq<Envelope<Event<X>>>, e: Envelope<Event<X>>, id: nat)
    ensures Over(front + [e], id) <==> Over(front, id) || EndsSession(e, id)
  {
    var all := front + [e];
    if Over(front, id) {
      var i :| 0 <= i < |front| && EndsSession(front[i], id);
      assert EndsSession(all[i], id);
    }
    if EndsSession(e, id) { assert EndsSession(all[|front|], id); }
  }

  lemma EndsStep<R, X, A>(engine: Engine<R, X, A>, front: seq<Envelope<Event<X>>>, e: Envelope<Event<X>>, s: State<R>)
    requires TellsEnds(front, s) && Reduce(engine, s, e).Ok?
    requires forall id | Over(front, id) :: id in s.sessions
    ensures TellsEnds(front + [e], Reduce(engine, s, e).value)
  {
    hide Reduce;
    var all, s' := front + [e], Reduce(engine, s, e).value;
    SessionsStep(engine, s, e);
    forall id ensures Over(all, id) <==> Over(front, id) || EndsSession(e, id) { OverLater(front, e, id); }
    forall i | 0 <= i < |all| && Ending(all[i]).Some?
      ensures var id := Ending(all[i]).value.0;
              id in s'.sessions
              && s'.sessions[id].ended == Some(SessionEnd(all[i].pending.eventId, all[i].pending.occurredAt, Ending(all[i]).value.1))
    {
      if i < |front| { assert Over(front, Ending(front[i]).value.0) by { assert EndsSession(front[i], Ending(front[i]).value.0); } }
    }
    forall i, j, id | 0 <= i < j < |all| ensures !(EndsSession(all[i], id) && EndsSession(all[j], id)) {
      if EndsSession(all[i], id) { assert EndsSession(front[i], id) && Over(front, id); }
    }
  }

  lemma TellsStep<R, X, A>(engine: Engine<R, X, A>, front: seq<Envelope<Event<X>>>, e: Envelope<Event<X>>, s: State<R>)
    requires Tells(front, s) && Reduce(engine, s, e).Ok?
    ensures Tells(front + [e], Reduce(engine, s, e).value)
  {
    hide Reduce, TellsInstallation, TellsStarts;
    InstallationStep(engine, front, e, s);
    StartsStep(engine, front, e, s);
    forall id | Over(front, id) ensures id in s.sessions {
      var i :| 0 <= i < |front| && EndsSession(front[i], id);
    }
    EndsStep(engine, front, e, s);
  }

  lemma FoldLast<R, X, A>(engine: Engine<R, X, A>, front: seq<Envelope<Event<X>>>, e: Envelope<Event<X>>)
    ensures FoldAll(engine, front + [e]) ==
              match FoldAll(engine, front) case Err(error) => Err(error) case Ok(s) => Reduce(engine, s, e)
  {
    hide Reduce;
    var all := front + [e];
    assert all[..|front|] == front && all[|front|..] == [e];
    FoldSplit(engine, Initial(engine), all, |front|);
    if FoldAll(engine, front).Ok? { FoldOne(engine, FoldAll(engine, front).value, e); }
  }

  lemma FoldOne<R, X, A>(engine: Engine<R, X, A>, s: State<R>, e: Envelope<Event<X>>)
    ensures Fold(engine, s, [e]) == Reduce(engine, s, e)
  {
    hide Reduce;
    var none := [e][1..];
    assert none == [];
  }

  /** The fold of a stream says exactly what its events tell of the installation and of the
      sessions: which are there, by which event and when they started, and how each ended. */
  lemma {:induction false} FoldTells<R, X, A>(engine: Engine<R, X, A>, events: seq<Envelope<Event<X>>>)
    requires FoldAll(engine, events).Ok?
    ensures Tells(events, FoldAll(engine, events).value)
    decreases |events|
  {
    hide Reduce, Fold, Tells;
    if events == [] {
      NothingTold(engine);
    } else {
      var front, e := events[..|events| - 1], events[|events| - 1];
      assert events == front + [e];
      FoldLast(engine, front, e);
      FoldTells(engine, front);
      TellsStep(engine, front, e, FoldAll(engine, front).value);
    }
  }

  lemma NothingTold<R, X, A>(engine: Engine<R, X, A>)
    ensures FoldAll(engine, []) == Ok(Initial(engine)) && Tells<R, X>([], Initial(engine))
  {}

  // ---------- which event may come next ----------

  function LastDigest<X>(events: seq<Envelope<Event<X>>>): Option<nat> {
    if events == [] then None else Some(events[|events| - 1].digest)
  }

  /** What the events before it let an event say. */
  ghost predicate MayFollow<R, X, A>(engine: Engine<R, X, A>, events: seq<Envelope<Event<X>>>, rest: R, e: Envelope<Event<X>>) {
    match e.pending.event
    case InstallationInitialized(_) => !Installed(events)
    case ProcessSessionStarted(id) =>
      Installed(events) && !Started(events, id) && forall other | Started(events, other) :: Over(events, other)
    case PreviousSessionInterrupted(id) => Started(events, id) && !Over(events, id)
    case ProcessSessionEnded(id, _) => Started(events, id) && !Over(events, id)
    case ProjectionRebuilt(through) => through == |events|
    case Other(_) => engine.apply(rest, e).Some? && engine.restOk(engine.apply(rest, e).value)
  }

  lemma FoldBookkeeping<R, X, A>(engine: Engine<R, X, A>, events: seq<Envelope<Event<X>>>)
    requires engine.restOk(engine.initial) && FoldAll(engine, events).Ok?
    ensures var s := FoldAll(engine, events).value;
            ValidState(engine, s) && s.lastSequence == |events| && s.lastDigest == LastDigest(events)
  {
    hide Reduce;
    FoldCounts(engine, Initial(engine), events);
    if events == [] {
      InitialIsValid(engine);
    } else {
      var front, e := events[..|events| - 1], events[|events| - 1];
      assert events == front + [e];
      FoldLast(engine, front, e);
      ReducedDigest(engine, FoldAll(engine, front).value, e);
    }
  }

  lemma InitialIsValid<R, X, A>(engine: Engine<R, X, A>)
    requires engine.restOk(engine.initial)
    ensures ValidState(engine, Initial(engine)) && Initial(engine).lastDigest.None?
  {
    assert OpenSessions(map[]) == {} && EndedSessions(map[]) == {};
  }

  lemma ReducedDigest<R, X, A>(engine: Engine<R, X, A>, s: State<R>, e: Envelope<Event<X>>)
    requires Reduce(engine, s, e).Ok?
    ensures Reduce(engine, s, e).value.lastDigest == Some(e.digest)
  {
    hide ValidState;
  }

  /** What an event may do, read from the state. */
  predicate Applicable<R, X, A>(engine: Engine<R, X, A>, s: State<R>, e: Envelope<Event<X>>) {
    match e.pending.event
    case InstallationInitialized(_) => s.installation.None?
    case ProcessSessionStarted(id) =>
      s.installation.Some? && id !in s.sessions && forall other | other in s.sessions :: s.sessions[other].ended.Some?
    case PreviousSessionInterrupted(id) => id in s.sessions && s.sessions[id].ended.None?
    case ProcessSessionEnded(id, _) => id in s.sessions && s.sessions[id].ended.None?
    case ProjectionRebuilt(through) => through + 1 == e.sequence
    case Other(_) => engine.apply(s.rest, e).Some? && engine.restOk(engine.apply(s.rest, e).value)
  }

  lemma OneOpen(sessions: map<nat, Session>, id: nat)
    requires |OpenSessions(sessions)| <= 1
    ensures id in OpenSessions(sessions) <==> OpenSessions(sessions) == {id}
  {
    if id in OpenSessions(sessions) {
      assert |OpenSessions(sessions) - {id}| == 0;
      assert OpenSessions(sessions) == {id} + (OpenSessions(sessions) - {id});
    }
  }

  lemma CountsAfterStart(sessions: map<nat, Session>, added: Session)
    requires added.sessionId !in sessions && added.ended.None? && OpenSessions(sessions) == {}
    ensures var after := sessions[added.sessionId := added];
            |OpenSessions(after)| == 1 && |after| == |sessions| + 1 && EndedSessions(after) == EndedSessions(sessions)
  {
    var id, after := added.sessionId, sessions[added.sessionId := added];
    assert OpenSessions(after) == {id} && EndedSessions(after) == EndedSessions(sessions);
    assert after.Keys == sessions.Keys + {id};
    assert |after| == |after.Keys| && |sessions| == |sessions.Keys|;
  }

  lemma CountsAfterEnd(sessions: map<nat, Session>, id: nat, ended: Session)
    requires OpenSessions(sessions) == {id} && ended.ended.Some?
    ensures var after := sessions[id := ended];
            OpenSessions(after) == {} && |after| == |sessions| && |EndedSessions(after)| == |EndedSessions(sessions)| + 1
  {
    var after := sessions[id := ended];
    assert id in OpenSessions(sessions);
    forall x | x in after && x != id ensures after[x].ended.Some? { assert x in OpenSessions(sessions) <==> sessions[x].ended.None?; }
    assert EndedSessions(after) == EndedSessions(sessions) + {id};
    assert after.Keys == sessions.Keys;
    assert |after| == |after.Keys| && |sessions| == |sessions.Keys|;
  }

  /** The sessions after an applicable event keep the counts of a valid state. */
  lemma CountsKeep<R, X, A>(engine: Engine<R, X, A>, s: State<R>, e: Envelope<Event<X>>)
    requires ValidState(engine, s) && Applicable(engine, s, e)
    ensures var after := SessionsAfter(s.sessions, e);
            && |OpenSessions(after)| <= 1
            && |after| + |EndedSessions(after)| <= |s.sessions| + |EndedSessions(s.sessions)| + (if Installs(e) then 0 else 1)
            && forall id | id in after :: after[id].sessionId == id
  {
    hide OpenSessions, EndedSessions;
    NoneOpen(s.sessions);
    var after := SessionsAfter(s.sessions, e);
    if e.pending.event.ProcessSessionStarted? {
      CountsAfterStart(s.sessions, after[e.pending.event.started]);
    } else if Ending(e).Some? {
      var id := Ending(e).value.0;
      OpenIs(s.sessions, id);
      CountsAfterEnd(s.sessions, id, after[id]);
    }
  }

  lemma OpenIs(sessions: map<nat, Session>, id: nat)
    requires |OpenSessions(sessions)| <= 1 && id in sessions && sessions[id].ended.None?
    ensures OpenSessions(sessions) == {id}
  {
    OneOpen(sessions, id);
  }

  lemma AppliedIs<R, X, A>(engine: Engine<R, X, A>, s: State<R>, e: Envelope<Event<X>>)
    requires ValidState(engine, s)
    ensures ApplyEvent(engine, s, e).Some? && engine.restOk(ApplyEvent(engine, s, e).value.rest) <==> Applicable(engine, s, e)
    ensures ApplyEvent(engine, s, e).Some? ==>
              var t := ApplyEvent(engine, s, e).value;
              && t.sessions == SessionsAfter(s.sessions, e)
              && (t.installation.Some? <==> s.installation.Some? || Installs(e))
              && (Installs(e) ==> s.installation.None?)
              && (t.installation.None? ==> t.sessions == s.sessions)
  {
    if Ending(e).Some? { OneOpen(s.sessions, Ending(e).value.0); }
    NoneOpen(s.sessions);
  }

  lemma NoneOpen(sessions: map<nat, Session>)
    ensures OpenSessions(sessions) == {} <==> forall id | id in sessions :: sessions[id].ended.Some?
  {
    forall id | id in sessions ensures id in OpenSessions(sessions) <==> sessions[id].ended.None? {}
  }

  lemma ReduceSucceedsExactly<R, X, A>(engine: Engine<R, X, A>, s: State<R>, e: Envelope<Event<X>>)
    requires ValidState(engine, s)
    ensures Reduce(engine, s, e).Ok? <==>
              && e.pending.schemaVersion == EVENT_SCHEMA_VERSION && e.sequence == s.lastSequence + 1
              && e.previous == s.lastDigest && s.lastSequence < U64_MAX && Applicable(engine, s, e)
  {
    hide ApplyEvent, Applicable, OpenSessions, EndedSessions, SessionsAfter;
    AppliedIs(engine, s, e);
    if Applicable(engine, s, e) { CountsKeep(engine, s, e); }
  }

  /** A stream that folds still folds with one more event exactly when that event carries the
      next number and the last digest and says what the events before it let it say. */
  lemma FoldExtendsExactly<R, X, A>(engine: Engine<R, X, A>, events: seq<Envelope<Event<X>>>, e: Envelope<Event<X>>)
    requires engine.restOk(engine.initial) && FoldAll(engine, events).Ok?
    ensures FoldAll(engine, events + [e]).Ok? <==>
              && e.pending.schemaVersion == EVENT_SCHEMA_VERSION && e.sequence == |events| + 1
              && e.previous == LastDigest(events) && |events| < U64_MAX
              && MayFollow(engine, events, FoldAll(engine, events).value.rest, e)
  {
    hide Reduce, ValidState, FoldAll;
    var s := FoldAll(engine, events).value;
    FoldLast(engine, events, e);
    FoldBookkeeping(engine, events);
    ReduceSucceedsExactly(engine, s, e);
    FoldTells(engine, events);
    SaidIsApplicable(engine, events, s, e);
  }

  lemma SaidIsApplicable<R, X, A>(engine: Engine<R, X, A>, events: seq<Envelope<Event<X>>>, s: State<R>, e: Envelope<Event<X>>)
    requires Tells(events, s) && s.lastSequence == |events|
    ensures e.sequence == |events| + 1 ==> (MayFollow(engine, events, s.rest, e) <==> Applicable(engine, s, e))
  {
    hide Installed, Over, Started;
  }

  // ---------- when the stored rows load ----------

  /** The rows are those of the state, every column of them; or there are none and nothing happened. */
  ghost predicate RowsSay<R, X, A>(engine: Engine<R, X, A>, rows: Rows<A>, s: State<R>) {
    || (rows == Cleared() && s == Initial(engine))
    || (rows.installation == s.installation && rows.sessions == s.sessions && rows.active == Some(engine.activeOf(s.rest))
        && rows.metadata == Some(Metadata(s.lastSequence, s.lastDigest, engine.digest(s))))
  }

  /** Loading accepts exactly the rows that say what the stream folds to: any row altered, lost or
      added is found. */
  lemma LoadSucceedsExactly<R, X, A>(engine: Engine<R, X, A>, rows: Rows<A>, events: seq<Envelope<Event<X>>>)
    requires engine.restOk(engine.initial)
    ensures Load(engine, rows, events).Ok? <==>
              FoldAll(engine, events).Ok? && RowsSay(engine, rows, FoldAll(engine, events).value)
    ensures Load(engine, rows, events).Ok? ==> Load(engine, rows, events) == FoldAll(engine, events)
  {
    hide FoldAll, ValidState;
    if FoldAll(engine, events).Ok? { FoldBookkeeping(engine, events); }
  }
}
