/** `rebuild` of src/persistence/projection_repository.rs: reconcile the tables that are kept
    with the stream, clear the rows that are not, and store the fold.  And the engine of the
    profile projection, which meets what the service's results ask of an engine. */
module Rebuild {
  import opened Prelude
  import opened ProfileDraft
  import opened ProfileDiff
  import opened ProfileProjection
  import opened ProfileCommands
  import opened Receipts
  import EventLog
  import Mirror
  import Projections = ProjectionStore

  /** Whether the skill tables and the memory tables reconcile with what the stream folds to;
      their own reconciliation is not part of this module. */
  datatype OtherTables<!R> = OtherTables(skillsOk: R -> bool, memoryOk: (seq<Envelope>, R) -> bool)

  datatype RebuildError = EventsChanged | StreamInvalid | SkillTablesRefuse | MemoryTablesRefuse | Mirrored(cause: Mirror.MirrorError) | StoreRefuses

  function Mirrors<T>(r: Result<T, Mirror.MirrorError>): Result<T, RebuildError> {
    match r case Ok(value) => Ok(value) case Err(e) => Err(Mirrored(e))
  }

  datatype Rebuilt<R, A> = Rebuilt(state: Projections.State<R>, rows: Projections.Rows<A>, mirror: seq<Mirror.Row>)

  /** `prepare_rebuild`: the caller's events must be the stream as it is now. */
  function PrepareRebuild<R, A>(setup: Setup<R, A>, log: seq<EventLog.Wire>, events: seq<Envelope>): Result<Projections.State<R>, RebuildError> {
    match Stream(setup, log)
    case Err(_) => Err(StreamInvalid)
    case Ok(snapshot) =>
      if snapshot != events then Err(EventsChanged)
      else match Projections.FoldAll(setup.engine, snapshot) case Ok(state) => Ok(state) case Err(_) => Err(StreamInvalid)
  }

  /** The stream in the form the mirror is rebuilt from. */
  function CarriedBy(events: seq<Envelope>): seq<Mirror.Recorded> { Mirror.RecoveryEvents(Map(events, AsRecorded())) }

  /** The profile rows the stream calls for. */
  function CalledFor<R, A>(setup: Setup<R, A>, events: seq<Envelope>): Result<seq<Mirror.Row>, Mirror.MirrorError> {
    Mirror.ExpectedRows(setup.format, CarriedBy(events))
  }

  /** The rebuildable rows as they were do not matter: they are cleared. */
  function RebuildAll<R(==), A(==)>(setup: Setup<R, A>, stored: SkillRef -> bool, others: OtherTables<R>, log: seq<EventLog.Wire>,
      events: seq<Envelope>, mirror: seq<Mirror.Row>): Result<Rebuilt<R, A>, RebuildError>
  {
    var state :- PrepareRebuild(setup, log, events);
    if !others.skillsOk(state.rest) then Err(SkillTablesRefuse)
    else
      var expected :- Mirrors(CalledFor(setup, events));
      var repaired :- Mirrors(Mirror.Reconcile(mirror, expected));
      var _ :- Mirrors(Mirror.LoadVersions(setup.format, stored, Mirror.ReadTable(repaired)));
      if !others.memoryOk(events, state.rest) then Err(MemoryTablesRefuse)
      else match Projections.Store(setup.engine, Projections.Cleared(), events, state)
        case Err(_) => Err(StoreRefuses)
        case Ok(rows) => Ok(Rebuilt(state, rows, repaired))
  }

  // ---------- the stream's profile events ----------

  ghost predicate EngineFits<R(!new), A>(setup: Setup<R, A>) {
    && FollowsProfiles(setup)
    && setup.profilesOf(setup.engine.initial) == NO_PROFILES
    && setup.engine.restOk(setup.engine.initial)
  }

  /** One event does to the profiles what its recovery form does to the profile projection. */
  lemma ReduceIsProfiles<R(!new), A>(setup: Setup<R, A>, s: Projections.State<R>, e: Envelope)
    requires FollowsProfiles(setup) && Projections.Reduce(setup.engine, s, e).Ok?
    ensures Mirror.ReduceProfiles(Sealed(setup.lib), setup.profilesOf(s.rest), Recorded()(e).event)
            == Some(setup.profilesOf(Projections.Reduce(setup.engine, s, e).value.rest))
  {
    hide Projections.ValidState, CreateProfile, ActivateProfile;
    assert Recorded()(e) == Mirror.RecoveryEvent(AsRecorded()(e));
    if e.pending.event.Other? { ReducedProfiles(setup, s, e); }
  }

  /** A stream that folds is a stream the profile projection accepts in its rewritten form. */
  lemma {:induction false} FoldIsProfiles<R(!new), A>(setup: Setup<R, A>, s: Projections.State<R>, events: seq<Envelope>)
    requires FollowsProfiles(setup) && Projections.Fold(setup.engine, s, events).Ok?
    ensures Mirror.FoldProfiles(Sealed(setup.lib), setup.profilesOf(s.rest), Map(events, Recorded()))
            == Some(setup.profilesOf(Projections.Fold(setup.engine, s, events).value.rest))
    decreases |events|
  {
    hide Projections.Reduce, Mirror.ReduceProfiles, FollowsProfiles, Recorded;
    if events != [] {
      ReduceIsProfiles(setup, s, events[0]);
      FoldIsProfiles(setup, Projections.Reduce(setup.engine, s, events[0]).value, events[1..]);
      var recorded := Map(events, Recorded());
      assert recorded[0] == Recorded()(events[0]) && recorded[1..] == Map(events[1..], Recorded());
    }
  }

  lemma StreamIsNumbered<R, A>(setup: Setup<R, A>, events: seq<Envelope>)
    requires Projections.FoldAll(setup.engine, events).Ok?
    ensures Mirror.NumberedFrom(Map(events, AsRecorded()), 1)
  {
    hide Projections.Reduce, Projections.ValidState;
    Projections.FoldCounts(setup.engine, Projections.Initial(setup.engine), events);
    var told := Map(events, AsRecorded());
    forall i | 0 <= i < |told| ensures told[i].sequence == 1 + i { assert told[i] == AsRecorded()(events[i]); }
  }

  /** What the repair of the version table gives for a stream that folds. */
  lemma FoldedMirror<R(!new), A>(setup: Setup<R, A>, stored: SkillRef -> bool, events: seq<Envelope>, mirror: seq<Mirror.Row>)
    requires EngineFits(setup) && Mirror.ReadsBack(setup.format) && Mirror.Keyed(mirror)
    requires Projections.FoldAll(setup.engine, events).Ok? && |events| <= I64_MAX
    ensures CalledFor(setup, events).Ok?
    ensures var expected := CalledFor(setup, events).value;
            && (Mirror.Reconcile(mirror, expected).Ok? <==> forall t | t in mirror :: t in expected)
            && (Mirror.Reconcile(mirror, expected).Ok? ==>
                  var read := Mirror.ReadTable(Mirror.Reconcile(mirror, expected).value);
                  && read == expected
                  && (Mirror.LoadVersions(setup.format, stored, read).Ok? <==> Mirror.AllResolve(stored, CarriedBy(events)))
                  && (Mirror.LoadVersions(setup.format, stored, read).Ok? ==>
                        Mirror.LoadVersions(setup.format, stored, read).value == Mirror.CarriedVersions(CarriedBy(events))))
  {
    hide Projections.FoldAll, Mirror.Reconcile, Mirror.ReadTable, Mirror.LoadVersions, Mirror.FoldProfiles, Mirror.AllResolve,
      Mirror.CarriedVersions, Mirror.ExpectedRows, Mirror.ReadsBack, FollowsProfiles, Mirror.NumberedFrom, Mirror.Keyed, AsRecorded, Recorded;
    FoldFromStart(setup, events);
    StreamIsNumbered(setup, events);
    RecordedIsRewritten(events);
    Mirror.MirrorIsRepaired(Sealed(setup.lib), setup.format, stored, Map(events, AsRecorded()), mirror);
  }

  lemma FoldFromStart<R(!new), A>(setup: Setup<R, A>, events: seq<Envelope>)
    requires EngineFits(setup) && Projections.FoldAll(setup.engine, events).Ok?
    ensures Mirror.FoldProfiles(Sealed(setup.lib), NO_PROFILES, Map(events, Recorded()))
            == Some(setup.profilesOf(Projections.FoldAll(setup.engine, events).value.rest))
  {
    hide Projections.Fold, Mirror.FoldProfiles, FollowsProfiles;
    FoldIsProfiles(setup, Projections.Initial(setup.engine), events);
  }

  // ---------- what a rebuild does ----------

  /** When a rebuild goes through: the events are the stream and fold, every stored profile row
      is one the stream calls for, every reference it carries resolves, the other tables agree. */
  ghost predicate Rebuildable<R, A>(setup: Setup<R, A>, stored: SkillRef -> bool, others: OtherTables<R>, log: seq<EventLog.Wire>,
      events: seq<Envelope>, mirror: seq<Mirror.Row>)
  {
    && Stream(setup, log) == Ok(events)
    && Projections.FoldAll(setup.engine, events).Ok? && |events| <= I64_MAX
    && CalledFor(setup, events).Ok? && (forall t | t in mirror :: t in CalledFor(setup, events).value)
    && Mirror.AllResolve(stored, CarriedBy(events))
    && var rest := Projections.FoldAll(setup.engine, events).value.rest;
    others.skillsOk(rest) && others.memoryOk(events, rest) && setup.engine.mirrorOk(rest)
  }

  /** A rebuild succeeds exactly then, whatever the rebuildable rows were.  Afterwards loading
      returns the fold, the version table reads as exactly the rows the stream calls for and
      gives back its versions, and the active rows are those of the fold. */
  lemma RebuildMeaning<R(!new), A>(setup: Setup<R, A>, stored: SkillRef -> bool, others: OtherTables<R>, log: seq<EventLog.Wire>,
      events: seq<Envelope>, mirror: seq<Mirror.Row>)
    requires EngineFits(setup) && Mirror.ReadsBack(setup.format) && Mirror.Keyed(mirror)
    ensures RebuildAll(setup, stored, others, log, events, mirror).Ok? <==> Rebuildable(setup, stored, others, log, events, mirror)
    ensures RebuildAll(setup, stored, others, log, events, mirror).Ok? ==>
              var after := RebuildAll(setup, stored, others, log, events, mirror).value;
              && Projections.FoldAll(setup.engine, events) == Ok(after.state)
              && Projections.Load(setup.engine, after.rows, events) == Ok(after.state)
              && CalledFor(setup, events) == Ok(Mirror.ReadTable(after.mirror))
              && Mirror.LoadVersions(setup.format, stored, Mirror.ReadTable(after.mirror)) == Ok(Mirror.CarriedVersions(CarriedBy(events)))
              && after.rows.active == Some(setup.engine.activeOf(after.state.rest))
  {
    hide Projections.FoldAll, Projections.Store, Projections.Load, Stream, Mirror.Reconcile, Mirror.LoadVersions, Mirror.ReadTable,
      Mirror.ExpectedRows, Mirror.AllResolve, Mirror.CarriedVersions, Mirror.Keyed, Mirror.ReadsBack, EngineFits, AsRecorded, Mirror.RecoveryEvents;
    if PrepareRebuild(setup, log, events).Ok? {
      var state := PrepareRebuild(setup, log, events).value;
      FitsStart(setup);
      Projections.StoreAfterClearing(setup.engine, events, state);
      if |events| <= I64_MAX { FoldedMirror(setup, stored, events, mirror); }
    }
  }

  lemma FitsStart<R(!new), A>(setup: Setup<R, A>)
    requires EngineFits(setup)
    ensures setup.engine.restOk(setup.engine.initial)
  {}

  /** Rows lost from a mirror never stop a rebuild: if it goes through with the whole mirror it
      goes through with any part of it, to the same state and the same rows. */
  lemma LostRowsAreRebuilt<R(!new), A>(setup: Setup<R, A>, stored: SkillRef -> bool, others: OtherTables<R>, log: seq<EventLog.Wire>,
      events: seq<Envelope>, mirror: seq<Mirror.Row>, survives: Mirror.Row -> bool)
    requires EngineFits(setup) && Mirror.ReadsBack(setup.format) && Mirror.Keyed(mirror)
    requires RebuildAll(setup, stored, others, log, events, mirror).Ok?
    ensures RebuildAll(setup, stored, others, log, events, Filter(mirror, survives)).Ok?
    ensures var whole, part := RebuildAll(setup, stored, others, log, events, mirror).value,
                               RebuildAll(setup, stored, others, log, events, Filter(mirror, survives)).value;
            whole.state == part.state && whole.rows == part.rows && Mirror.ReadTable(whole.mirror) == Mirror.ReadTable(part.mirror)
  {
    hide EngineFits, RebuildAll, Mirror.ReadsBack, Mirror.Keyed, Stream, Mirror.AllResolve, CalledFor, CarriedBy, Mirror.ReadTable,
      Mirror.LoadVersions, Projections.FoldAll, Projections.Load, Mirror.CarriedVersions;
    RebuildMeaning(setup, stored, others, log, events, mirror);
    Mirror.FilterKeyed(mirror, survives);
    forall t | t in Filter(mirror, survives) ensures t in mirror { FilterMultiset(mirror, survives, t); }
    RebuildMeaning(setup, stored, others, log, events, Filter(mirror, survives));
    SameStoredRows(setup, stored, others, log, events, mirror, Filter(mirror, survives));
  }

  lemma SameStoredRows<R, A>(setup: Setup<R, A>, stored: SkillRef -> bool, others: OtherTables<R>, log: seq<EventLog.Wire>,
      events: seq<Envelope>, mirror: seq<Mirror.Row>, other: seq<Mirror.Row>)
    requires RebuildAll(setup, stored, others, log, events, mirror).Ok? && RebuildAll(setup, stored, others, log, events, other).Ok?
    ensures RebuildAll(setup, stored, others, log, events, mirror).value.rows == RebuildAll(setup, stored, others, log, events, other).value.rows
  {
    hide Projections.Store, Stream, Mirror.Reconcile, Mirror.LoadVersions, Mirror.ExpectedRows, Projections.FoldAll;
  }

  /** A rebuilt database follows its stream again, as executing commands requires and keeps. */
  lemma RebuiltFollows<R(!new), A>(setup: Setup<R, A>, stored: SkillRef -> bool, others: OtherTables<R>, db: Database<A>, events: seq<Envelope>)
    requires EngineFits(setup) && Mirror.ReadsBack(setup.format) && Mirror.Keyed(db.mirror)
    requires RebuildAll(setup, stored, others, db.log, events, db.mirror).Ok?
    ensures var built := RebuildAll(setup, stored, others, db.log, events, db.mirror).value;
            var after := db.(rows := built.rows, mirror := built.mirror);
            MirrorFollows(setup, after) && LoadState(setup, after) == Ok(built.state)
  {
    hide EngineFits, RebuildAll, Mirror.ReadsBack, Mirror.Keyed, Stream, Mirror.AllResolve, Mirror.ReadTable, Mirror.LoadVersions,
      Projections.FoldAll, Projections.Load, Mirror.CarriedVersions, Mirror.ExpectedRows, AsRecorded, Recorded, Mirror.RecoveryEvents;
    RebuildMeaning(setup, stored, others, db.log, events, db.mirror);
    RecordedIsRewritten(events);
  }

  // ---------- the engine of the profile projection ----------

  ghost function ActiveRows(s: Profiles): seq<Mirror.ActiveRow> { Map(ActiveProfiles(s), Mirror.ActiveRowOf) }

  /** The fold of the service's own facts, with the active table as the rows it keeps. */
  ghost function ProfileEngine(lib: Library, digest: Projections.State<Profiles> -> nat): Projections.Engine<Profiles, Fact, seq<Mirror.ActiveRow>> {
    Projections.Engine(
      NO_PROFILES,
      (s: Profiles, e: Envelope) => if e.pending.event.Other? then ApplyFact(lib, s, e.pending.event.detail) else Some(s),
      (s: Profiles) => true,
      (s: Profiles) => ActiveRows(s),
      (s: Profiles) => Mirror.InsertAllActive([], ActiveProfiles(s)).Ok?,
      digest)
  }

  ghost function ProfileSetup(codec: EventLog.Codec<StreamEvent>, lib: Library, json: Json, format: Mirror.Format,
      digest: Projections.State<Profiles> -> nat): Setup<Profiles, seq<Mirror.ActiveRow>>
  {
    Setup(codec, ProfileEngine(lib, digest), (s: Profiles) => s, lib, json, format)
  }

  /** It is an engine as the results on executions and rebuilds require. */
  lemma ProfileEngineFits(codec: EventLog.Codec<StreamEvent>, lib: Library, json: Json, format: Mirror.Format,
      digest: Projections.State<Profiles> -> nat)
    ensures EngineFits(ProfileSetup(codec, lib, json, format, digest))
    ensures Kept(ProfileSetup(codec, lib, json, format, digest), Empty())
  {
    hide ApplyFact, Kept;
    NothingIsKept(ProfileSetup(codec, lib, json, format, digest));
  }

  /** So over any run of the service on this engine, from any database that follows its
      stream: it keeps following, and profiles stay sound. */
  lemma ServiceRunsKeep(codec: EventLog.Codec<StreamEvent>, lib: Library, json: Json, format: Mirror.Format,
      digest: Projections.State<Profiles> -> nat, w: World<seq<Mirror.ActiveRow>>, steps: seq<(Env, nat, Request)>)
    requires EventLog.Decodes(codec) && ReadsBack(json) && ReadsProjection(lib)
    requires Kept(ProfileSetup(codec, lib, json, format, digest), w.db)
    ensures Kept(ProfileSetup(codec, lib, json, format, digest), ExecuteAll(ProfileSetup(codec, lib, json, format, digest), w, steps).db)
  {
    hide Kept, ExecuteAll, ReadsProjection, ReadsBack, EventLog.Decodes;
    ProfileEngineFits(codec, lib, json, format, digest);
    RunsKeep(ProfileSetup(codec, lib, json, format, digest), w, steps);
  }

  // ---------- rebuilding the profile projection ----------

  lemma ReduceBounds(sealed: Seal, s: Profiles, e: Mirror.Recorded)
    requires Agrees(s) && Mirror.ReduceProfiles(sealed, s, e.event).Some? && 1 <= e.sequence <= I64_MAX
    requires forall id | id in s.versions :: s.versions[id].version < e.sequence
    ensures var t := Mirror.ReduceProfiles(sealed, s, e.event).value;
            Agrees(t) && forall id | id in t.versions :: t.versions[id].version < e.sequence + 1
  {
    hide Agrees, CreateProfile, ActivateProfile, Mirror.Fresh, Mirror.WellShaped, Mirror.ExpectedRow;
    if Mirror.Carried(e.event).Some? {
      Mirror.AcceptedRow(sealed, Mirror.Format((p: ProfileVersion) => "", (text: string) => None), s, e.event, e.sequence);
      Mirror.VersionsBelow(sealed, s, e.event, e.sequence);
    }
  }

  /** A version number never exceeds the number of events. */
  lemma {:induction false} VersionsAreCounted(sealed: Seal, s: Profiles, events: seq<Mirror.Recorded>, first: nat)
    requires Agrees(s) && Mirror.FoldProfiles(sealed, s, events).Some?
    requires first >= 1 && Mirror.NumberedFrom(events, first) && first + |events| <= I64_MAX + 1
    requires forall id | id in s.versions :: s.versions[id].version < first
    ensures var t := Mirror.FoldProfiles(sealed, s, events).value;
            Agrees(t) && forall id | id in t.versions :: t.versions[id].version < first + |events|
    decreases |events|
  {
    hide Agrees, Mirror.ReduceProfiles;
    if events != [] {
      assert Mirror.NumberedFrom(events[1..], first + 1) by {
        forall i | 0 <= i < |events[1..]| ensures events[1..][i].sequence == first + 1 + i { assert events[1..][i] == events[i + 1]; }
      }
      ReduceBounds(sealed, s, events[0]);
      VersionsAreCounted(sealed, Mirror.ReduceProfiles(sealed, s, events[0].event).value, events[1..], first + 1);
    }
  }

  /** The active table always takes what a stream folds to, and then matches it. */
  lemma FoldedProfilesAreActive(codec: EventLog.Codec<StreamEvent>, lib: Library, json: Json, format: Mirror.Format,
      digest: Projections.State<Profiles> -> nat, events: seq<Envelope>)
    requires Projections.FoldAll(ProfileEngine(lib, digest), events).Ok? && |events| <= I64_MAX
    ensures var s := Projections.FoldAll(ProfileEngine(lib, digest), events).value.rest;
            && ProfileEngine(lib, digest).mirrorOk(s)
            && Mirror.ActiveMatch(ActiveRows(s), ActiveProfiles(s))
            && forall table :: Mirror.ActiveMatch(table, ActiveProfiles(s)) <==> multiset(table) == multiset(ActiveRows(s))
  {
    hide Agrees, Projections.FoldAll, Mirror.FoldProfiles, Mirror.ActiveMatch, ActiveProfiles, EngineFits, Map, Mirror.NumberedFrom, AsRecorded, Recorded;
    var setup := ProfileSetup(codec, lib, json, format, digest);
    ProfileEngineFits(codec, lib, json, format, digest);
    FoldFromStart(setup, events);
    StreamIsNumbered(setup, events);
    NumberedRecorded(events);
    EmptyAgrees();
    var s := Projections.FoldAll(ProfileEngine(lib, digest), events).value.rest;
    MapLength(events);
    VersionsAreCounted(Sealed(lib), NO_PROFILES, Map(events, Recorded()), 1);
    forall table
      ensures Mirror.InsertAllActive([], ActiveProfiles(s)).Ok?
      ensures Mirror.ActiveMatch(ActiveRows(s), ActiveProfiles(s))
      ensures Mirror.ActiveMatch(table, ActiveProfiles(s)) <==> multiset(table) == multiset(ActiveRows(s))
    {
      Mirror.ReplaceActiveMeaning(s, table);
    }
    Mirror.ReplaceActiveMeaning(s, []);
  }

  lemma MapLength(events: seq<Envelope>)
    ensures |Map(events, Recorded())| == |events|
  {}

  lemma NumberedRecorded(events: seq<Envelope>)
    requires Mirror.NumberedFrom(Map(events, AsRecorded()), 1)
    ensures Mirror.NumberedFrom(Map(events, Recorded()), 1)
  {
    var told, recorded := Map(events, AsRecorded()), Map(events, Recorded());
    forall i | 0 <= i < |recorded| ensures recorded[i].sequence == 1 + i {
      RecordedParts(events[i]);
      assert told[i] == AsRecorded()(events[i]);
    }
  }

  /** Rebuilding the profile projection: exactly when the events are the stream and fold within
      the stored numbers, every stored row is called for, every reference resolves and the other
      tables agree; then the mirror, the active rows and the stored projection are the stream's. */
  lemma ProfileRebuildMeaning(codec: EventLog.Codec<StreamEvent>, lib: Library, json: Json, format: Mirror.Format,
      digest: Projections.State<Profiles> -> nat, stored: SkillRef -> bool, others: OtherTables<Profiles>,
      log: seq<EventLog.Wire>, events: seq<Envelope>, mirror: seq<Mirror.Row>)
    requires Mirror.ReadsBack(format) && Mirror.Keyed(mirror)
    ensures var setup := ProfileSetup(codec, lib, json, format, digest);
            var fold := Projections.FoldAll(setup.engine, events);
            RebuildAll(setup, stored, others, log, events, mirror).Ok? <==>
              && Stream(setup, log) == Ok(events) && fold.Ok? && |events| <= I64_MAX
              && CalledFor(setup, events).Ok? && (forall t | t in mirror :: t in CalledFor(setup, events).value)
              && Mirror.AllResolve(stored, CarriedBy(events))
              && others.skillsOk(fold.value.rest) && others.memoryOk(events, fold.value.rest)
    ensures var setup := ProfileSetup(codec, lib, json, format, digest);
            RebuildAll(setup, stored, others, log, events, mirror).Ok? ==>
              var after := RebuildAll(setup, stored, others, log, events, mirror).value;
              && Projections.Load(setup.engine, after.rows, events) == Projections.FoldAll(setup.engine, events) == Ok(after.state)
              && CalledFor(setup, events) == Ok(Mirror.ReadTable(after.mirror))
              && after.rows.active.Some? && Mirror.ActiveMatch(after.rows.active.value, ActiveProfiles(after.state.rest))
  {
    hide RebuildAll, EngineFits, Projections.FoldAll, Projections.Load, Stream, CalledFor, CarriedBy, Mirror.AllResolve, Mirror.ActiveMatch,
      Mirror.ReadTable, Mirror.LoadVersions, Mirror.CarriedVersions, Mirror.Keyed, Mirror.ReadsBack, ActiveProfiles, Mirror.InsertAllActive, Map;
    var setup := ProfileSetup(codec, lib, json, format, digest);
    ProfileEngineFits(codec, lib, json, format, digest);
    RebuildMeaning(setup, stored, others, log, events, mirror);
    if Projections.FoldAll(setup.engine, events).Ok? && |events| <= I64_MAX {
      FoldedProfilesAreActive(codec, lib, json, format, digest, events);
    }
  }

  // ---------- as it runs ----------

  /** `rebuild`, table by table; a failure rolls the transaction back. */
  method RebuildTables<R(==), A(==)>(setup: Setup<R, A>, stored: SkillRef -> bool, others: OtherTables<R>, log: seq<EventLog.Wire>,
      events: seq<Envelope>, profiles: Mirror.ProfileTables, rows: Projections.ProjectionRows<A>)
    returns (r: Result<Projections.State<R>, RebuildError>)
    modifies profiles`versions, rows
    ensures var built := RebuildAll(setup, stored, others, log, events, old(profiles.versions));
            && (r.Ok? <==> built.Ok?) && (r.Err? ==> built == Err(r.error)) && (r.Ok? ==> r.value == built.value.state)
            && profiles.versions == (if built.Ok? then built.value.mirror else old(profiles.versions))
            && rows.Value() == (if built.Ok? then built.value.rows else old(rows.Value()))
  {
    hide Projections.Store, Stream, Mirror.Reconcile, Mirror.LoadVersions, Mirror.ReadTable, Mirror.ExpectedRows, Projections.FoldAll,
      Mirror.RecoveryEvents, AsRecorded;
    var before := profiles.versions;
    var prepared := PrepareRebuild(setup, log, events);
    if prepared.Err? { return Err(prepared.error); }
    var state := prepared.value;
    if !others.skillsOk(state.rest) { return Err(SkillTablesRefuse); }
    var expected := CalledFor(setup, events);
    if expected.Err? { return Err(Mirrored(expected.error)); }
    var reconciled := profiles.ReconcileExpectedVersions(expected.value);
    if reconciled.Err? { return Err(Mirrored(reconciled.error)); }
    var loaded := profiles.LoadAllVersions(setup.format, stored);
    if loaded.Err? {
      profiles.versions := before;
      return Err(Mirrored(loaded.error));
    }
    if !others.memoryOk(events, state.rest) {
      profiles.versions := before;
      return Err(MemoryTablesRefuse);
    }
    var next := Projections.Store(setup.engine, Projections.Cleared(), events, state);
    if next.Err? {
      profiles.versions := before;
      return Err(StoreRefuses);
    }
    rows.Clear();
    var saved := rows.Save(setup.engine, events, state);
    return Ok(state);
  }
}
