/** The tables that mirror the profile projection and their repair from the event stream:
    src/persistence/agent_profile_repository.rs and the rewriting of skill events in
    src/persistence/projection_repository.rs. */
module Mirror {
  import opened Prelude
  import opened Sorting
  import opened ProfileDraft
  import opened ProfileDiff
  import opened ProfileProjection

  datatype StreamEvent =
    | Created(created: ProfileVersion)
    | Activated(activated: ProfileVersion, activatedFrom: nat)
    | SkillAssigned(extended: ProfileVersion, extendedFrom: nat)
    | SkillUpgraded(upgraded: ProfileVersion, upgradedFrom: nat)
    | SkillUnassigned(reduced: ProfileVersion, reducedFrom: nat)
    | Unrelated

  datatype Recorded = Recorded(sequence: nat, event: StreamEvent)

  /** A row of `agent_profile_versions`; the payload is the serialised version. */
  datatype Row = Row(
    sequence: nat, profileId: nat, versionId: nat, version: nat, supersedes: Option<nat>, provenance: Option<nat>, role: Role,
    displayName: string, nameKey: string, ns: nat, digest: nat, createdAt: int, payload: string)

  datatype ActiveRow = ActiveRow(profileId: nat, versionId: nat, version: nat, nameKey: string, digest: nat)

  /** Serialisation of profile versions. */
  datatype Format = Format(write: ProfileVersion -> string, read: string -> Option<ProfileVersion>)

  ghost predicate ReadsBack(format: Format) {
    forall p :: format.read(format.write(p)) == Some(p)
  }

  datatype MirrorError = InvalidPayload | HistoryMismatch | UnexpectedHistory | NamespaceConflict | ActiveRebuildFailed
    | DuplicateName | UnresolvedReference

  // ---------- the rows a stream calls for ----------

  /** Skill assignments are activations of the profile version they carry. */
  function RecoveryEvent(e: Recorded): Recorded {
    match e.event
    case SkillAssigned(p, from) => e.(event := Activated(p, from))
    case SkillUpgraded(p, from) => e.(event := Activated(p, from))
    case SkillUnassigned(p, from) => e.(event := Activated(p, from))
    case _ => e
  }

  function RecoveryEvents(events: seq<Recorded>): seq<Recorded> { Map(events, RecoveryEvent) }

  function Carried(e: StreamEvent): Option<ProfileVersion> {
    match e case Created(p) => Some(p) case Activated(p, _) => Some(p) case _ => None
  }

  function ExpectedRow(format: Format, sequence: nat, p: ProfileVersion): Result<Row, MirrorError> {
    if sequence < 1 || sequence > I64_MAX || p.version > I64_MAX then Err(InvalidPayload)
    else Ok(Row(sequence, p.profileId, p.versionId, p.version, p.supersedes, p.draft.provenance, p.draft.role,
      p.draft.displayName, p.nameKey, p.ns, p.digest, p.createdAt, format.write(p)))
  }

  function ExpectedRows(format: Format, events: seq<Recorded>): Result<seq<Row>, MirrorError>
    decreases |events|
  {
    if events == [] then Ok([])
    else match Carried(events[0].event)
      case None => ExpectedRows(format, events[1..])
      case Some(p) =>
        var row :- ExpectedRow(format, events[0].sequence, p);
        var rest :- ExpectedRows(format, events[1..]);
        Ok([row] + rest)
  }

  /** The row shows the version, column by column, and its payload reads as the version. */
  ghost predicate RowShows(format: Format, sequence: nat, p: ProfileVersion, r: Row) {
    && r.sequence == sequence && r.profileId == p.profileId && r.versionId == p.versionId && r.version == p.version
    && r.supersedes == p.supersedes && r.provenance == p.draft.provenance && r.role == p.draft.role
    && r.displayName == p.draft.displayName && r.nameKey == p.nameKey && r.ns == p.ns && r.digest == p.digest
    && r.createdAt == p.createdAt && format.read(r.payload) == Some(p)
  }

  /** The rows a stream calls for show the versions it carries, one row each, in order. */
  lemma {:induction false} ExpectedRowsShow(format: Format, events: seq<Recorded>)
    requires ReadsBack(format) && ExpectedRows(format, events).Ok?
    ensures var rows, carried := ExpectedRows(format, events).value, CarriedVersions(events);
            && |rows| == |carried|
            && forall i | 0 <= i < |rows| :: RowShows(format, carried[i].0, carried[i].1, rows[i])
    decreases |events|
  {
    if events != [] { ExpectedRowsShow(format, events[1..]); }
  }

  // ---------- the table ----------

  predicate SameKey(a: Row, b: Row) {
    (a.profileId == b.profileId && a.version == b.version) || a.versionId == b.versionId || a.sequence == b.sequence
  }

  predicate SameOwner(a: Row, b: Row) { (a.ns == b.ns) == (a.profileId == b.profileId) }

  predicate WellShaped(r: Row) { r.version >= 1 && r.sequence >= 1 && (r.version == 1) == r.supersedes.None? }

  /** The unique constraints of the table. */
  ghost predicate Keyed(table: seq<Row>) {
    forall i, j | 0 <= i < j < |table| :: !SameKey(table[i], table[j])
  }

  /** Rows that one table can hold together. */
  ghost predicate Compatible(rows: seq<Row>) {
    && Keyed(rows)
    && (forall a, b | a in rows && b in rows :: SameOwner(a, b))
    && (forall r | r in rows :: WellShaped(r))
  }

  /** The namespace trigger fires before the constraints are checked. */
  function InsertRow(table: seq<Row>, row: Row): Result<seq<Row>, MirrorError> {
    if exists t | t in table :: !SameOwner(t, row) then Err(NamespaceConflict)
    else if !WellShaped(row) || exists t | t in table :: SameKey(t, row) then Err(HistoryMismatch)
    else Ok(table + [row])
  }

  /** A table takes a row exactly when it can hold it with what it has. */
  lemma InsertTakesExactly(table: seq<Row>, row: Row)
    requires Compatible(table)
    ensures InsertRow(table, row).Ok? <==> Compatible(table + [row])
    ensures InsertRow(table, row).Ok? ==> InsertRow(table, row).value == table + [row]
  {
    var all := table + [row];
    assert all[|table|] == row && row in all;
    forall i | 0 <= i < |table| ensures all[i] == table[i] && table[i] in table && table[i] in all {}
    if Compatible(all) {
      forall t | t in table ensures SameOwner(t, row) && !SameKey(t, row) {
        var i :| 0 <= i < |table| && table[i] == t;
        assert all[i] == t && t in all;
      }
    } else if InsertRow(table, row).Ok? {
      forall a, b | a in all && b in all ensures SameOwner(a, b) {
        assert (a == row || a in table) && (b == row || b in table);
      }
      assert Compatible(all);
    }
  }

  function InsertAll(table: seq<Row>, rows: seq<Row>): Result<seq<Row>, MirrorError>
    decreases |rows|
  {
    if rows == [] then Ok(table)
    else
      var next :- InsertRow(table, rows[0]);
      InsertAll(next, rows[1..])
  }

  function Keys(row: Row): Row -> bool { (t: Row) => SameKey(t, row) }

  /** The stored rows that share a key with an expected one. */
  function Candidates(table: seq<Row>, row: Row): seq<Row> { Filter(table, Keys(row)) }

  function Absent(table: seq<Row>): Row -> bool { (row: Row) => Candidates(table, row) == [] }

  /** A new row is inserted, a row that is there already is left alone. */
  function PutExpected(table: seq<Row>, row: Row): Result<seq<Row>, MirrorError> {
    var found := Candidates(table, row);
    if found == [] then InsertRow(table, row) else if found == [row] then Ok(table) else Err(HistoryMismatch)
  }

  /** Every skill reference of the version resolves; `stored` says which do. */
  predicate Resolves(stored: SkillRef -> bool, p: ProfileVersion) { forall r | r in p.draft.skillRefs :: stored(r) }

  /** `insert_expected_version`. */
  function InsertExpected(format: Format, stored: SkillRef -> bool, table: seq<Row>, sequence: nat, p: ProfileVersion):
      Result<seq<Row>, MirrorError>
  {
    if !Resolves(stored, p) then Err(UnresolvedReference)
    else
      var row :- ExpectedRow(format, sequence, p);
      PutExpected(table, row)
  }

  /** `reconcile_expected_versions` on the rows. */
  function Reconcile(table: seq<Row>, expected: seq<Row>): Result<seq<Row>, MirrorError> {
    if exists e | e in expected :: Candidates(table, e) != [] && Candidates(table, e) != [e] then Err(HistoryMismatch)
    else if exists t | t in table :: t !in expected then Err(UnexpectedHistory)
    else InsertAll(table, Filter(expected, Absent(table)))
  }

  predicate BySequence(a: Row, b: Row) { a.sequence <= b.sequence }

  /** Reading the table: in event order. */
  function ReadTable(table: seq<Row>): seq<Row> { Sort(BySequence, table) }

  // ---------- matching ----------

  lemma CandidatesMeaning(table: seq<Row>, e: Row, t: Row)
    ensures t in Candidates(table, e) <==> t in table && SameKey(t, e)
  {
    FilterMultiset(table, Keys(e), t);
  }

  /** In a table with unique keys, a stored expected row is its only candidate. */
  lemma {:induction false} OnlyCandidate(table: seq<Row>, e: Row)
    requires Keyed(table) && e in table
    ensures Candidates(table, e) == [e]
  {
    if table[0] == e {
      forall t ensures t !in Candidates(table[1..], e) {
        CandidatesMeaning(table[1..], e, t);
      }
      SomeMember(Candidates(table[1..], e));
    } else {
      OnlyCandidate(table[1..], e);
    }
  }

  /** An expected row is refused exactly when a different stored row has one of its keys. */
  lemma RefusedMeaning(table: seq<Row>, e: Row)
    requires Keyed(table)
    ensures Candidates(table, e) != [] && Candidates(table, e) != [e] <==> exists t :: t in table && SameKey(t, e) && t != e
  {
    var found := Candidates(table, e);
    CandidatesMeaning(table, e, e);
    if t :| t in table && SameKey(t, e) && t != e {
      CandidatesMeaning(table, e, t);
    }
    if found != [] && found != [e] {
      assert found[0] in found;
      CandidatesMeaning(table, e, found[0]);
      if found[0] == e { OnlyCandidate(table, e); }
    }
  }

  lemma AbsentMeaning(table: seq<Row>, e: Row)
    ensures Absent(table)(e) <==> !exists t :: t in table && SameKey(t, e)
  {
    var found := Candidates(table, e);
    if found != [] {
      assert found[0] in found;
      CandidatesMeaning(table, e, found[0]);
    }
    if t :| t in table && SameKey(t, e) { CandidatesMeaning(table, e, t); }
  }

  lemma {:induction false} InsertAllFits(table: seq<Row>, rows: seq<Row>)
    requires Compatible(table + rows)
    ensures InsertAll(table, rows) == Ok(table + rows)
    decreases |rows|
  {
    var all := table + rows;
    if rows == [] {
      assert all == table;
    } else {
      assert rows[0] in all && rows[0] == all[|table|];
      forall t | t in table ensures t in all && !SameKey(t, rows[0]) {
        var i :| 0 <= i < |table| && table[i] == t;
        assert all[i] == t;
      }
      assert all == (table + [rows[0]]) + rows[1..];
      InsertAllFits(table + [rows[0]], rows[1..]);
    }
  }

  lemma {:induction false} FilterKeyed(rows: seq<Row>, keep: Row -> bool)
    requires Keyed(rows)
    ensures Keyed(Filter(rows, keep))
  {
    if rows != [] {
      FilterKeyed(rows[1..], keep);
      var rest := Filter(rows[1..], keep);
      forall i | 0 <= i < |rest| ensures !SameKey(rows[0], rest[i]) {
        assert rest[i] in rest;
        FilterMultiset(rows[1..], keep, rest[i]);
        var j :| 0 <= j < |rows[1..]| && rows[1..][j] == rest[i];
        assert rows[j + 1] == rest[i];
      }
    }
  }

  lemma KeyedIsDistinct(rows: seq<Row>)
    requires Keyed(rows)
    ensures Distinct(rows)
  {}

  /** Stored expected rows together with the missing ones are the expected rows. */
  lemma CompletedRows(table: seq<Row>, expected: seq<Row>)
    requires Keyed(table) && Compatible(expected)
    requires forall t | t in table :: t in expected
    ensures var all := table + Filter(expected, Absent(table)); Compatible(all) && multiset(all) == multiset(expected)
  {
    var missing := Filter(expected, Absent(table));
    var all := table + missing;
    FilterKeyed(expected, Absent(table));
    forall e ensures e in missing <==> e in expected && e !in table {
      FilterMultiset(expected, Absent(table), e);
      AbsentMeaning(table, e);
      if e in expected && e !in table {
        if t :| t in table && SameKey(t, e) { KeysIdentify(expected, t, e); }
      }
      if e in table { assert SameKey(e, e); }
    }
    forall i, j | 0 <= i < j < |all| ensures !SameKey(all[i], all[j]) {
      if i < |table| <= j {
        assert all[i] in table && all[j] in missing;
        if SameKey(all[i], all[j]) { KeysIdentify(expected, all[i], all[j]); }
      } else if |table| <= i {
        assert all[i] == missing[i - |table|] && all[j] == missing[j - |table|];
      }
    }
    forall e ensures e in all <==> e in expected { assert e in all <==> e in table || e in missing; }
    SameMembers(all, expected);
  }

  lemma KeysIdentify(rows: seq<Row>, a: Row, b: Row)
    requires Keyed(rows) && a in rows && b in rows && SameKey(a, b)
    ensures a == b
  {
    var i :| 0 <= i < |rows| && rows[i] == a;
    var j :| 0 <= j < |rows| && rows[j] == b;
    assert SameKey(rows[i], rows[j]) && SameKey(rows[j], rows[i]);
  }

  lemma SameMembers(s: seq<Row>, t: seq<Row>)
    requires Keyed(s) && Keyed(t) && forall x :: x in s <==> x in t
    ensures multiset(s) == multiset(t)
  {
    KeyedIsDistinct(s);
    KeyedIsDistinct(t);
    forall x ensures multiset(s)[x] == multiset(t)[x] {
      DistinctAtMostOnce(s, x);
      DistinctAtMostOnce(t, x);
      assert x in s <==> x in multiset(s);
      assert x in t <==> x in multiset(t);
    }
  }

  // ---------- what a repair does ----------

  /** The repair succeeds exactly when every stored row is an expected row, and leaves exactly
      the expected rows.  It fails with a mismatch exactly when some stored row shares a key
      with an expected row it is not, and otherwise with an unexpected row. */
  lemma ReconcileMeaning(table: seq<Row>, expected: seq<Row>)
    requires Keyed(table) && Compatible(expected)
    ensures Reconcile(table, expected).Ok? <==> forall t | t in table :: t in expected
    ensures Reconcile(table, expected).Ok? ==>
              && multiset(Reconcile(table, expected).value) == multiset(expected)
              && table <= Reconcile(table, expected).value
    ensures Reconcile(table, expected) == Err(HistoryMismatch) <==>
              exists e, t :: e in expected && t in table && SameKey(t, e) && t != e
    ensures Reconcile(table, expected).Err? ==> Reconcile(table, expected).error in {HistoryMismatch, UnexpectedHistory}
  {
    hide Candidates, Compatible, Keyed, SameKey, Absent, InsertAll;
    forall e | e in expected
      ensures Candidates(table, e) != [] && Candidates(table, e) != [e] <==> exists t :: t in table && SameKey(t, e) && t != e
    {
      RefusedMeaning(table, e);
    }
    if forall t | t in table :: t in expected {
      forall e, t | e in expected && t in table && SameKey(t, e) ensures t == e { ExpectedKeysIdentify(expected, t, e); }
      CompletedRows(table, expected);
      InsertAllFits(table, Filter(expected, Absent(table)));
    }
  }

  lemma ExpectedKeysIdentify(expected: seq<Row>, t: Row, e: Row)
    requires Compatible(expected) && t in expected && e in expected && SameKey(t, e)
    ensures t == e
  {
    KeysIdentify(expected, t, e);
  }

  /** Whatever rows of a mirror are lost, the repair brings back the whole mirror in event order. */
  lemma DeletionsAreRepaired(expected: seq<Row>, survives: Row -> bool)
    requires Compatible(expected) && Sorted(BySequence, expected)
    ensures Reconcile(Filter(expected, survives), expected).Ok?
    ensures ReadTable(Reconcile(Filter(expected, survives), expected).value) == expected
  {
    var table := Filter(expected, survives);
    FilterKeyed(expected, survives);
    forall t | t in table ensures t in expected { FilterMultiset(expected, survives, t); }
    ReconcileMeaning(table, expected);
    ReadIsExpected(Reconcile(table, expected).value, expected);
  }

  lemma ReadIsExpected(table: seq<Row>, expected: seq<Row>)
    requires multiset(table) == multiset(expected) && Keyed(expected) && Sorted(BySequence, expected)
    ensures ReadTable(table) == expected
  {
    SortSorted(BySequence, table);
    SortMultiset(BySequence, table);
    SameElements(ReadTable(table), expected);
    forall x, y | x in ReadTable(table) && y in ReadTable(table) && BySequence(x, y) && BySequence(y, x) ensures x == y {
      KeysIdentify(expected, x, y);
    }
    SortedUnique(BySequence, ReadTable(table), expected);
  }

  /** A repaired mirror needs no repair. */
  lemma ReconcileIsIdempotent(table: seq<Row>, expected: seq<Row>)
    requires Keyed(table) && Compatible(expected) && Reconcile(table, expected).Ok?
    ensures var repaired := Reconcile(table, expected).value; Reconcile(repaired, expected) == Ok(repaired)
  {
    hide Reconcile, Keyed, Compatible;
    ReconcileMeaning(table, expected);
    var repaired := Reconcile(table, expected).value;
    SameElements(repaired, expected);
    CompatibleIsKeyed(expected);
    KeyedRearranged(expected, repaired);
    ReconcileMeaning(repaired, expected);
    var again := Reconcile(repaired, expected).value;
    SameElements(again, repaired);
    assert again == again[..|again|];
    assert again[..|repaired|] == repaired;
  }

  lemma KeyedRearranged(s: seq<Row>, t: seq<Row>)
    requires Keyed(s) && multiset(s) == multiset(t)
    ensures Keyed(t)
  {
    SameElements(s, t);
    DistinctPermutation(s, t);
    forall i, j | 0 <= i < j < |t| ensures !SameKey(t[i], t[j]) {
      if SameKey(t[i], t[j]) { KeysIdentify(s, t[i], t[j]); }
    }
  }

  // ---------- the rows of an accepted stream ----------

  function ReduceProfiles(sealed: Seal, s: Profiles, e: StreamEvent): Option<Profiles> {
    match e
    case Created(p) => CreateProfile(sealed, s, p)
    case Activated(p, from) => ActivateProfile(sealed, s, p, from)
    case _ => Some(s)
  }

  function FoldProfiles(sealed: Seal, s: Profiles, events: seq<Recorded>): Option<Profiles>
    decreases |events|
  {
    if events == [] then Some(s)
    else match ReduceProfiles(sealed, s, events[0].event)
      case None => None
      case Some(t) => FoldProfiles(sealed, t, events[1..])
  }

  /** Numbered from `first`, as a verified log is. */
  ghost predicate NumberedFrom(events: seq<Recorded>, first: nat) {
    forall i | 0 <= i < |events| :: events[i].sequence == first + i
  }

  /** No version known so far has a key of the row or contradicts its namespace. */
  ghost predicate Fresh(s: Profiles, row: Row) {
    && row.versionId !in s.versions
    && !(row.profileId in s.index && row.version in s.index[row.profileId])
    && (forall id | id in s.versions :: (s.versions[id].ns == row.ns) == (s.versions[id].profileId == row.profileId))
  }

  lemma NamespaceOf(s: Profiles, id: nat)
    requires Agrees(s) && id in s.versions
    ensures var x := s.versions[id];
            x.ns in s.namespaces && s.namespaces[x.ns] == x.profileId && x.profileId in s.active && x.profileId in s.index
            && s.active[x.profileId] in s.versions && s.versions[s.active[x.profileId]].ns == x.ns
  {
    hide Chains, NamesMatch, Entry;
    ChainNamespace(s.versions, s.index, id);
  }

  lemma ChainNamespace(versions: Versions, index: map<nat, map<nat, nat>>, id: nat)
    requires Chains(versions, index) && Indexed(versions, index) && id in versions
    ensures var p := versions[id].profileId;
            p in index && |index[p]| in index[p] && index[p][|index[p]|] in versions
            && versions[index[p][|index[p]|]].ns == versions[id].ns
  {
    hide Entry;
    assert Chain(versions, index[versions[id].profileId], versions[id].profileId);
  }

  /** What an accepted version says about its row. */
  lemma AcceptedRow(sealed: Seal, format: Format, s: Profiles, e: StreamEvent, sequence: nat)
    requires Agrees(s) && ReduceProfiles(sealed, s, e).Some? && Carried(e).Some?
    requires 1 <= sequence <= I64_MAX && forall id | id in s.versions :: s.versions[id].version < sequence
    ensures Agrees(ReduceProfiles(sealed, s, e).value)
    ensures Carried(e).value.version <= sequence
    ensures ExpectedRow(format, sequence, Carried(e).value).Ok?
    ensures var row := ExpectedRow(format, sequence, Carried(e).value).value; Fresh(s, row) && WellShaped(row)
  {
    hide Chains, Indexed, NamesMatch, NamespacesMatch, Newest;
    var p := Carried(e).value;
    forall id | id in s.versions
      ensures var x := s.versions[id];
              x.ns in s.namespaces && s.namespaces[x.ns] == x.profileId && x.profileId in s.index
              && x.profileId in s.active && s.active[x.profileId] in s.versions && s.versions[s.active[x.profileId]].ns == x.ns
    {
      NamespaceOf(s, id);
    }
    match e {
      case Created(_) => CreateKeepsAgreement(sealed, s, p);
      case Activated(_, from) =>
        ActivateKeepsAgreement(sealed, s, p, from);
        ActivationFacts(sealed, s, p, from);
    }
  }

  /** Later rows are new to the earlier state as well, and clash with nothing accepted before them. */
  lemma FreshLater(sealed: Seal, format: Format, s: Profiles, e: StreamEvent, sequence: nat, later: Row)
    requires ReduceProfiles(sealed, s, e).Some? && Carried(e).Some? && ExpectedRow(format, sequence, Carried(e).value).Ok?
    requires Fresh(ReduceProfiles(sealed, s, e).value, later) && later.sequence > sequence
    requires Fresh(s, ExpectedRow(format, sequence, Carried(e).value).value)
    ensures Fresh(s, later)
    ensures var row := ExpectedRow(format, sequence, Carried(e).value).value; !SameKey(row, later) && SameOwner(row, later)
  {
    var p, t := Carried(e).value, ReduceProfiles(sealed, s, e).value;
    assert t.versions == s.versions[p.versionId := p];
    assert p.profileId in t.index && p.version in t.index[p.profileId];
    assert t.versions[p.versionId] == p;
    forall id | id in s.versions ensures (s.versions[id].ns == later.ns) == (s.versions[id].profileId == later.profileId) {
      assert id in t.versions && t.versions[id] == s.versions[id];
    }
  }

  /** Rows that continue a state: compatible, new to it, in event order. */
  ghost predicate Continues(s: Profiles, rows: seq<Row>, first: nat) {
    && Compatible(rows) && Sorted(BySequence, rows)
    && (forall r | r in rows :: Fresh(s, r) && r.sequence >= first)
  }

  lemma ContinuesWith(sealed: Seal, format: Format, s: Profiles, e: StreamEvent, sequence: nat, rest: seq<Row>)
    requires ReduceProfiles(sealed, s, e).Some? && Carried(e).Some? && ExpectedRow(format, sequence, Carried(e).value).Ok?
    requires var row := ExpectedRow(format, sequence, Carried(e).value).value; Fresh(s, row) && WellShaped(row)
    requires Continues(ReduceProfiles(sealed, s, e).value, rest, sequence + 1)
    ensures Continues(s, [ExpectedRow(format, sequence, Carried(e).value).value] + rest, sequence)
  {
    var row := ExpectedRow(format, sequence, Carried(e).value).value;
    var rows := [row] + rest;
    hide Fresh, ReduceProfiles, ExpectedRow, SameKey, WellShaped;
    forall r | r in rest ensures Fresh(s, r) && !SameKey(row, r) && SameOwner(row, r) && r.sequence > sequence {
      FreshLater(sealed, format, s, e, sequence, r);
    }
    assert row.sequence == sequence by { RowNumber(format, sequence, Carried(e).value); }
    forall i, j | 0 <= i < j < |rows| ensures !SameKey(rows[i], rows[j]) && BySequence(rows[i], rows[j]) {
      assert rows[j] in rest && rows[j] == rest[j - 1];
      if i > 0 { assert rows[i] == rest[i - 1]; }
    }
    forall a, b | a in rows && b in rows ensures SameOwner(a, b) {
      assert SameOwner(row, row);
    }
  }

  lemma RowNumber(format: Format, sequence: nat, p: ProfileVersion)
    requires ExpectedRow(format, sequence, p).Ok?
    ensures ExpectedRow(format, sequence, p).value.sequence == sequence
  {}

  /** Every stream the projection accepts calls for rows one table can hold, in event order. */
  lemma {:induction false} AcceptedRowsFit(sealed: Seal, format: Format, s: Profiles, events: seq<Recorded>, first: nat)
    requires Agrees(s) && FoldProfiles(sealed, s, events).Some?
    requires first >= 1 && NumberedFrom(events, first) && first + |events| <= I64_MAX + 1
    requires forall id | id in s.versions :: s.versions[id].version < first
    ensures ExpectedRows(format, events).Ok?
    ensures Continues(s, ExpectedRows(format, events).value, first)
    decreases |events|
  {
    hide Agrees, Fresh, ExpectedRow, CreateProfile, ActivateProfile, WellShaped;
    if events != [] {
      var e := events[0].event;
      var t := ReduceProfiles(sealed, s, e).value;
      assert NumberedFrom(events[1..], first + 1) by {
        forall i | 0 <= i < |events[1..]| ensures events[1..][i].sequence == first + 1 + i { assert events[1..][i] == events[i + 1]; }
      }
      if Carried(e).Some? {
        AcceptedRow(sealed, format, s, e, first);
        VersionsBelow(sealed, s, e, first);
        AcceptedRowsFit(sealed, format, t, events[1..], first + 1);
        ContinuesWith(sealed, format, s, e, first, ExpectedRows(format, events[1..]).value);
      } else {
        AcceptedRowsFit(sealed, format, t, events[1..], first + 1);
      }
    }
  }

  lemma VersionsBelow(sealed: Seal, s: Profiles, e: StreamEvent, sequence: nat)
    requires ReduceProfiles(sealed, s, e).Some? && Carried(e).Some?
    requires Carried(e).value.version <= sequence
    requires forall id | id in s.versions :: s.versions[id].version < sequence
    ensures var t := ReduceProfiles(sealed, s, e).value; forall id | id in t.versions :: t.versions[id].version < sequence + 1
  {}

  /** Every reference of every version the stream carries resolves. */
  predicate AllResolve(stored: SkillRef -> bool, events: seq<Recorded>) {
    forall x | x in CarriedVersions(events) :: Resolves(stored, x.1)
  }

  /** For every stream the profile projection accepts in its rewritten form: the repair
      succeeds exactly when each stored row is one the stream calls for; then the table reads
      as exactly those rows in event order, and loading it gives back the versions exactly
      when all their skill references resolve. */
  lemma MirrorIsRepaired(sealed: Seal, format: Format, stored: SkillRef -> bool, events: seq<Recorded>, table: seq<Row>)
    requires FoldProfiles(sealed, NO_PROFILES, RecoveryEvents(events)).Some?
    requires NumberedFrom(events, 1) && |events| <= I64_MAX && Keyed(table) && ReadsBack(format)
    ensures ExpectedRows(format, RecoveryEvents(events)).Ok?
    ensures var expected := ExpectedRows(format, RecoveryEvents(events)).value;
            && (Reconcile(table, expected).Ok? <==> forall t | t in table :: t in expected)
            && (Reconcile(table, expected).Ok? ==>
                  && ReadTable(Reconcile(table, expected).value) == expected
                  && LoadVersions(format, stored, ReadTable(Reconcile(table, expected).value))
                     == if AllResolve(stored, RecoveryEvents(events)) then Ok(CarriedVersions(RecoveryEvents(events)))
                        else Err(UnresolvedReference))
  {
    hide Agrees, Reconcile, FoldProfiles, Compatible, LoadVersions, ReadTable, Fresh;
    EmptyAgrees();
    AcceptedRowsFit(sealed, format, NO_PROFILES, RecoveryEvents(events), 1);
    var expected := ExpectedRows(format, RecoveryEvents(events)).value;
    ReconcileMeaning(table, expected);
    ExpectedLoads(format, stored, RecoveryEvents(events));
    if Reconcile(table, expected).Ok? {
      CompatibleIsKeyed(expected);
      ReadIsExpected(Reconcile(table, expected).value, expected);
    }
  }

  lemma CompatibleIsKeyed(rows: seq<Row>)
    requires Compatible(rows)
    ensures Keyed(rows)
  {}

  /** The versions a stream carries, with the numbers of their events. */
  function CarriedVersions(events: seq<Recorded>): seq<(nat, ProfileVersion)> {
    if events == [] then []
    else match Carried(events[0].event)
      case None => CarriedVersions(events[1..])
      case Some(p) => [(events[0].sequence, p)] + CarriedVersions(events[1..])
  }

  /** One stored row of `load_all_versions`: its payload must read, the references resolve,
      and its row must be the stored row. */
  function LoadRow(format: Format, stored: SkillRef -> bool, row: Row): Result<(nat, ProfileVersion), MirrorError> {
    match format.read(row.payload)
    case None => Err(InvalidPayload)
    case Some(p) =>
      if !Resolves(stored, p) then Err(UnresolvedReference)
      else
        var expected :- ExpectedRow(format, row.sequence, p);
        if expected != row then Err(HistoryMismatch) else Ok((row.sequence, p))
  }

  function LoadVersions(format: Format, stored: SkillRef -> bool, rows: seq<Row>): Result<seq<(nat, ProfileVersion)>, MirrorError> {
    if rows == [] then Ok([])
    else
      var first :- LoadRow(format, stored, rows[0]);
      var rest :- LoadVersions(format, stored, rows[1..]);
      Ok([first] + rest)
  }

  /** The row reads as the version, shows it column by column, and its references resolve. */
  ghost predicate ReadsAs(format: Format, stored: SkillRef -> bool, row: Row, sequence: nat, p: ProfileVersion) {
    && row.sequence == sequence && 1 <= sequence <= I64_MAX && p.version <= I64_MAX
    && RowShows(format, sequence, p, row) && format.write(p) == row.payload
    && (forall r | r in p.draft.skillRefs :: stored(r))
  }

  /** Loading the table succeeds exactly when every row reads as a version it shows in every column,
      and gives these versions in the order of the rows. */
  lemma {:induction false} LoadedExactly(format: Format, stored: SkillRef -> bool, rows: seq<Row>, versions: seq<(nat, ProfileVersion)>)
    ensures LoadVersions(format, stored, rows) == Ok(versions) <==>
              |versions| == |rows| && forall i | 0 <= i < |rows| :: ReadsAs(format, stored, rows[i], versions[i].0, versions[i].1)
    decreases |rows|
  {
    hide ReadsAs, LoadRow;
    if rows == [] {
      assert |versions| == 0 ==> versions == [];
    } else if versions != [] {
      LoadedExactly(format, stored, rows[1..], versions[1..]);
      RowReads(format, stored, rows[0], versions[0].0, versions[0].1);
      assert versions == [versions[0]] + versions[1..];
      forall i | 1 <= i < |rows| && |versions| == |rows|
        ensures ReadsAs(format, stored, rows[i], versions[i].0, versions[i].1)
                <==> ReadsAs(format, stored, rows[1..][i - 1], versions[1..][i - 1].0, versions[1..][i - 1].1)
      {}
    }
  }

  lemma RowReads(format: Format, stored: SkillRef -> bool, row: Row, sequence: nat, p: ProfileVersion)
    ensures LoadRow(format, stored, row) == Ok((sequence, p)) <==> ReadsAs(format, stored, row, sequence, p)
  {}

  lemma {:induction false} ExpectedLoads(format: Format, stored: SkillRef -> bool, events: seq<Recorded>)
    requires ReadsBack(format) && ExpectedRows(format, events).Ok?
    ensures LoadVersions(format, stored, ExpectedRows(format, events).value)
            == if AllResolve(stored, events) then Ok(CarriedVersions(events)) else Err(UnresolvedReference)
    decreases |events|
  {
    hide Resolves;
    if events != [] {
      ExpectedLoads(format, stored, events[1..]);
      if Carried(events[0].event).Some? {
        var p := Carried(events[0].event).value;
        var row := ExpectedRow(format, events[0].sequence, p).value;
        var rest := ExpectedRows(format, events[1..]).value;
        assert ([row] + rest)[0] == row && ([row] + rest)[1..] == rest;
        assert format.read(format.write(p)) == Some(p);
        ResolveFirst(stored, events);
      }
    }
  }

  lemma ResolveFirst(stored: SkillRef -> bool, events: seq<Recorded>)
    requires events != [] && Carried(events[0].event).Some?
    ensures AllResolve(stored, events) <==> Resolves(stored, Carried(events[0].event).value) && AllResolve(stored, events[1..])
  {
    hide Resolves;
    var first := (events[0].sequence, Carried(events[0].event).value);
    assert CarriedVersions(events) == [first] + CarriedVersions(events[1..]);
    assert first in CarriedVersions(events);
    forall x ensures x in CarriedVersions(events) <==> x == first || x in CarriedVersions(events[1..]) {}
  }

  // ---------- the table as it grows ----------

  ghost predicate Ascending(rows: seq<Row>) { forall i, j | 0 <= i < j < |rows| :: rows[i].sequence < rows[j].sequence }

  /** The rows a numbered stream calls for are numbered in order, within the stream. */
  lemma {:induction false} RowsAscend(format: Format, events: seq<Recorded>, first: nat)
    requires NumberedFrom(events, first) && ExpectedRows(format, events).Ok?
    ensures Ascending(ExpectedRows(format, events).value)
    ensures forall r | r in ExpectedRows(format, events).value :: first <= r.sequence < first + |events|
    decreases |events|
  {
    hide ExpectedRow;
    if events != [] {
      forall i | 0 <= i < |events[1..]| ensures events[1..][i].sequence == first + 1 + i { assert events[1..][i] == events[i + 1]; }
      RowsAscend(format, events[1..], first + 1);
      if Carried(events[0].event).Some? {
        var row := ExpectedRow(format, events[0].sequence, Carried(events[0].event).value).value;
        RowNumber(format, events[0].sequence, Carried(events[0].event).value);
        var rest := ExpectedRows(format, events[1..]).value;
        forall i, j | 0 <= i < j < |[row] + rest| ensures ([row] + rest)[i].sequence < ([row] + rest)[j].sequence {
          assert ([row] + rest)[j] in rest;
        }
      }
    }
  }

  lemma AscendingIsSorted(rows: seq<Row>)
    requires Ascending(rows)
    ensures Sorted(BySequence, rows) && AntisymmetricOn(BySequence, rows)
  {
    forall x, y | x in rows && y in rows && BySequence(x, y) && BySequence(y, x) ensures x == y {
      var i :| 0 <= i < |rows| && rows[i] == x;
      var j :| 0 <= j < |rows| && rows[j] == y;
    }
  }

  lemma TableRearranged(table: seq<Row>)
    ensures multiset(ReadTable(table)) == multiset(table)
  {
    SortMultiset(BySequence, table);
  }

  lemma ReadMembers(table: seq<Row>)
    ensures forall t :: t in ReadTable(table) <==> t in table
  {
    SortMultiset(BySequence, table);
    SameElements(ReadTable(table), table);
  }

  /** A row inserted anywhere after all others is read last. */
  lemma ReadAppended(table: seq<Row>, row: Row)
    requires Ascending(ReadTable(table)) && forall t | t in table :: t.sequence < row.sequence
    ensures ReadTable(table + [row]) == ReadTable(table) + [row]
  {
    hide Sort;
    var before, after := ReadTable(table), ReadTable(table + [row]);
    SortMultiset(BySequence, table);
    SortMultiset(BySequence, table + [row]);
    SortSorted(BySequence, table + [row]);
    SameElements(before, table);
    forall i | 0 <= i < |before| ensures before[i].sequence < row.sequence { assert before[i] in before; }
    assert Ascending(before + [row]);
    AscendingIsSorted(before + [row]);
    assert multiset(before + [row]) == multiset(table + [row]);
    SortedUnique(BySequence, before + [row], after);
  }

  // ---------- inserting as events are stored ----------

  /** Inserting a version whose row is already there changes nothing; it is refused exactly
      when a skill reference does not resolve. */
  lemma InsertExpectedIsIdempotent(format: Format, stored: SkillRef -> bool, table: seq<Row>, sequence: nat, p: ProfileVersion)
    requires Keyed(table) && ExpectedRow(format, sequence, p).Ok? && ExpectedRow(format, sequence, p).value in table
    ensures InsertExpected(format, stored, table, sequence, p) == if Resolves(stored, p) then Ok(table) else Err(UnresolvedReference)
  {
    OnlyCandidate(table, ExpectedRow(format, sequence, p).value);
  }

  /** The versions of a stream, inserted one by one. */
  function InsertEach(format: Format, stored: SkillRef -> bool, table: seq<Row>, events: seq<Recorded>): Result<seq<Row>, MirrorError>
    decreases |events|
  {
    if events == [] then Ok(table)
    else match Carried(events[0].event)
      case None => InsertEach(format, stored, table, events[1..])
      case Some(p) =>
        var next :- InsertExpected(format, stored, table, events[0].sequence, p);
        InsertEach(format, stored, next, events[1..])
  }

  lemma PutFits(table: seq<Row>, row: Row, rest: seq<Row>)
    requires Compatible(table + ([row] + rest))
    ensures PutExpected(table, row) == Ok(table + [row]) && table + ([row] + rest) == (table + [row]) + rest
  {
    var all := table + ([row] + rest);
    assert row in all && row == all[|table|];
    forall t | t in table ensures t in all && !SameKey(t, row) {
      var i :| 0 <= i < |table| && table[i] == t;
      assert all[i] == t;
    }
    AbsentMeaning(table, row);
  }

  /** Inserted one by one as they are accepted, the versions of a stream are all stored exactly
      when their skill references resolve. */
  lemma {:induction false} InsertEachBuilds(format: Format, stored: SkillRef -> bool, table: seq<Row>, events: seq<Recorded>)
    requires ExpectedRows(format, events).Ok? && Compatible(table + ExpectedRows(format, events).value)
    ensures InsertEach(format, stored, table, events)
            == if AllResolve(stored, events) then Ok(table + ExpectedRows(format, events).value) else Err(UnresolvedReference)
    decreases |events|
  {
    hide Compatible, Resolves, PutExpected, ExpectedRow;
    if events == [] {
      assert table + [] == table;
    } else if Carried(events[0].event).Some? {
      var p := Carried(events[0].event).value;
      var row := ExpectedRow(format, events[0].sequence, p).value;
      PutFits(table, row, ExpectedRows(format, events[1..]).value);
      ResolveFirst(stored, events);
      InsertEachBuilds(format, stored, table + [row], events[1..]);
    } else {
      InsertEachBuilds(format, stored, table, events[1..]);
    }
  }

  // ---------- the active profiles ----------

  function ActiveRowOf(p: ProfileVersion): ActiveRow { ActiveRow(p.profileId, p.versionId, p.version, p.nameKey, p.digest) }

  predicate SameActiveKey(a: ActiveRow, b: ActiveRow) { a.profileId == b.profileId || a.versionId == b.versionId }

  /** One insertion: constraints are checked in the order they are declared. */
  function InsertActive(table: seq<ActiveRow>, p: ProfileVersion): Result<seq<ActiveRow>, MirrorError> {
    if p.version > I64_MAX || p.version < 1 then Err(ActiveRebuildFailed)
    else if exists a | a in table :: SameActiveKey(a, ActiveRowOf(p)) then Err(ActiveRebuildFailed)
    else if exists a | a in table :: a.nameKey == p.nameKey then Err(DuplicateName)
    else Ok(table + [ActiveRowOf(p)])
  }

  function InsertAllActive(table: seq<ActiveRow>, listed: seq<ProfileVersion>): Result<seq<ActiveRow>, MirrorError>
    decreases |listed|
  {
    if listed == [] then Ok(table)
    else
      var next :- InsertActive(table, listed[0]);
      InsertAllActive(next, listed[1..])
  }

  predicate ByNameThenProfile(a: ActiveRow, b: ActiveRow) {
    if a.nameKey != b.nameKey then TextLe(a.nameKey, b.nameKey) else a.profileId <= b.profileId
  }

  /** `active_profiles_match`. */
  predicate ActiveMatch(table: seq<ActiveRow>, listed: seq<ProfileVersion>) {
    Sort(ByNameThenProfile, table) == Map(listed, ActiveRowOf)
  }

  /** Listed versions that one active table can hold. */
  ghost predicate Separate(listed: seq<ProfileVersion>) {
    && (forall i | 0 <= i < |listed| :: 1 <= listed[i].version <= I64_MAX)
    && (forall i, j | 0 <= i < j < |listed| ::
          listed[i].profileId != listed[j].profileId && listed[i].versionId != listed[j].versionId
          && listed[i].nameKey != listed[j].nameKey)
  }

  lemma {:induction false} InsertAllActiveFits(before: seq<ProfileVersion>, listed: seq<ProfileVersion>)
    requires Separate(before + listed)
    ensures InsertAllActive(Map(before, ActiveRowOf), listed) == Ok(Map(before + listed, ActiveRowOf))
    decreases |listed|
  {
    hide Map;
    var all := before + listed;
    if listed == [] {
      assert all == before;
    } else {
      var p, table := listed[0], Map(before, ActiveRowOf);
      assert all[|before|] == p;
      forall a | a in table ensures !SameActiveKey(a, ActiveRowOf(p)) && a.nameKey != p.nameKey {
        var i :| 0 <= i < |table| && table[i] == a;
        assert all[i] == before[i];
      }
      assert all == (before + [p]) + listed[1..];
      assert Map(before + [p], ActiveRowOf) == table + [ActiveRowOf(p)];
      InsertAllActiveFits(before + [p], listed[1..]);
    }
  }

  /** What a listing of the active profiles of an agreeing projection looks like. */
  lemma ActiveListing(s: Profiles)
    requires Agrees(s) && forall id | id in s.versions :: s.versions[id].version <= I64_MAX
    ensures Separate(ActiveProfiles(s)) && Sorted(ByNameThenId, ActiveProfiles(s))
  {
    hide ActiveProfile, ActiveProfileByName, ActiveProfiles, Agrees;
    ListingIsDistinct(s);
    forall x | x in ActiveProfiles(s)
      ensures ActiveProfile(s, x.profileId) == Some(x) && ActiveProfileByName(s, x.nameKey) == Some(x)
        && 1 <= x.version <= I64_MAX && x.versionId in s.versions && s.versions[x.versionId] == x
    {
      ListedIsActive(s, x);
    }
    DistinctKeys(s, ActiveProfiles(s));
  }

  lemma ListingIsDistinct(s: Profiles)
    requires Agrees(s)
    ensures Distinct(ActiveProfiles(s)) && Sorted(ByNameThenId, ActiveProfiles(s))
  {
    hide FilterMap, Enumerate, Sort, Distinct, Sorted, Chains, Indexed, Newest, NamesMatch, NamespacesMatch;
    var ids := Enumerate(NatLe, s.active.Keys);
    var byId := FilterMap(ids, ActiveById(s));
    EnumerateMeaning(NatLe, s.active.Keys);
    AllActive(s);
    forall i | 0 <= i < |ids| ensures ActiveById(s)(ids[i]).Some? { assert ids[i] in ids; }
    FilterMapDistinct(ids, ActiveById(s));
    ByNameThenIdTotal();
    SortSorted(ByNameThenId, byId);
    SortMultiset(ByNameThenId, byId);
    DistinctPermutation(byId, ActiveProfiles(s));
  }

  /** A listed version is the active version of its profile and of its name. */
  lemma ListedIsActive(s: Profiles, x: ProfileVersion)
    requires Agrees(s) && x in ActiveProfiles(s)
    ensures ActiveProfile(s, x.profileId) == Some(x) && ActiveProfileByName(s, x.nameKey) == Some(x)
    ensures x.version >= 1 && x.versionId in s.versions && s.versions[x.versionId] == x
  {
    hide FilterMap, Enumerate, Sort, Chains, Indexed, Newest, NamesMatch, NamespacesMatch;
    var ids := Enumerate(NatLe, s.active.Keys);
    var byId := FilterMap(ids, ActiveById(s));
    SortMultiset(ByNameThenId, byId);
    SameElements(byId, ActiveProfiles(s));
    FilterMapMembers(ids, ActiveById(s), x);
    var p :| p in ids && ActiveById(s)(p) == Some(x);
    ActiveIsItself(s, p);
  }

  lemma ActiveIsItself(s: Profiles, p: nat)
    requires Chains(s.versions, s.index) && Newest(s.index, s.active) && NamesMatch(s.versions, s.active, s.names)
    requires p in s.active && s.active[p] in s.versions
    ensures var x := s.versions[s.active[p]];
            && x.profileId == p && x.versionId == s.active[p] && x.version >= 1
            && ActiveProfileByName(s, x.nameKey) == Some(x)
  {
    hide Chains;
    NewestVersion(s, p);
  }

  lemma NewestVersion(s: Profiles, p: nat)
    requires Chains(s.versions, s.index) && Newest(s.index, s.active) && p in s.active
    ensures s.active[p] in s.versions
    ensures var x := s.versions[s.active[p]]; x.profileId == p && x.versionId == s.active[p] && x.version >= 1
  {
    assert Chain(s.versions, s.index[p], p);
    assert Entry(s.versions, s.index[p], p, |s.index[p]|);
  }

  lemma DistinctKeys(s: Profiles, listed: seq<ProfileVersion>)
    requires Distinct(listed)
    requires forall x | x in listed ::
               && ActiveProfile(s, x.profileId) == Some(x) && ActiveProfileByName(s, x.nameKey) == Some(x)
               && 1 <= x.version <= I64_MAX && x.versionId in s.versions && s.versions[x.versionId] == x
    ensures Separate(listed)
  {
    hide ActiveProfile, ActiveProfileByName;
    forall i, j | 0 <= i < j < |listed|
      ensures listed[i].profileId != listed[j].profileId && listed[i].versionId != listed[j].versionId
        && listed[i].nameKey != listed[j].nameKey
    {
      assert listed[i] in listed && listed[j] in listed;
    }
  }

  lemma {:induction false} MapKeepsOrder(listed: seq<ProfileVersion>)
    requires Sorted(ByNameThenId, listed)
    ensures Sorted(ByNameThenProfile, Map(listed, ActiveRowOf))
  {}

  /** The active table matches the projection exactly when it holds one row per active profile,
      in any order; replacing it always succeeds and makes it match. */
  lemma ReplaceActiveMeaning(s: Profiles, table: seq<ActiveRow>)
    requires Agrees(s) && forall id | id in s.versions :: s.versions[id].version <= I64_MAX
    ensures InsertAllActive([], ActiveProfiles(s)) == Ok(Map(ActiveProfiles(s), ActiveRowOf))
    ensures ActiveMatch(Map(ActiveProfiles(s), ActiveRowOf), ActiveProfiles(s))
    ensures ActiveMatch(table, ActiveProfiles(s)) <==> multiset(table) == multiset(Map(ActiveProfiles(s), ActiveRowOf))
  {
    hide ActiveProfiles, Agrees, Sort, Map;
    var listed := ActiveProfiles(s);
    var rows := Map(listed, ActiveRowOf);
    ActiveListing(s);
    assert [] + listed == listed && Map([], ActiveRowOf) == [];
    InsertAllActiveFits([], listed);
    MapKeepsOrder(listed);
    SortFixpoint(ByNameThenProfile, rows);
    SortMultiset(ByNameThenProfile, table);
    if multiset(table) == multiset(rows) {
      TextLeIsTotalOrder();
      SortSorted(ByNameThenProfile, table);
      SameElements(rows, Sort(ByNameThenProfile, table));
      RowsBreakTies(listed, Sort(ByNameThenProfile, table));
      SortedUnique(ByNameThenProfile, Sort(ByNameThenProfile, table), rows);
    }
  }

  ghost predicate ActiveShows(p: nat, x: ProfileVersion, a: ActiveRow) {
    a.profileId == p && a.versionId == x.versionId && a.version == x.version && a.nameKey == x.nameKey && a.digest == x.digest
  }

  /** The active rows show the active versions, column by column, and nothing else. */
  lemma ActiveRowsShow(s: Profiles, a: ActiveRow)
    requires Agrees(s)
    ensures a in Map(ActiveProfiles(s), ActiveRowOf) <==>
              exists p :: ActiveProfile(s, p).Some? && ActiveShows(p, ActiveProfile(s, p).value, a)
  {
    hide ActiveProfiles, Agrees;
    var listed := ActiveProfiles(s);
    var rows := Map(listed, ActiveRowOf);
    if a in rows {
      var i :| 0 <= i < |rows| && rows[i] == a;
      ListedIsActive(s, listed[i]);
    }
    if p :| ActiveProfile(s, p).Some? && ActiveShows(p, ActiveProfile(s, p).value, a) {
      ActiveIsListed(s, p);
      var i :| 0 <= i < |listed| && listed[i] == ActiveProfile(s, p).value;
      assert rows[i] == a;
    }
  }

  lemma ActiveIsListed(s: Profiles, p: nat)
    requires Agrees(s) && ActiveProfile(s, p).Some?
    ensures ActiveProfile(s, p).value in ActiveProfiles(s) && ActiveProfile(s, p).value.profileId == p
  {
    hide FilterMap, Enumerate, Sort, Chains, Indexed, Newest, NamesMatch, NamespacesMatch;
    var byId := FilterMap(Enumerate(NatLe, s.active.Keys), ActiveById(s));
    ActiveMembers(s, ActiveProfile(s, p).value);
    SortMultiset(ByNameThenId, byId);
    SameElements(byId, ActiveProfiles(s));
    ActiveIsItself(s, p);
  }

  lemma RowsBreakTies(listed: seq<ProfileVersion>, rows: seq<ActiveRow>)
    requires Separate(listed) && forall a :: a in rows <==> a in Map(listed, ActiveRowOf)
    ensures AntisymmetricOn(ByNameThenProfile, rows)
  {
    TextLeIsTotalOrder();
    var mapped := Map(listed, ActiveRowOf);
    forall a, b | a in rows && b in rows && ByNameThenProfile(a, b) && ByNameThenProfile(b, a) ensures a == b {
      var i :| 0 <= i < |mapped| && mapped[i] == a;
      var j :| 0 <= j < |mapped| && mapped[j] == b;
      assert a.profileId == listed[i].profileId && b.profileId == listed[j].profileId;
    }
  }

  /** Every version the projection knows was carried by the stream. */
  lemma {:induction false} VersionsWereCarried(sealed: Seal, s: Profiles, events: seq<Recorded>, id: nat)
    requires FoldProfiles(sealed, s, events).Some? && id in FoldProfiles(sealed, s, events).value.versions
    ensures var x := FoldProfiles(sealed, s, events).value.versions[id];
            (id in s.versions && s.versions[id] == x)
            || exists i :: 0 <= i < |events| && Carried(events[i].event) == Some(x)
    decreases |events|
  {
    if events != [] {
      var t := ReduceProfiles(sealed, s, events[0].event).value;
      var x := FoldProfiles(sealed, s, events).value.versions[id];
      VersionsWereCarried(sealed, t, events[1..], id);
      if i :| 0 <= i < |events[1..]| && Carried(events[1..][i].event) == Some(x) {
        assert Carried(events[i + 1].event) == Some(x);
      } else if !(id in s.versions && s.versions[id] == x) {
        assert Carried(events[0].event) == Some(x);
      }
    }
  }

  lemma {:induction false} CarriedHasRow(format: Format, events: seq<Recorded>, i: nat)
    requires i < |events| && Carried(events[i].event).Some? && ExpectedRows(format, events).Ok?
    ensures ExpectedRow(format, events[i].sequence, Carried(events[i].event).value).Ok?
    ensures ExpectedRow(format, events[i].sequence, Carried(events[i].event).value).value in ExpectedRows(format, events).value
    decreases |events|
  {
    if i > 0 { CarriedHasRow(format, events[1..], i - 1); }
  }

  /** After a repair the active table's references to the version table resolve. */
  lemma ActiveRowsAreMirrored(sealed: Seal, format: Format, events: seq<Recorded>, p: ProfileVersion)
    requires FoldProfiles(sealed, NO_PROFILES, events).Some? && ExpectedRows(format, events).Ok?
    requires p.versionId in FoldProfiles(sealed, NO_PROFILES, events).value.versions
    requires FoldProfiles(sealed, NO_PROFILES, events).value.versions[p.versionId] == p
    ensures exists r :: r in ExpectedRows(format, events).value
              && r.profileId == p.profileId && r.versionId == p.versionId && r.digest == p.digest
  {
    VersionsWereCarried(sealed, NO_PROFILES, events, p.versionId);
    var i :| 0 <= i < |events| && Carried(events[i].event) == Some(p);
    CarriedHasRow(format, events, i);
  }

  // ---------- the tables as they are repaired ----------

  lemma CandidatesIgnoreOrder(s: seq<Row>, t: seq<Row>, e: Row)
    requires multiset(s) == multiset(t)
    ensures Candidates(s, e) == [] <==> Candidates(t, e) == []
    ensures Candidates(s, e) == [e] <==> Candidates(t, e) == [e]
  {
    hide Filter;
    FilterKeepsMultiset(s, t, Keys(e));
    var a, b := Candidates(s, e), Candidates(t, e);
    assert multiset(a) == multiset(b);
    assert |a| == |multiset(a)| && |b| == |multiset(b)|;
    if a == [e] { assert b[0] in multiset(b); }
    if b == [e] { assert a[0] in multiset(a); }
  }

  class ProfileTables {
    var versions: seq<Row>
    var active: seq<ActiveRow>

    constructor ()
      ensures versions == [] && active == []
    {
      versions, active := [], [];
    }

    /** One pass over the stored rows: which of them share a key with the expected one. */
    static method FindCandidates(existing: seq<Row>, e: Row) returns (candidates: seq<nat>)
      ensures forall k | 0 <= k < |candidates| :: candidates[k] < |existing|
      ensures Candidates(existing, e) == seq(|candidates|, (k: nat) requires k < |candidates| && candidates[k] < |existing| => existing[candidates[k]])
      ensures forall i | 0 <= i < |existing| :: SameKey(existing[i], e) <==> i in candidates
    {
      candidates := [];
      for j := 0 to |existing|
        invariant forall k | 0 <= k < |candidates| :: candidates[k] < j
        invariant |Candidates(existing[..j], e)| == |candidates|
        invariant forall k | 0 <= k < |candidates| :: Candidates(existing[..j], e)[k] == existing[candidates[k]]
        invariant forall i | 0 <= i < j :: SameKey(existing[i], e) <==> i in candidates
      {
        assert existing[..j + 1] == existing[..j] + [existing[j]];
        FilterAppend(existing[..j], existing[j], Keys(e));
        if SameKey(existing[j], e) { candidates := candidates + [j]; }
      }
      assert existing[..|existing|] == existing;
    }

    /** `reconcile_expected_versions`: mark the stored rows that are expected, collect the
        missing ones, and write only when every stored row is marked. */
    method ReconcileExpectedVersions(expected: seq<Row>) returns (r: Result<(), MirrorError>)
      modifies this`versions
      ensures var repaired := Reconcile(old(versions), expected);
              && (r.Ok? <==> repaired.Ok?) && (r.Err? ==> repaired == Err(r.error))
              && versions == if repaired.Ok? then repaired.value else old(versions)
    {
      hide Sort, Filter, SameKey, InsertRow;
      var stored := versions;
      var existing := ReadTable(stored);
      SortMultiset(BySequence, stored);
      var matched := new bool[|existing|](_ => false);
      var missing: seq<Row> := [];
      assert expected[..0] == [];
      NothingMissing(stored);
      for k := 0 to |expected|
        invariant versions == stored
        invariant forall e | e in expected[..k] :: Candidates(stored, e) == [] || Candidates(stored, e) == [e]
        invariant missing == Filter(expected[..k], Absent(stored))
        invariant forall i | 0 <= i < |existing| :: matched[i] <==> existing[i] in expected[..k]
      {
        var e := expected[k];
        assert expected[..k + 1] == expected[..k] + [e];
        assert e in expected;
        FilterAppend(expected[..k], e, Absent(stored));
        CandidatesIgnoreOrder(existing, stored, e);
        var candidates := FindCandidates(existing, e);
        SameKeyReflexive(e);
        if candidates == [] {
          missing := missing + [e];
        } else if |candidates| == 1 && existing[candidates[0]] == e {
          assert Candidates(existing, e) == [e];
          matched[candidates[0]] := true;
        } else {
          assert Candidates(existing, e) != [] && Candidates(existing, e) != [e] by {
            if |candidates| == 1 { assert Candidates(existing, e)[0] == existing[candidates[0]]; }
          }
          return Err(HistoryMismatch);
        }
      }
      assert expected[..|expected|] == expected;
      SameElements(existing, stored);
      if exists i | 0 <= i < |existing| :: !matched[i] {
        var i :| 0 <= i < |existing| && !matched[i];
        assert existing[i] in stored;
        return Err(UnexpectedHistory);
      }
      forall t | t in stored ensures t in expected {
        var i :| 0 <= i < |existing| && existing[i] == t;
      }
      var table := stored;
      for k := 0 to |missing|
        invariant versions == stored
        invariant InsertAll(table, missing[k..]) == InsertAll(stored, missing)
      {
        assert missing[k..][0] == missing[k] && missing[k..][1..] == missing[k + 1..];
        var next := InsertRow(table, missing[k]);
        if next.Err? { return Err(next.error); }
        table := next.value;
      }
      assert missing[|missing|..] == [];
      versions := table;
      return Ok(());
    }

    /** `insert_expected_version`. */
    method InsertVersion(format: Format, stored: SkillRef -> bool, sequence: nat, p: ProfileVersion) returns (r: Result<(), MirrorError>)
      modifies this`versions
      ensures var inserted := InsertExpected(format, stored, old(versions), sequence, p);
              && (r.Ok? <==> inserted.Ok?) && (r.Err? ==> inserted == Err(r.error))
              && versions == if inserted.Ok? then inserted.value else old(versions)
    {
      hide Filter, SameKey, InsertRow;
      for i := 0 to |p.draft.skillRefs|
        invariant forall x | x in p.draft.skillRefs[..i] :: stored(x)
        invariant versions == old(versions)
      {
        assert p.draft.skillRefs[..i + 1] == p.draft.skillRefs[..i] + [p.draft.skillRefs[i]];
        if !stored(p.draft.skillRefs[i]) { return Err(UnresolvedReference); }
      }
      assert p.draft.skillRefs[..|p.draft.skillRefs|] == p.draft.skillRefs;
      var expected := ExpectedRow(format, sequence, p);
      if expected.Err? { return Err(expected.error); }
      var existing := FindCandidates(versions, expected.value);
      if existing == [] {
        assert Candidates(versions, expected.value) == [];
        var inserted := InsertRow(versions, expected.value);
        if inserted.Err? { return Err(inserted.error); }
        versions := inserted.value;
        return Ok(());
      }
      if |existing| == 1 && versions[existing[0]] == expected.value {
        assert Candidates(versions, expected.value) == [expected.value];
        return Ok(());
      }
      assert Candidates(versions, expected.value) != [] && Candidates(versions, expected.value) != [expected.value] by {
        if |existing| == 1 { assert Candidates(versions, expected.value)[0] == versions[existing[0]]; }
      }
      return Err(HistoryMismatch);
    }

    /** `load_all_versions`: row by row in event order, up to the first that does not fit. */
    method LoadAllVersions(format: Format, stored: SkillRef -> bool) returns (r: Result<seq<(nat, ProfileVersion)>, MirrorError>)
      ensures r == LoadVersions(format, stored, ReadTable(versions))
    {
      hide Sort, LoadRow;
      var rows := ReadTable(versions);
      var loaded: seq<(nat, ProfileVersion)> := [];
      LoadedNothing(LoadVersions(format, stored, rows));
      assert rows[0..] == rows;
      for i := 0 to |rows|
        invariant LoadVersions(format, stored, rows) == LoadedThen(loaded, LoadVersions(format, stored, rows[i..]))
      {
        assert rows[i..][0] == rows[i] && rows[i..][1..] == rows[i + 1..];
        var first := LoadRow(format, stored, rows[i]);
        if first.Err? { return Err(first.error); }
        LoadedAppend(loaded, first.value, LoadVersions(format, stored, rows[i + 1..]));
        loaded := loaded + [first.value];
      }
      assert rows[|rows|..] == [];
      assert loaded + [] == loaded;
      return Ok(loaded);
    }

    /** `replace_active_profiles`: delete every row, insert one per active profile. */
    method ReplaceActiveProfiles(listed: seq<ProfileVersion>) returns (r: Result<(), MirrorError>)
      modifies this`active
      ensures var replaced := InsertAllActive([], listed);
              && (r.Ok? <==> replaced.Ok?) && (r.Err? ==> replaced == Err(r.error))
              && active == if replaced.Ok? then replaced.value else old(active)
    {
      var rows: seq<ActiveRow> := [];
      for k := 0 to |listed|
        invariant InsertAllActive(rows, listed[k..]) == InsertAllActive([], listed)
      {
        assert listed[k..][0] == listed[k] && listed[k..][1..] == listed[k + 1..];
        var next := InsertActive(rows, listed[k]);
        if next.Err? { return Err(next.error); }
        rows := next.value;
      }
      assert listed[|listed|..] == [];
      active := rows;
      return Ok(());
    }
  }

  lemma SameKeyReflexive(e: Row)
    ensures SameKey(e, e)
  {}

  lemma NothingMissing(table: seq<Row>)
    ensures Filter([], Absent(table)) == []
  {}

  ghost function LoadedThen(loaded: seq<(nat, ProfileVersion)>, rest: Result<seq<(nat, ProfileVersion)>, MirrorError>):
      Result<seq<(nat, ProfileVersion)>, MirrorError>
  {
    match rest case Ok(more) => Ok(loaded + more) case Err(e) => Err(e)
  }

  lemma LoadedNothing(rest: Result<seq<(nat, ProfileVersion)>, MirrorError>)
    ensures LoadedThen([], rest) == rest
  {
    if rest.Ok? { assert [] + rest.value == rest.value; }
  }

  lemma LoadedAppend(loaded: seq<(nat, ProfileVersion)>, next: (nat, ProfileVersion), rest: Result<seq<(nat, ProfileVersion)>, MirrorError>)
    ensures rest.Ok? ==> loaded + ([next] + rest.value) == (loaded + [next]) + rest.value
  {}
}
