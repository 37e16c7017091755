/** Reading skill histories back from the table, one reference at a time and in a batch:
    src/persistence/skill_repository.rs. */
module SkillRepository {
  import opened Prelude
  import opened Sorting
  import opened SkillsProjection
  import Diff = ProfileDiff

  datatype RepositoryError = IntegrityMismatch | ReferenceMismatch

  /** A stored row: its identity columns and everything else. */
  datatype Row = Row(skillId: nat, versionId: nat, version: nat, payload: nat)

  /** How rows and versions correspond: the record digest, the two constructors fed from a
      row, and the remaining columns of a version.  Nothing is assumed about them. */
  datatype Codec = Codec(
    authentic: Row -> bool,
    create: Row -> Option<SkillVersion>,
    next: (SkillVersion, Row) -> Option<SkillVersion>,
    payloadOf: SkillVersion -> Option<nat>)

  /** The row a version should have; version numbers are stored as 64-bit signed integers. */
  function ExpectedRow(codec: Codec, v: SkillVersion): Option<Row> {
    if codec.payloadOf(v).None? || v.version > I64_MAX then None
    else Some(Row(v.skillId, v.versionId, v.version, codec.payloadOf(v).value))
  }

  predicate ByVersion(a: Row, b: Row) { a.version <= b.version }

  function OfSkill(skillId: nat): Row -> bool { (r: Row) => r.skillId == skillId }

  /** `SELECT … WHERE skill_id = ? ORDER BY version`. */
  function RowsOf(table: seq<Row>, skillId: nat): seq<Row> { Sort(ByVersion, Filter(table, OfSkill(skillId))) }

  /** The table's unique version ids. */
  predicate UniqueIds(table: seq<Row>) {
    forall i, j | 0 <= i < j < |table| :: table[i].versionId != table[j].versionId
  }

  /** One row, rebuilt from the version before it and compared with what is stored. */
  function DecodeRow(codec: Codec, skillId: nat, versions: seq<SkillVersion>, row: Row): Option<SkillVersion> {
    if !codec.authentic(row) then None
    else
      var built := if versions == [] then codec.create(row) else codec.next(versions[|versions| - 1], row);
      if built.None? || built.value.skillId != skillId || ExpectedRow(codec, built.value) != Some(row) then None else built
  }

  function DecodeRows(codec: Codec, skillId: nat, versions: seq<SkillVersion>, rows: seq<Row>): Option<seq<SkillVersion>>
    decreases |rows|
  {
    if rows == [] then Some(versions)
    else match DecodeRow(codec, skillId, versions, rows[0])
      case None => None
      case Some(v) => DecodeRows(codec, skillId, versions + [v], rows[1..])
  }

  /** `load_validated_history`. */
  function LoadHistory(codec: Codec, table: seq<Row>, skillId: nat): Option<seq<SkillVersion>> {
    DecodeRows(codec, skillId, [], RowsOf(table, skillId))
  }

  function FindById(versions: seq<SkillVersion>, versionId: nat): Option<SkillVersion> {
    if versions == [] then None
    else if versions[0].versionId == versionId then Some(versions[0])
    else FindById(versions[1..], versionId)
  }

  /** `load_skill_version`. */
  function LoadVersion(codec: Codec, table: seq<Row>, reference: SkillRef): Result<Option<SkillVersion>, RepositoryError> {
    match LoadHistory(codec, table, reference.skillId)
    case None => Err(IntegrityMismatch)
    case Some(versions) =>
      match FindById(versions, reference.versionId)
      case None => Ok(None)
      case Some(v) => if v.Reference() == reference then Ok(Some(v)) else Err(ReferenceMismatch)
  }

  /** `validate_skill_version_ref`. */
  function ValidateRef(codec: Codec, table: seq<Row>, reference: SkillRef): Result<(), RepositoryError> {
    match LoadVersion(codec, table, reference)
    case Err(e) => Err(e)
    case Ok(None) => Err(ReferenceMismatch)
    case Ok(Some(_)) => Ok(())
  }

  predicate Listed(versions: seq<SkillVersion>, reference: SkillRef) { exists v | v in versions :: v.Reference() == reference }

  function SkillIds(refs: seq<SkillRef>): set<nat> { set r | r in refs :: r.skillId }

  /** `validate_skill_version_refs_batch`: every history the references touch must decode,
      and every reference must be among the decoded versions of some touched skill. */
  predicate BatchOk(codec: Codec, table: seq<Row>, refs: seq<SkillRef>) {
    && (forall id | id in SkillIds(refs) :: LoadHistory(codec, table, id).Some?)
    && (forall r | r in refs :: exists id | id in SkillIds(refs) :: Listed(LoadHistory(codec, table, id).value, r))
  }

  // ---------- what decoding guarantees ----------

  /** Decoded versions are, row for row, what the table stores. */
  lemma {:induction false} DecodedRows(codec: Codec, skillId: nat, versions: seq<SkillVersion>, rows: seq<Row>, done: seq<Row>)
    requires |versions| == |done|
    requires forall i | 0 <= i < |versions| :: ExpectedRow(codec, versions[i]) == Some(done[i]) && versions[i].skillId == skillId
    requires DecodeRows(codec, skillId, versions, rows).Some?
    ensures var all := DecodeRows(codec, skillId, versions, rows).value;
            && |all| == |done + rows|
            && forall i | 0 <= i < |all| :: ExpectedRow(codec, all[i]) == Some((done + rows)[i]) && all[i].skillId == skillId
    decreases |rows|
  {
    if rows == [] {
      assert done + rows == done;
    } else {
      var v := DecodeRow(codec, skillId, versions, rows[0]).value;
      DecodedRows(codec, skillId, versions + [v], rows[1..], done + [rows[0]]);
      assert done + [rows[0]] + rows[1..] == done + rows;
    }
  }

  /** A history belongs to its skill and repeats no version id. */
  lemma HistoryMeaning(codec: Codec, table: seq<Row>, skillId: nat)
    requires UniqueIds(table) && LoadHistory(codec, table, skillId).Some?
    ensures var h := LoadHistory(codec, table, skillId).value;
            && (forall v | v in h :: v.skillId == skillId)
            && (forall i, j | 0 <= i < j < |h| :: h[i].versionId != h[j].versionId)
  {
    var rows := RowsOf(table, skillId);
    DecodedRows(codec, skillId, [], rows, []);
    assert [] + rows == rows;
    UniqueRows(table, skillId);
  }

  function VersionIdOf(): Row -> nat { (r: Row) => r.versionId }

  lemma UniqueRows(table: seq<Row>, skillId: nat)
    requires UniqueIds(table)
    ensures UniqueIds(RowsOf(table, skillId))
  {
    var kept := Filter(table, OfSkill(skillId));
    FilterKeepsUnique(table, OfSkill(skillId));
    SortMultiset(ByVersion, kept);
    MapMultiset(kept, RowsOf(table, skillId), VersionIdOf());
    assert Distinct(Map(kept, VersionIdOf()));
    DistinctPermutation(Map(kept, VersionIdOf()), Map(RowsOf(table, skillId), VersionIdOf()));
    var ids := Map(RowsOf(table, skillId), VersionIdOf());
    forall i, j | 0 <= i < j < |ids| ensures RowsOf(table, skillId)[i].versionId != RowsOf(table, skillId)[j].versionId {
      assert ids[i] != ids[j];
    }
  }

  lemma {:induction false} FilterKeepsUnique(table: seq<Row>, keep: Row -> bool)
    requires UniqueIds(table)
    ensures UniqueIds(Filter(table, keep))
  {
    if table != [] {
      FilterKeepsUnique(table[1..], keep);
      forall r | r in Filter(table[1..], keep) ensures r.versionId != table[0].versionId {
        FilterMultiset(table[1..], keep, r);
        var i :| 0 <= i < |table[1..]| && table[1..][i] == r;
      }
    }
  }

  lemma {:induction false} FindByIdMeaning(versions: seq<SkillVersion>, v: SkillVersion)
    requires v in versions && forall i, j | 0 <= i < j < |versions| :: versions[i].versionId != versions[j].versionId
    ensures FindById(versions, v.versionId) == Some(v)
  {
    var i :| 0 <= i < |versions| && versions[i] == v;
    if i > 0 {
      assert versions[1..][i - 1] == v;
      FindByIdMeaning(versions[1..], v);
    }
  }

  lemma {:induction false} FoundIsListed(versions: seq<SkillVersion>, versionId: nat)
    ensures FindById(versions, versionId).Some? ==> FindById(versions, versionId).value in versions
  {
    if versions != [] && versions[0].versionId != versionId { FoundIsListed(versions[1..], versionId); }
  }

  /** Checking one reference is finding it in its own skill's history. */
  lemma ValidateRefMeaning(codec: Codec, table: seq<Row>, r: SkillRef)
    requires UniqueIds(table)
    ensures ValidateRef(codec, table, r).Ok? <==>
              LoadHistory(codec, table, r.skillId).Some? && Listed(LoadHistory(codec, table, r.skillId).value, r)
  {
    hide LoadHistory;
    if LoadHistory(codec, table, r.skillId).Some? {
      var h := LoadHistory(codec, table, r.skillId).value;
      HistoryMeaning(codec, table, r.skillId);
      FoundIsListed(h, r.versionId);
      if Listed(h, r) {
        var v :| v in h && v.Reference() == r;
        FindByIdMeaning(h, v);
      }
    }
  }

  /** The batch accepts exactly the lists whose every reference is accepted on its own. */
  lemma BatchIsEachOne(codec: Codec, table: seq<Row>, refs: seq<SkillRef>)
    requires UniqueIds(table)
    ensures BatchOk(codec, table, refs) <==> forall r | r in refs :: ValidateRef(codec, table, r).Ok?
  {
    hide LoadHistory, ValidateRef;
    forall r | r in refs ensures r.skillId in SkillIds(refs) { ValidateRefMeaning(codec, table, r); }
    forall r | r in refs { ValidateRefMeaning(codec, table, r); }
    if BatchOk(codec, table, refs) {
      forall r | r in refs ensures ValidateRef(codec, table, r).Ok? {
        var id :| id in SkillIds(refs) && Listed(LoadHistory(codec, table, id).value, r);
        HistoryMeaning(codec, table, id);
        ValidateRefMeaning(codec, table, r);
      }
    }
  }

  // ---------- version ids determine stored references ----------

  /** A decoded version has its row in the table. */
  lemma VersionHasRow(codec: Codec, table: seq<Row>, skillId: nat, v: SkillVersion)
    requires LoadHistory(codec, table, skillId).Some? && v in LoadHistory(codec, table, skillId).value
    ensures exists row :: row in table && row.skillId == skillId == v.skillId && row.versionId == v.versionId
  {
    var rows := RowsOf(table, skillId);
    var h := LoadHistory(codec, table, skillId).value;
    DecodedRows(codec, skillId, [], rows, []);
    assert [] + rows == rows;
    var i :| 0 <= i < |h| && h[i] == v;
    assert rows[i] in rows;
    SortMultiset(ByVersion, Filter(table, OfSkill(skillId)));
    SameElements(rows, Filter(table, OfSkill(skillId)));
    FilterMultiset(table, OfSkill(skillId), rows[i]);
  }

  /** Two references that resolve and name the same version id are the same reference. */
  lemma StoredIdDeterminesRef(codec: Codec, table: seq<Row>, a: SkillRef, b: SkillRef)
    requires UniqueIds(table) && ValidateRef(codec, table, a).Ok? && ValidateRef(codec, table, b).Ok?
    requires a.versionId == b.versionId
    ensures a == b
  {
    hide LoadHistory, ValidateRef;
    ValidateRefMeaning(codec, table, a);
    ValidateRefMeaning(codec, table, b);
    var v :| v in LoadHistory(codec, table, a.skillId).value && v.Reference() == a;
    var u :| u in LoadHistory(codec, table, b.skillId).value && u.Reference() == b;
    VersionHasRow(codec, table, a.skillId, v);
    VersionHasRow(codec, table, b.skillId, u);
    var r :| r in table && r.skillId == a.skillId == v.skillId && r.versionId == v.versionId;
    var q :| q in table && q.skillId == b.skillId == u.skillId && q.versionId == u.versionId;
    RowById(table, r, q);
    HistoryMeaning(codec, table, a.skillId);
    var h := LoadHistory(codec, table, a.skillId).value;
    FindByIdMeaning(h, v);
    FindByIdMeaning(h, u);
  }

  lemma RowById(table: seq<Row>, r: Row, q: Row)
    requires UniqueIds(table) && r in table && q in table && r.versionId == q.versionId
    ensures r == q
  {
    var i :| 0 <= i < |table| && table[i] == r;
    var j :| 0 <= j < |table| && table[j] == q;
  }

  /** For reference lists the skill table accepts, a diff does determine the candidate. */
  lemma StoredRefsAreDetermined(codec: Codec, table: seq<Row>, current: seq<SkillRef>, candidate: seq<SkillRef>, other: seq<SkillRef>)
    requires UniqueIds(table) && BatchOk(codec, table, candidate) && BatchOk(codec, table, other)
    requires Diff.Canonicals(current, candidate) && Diff.Canonicals(current, other)
    requires Diff.SkillChanges(current, other) == Diff.SkillChanges(current, candidate)
    ensures other == candidate
  {
    hide BatchOk, ValidateRef, Diff.SkillChanges, Diff.Canonicals, UniqueIds;
    BatchIsEachOne(codec, table, candidate);
    BatchIsEachOne(codec, table, other);
    forall r, r' | r in candidate && r' in other && r.versionId == r'.versionId ensures r == r' {
      StoredIdDeterminesRef(codec, table, r, r');
    }
    Diff.ResolvedRefsAreDetermined(current, candidate, other);
  }

  // ---------- as it runs ----------

  method LoadValidatedHistory(codec: Codec, table: seq<Row>, skillId: nat) returns (r: Option<seq<SkillVersion>>)
    ensures r == LoadHistory(codec, table, skillId)
  {
    var rows := RowsOf(table, skillId);
    var versions: seq<SkillVersion> := [];
    for i := 0 to |rows|
      invariant DecodeRows(codec, skillId, versions, rows[i..]) == LoadHistory(codec, table, skillId)
    {
      assert rows[i..][0] == rows[i] && rows[i..][1..] == rows[i + 1..];
      var decoded := DecodeRow(codec, skillId, versions, rows[i]);
      if decoded.None? { return None; }
      versions := versions + [decoded.value];
    }
    assert rows[|rows|..] == [];
    return Some(versions);
  }

  /** Some decoded history among `ids` holds `v`. */
  predicate InSome(codec: Codec, table: seq<Row>, ids: set<nat>, v: SkillVersion) {
    exists id | id in ids :: LoadHistory(codec, table, id).Some? && v in LoadHistory(codec, table, id).value
  }

  ghost predicate Collected(codec: Codec, table: seq<Row>, ids: set<nat>, versions: seq<SkillVersion>) {
    && (forall id | id in ids :: LoadHistory(codec, table, id).Some?)
    && (forall v :: v in versions <==> InSome(codec, table, ids, v))
  }

  lemma CollectOne(codec: Codec, table: seq<Row>, ids: set<nat>, versions: seq<SkillVersion>, id: nat)
    requires Collected(codec, table, ids, versions) && LoadHistory(codec, table, id).Some?
    ensures Collected(codec, table, ids + {id}, versions + LoadHistory(codec, table, id).value)
  {
    hide LoadHistory;
    var h := LoadHistory(codec, table, id).value;
    forall v ensures v in versions + h <==> InSome(codec, table, ids + {id}, v) {
      assert v in versions + h <==> v in versions || v in h;
    }
  }

  lemma CollectedDecides(codec: Codec, table: seq<Row>, refs: seq<SkillRef>, versions: seq<SkillVersion>)
    requires Collected(codec, table, SkillIds(refs), versions)
    ensures BatchOk(codec, table, refs) <==> forall r | r in refs :: Listed(versions, r)
  {
    hide LoadHistory;
    forall r | r in refs
      ensures Listed(versions, r) <==> exists id :: id in SkillIds(refs) && Listed(LoadHistory(codec, table, id).value, r)
    {
      if Listed(versions, r) {
        var v :| v in versions && v.Reference() == r;
        var id :| id in SkillIds(refs) && v in LoadHistory(codec, table, id).value;
        assert Listed(LoadHistory(codec, table, id).value, r);
      }
      if id :| id in SkillIds(refs) && Listed(LoadHistory(codec, table, id).value, r) {
        var v :| v in LoadHistory(codec, table, id).value && v.Reference() == r;
        assert v in versions;
      }
    }
  }

  /** Load every touched history into one list, then look each reference up in it. */
  method ValidateBatch(codec: Codec, table: seq<Row>, refs: seq<SkillRef>) returns (r: Result<(), RepositoryError>)
    ensures r.Ok? <==> BatchOk(codec, table, refs)
    ensures r == Err(IntegrityMismatch) <==> exists id :: id in SkillIds(refs) && LoadHistory(codec, table, id).None?
  {
    hide LoadHistory, BatchOk, InSome;
    var ids := SkillIds(refs);
    var rest, authenticated: seq<SkillVersion> := ids, [];
    assert Collected(codec, table, {}, []) by { NothingCollected(codec, table); }
    assert ids - rest == {};
    while rest != {}
      invariant rest <= ids
      invariant Collected(codec, table, ids - rest, authenticated)
      decreases |rest|
    {
      var id :| id in rest;
      var history := LoadValidatedHistory(codec, table, id);
      if history.None? {
        BatchNeeds(codec, table, refs, id);
        return Err(IntegrityMismatch);
      }
      CollectOne(codec, table, ids - rest, authenticated, id);
      assert ids - (rest - {id}) == ids - rest + {id};
      authenticated, rest := authenticated + history.value, rest - {id};
    }
    assert ids - rest == ids;
    CollectedDecides(codec, table, refs, authenticated);
    if forall r | r in refs :: Listed(authenticated, r) { return Ok(()); }
    return Err(ReferenceMismatch);
  }

  lemma NothingCollected(codec: Codec, table: seq<Row>)
    ensures Collected(codec, table, {}, [])
  {}

  lemma BatchNeeds(codec: Codec, table: seq<Row>, refs: seq<SkillRef>, id: nat)
    requires id in SkillIds(refs) && LoadHistory(codec, table, id).None?
    ensures !BatchOk(codec, table, refs)
  {}
}
