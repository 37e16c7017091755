/** Skill versions, `SkillsProjection` (src/skills/projection.rs) and the reconciliation of
    built-in manifests (src/skills/builtin.rs). */
module SkillsProjection {
  import opened Prelude
  import opened Sorting
  import ProfileDraft

  type SkillRef = ProfileDraft.SkillRef

  datatype Content = Content(displayName: string, body: string, resources: seq<string>)
  datatype Provenance = Authored | BuiltIn(manifestId: nat, manifestVersion: nat, manifestDigest: nat)

  /** `name` is the normalised form of the display name. */
  datatype SkillVersion = SkillVersion(
    skillId: nat, versionId: nat, version: nat, name: string, content: Content, digest: nat,
    createdAt: int, provenance: Provenance, predecessor: Option<nat>)
  {
    function Reference(): SkillRef { ProfileDraft.SkillRef(skillId, versionId, version, digest) }
  }

  datatype SkillError = InvalidSkillVersion | InvalidObjectVersion

  datatype Skills = Skills(
    versions: map<nat, SkillVersion>, index: map<nat, map<nat, nat>>, active: map<nat, nat>, names: map<string, nat>)

  const NO_SKILLS := Skills(map[], map[], map[], map[])

  /** Whether a version's content digest recomputes. */
  type Seal = SkillVersion -> bool

  // ---------- updates ----------

  function InsertSkill(sealed: Seal, s: Skills, k: SkillVersion): Result<Skills, SkillError> {
    if k.version != 1 || k.predecessor.Some? || k.versionId in s.versions || k.skillId in s.active
       || k.skillId in s.index || k.name in s.names || !sealed(k) then Err(InvalidSkillVersion)
    else Ok(Skills(
      s.versions[k.versionId := k],
      s.index[k.skillId := map[k.version := k.versionId]],
      s.active[k.skillId := k.versionId],
      s.names[k.name := k.skillId]))
  }

  function ActivateSkill(sealed: Seal, s: Skills, k: SkillVersion, previous: nat): Result<Skills, SkillError> {
    if k.skillId !in s.active || s.active[k.skillId] !in s.versions then Err(InvalidSkillVersion)
    else
      var currentId := s.active[k.skillId];
      var current := s.versions[currentId];
      if current.version >= U64_MAX then Err(InvalidObjectVersion)
      else if k.skillId != current.skillId || k.version != current.version + 1 || k.predecessor != Some(currentId)
              || previous != currentId || k.versionId in s.versions
              || (k.name in s.names && s.names[k.name] != k.skillId) || !sealed(k) then Err(InvalidSkillVersion)
      else Ok(Skills(
        s.versions[k.versionId := k],
        s.index[k.skillId := (if k.skillId in s.index then s.index[k.skillId] else map[])[k.version := k.versionId]],
        s.active[k.skillId := k.versionId],
        (s.names - {current.name})[k.name := k.skillId]))
  }

  // ---------- histories ----------

  function VersionOf(s: Skills, skillId: nat, v: nat): Option<SkillVersion> {
    if skillId in s.index && v in s.index[skillId] && s.index[skillId][v] in s.versions
    then Some(s.versions[s.index[skillId][v]]) else None
  }

  function VersionIn(s: Skills, skillId: nat): nat -> Option<SkillVersion> { (v: nat) => VersionOf(s, skillId, v) }

  ghost function History(s: Skills, skillId: nat): seq<SkillVersion> {
    if skillId in s.index then FilterMap(Enumerate(NatLe, s.index[skillId].Keys), VersionIn(s, skillId)) else []
  }

  /** The first version of a list with a given number. */
  function FindVersion(h: seq<SkillVersion>, v: nat): Option<SkillVersion> {
    if h == [] then None else if h[0].version == v then Some(h[0]) else FindVersion(h[1..], v)
  }

  /** Index entries resolve to the version and skill they are filed under; an active skill
      has a newest version, above all others. */
  ghost predicate Keyed(s: Skills) {
    && (forall k, v | k in s.index && v in s.index[k] ::
          && s.index[k][v] in s.versions && s.versions[s.index[k][v]].version == v && s.versions[s.index[k][v]].skillId == k)
    && s.active.Keys == s.index.Keys
    && (forall k | k in s.active :: s.active[k] in s.versions
          && var newest := s.versions[s.active[k]].version;
          newest in s.index[k] && s.index[k][newest] == s.active[k] && forall v | v in s.index[k] :: v <= newest)
  }

  lemma InsertKeepsKeyed(sealed: Seal, s: Skills, k: SkillVersion)
    requires Keyed(s) && InsertSkill(sealed, s, k).Ok?
    ensures Keyed(InsertSkill(sealed, s, k).value)
  {}

  lemma ActivateKeepsKeyed(sealed: Seal, s: Skills, k: SkillVersion, previous: nat)
    requires Keyed(s) && ActivateSkill(sealed, s, k, previous).Ok?
    ensures Keyed(ActivateSkill(sealed, s, k, previous).value)
  {}

  lemma {:induction false} FindMember(h: seq<SkillVersion>, v: nat, x: SkillVersion)
    requires x in h && x.version == v && forall y | y in h && y.version == v :: y == x
    ensures FindVersion(h, v) == Some(x)
  {
    assert h[0] in h;
    if h[0].version != v {
      FindMember(h[1..], v, x);
    }
  }

  lemma {:induction false} FindNothing(h: seq<SkillVersion>, v: nat)
    requires forall y | y in h :: y.version != v
    ensures FindVersion(h, v).None?
  {
    if h != [] {
      assert h[0] in h;
      FindNothing(h[1..], v);
    }
  }

  /** Searching a history for a version number is looking it up in the index. */
  lemma FindInHistory(s: Skills, skillId: nat, v: nat)
    requires Keyed(s)
    ensures FindVersion(History(s, skillId), v) == VersionOf(s, skillId, v)
    ensures History(s, skillId) == [] <==> skillId !in s.index
  {
    if skillId in s.index {
      var keys := Enumerate(NatLe, s.index[skillId].Keys);
      EnumerateMeaning(NatLe, s.index[skillId].Keys);
      var h := History(s, skillId);
      forall x ensures x in h <==> exists k :: k in s.index[skillId] && VersionOf(s, skillId, k) == Some(x) {
        FilterMapMembers(keys, VersionIn(s, skillId), x);
      }
      if v in s.index[skillId] {
        FindMember(h, v, VersionOf(s, skillId, v).value);
      } else {
        FindNothing(h, v);
      }
      var newest := s.versions[s.active[skillId]].version;
      assert VersionOf(s, skillId, newest).value in h;
    }
  }

  // ---------- reconciling built-in manifests ----------

  datatype Manifest = Manifest(manifestId: nat, manifestVersion: nat, expectedDigest: nat, skill: SkillVersion)

  predicate ManifestMatches(existing: SkillVersion, m: Manifest) {
    && existing == m.skill && existing.digest == m.expectedDigest
    && existing.provenance == BuiltIn(m.manifestId, m.manifestVersion, m.expectedDigest)
  }

  predicate ManifestLe(a: Manifest, b: Manifest) {
    if a.skill.skillId != b.skill.skillId then a.skill.skillId < b.skill.skillId
    else if a.skill.version != b.skill.version then a.skill.version < b.skill.version
    else a.skill.versionId <= b.skill.versionId
  }

  ghost function ReconcileOne(sealed: Seal, s: Skills, m: Manifest): Result<Skills, SkillError> {
    var history := History(s, m.skill.skillId);
    match FindVersion(history, m.skill.version)
    case Some(existing) => if ManifestMatches(existing, m) then Ok(s) else Err(InvalidSkillVersion)
    case None => if history == [] then InsertSkill(sealed, s, m.skill) else Err(InvalidSkillVersion)
  }

  ghost function ReconcileAll(sealed: Seal, s: Skills, ms: seq<Manifest>): Result<Skills, SkillError>
    decreases |ms|
  {
    if ms == [] then Ok(s)
    else
      var next :- ReconcileOne(sealed, s, ms[0]);
      ReconcileAll(sealed, next, ms[1..])
  }

  ghost function Reconcile(sealed: Seal, s: Skills, manifests: seq<Manifest>): Result<Skills, SkillError> {
    ReconcileAll(sealed, s, Sort(ManifestLe, manifests))
  }

  /** Manifests as they are built: they match their own skill. */
  predicate WellFormed(manifests: seq<Manifest>) {
    forall m | m in manifests :: ManifestMatches(m.skill, m)
  }

  /** The projection holds the manifest's skill, under its number. */
  ghost predicate Holds(s: Skills, m: Manifest) { VersionOf(s, m.skill.skillId, m.skill.version) == Some(m.skill) }

  /** Nothing filed in `s` is refiled or lost in `t`. */
  ghost predicate Extends(s: Skills, t: Skills) {
    forall skillId, v | VersionOf(s, skillId, v).Some? :: VersionOf(t, skillId, v) == VersionOf(s, skillId, v)
  }

  lemma InsertExtends(sealed: Seal, s: Skills, k: SkillVersion)
    requires Keyed(s) && InsertSkill(sealed, s, k).Ok?
    ensures Extends(s, InsertSkill(sealed, s, k).value)
  {}

  lemma ActivateExtends(sealed: Seal, s: Skills, k: SkillVersion, previous: nat)
    requires Keyed(s) && ActivateSkill(sealed, s, k, previous).Ok?
    ensures Extends(s, ActivateSkill(sealed, s, k, previous).value)
  {}

  lemma ReconcileOneMeaning(sealed: Seal, s: Skills, m: Manifest)
    requires Keyed(s) && ManifestMatches(m.skill, m)
    ensures ReconcileOne(sealed, s, m).Ok? ==>
              var t := ReconcileOne(sealed, s, m).value; Keyed(t) && Extends(s, t) && Holds(t, m)
    ensures Holds(s, m) ==> ReconcileOne(sealed, s, m) == Ok(s)
  {
    hide Keyed, Extends, History, ActivateSkill;
    FindInHistory(s, m.skill.skillId, m.skill.version);
    ExtendsItself(s);
    if InsertSkill(sealed, s, m.skill).Ok? {
      InsertKeepsKeyed(sealed, s, m.skill);
      InsertExtends(sealed, s, m.skill);
    }
  }

  lemma ExtendsItself(s: Skills)
    ensures Extends(s, s)
  {}

  /** Reconciliation leaves every manifest in place and what was there before untouched. */
  lemma {:induction false} ReconcileAllMeaning(sealed: Seal, s: Skills, ms: seq<Manifest>)
    requires Keyed(s) && WellFormed(ms)
    ensures ReconcileAll(sealed, s, ms).Ok? ==>
              var t := ReconcileAll(sealed, s, ms).value;
              Keyed(t) && Extends(s, t) && forall m | m in ms :: Holds(t, m)
    ensures (forall m | m in ms :: Holds(s, m)) ==> ReconcileAll(sealed, s, ms) == Ok(s)
    decreases |ms|
  {
    hide Keyed, ReconcileOne, ManifestMatches;
    if ms == [] {
      ExtendsItself(s);
    } else {
      assert ms[0] in ms;
      ReconcileOneMeaning(sealed, s, ms[0]);
      var next := ReconcileOne(sealed, s, ms[0]);
      if next.Ok? {
        assert forall m | m in ms[1..] :: m in ms;
        ReconcileAllMeaning(sealed, next.value, ms[1..]);
        assert forall m | m in ms :: m == ms[0] || m in ms[1..];
      }
    }
  }

  // ---------- later runs ----------

  datatype SkillEvent = Inserted(skill: SkillVersion) | Activated(activated: SkillVersion, previous: nat)

  function Step(sealed: Seal, s: Skills, event: SkillEvent): Skills {
    var r := match event case Inserted(k) => InsertSkill(sealed, s, k) case Activated(k, previous) => ActivateSkill(sealed, s, k, previous);
    if r.Ok? then r.value else s
  }

  function Run(sealed: Seal, s: Skills, events: seq<SkillEvent>): Skills
    decreases |events|
  {
    if events == [] then s else Run(sealed, Step(sealed, s, events[0]), events[1..])
  }

  lemma {:induction false} RunExtends(sealed: Seal, s: Skills, events: seq<SkillEvent>)
    requires Keyed(s)
    ensures Keyed(Run(sealed, s, events)) && Extends(s, Run(sealed, s, events))
    decreases |events|
  {
    hide Keyed;
    ExtendsItself(s);
    if events != [] {
      match events[0] {
        case Inserted(k) =>
          if InsertSkill(sealed, s, k).Ok? { InsertKeepsKeyed(sealed, s, k); InsertExtends(sealed, s, k); }
        case Activated(k, previous) =>
          if ActivateSkill(sealed, s, k, previous).Ok? {
            ActivateKeepsKeyed(sealed, s, k, previous);
            ActivateExtends(sealed, s, k, previous);
          }
      }
      RunExtends(sealed, Step(sealed, s, events[0]), events[1..]);
    }
  }

  /** Once reconciled, always reconcilable: whatever skills are inserted or activated
      later, reconciling the same manifests succeeds and changes nothing. */
  lemma ReconcileIsIdempotent(sealed: Seal, s: Skills, manifests: seq<Manifest>, events: seq<SkillEvent>)
    requires Keyed(s) && WellFormed(manifests)
    requires Reconcile(sealed, s, manifests).Ok?
    ensures var t := Run(sealed, Reconcile(sealed, s, manifests).value, events);
            Reconcile(sealed, t, manifests) == Ok(t)
  {
    hide Keyed, ReconcileAll, ManifestMatches, Run;
    var ms := Sort(ManifestLe, manifests);
    SortMultiset(ManifestLe, manifests);
    SameElements(ms, manifests);
    ReconcileAllMeaning(sealed, s, ms);
    var reconciled := Reconcile(sealed, s, manifests).value;
    RunExtends(sealed, reconciled, events);
    ReconcileAllMeaning(sealed, Run(sealed, reconciled, events), ms);
  }

  lemma NoSkillsKeyed()
    ensures Keyed(NO_SKILLS)
  {}

  /** So in every history of a projection: once the built-in manifests were reconciled, at any
      point, reconciling them at any later point succeeds and changes nothing. */
  lemma ReconciledForGood(sealed: Seal, manifests: seq<Manifest>, before: seq<SkillEvent>, after: seq<SkillEvent>)
    requires WellFormed(manifests) && Reconcile(sealed, Run(sealed, NO_SKILLS, before), manifests).Ok?
    ensures var t := Run(sealed, Reconcile(sealed, Run(sealed, NO_SKILLS, before), manifests).value, after);
            Reconcile(sealed, t, manifests) == Ok(t)
  {
    hide Keyed, Reconcile, Run;
    NoSkillsKeyed();
    RunExtends(sealed, NO_SKILLS, before);
    ReconcileIsIdempotent(sealed, Run(sealed, NO_SKILLS, before), manifests, after);
  }

  // ---------- the projection as it is updated ----------

  /** Taking the least key first is reading the keys in order. */
  lemma EnumerateLeast(keys: set<nat>, least: nat)
    requires least in keys && forall k | k in keys :: least <= k
    ensures Enumerate(NatLe, keys) == [least] + Enumerate(NatLe, keys - {least})
  {
    EnumerateMeaning(NatLe, keys);
    var first := Enumerate(NatLe, keys)[0];
    assert first in Enumerate(NatLe, keys) && least in Enumerate(NatLe, keys);
    var i :| 0 <= i < |Enumerate(NatLe, keys)| && Enumerate(NatLe, keys)[i] == least;
    assert first <= least;
  }

  lemma ReadNext(h: seq<SkillVersion>, keys: set<nat>, least: nat, lookup: nat -> Option<SkillVersion>)
    requires least in keys && forall k | k in keys :: least <= k
    ensures h + FilterMap(Enumerate(NatLe, keys), lookup)
            == (if lookup(least).Some? then h + [lookup(least).value] else h) + FilterMap(Enumerate(NatLe, keys - {least}), lookup)
  {
    hide Enumerate, FilterMap;
    EnumerateLeast(keys, least);
    FilterMapCons(least, Enumerate(NatLe, keys - {least}), lookup);
  }

  lemma NothingToRead(keys: set<nat>, lookup: nat -> Option<SkillVersion>)
    requires keys == {}
    ensures FilterMap(Enumerate(NatLe, keys), lookup) == []
  {}

  class SkillsState {
    var versionsById: map<nat, SkillVersion>
    var versionIndexBySkill: map<nat, map<nat, nat>>
    var activeBySkill: map<nat, nat>
    var activeNameIndex: map<string, nat>

    constructor ()
      ensures Value() == NO_SKILLS
    {
      versionsById, versionIndexBySkill, activeBySkill, activeNameIndex := map[], map[], map[], map[];
    }

    function Value(): Skills
      reads this
    {
      Skills(versionsById, versionIndexBySkill, activeBySkill, activeNameIndex)
    }

    method Insert(sealed: Seal, k: SkillVersion) returns (r: Result<(), SkillError>)
      modifies this
      ensures var next := InsertSkill(sealed, old(Value()), k);
              && (r.Ok? <==> next.Ok?) && (r.Err? ==> next == Err(r.error))
              && Value() == if next.Ok? then next.value else old(Value())
    {
      if k.version != 1 || k.predecessor.Some? || k.versionId in versionsById || k.skillId in activeBySkill
         || k.skillId in versionIndexBySkill || k.name in activeNameIndex || !sealed(k) {
        return Err(InvalidSkillVersion);
      }
      versionsById := versionsById[k.versionId := k];
      versionIndexBySkill := versionIndexBySkill[k.skillId := map[k.version := k.versionId]];
      activeBySkill := activeBySkill[k.skillId := k.versionId];
      activeNameIndex := activeNameIndex[k.name := k.skillId];
      return Ok(());
    }

    method Activate(sealed: Seal, k: SkillVersion, previous: nat) returns (r: Result<(), SkillError>)
      modifies this
      ensures var next := ActivateSkill(sealed, old(Value()), k, previous);
              && (r.Ok? <==> next.Ok?) && (r.Err? ==> next == Err(r.error))
              && Value() == if next.Ok? then next.value else old(Value())
    {
      if k.skillId !in activeBySkill || activeBySkill[k.skillId] !in versionsById { return Err(InvalidSkillVersion); }
      var currentId := activeBySkill[k.skillId];
      var current := versionsById[currentId];
      if current.version >= U64_MAX { return Err(InvalidObjectVersion); }
      if k.skillId != current.skillId || k.version != current.version + 1 || k.predecessor != Some(currentId)
         || previous != currentId || k.versionId in versionsById
         || (k.name in activeNameIndex && activeNameIndex[k.name] != k.skillId) || !sealed(k) {
        return Err(InvalidSkillVersion);
      }
      versionsById := versionsById[k.versionId := k];
      var index := if k.skillId in versionIndexBySkill then versionIndexBySkill[k.skillId] else map[];
      versionIndexBySkill := versionIndexBySkill[k.skillId := index[k.version := k.versionId]];
      activeBySkill := activeBySkill[k.skillId := k.versionId];
      activeNameIndex := activeNameIndex - {current.name};
      activeNameIndex := activeNameIndex[k.name := k.skillId];
      return Ok(());
    }

    /** Reads the version index of a skill in ascending order. */
    method LoadHistory(skillId: nat) returns (h: seq<SkillVersion>)
      ensures h == History(Value(), skillId)
    {
      hide Enumerate, FilterMap;
      h := [];
      if skillId !in versionIndexBySkill { return; }
      var index := versionIndexBySkill[skillId];
      var rest := index.Keys;
      ghost var lookup := VersionIn(Value(), skillId);
      ghost var all := FilterMap(Enumerate(NatLe, rest), lookup);
      assert [] + all == all;
      while rest != {}
        invariant rest <= index.Keys
        invariant h + FilterMap(Enumerate(NatLe, rest), lookup) == all
        decreases |rest|
      {
        LeastExists(NatLe, rest);
        var v :| v in rest && forall w | w in rest :: v <= w;
        ReadNext(h, rest, v, lookup);
        rest := rest - {v};
        if index[v] in versionsById { h := h + [versionsById[index[v]]]; }
      }
      NothingToRead(rest, lookup);
      assert h + [] == h;
    }

    /** `reconcile_builtin_manifests` over this projection. */
    method ReconcileManifests(sealed: Seal, manifests: seq<Manifest>) returns (r: Result<seq<SkillVersion>, SkillError>)
      modifies this
      ensures var next := Reconcile(sealed, old(Value()), manifests);
              && (r.Ok? <==> next.Ok?) && (r.Err? ==> next == Err(r.error))
              && (next.Ok? ==> Value() == next.value && r.value == Map(Sort(ManifestLe, manifests), SkillOf()))
    {
      var canonical := Sort(ManifestLe, manifests);
      ghost var goal := Reconcile(sealed, Value(), manifests);
      for i := 0 to |canonical|
        invariant goal == ReconcileAll(sealed, Value(), canonical[i..])
      {
        assert canonical[i..][0] == canonical[i] && canonical[i..][1..] == canonical[i + 1..];
        var m := canonical[i];
        var history := LoadHistory(m.skill.skillId);
        var stored := FindVersion(history, m.skill.version);
        if stored.Some? {
          if !ManifestMatches(stored.value, m) { return Err(InvalidSkillVersion); }
        } else if history == [] {
          var inserted := Insert(sealed, m.skill);
          if inserted.Err? { return Err(inserted.error); }
        } else {
          return Err(InvalidSkillVersion);
        }
      }
      assert canonical[|canonical|..] == [];
      return Ok(Map(canonical, SkillOf()));
    }
  }

  function SkillOf(): Manifest -> SkillVersion { (m: Manifest) => m.skill }
}
