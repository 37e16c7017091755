/** `AgentProfilesProjection` of src/agents/projection.rs: five redundant indexes updated
    in place, and the queries that read one and must agree with another. */
module ProfileProjection {
  import opened Prelude
  import opened Sorting
  import opened ProfileDraft
  import opened ProfileDiff

  datatype Profiles = Profiles(
    versions: map<nat, ProfileVersion>,
    index: map<nat, map<nat, nat>>,
    active: map<nat, nat>,
    names: map<string, nat>,
    namespaces: map<nat, nat>)

  datatype ProfileEvent = ProfileCreated(created: ProfileVersion) | ProfileActivated(activated: ProfileVersion, previous: nat)

  const NO_PROFILES := Profiles(map[], map[], map[], map[], map[])

  /** Whether a version's digest recomputes. */
  type Seal = ProfileVersion -> bool

  // ---------- updates ----------

  function CreateProfile(sealed: Seal, s: Profiles, p: ProfileVersion): Option<Profiles> {
    if !sealed(p) then None
    else if p.version != 1 || p.supersedes.Some? || p.versionId in s.versions || p.profileId in s.active
            || p.profileId in s.index || p.nameKey in s.names || p.ns in s.namespaces then None
    else Some(Profiles(
      s.versions[p.versionId := p],
      s.index[p.profileId := map[p.version := p.versionId]],
      s.active[p.profileId := p.versionId],
      s.names[p.nameKey := p.profileId],
      s.namespaces[p.ns := p.profileId]))
  }

  predicate Succeeds(s: Profiles, p: ProfileVersion, current: ProfileVersion, previous: nat)
    requires p.profileId in s.active
  {
    && current.version < U64_MAX && p.version == current.version + 1
    && previous == s.active[p.profileId] && p.supersedes == Some(s.active[p.profileId])
    && p.profileId == current.profileId && p.ns == current.ns
    && p.draft.provenance == current.draft.provenance
    && p.ns in s.namespaces && s.namespaces[p.ns] == p.profileId
    && (p.nameKey in s.names ==> s.names[p.nameKey] == p.profileId)
  }

  function ActivateProfile(sealed: Seal, s: Profiles, p: ProfileVersion, previous: nat): Option<Profiles> {
    if !sealed(p) || p.versionId in s.versions || p.profileId !in s.active || s.active[p.profileId] !in s.versions then None
    else
      var current := s.versions[s.active[p.profileId]];
      if !Succeeds(s, p, current, previous) then None
      else Some(Profiles(
        s.versions[p.versionId := p],
        s.index[p.profileId := (if p.profileId in s.index then s.index[p.profileId] else map[])[p.version := p.versionId]],
        s.active[p.profileId := p.versionId],
        (s.names - {current.nameKey})[p.nameKey := p.profileId],
        s.namespaces))
  }

  function Reduce(sealed: Seal, s: Profiles, event: ProfileEvent): Option<Profiles> {
    match event
    case ProfileCreated(p) => CreateProfile(sealed, s, p)
    case ProfileActivated(p, previous) => ActivateProfile(sealed, s, p, previous)
  }

  // ---------- the agreement of the five maps ----------

  type Versions = map<nat, ProfileVersion>

  /** Version `v` of profile `p` resolves, is what its place says, and supersedes `v - 1`. */
  ghost predicate Entry(versions: Versions, index: map<nat, nat>, p: nat, v: nat)
    requires v in index
  {
    && index[v] in versions
    && var x := versions[index[v]];
    && x.profileId == p && x.version == v && x.versionId == index[v]
    && (v == 1 ==> x.supersedes.None?)
    && (v > 1 ==> v - 1 in index && x.supersedes == Some(index[v - 1]))
  }

  /** Versions 1..n, linked, in one namespace. */
  ghost predicate Chain(versions: Versions, index: map<nat, nat>, p: nat) {
    && |index| >= 1
    && (forall v :: v in index <==> 1 <= v <= |index|)
    && (forall v | v in index :: index[v] in versions)
    && (forall v {:trigger Entry(versions, index, p, v)} | v in index :: Entry(versions, index, p, v))
    && (forall v | v in index :: versions[index[v]].ns == versions[index[1]].ns)
  }

  ghost predicate Chains(versions: Versions, index: map<nat, map<nat, nat>>) {
    forall p | p in index :: Chain(versions, index[p], p)
  }

  ghost predicate Indexed(versions: Versions, index: map<nat, map<nat, nat>>) {
    forall id | id in versions ::
      && versions[id].versionId == id
      && versions[id].profileId in index
      && versions[id].version in index[versions[id].profileId]
      && index[versions[id].profileId][versions[id].version] == id
  }

  /** The active version of a profile is its newest. */
  ghost predicate Newest(index: map<nat, map<nat, nat>>, active: map<nat, nat>) {
    && active.Keys == index.Keys
    && (forall p | p in index :: |index[p]| in index[p] && active[p] == index[p][|index[p]|])
  }

  /** Names and profiles correspond one to one through the active versions. */
  ghost predicate NamesMatch(versions: Versions, active: map<nat, nat>, names: map<string, nat>) {
    && (forall p | p in active ::
          active[p] in versions && versions[active[p]].nameKey in names && names[versions[active[p]].nameKey] == p)
    && (forall name | name in names ::
          names[name] in active && active[names[name]] in versions && versions[active[names[name]]].nameKey == name)
  }

  /** So do namespaces and profiles. */
  ghost predicate NamespacesMatch(versions: Versions, active: map<nat, nat>, namespaces: map<nat, nat>) {
    && (forall p | p in active ::
          active[p] in versions && versions[active[p]].ns in namespaces && namespaces[versions[active[p]].ns] == p)
    && (forall ns | ns in namespaces ::
          namespaces[ns] in active && active[namespaces[ns]] in versions && versions[active[namespaces[ns]]].ns == ns)
  }

  ghost predicate Agrees(s: Profiles) {
    && Chains(s.versions, s.index) && Indexed(s.versions, s.index) && Newest(s.index, s.active)
    && NamesMatch(s.versions, s.active, s.names) && NamespacesMatch(s.versions, s.active, s.namespaces)
  }

  lemma ChainGrows(versions: Versions, index: map<nat, nat>, p: nat, x: ProfileVersion)
    requires Chain(versions, index, p) && x.versionId !in versions
    ensures Chain(versions[x.versionId := x], index, p)
  {
    forall v | v in index
      ensures Entry(versions[x.versionId := x], index, p, v) && index[v] in versions && index[v] != x.versionId
    {
      assert Entry(versions, index, p, v);
    }
    assert 1 in index;
  }

  lemma OneMoreKey(index: map<nat, nat>, v: nat, id: nat)
    requires v !in index
    ensures |index[v := id]| == |index| + 1
  {
    assert index[v := id].Keys == index.Keys + {v};
  }

  lemma ChainExtends(versions: Versions, index: map<nat, nat>, p: nat, x: ProfileVersion)
    requires Chain(versions, index, p) && x.versionId !in versions
    requires x.profileId == p && x.version == |index| + 1 && x.supersedes == Some(index[|index|])
    requires x.ns == versions[index[|index|]].ns
    ensures Chain(versions[x.versionId := x], index[x.version := x.versionId], p)
  {
    hide Entry;
    var versions', index' := versions[x.versionId := x], index[x.version := x.versionId];
    OneMoreKey(index, x.version, x.versionId);
    assert 1 in index && |index| in index;
    forall v | v in index'
      ensures index'[v] in versions' && Entry(versions', index', p, v) && versions'[index'[v]].ns == versions[index[1]].ns
    {
      if v in index {
        assert Entry(versions, index, p, v);
        EntryStays(versions, index, p, v, x);
      } else {
        NewestEntry(versions, index, p, x);
      }
    }
  }

  lemma EntryStays(versions: Versions, index: map<nat, nat>, p: nat, v: nat, x: ProfileVersion)
    requires v in index && Entry(versions, index, p, v) && x.versionId !in versions && x.version !in index
    ensures Entry(versions[x.versionId := x], index[x.version := x.versionId], p, v)
    ensures versions[x.versionId := x][index[x.version := x.versionId][v]] == versions[index[v]]
  {}

  lemma NewestEntry(versions: Versions, index: map<nat, nat>, p: nat, x: ProfileVersion)
    requires |index| >= 1 && |index| in index && x.profileId == p && x.version == |index| + 1 && x.supersedes == Some(index[|index|])
    ensures Entry(versions[x.versionId := x], index[x.version := x.versionId], p, x.version)
  {}

  lemma FirstChain(versions: Versions, x: ProfileVersion)
    requires x.version == 1 && x.supersedes.None?
    ensures Chain(versions[x.versionId := x], map[1 := x.versionId], x.profileId)
  {
    var index := map[1 := x.versionId];
    assert index.Keys == {1};
    assert |index| == |index.Keys|;
  }

  lemma CreateKeepsAgreement(sealed: Seal, s: Profiles, p: ProfileVersion)
    requires Agrees(s) && CreateProfile(sealed, s, p).Some?
    ensures Agrees(CreateProfile(sealed, s, p).value)
  {
    hide Chains, Chain, Indexed, Newest, NamesMatch, NamespacesMatch;
    CreateKeepsChains(sealed, s, p);
    CreateKeepsIndexes(sealed, s, p);
    CreateKeepsNames(sealed, s, p);
  }

  lemma CreateKeepsChains(sealed: Seal, s: Profiles, p: ProfileVersion)
    requires Chains(s.versions, s.index) && CreateProfile(sealed, s, p).Some?
    ensures var t := CreateProfile(sealed, s, p).value; Chains(t.versions, t.index)
  {
    hide Chain;
    FirstChain(s.versions, p);
    forall q | q in s.index ensures Chain(s.versions[p.versionId := p], s.index[q], q) { ChainGrows(s.versions, s.index[q], q, p); }
  }

  lemma CreateKeepsIndexes(sealed: Seal, s: Profiles, p: ProfileVersion)
    requires Indexed(s.versions, s.index) && Newest(s.index, s.active) && CreateProfile(sealed, s, p).Some?
    ensures var t := CreateProfile(sealed, s, p).value; Indexed(t.versions, t.index) && Newest(t.index, t.active)
  {
    OneMoreKey(map[], p.version, p.versionId);
    assert map[][p.version := p.versionId] == map[p.version := p.versionId];
  }

  lemma CreateKeepsNames(sealed: Seal, s: Profiles, p: ProfileVersion)
    requires NamesMatch(s.versions, s.active, s.names) && NamespacesMatch(s.versions, s.active, s.namespaces)
    requires CreateProfile(sealed, s, p).Some?
    ensures var t := CreateProfile(sealed, s, p).value;
            NamesMatch(t.versions, t.active, t.names) && NamespacesMatch(t.versions, t.active, t.namespaces)
  {}

  /** What a successful activation knows. */
  lemma ActivationFacts(sealed: Seal, s: Profiles, p: ProfileVersion, previous: nat)
    requires Agrees(s) && ActivateProfile(sealed, s, p, previous).Some?
    ensures var n := |s.index[p.profileId]|;
            && p.profileId in s.index && n in s.index[p.profileId] && s.active[p.profileId] == s.index[p.profileId][n]
            && p.version == n + 1 && p.version !in s.index[p.profileId]
  {
    hide NamesMatch, NamespacesMatch, Indexed;
    var index := s.index[p.profileId];
    assert Chain(s.versions, index, p.profileId);
    assert Entry(s.versions, index, p.profileId, |index|);
  }

  lemma ActivateKeepsChains(sealed: Seal, s: Profiles, p: ProfileVersion, previous: nat)
    requires Agrees(s) && ActivateProfile(sealed, s, p, previous).Some?
    ensures var t := ActivateProfile(sealed, s, p, previous).value; Chains(t.versions, t.index)
  {
    hide Chain, Indexed, NamesMatch, NamespacesMatch;
    ActivationFacts(sealed, s, p, previous);
    var t := ActivateProfile(sealed, s, p, previous).value;
    forall q | q in t.index ensures Chain(t.versions, t.index[q], q) {
      if q == p.profileId {
        ChainExtends(s.versions, s.index[q], q, p);
      } else {
        ChainGrows(s.versions, s.index[q], q, p);
      }
    }
  }

  lemma ActivateKeepsIndexes(sealed: Seal, s: Profiles, p: ProfileVersion, previous: nat)
    requires Agrees(s) && ActivateProfile(sealed, s, p, previous).Some?
    ensures var t := ActivateProfile(sealed, s, p, previous).value;
            Indexed(t.versions, t.index) && Newest(t.index, t.active)
  {
    hide Chains, NamesMatch, NamespacesMatch;
    ActivationFacts(sealed, s, p, previous);
    var t := ActivateProfile(sealed, s, p, previous).value;
    OneMoreKey(s.index[p.profileId], p.version, p.versionId);
  }

  lemma ActivateKeepsNamespaces(sealed: Seal, s: Profiles, p: ProfileVersion, previous: nat)
    requires NamespacesMatch(s.versions, s.active, s.namespaces) && ActivateProfile(sealed, s, p, previous).Some?
    ensures var t := ActivateProfile(sealed, s, p, previous).value; NamespacesMatch(t.versions, t.active, t.namespaces)
  {}

  lemma ActivateKeepsNames(sealed: Seal, s: Profiles, p: ProfileVersion, previous: nat)
    requires NamesMatch(s.versions, s.active, s.names) && ActivateProfile(sealed, s, p, previous).Some?
    ensures var t := ActivateProfile(sealed, s, p, previous).value; NamesMatch(t.versions, t.active, t.names)
  {}

  lemma ActivateKeepsAgreement(sealed: Seal, s: Profiles, p: ProfileVersion, previous: nat)
    requires Agrees(s) && ActivateProfile(sealed, s, p, previous).Some?
    ensures Agrees(ActivateProfile(sealed, s, p, previous).value)
  {
    hide ActivateProfile, Chains, Indexed, Newest, NamesMatch, NamespacesMatch;
    ActivateKeepsChains(sealed, s, p, previous);
    ActivateKeepsIndexes(sealed, s, p, previous);
    ActivateKeepsNames(sealed, s, p, previous);
    ActivateKeepsNamespaces(sealed, s, p, previous);
  }

  // ---------- runs ----------

  /** One event; a refused event changes nothing. */
  function Step(sealed: Seal, s: Profiles, event: ProfileEvent): Profiles {
    match Reduce(sealed, s, event) case Some(t) => t case None => s
  }

  function Replay(sealed: Seal, s: Profiles, events: seq<ProfileEvent>): Profiles
    decreases |events|
  {
    if events == [] then s else Replay(sealed, Step(sealed, s, events[0]), events[1..])
  }

  /** After any sequence of events, accepted or refused, the five maps agree. */
  lemma {:induction false} ReplayAgrees(sealed: Seal, s: Profiles, events: seq<ProfileEvent>)
    requires Agrees(s)
    ensures Agrees(Replay(sealed, s, events))
    decreases |events|
  {
    hide Agrees;
    if events != [] {
      match events[0] {
        case ProfileCreated(p) =>
          if CreateProfile(sealed, s, p).Some? { CreateKeepsAgreement(sealed, s, p); }
        case ProfileActivated(p, previous) =>
          if ActivateProfile(sealed, s, p, previous).Some? { ActivateKeepsAgreement(sealed, s, p, previous); }
      }
      ReplayAgrees(sealed, Step(sealed, s, events[0]), events[1..]);
    }
  }

  lemma EmptyAgrees()
    ensures Agrees(NO_PROFILES)
  {}

  // ---------- queries ----------

  function ActiveProfile(s: Profiles, p: nat): Option<ProfileVersion> {
    if p in s.active && s.active[p] in s.versions then Some(s.versions[s.active[p]]) else None
  }

  function ActiveProfileByName(s: Profiles, name: string): Option<ProfileVersion> {
    if name in s.names then ActiveProfile(s, s.names[name]) else None
  }

  function VersionOf(s: Profiles, p: nat, v: nat): Option<ProfileVersion> {
    if p in s.index && v in s.index[p] && s.index[p][v] in s.versions then Some(s.versions[s.index[p][v]]) else None
  }

  predicate ByNameThenId(a: ProfileVersion, b: ProfileVersion) {
    if a.nameKey != b.nameKey then TextLe(a.nameKey, b.nameKey) else a.profileId <= b.profileId
  }

  function ActiveById(s: Profiles): nat -> Option<ProfileVersion> { (p: nat) => ActiveProfile(s, p) }
  function ActiveByName(s: Profiles): string -> Option<ProfileVersion> { (name: string) => ActiveProfileByName(s, name) }
  function VersionIn(s: Profiles, p: nat): nat -> Option<ProfileVersion> { (v: nat) => VersionOf(s, p, v) }

  /** `active_profiles`: scan the active map, sort by name and id. */
  ghost function ActiveProfiles(s: Profiles): seq<ProfileVersion> {
    Sort(ByNameThenId, FilterMap(Enumerate(NatLe, s.active.Keys), ActiveById(s)))
  }

  lemma TextLeTotal()
    ensures TotalPreorder(TextLe)
  {
    TextLeIsTotalOrder();
  }

  /** `active_profiles_bounded`: read the name index in order, up to the limit. */
  ghost function ActiveProfilesBounded(s: Profiles, limit: nat): seq<ProfileVersion> {
    TextLeTotal();
    FilterMap(Take(Enumerate(TextLe, s.names.Keys), limit), ActiveByName(s))
  }

  ghost function History(s: Profiles, p: nat): seq<ProfileVersion> {
    if p in s.index then FilterMap(Enumerate(NatLe, s.index[p].Keys), VersionIn(s, p)) else []
  }

  ghost function HistoryBoundedDesc(s: Profiles, p: nat, limit: nat): seq<ProfileVersion> {
    if p in s.index then FilterMap(Take(Reverse(Enumerate(NatLe, s.index[p].Keys)), limit), VersionIn(s, p)) else []
  }

  /** Every version of a profile resolves, from 1 to the newest. */
  lemma VersionsResolve(s: Profiles, p: nat)
    requires Chains(s.versions, s.index) && p in s.index
    ensures forall v :: v in s.index[p] <==> 1 <= v <= |s.index[p]|
    ensures forall v | 1 <= v <= |s.index[p]| :: VersionOf(s, p, v).Some?
    ensures Enumerate(NatLe, s.index[p].Keys) == UpTo(|s.index[p]|)
  {
    hide Entry;
    assert Chain(s.versions, s.index[p], p);
    EnumerateUpTo(s.index[p].Keys, |s.index[p]|);
  }

  /** The history of a profile is its versions 1..n in order. */
  lemma HistoryMeaning(s: Profiles, p: nat)
    requires Chains(s.versions, s.index)
    ensures p !in s.index ==> History(s, p) == []
    ensures p in s.index ==> |History(s, p)| == |s.index[p]|
    ensures forall i | 0 <= i < |History(s, p)| :: VersionOf(s, p, i + 1) == Some(History(s, p)[i])
  {
    hide Chains, VersionOf;
    if p in s.index {
      VersionsResolve(s, p);
      FilterMapAll(UpTo(|s.index[p]|), VersionIn(s, p));
    }
  }

  /** A bounded history is the newest versions first: the last `limit` of the history, reversed. */
  lemma BoundedHistoryMeaning(s: Profiles, p: nat, limit: nat)
    requires Chains(s.versions, s.index)
    ensures HistoryBoundedDesc(s, p, limit) == Take(Reverse(History(s, p)), limit)
  {
    hide Chains, VersionOf, Reverse, FilterMap, Take;
    if p in s.index {
      VersionsResolve(s, p);
      NewestFirst(UpTo(|s.index[p]|), VersionIn(s, p), limit);
    } else {
      NoneToTake(limit);
    }
  }

  lemma NoneToTake(limit: nat)
    ensures Take(Reverse<ProfileVersion>([]), limit) == []
  {}

  // ---------- the two active listings agree ----------

  lemma ByNameThenIdTotal()
    ensures TotalPreorder(ByNameThenId)
  {
    TextLeIsTotalOrder();
  }

  /** Both listings hold exactly the active versions. */
  lemma ActiveMembers(s: Profiles, x: ProfileVersion)
    requires NamesMatch(s.versions, s.active, s.names)
    ensures x in FilterMap(Enumerate(NatLe, s.active.Keys), ActiveById(s)) <==> exists p :: ActiveProfile(s, p) == Some(x)
    ensures (TextLeTotal(); x in FilterMap(Enumerate(TextLe, s.names.Keys), ActiveByName(s)) <==> exists p :: ActiveProfile(s, p) == Some(x))
  {
    hide FilterMap, Enumerate;
    TextLeTotal();
    EnumerateMeaning(NatLe, s.active.Keys);
    EnumerateMeaning(TextLe, s.names.Keys);
    FilterMapMembers(Enumerate(NatLe, s.active.Keys), ActiveById(s), x);
    FilterMapMembers(Enumerate(TextLe, s.names.Keys), ActiveByName(s), x);
    if p :| ActiveProfile(s, p) == Some(x) {
      assert p in s.active && ActiveById(s)(p) == Some(x);
      assert ActiveByName(s)(x.nameKey) == Some(x);
    }
  }

  lemma {:induction false} FilterMapSorted<K>(keys: seq<K>, lookup: K -> Option<ProfileVersion>, keyLe: (K, K) -> bool,
      le: (ProfileVersion, ProfileVersion) -> bool)
    requires Sorted(keyLe, keys)
    requires forall i | 0 <= i < |keys| :: lookup(keys[i]).Some?
    requires forall a, b | a in keys && b in keys && keyLe(a, b) :: le(lookup(a).value, lookup(b).value)
    ensures Sorted(le, FilterMap(keys, lookup))
  {
    FilterMapAll(keys, lookup);
  }

  lemma FilterMapDistinct<K>(keys: seq<K>, lookup: K -> Option<ProfileVersion>)
    requires Distinct(keys)
    requires forall i | 0 <= i < |keys| :: lookup(keys[i]).Some?
    requires forall a, b | a in keys && b in keys && lookup(a) == lookup(b) :: a == b
    ensures Distinct(FilterMap(keys, lookup))
  {
    FilterMapAll(keys, lookup);
  }

  /** Reading the name index in order lists the active profiles exactly as the sorted scan does. */
  lemma ListingsAgree(s: Profiles)
    requires NamesMatch(s.versions, s.active, s.names)
    ensures ActiveProfiles(s) == (TextLeTotal(); FilterMap(Enumerate(TextLe, s.names.Keys), ActiveByName(s)))
  {
    hide FilterMap, Enumerate, Sort, Distinct, Sorted, AntisymmetricOn, NamesMatch;
    TextLeTotal();
    ByNameThenIdTotal();
    var ids, names := Enumerate(NatLe, s.active.Keys), Enumerate(TextLe, s.names.Keys);
    var byId, byName := FilterMap(ids, ActiveById(s)), FilterMap(names, ActiveByName(s));
    EnumerateMeaning(NatLe, s.active.Keys);
    EnumerateMeaning(TextLe, s.names.Keys);
    forall x
      ensures x in byId <==> x in byName
      ensures x in byId ==> exists p :: ActiveProfile(s, p) == Some(x)
    {
      ActiveMembers(s, x);
    }
    AllActive(s);
    forall i | 0 <= i < |ids| ensures ActiveById(s)(ids[i]).Some? { assert ids[i] in ids; }
    forall i | 0 <= i < |names| ensures ActiveByName(s)(names[i]).Some? { assert names[i] in names; }
    FilterMapDistinct(ids, ActiveById(s));
    FilterMapDistinct(names, ActiveByName(s));
    FilterMapSorted(names, ActiveByName(s), TextLe, ByNameThenId);
    var sorted := Sort(ByNameThenId, byId);
    SortSorted(ByNameThenId, byId);
    SortMultiset(ByNameThenId, byId);
    SameElements(byId, sorted);
    DistinctPermutation(byId, sorted);
    ActiveNamesBreakTies(s, sorted);
    SortedMembersUnique(ByNameThenId, sorted, byName);
  }

  /** Lookups of listed keys succeed, find different versions, and respect the name order. */
  lemma AllActive(s: Profiles)
    requires NamesMatch(s.versions, s.active, s.names)
    ensures forall p | p in s.active :: ActiveProfile(s, p).Some?
    ensures forall name | name in s.names ::
              ActiveProfileByName(s, name).Some? && ActiveProfileByName(s, name).value.nameKey == name
    ensures forall p, q | p in s.active && q in s.active && ActiveProfile(s, p) == ActiveProfile(s, q) :: p == q
    ensures forall name | name in s.names :: exists p :: ActiveProfile(s, p) == ActiveProfileByName(s, name)
  {
    TextLeIsTotalOrder();
  }

  lemma ActiveNamesBreakTies(s: Profiles, listed: seq<ProfileVersion>)
    requires NamesMatch(s.versions, s.active, s.names)
    requires forall x | x in listed :: exists p :: ActiveProfile(s, p) == Some(x)
    ensures AntisymmetricOn(ByNameThenId, listed)
  {
    TextLeIsTotalOrder();
    forall x, y | x in listed && y in listed && ByNameThenId(x, y) && ByNameThenId(y, x) ensures x == y {
      var p :| ActiveProfile(s, p) == Some(x);
      var q :| ActiveProfile(s, q) == Some(y);
    }
  }

  /** The bounded listing is the first `limit` of the full one. */
  lemma BoundedListingMeaning(s: Profiles, limit: nat)
    requires NamesMatch(s.versions, s.active, s.names)
    ensures ActiveProfilesBounded(s, limit) == Take(ActiveProfiles(s), limit)
  {
    hide FilterMap, Enumerate, ActiveProfiles, NamesMatch;
    TextLeTotal();
    ListingsAgree(s);
    AllActive(s);
    var names := Enumerate(TextLe, s.names.Keys);
    EnumerateMeaning(TextLe, s.names.Keys);
    forall i | 0 <= i < |names| ensures ActiveByName(s)(names[i]).Some? { assert names[i] in names; }
    FilterMapTake(names, ActiveByName(s), limit);
  }

  // ---------- the projection as it is updated ----------

  class ProfilesProjection {
    var versionsById: map<nat, ProfileVersion>
    var versionIndexByProfile: map<nat, map<nat, nat>>
    var activeByProfile: map<nat, nat>
    var activeNameIndex: map<string, nat>
    var memoryNamespaceIndex: map<nat, nat>

    constructor ()
      ensures Value() == NO_PROFILES
    {
      versionsById, versionIndexByProfile, activeByProfile, activeNameIndex, memoryNamespaceIndex := map[], map[], map[], map[], map[];
    }

    function Value(): Profiles
      reads this
    {
      Profiles(versionsById, versionIndexByProfile, activeByProfile, activeNameIndex, memoryNamespaceIndex)
    }

    method Create(sealed: Seal, p: ProfileVersion) returns (ok: bool)
      modifies this
      ensures ok <==> CreateProfile(sealed, old(Value()), p).Some?
      ensures Value() == if ok then CreateProfile(sealed, old(Value()), p).value else old(Value())
    {
      if !sealed(p) { return false; }
      if p.version != 1 || p.supersedes.Some? || p.versionId in versionsById || p.profileId in activeByProfile
         || p.profileId in versionIndexByProfile || p.nameKey in activeNameIndex || p.ns in memoryNamespaceIndex {
        return false;
      }
      versionsById := versionsById[p.versionId := p];
      versionIndexByProfile := versionIndexByProfile[p.profileId := map[p.version := p.versionId]];
      activeByProfile := activeByProfile[p.profileId := p.versionId];
      activeNameIndex := activeNameIndex[p.nameKey := p.profileId];
      memoryNamespaceIndex := memoryNamespaceIndex[p.ns := p.profileId];
      return true;
    }

    /** The old name is taken out of the index before the new one goes in. */
    method Activate(sealed: Seal, p: ProfileVersion, previous: nat) returns (ok: bool)
      modifies this
      ensures ok <==> ActivateProfile(sealed, old(Value()), p, previous).Some?
      ensures Value() == if ok then ActivateProfile(sealed, old(Value()), p, previous).value else old(Value())
    {
      if !sealed(p) || p.versionId in versionsById || p.profileId !in activeByProfile { return false; }
      var currentId := activeByProfile[p.profileId];
      if currentId !in versionsById { return false; }
      var current := versionsById[currentId];
      if !Succeeds(Value(), p, current, previous) { return false; }
      versionsById := versionsById[p.versionId := p];
      var index := if p.profileId in versionIndexByProfile then versionIndexByProfile[p.profileId] else map[];
      versionIndexByProfile := versionIndexByProfile[p.profileId := index[p.version := p.versionId]];
      activeByProfile := activeByProfile[p.profileId := p.versionId];
      activeNameIndex := activeNameIndex - {current.nameKey};
      activeNameIndex := activeNameIndex[p.nameKey := p.profileId];
      return true;
    }
  }

  /** A version the service prepares from the active one is accepted by the projection,
      if its name is free, its id is new and its digest recomputes. */
  lemma PreparedVersionIsAccepted(foldCase: string -> string, seal: ProfileVersion -> nat, sealed: Seal, s: Profiles,
      profileId: nat, versionId: nat, now: int, draft: Draft)
    requires Agrees(s) && profileId in s.active && versionId !in s.versions && s.active[profileId] in s.versions
    requires Canonical(foldCase, draft)
    requires NextVersion(foldCase, seal, s.versions[s.active[profileId]], versionId, now, draft).Ok?
    requires var v := NextVersion(foldCase, seal, s.versions[s.active[profileId]], versionId, now, draft).value;
             sealed(v) && (v.nameKey in s.names ==> s.names[v.nameKey] == profileId)
    ensures var v := NextVersion(foldCase, seal, s.versions[s.active[profileId]], versionId, now, draft).value;
            ActivateProfile(sealed, s, v, s.active[profileId]).Some?
  {
    hide Canonical, Canonicalize, NameKey, Chains, Indexed;
    var current := s.versions[s.active[profileId]];
    NextVersionKeeps(foldCase, seal, current, versionId, now, draft);
    ActiveVersionFits(s, profileId);
  }

  lemma ActiveVersionFits(s: Profiles, profileId: nat)
    requires Chains(s.versions, s.index) && Newest(s.index, s.active) && profileId in s.active
    ensures s.active[profileId] in s.versions
    ensures var current := s.versions[s.active[profileId]];
            current.profileId == profileId && current.versionId == s.active[profileId]
  {
    var index := s.index[profileId];
    assert Chain(s.versions, index, profileId);
    assert Entry(s.versions, index, profileId, |index|);
  }
}
