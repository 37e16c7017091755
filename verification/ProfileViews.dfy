/** What the profile commands answer with, in terms of the profiles they find. */
module ProfileViews {
  import opened Prelude
  import opened Sorting
  import opened ProfileDraft
  import opened ProfileDiff
  import opened ProfileProjection
  import opened ProfileCommands
  import opened ProfileNames

  /** The active profiles in the order they are listed: by name, each once. */
  ghost predicate Listed(s: Profiles, listed: seq<ProfileVersion>) {
    && (forall x :: x in listed <==> exists p :: ActiveProfile(s, p) == Some(x))
    && (forall i, j | 0 <= i < j < |listed| :: TextBefore(listed[i].nameKey, listed[j].nameKey))
  }

  lemma ListingMeaning(s: Profiles)
    requires Agrees(s)
    ensures Listed(s, ActiveProfiles(s)) && |ActiveProfiles(s)| == |s.active|
  {
    hide Chains, Indexed, Newest, NamespacesMatch, FilterMap, Enumerate, Sort, Distinct, NamesMatch;
    TextLeTotal();
    ListingsAgree(s);
    var listed, names := ActiveProfiles(s), Enumerate(TextLe, s.names.Keys);
    EnumerateMeaning(TextLe, s.names.Keys);
    forall x ensures x in listed <==> exists p :: ActiveProfile(s, p) == Some(x) { ActiveMembers(s, x); }
    AllActive(s);
    NamedInOrder(s, names);
    ActiveCount(s);
  }

  /** Read by name, the active versions carry the names they are read by. */
  lemma NamedInOrder(s: Profiles, names: seq<string>)
    requires NamesMatch(s.versions, s.active, s.names) && Sorted(TextLe, names) && Distinct(names)
    requires forall name :: name in names <==> name in s.names
    ensures var listed := FilterMap(names, ActiveByName(s));
            forall i, j | 0 <= i < j < |listed| :: TextBefore(listed[i].nameKey, listed[j].nameKey)
  {
    hide FilterMap;
    forall i | 0 <= i < |names| ensures ActiveByName(s)(names[i]).Some? && ActiveByName(s)(names[i]).value.nameKey == names[i] {
      assert names[i] in names;
    }
    FilterMapAll(names, ActiveByName(s));
    var listed := FilterMap(names, ActiveByName(s));
    forall i, j | 0 <= i < j < |listed| ensures TextBefore(listed[i].nameKey, listed[j].nameKey) {
      assert TextLe(names[i], names[j]) && names[i] != names[j];
      TextLeMeaning(names[i], names[j]);
    }
  }

  lemma ActiveCount(s: Profiles)
    requires Agrees(s)
    ensures |ActiveProfiles(s)| == |s.active|
  {
    hide Chains, Indexed, Newest, NamespacesMatch, NamesMatch, FilterMap, Enumerate, Sort;
    AllActive(s);
    var ids := Enumerate(NatLe, s.active.Keys);
    EnumerateMeaning(NatLe, s.active.Keys);
    forall i | 0 <= i < |ids| ensures ActiveById(s)(ids[i]).Some? { assert ids[i] in ids; }
    FilterMapAll(ids, ActiveById(s));
    SortMultiset(ByNameThenId, FilterMap(ids, ActiveById(s)));
    assert |s.active| == |s.active.Keys|;
  }

  // ---------- what each command shows ----------

  /** Nothing bound is unbound; ready needs an available inference binding, no unavailable
      engineering binding, and for an engineer an engineering binding too. */
  ghost predicate ReadinessIs(catalog: Catalog, bindings: Bindings, role: Role, r: Readiness) {
    && (r == Unbound <==> bindings == Bindings(None, None))
    && (r == Ready <==>
          && (exists id :: bindings.inference == Some(id) && id in catalog.inference)
          && (forall id | bindings.engineering == Some(id) :: id in catalog.engineering)
          && (role == Engineering ==> bindings.engineering != None))
  }

  lemma ReadinessMeaning(catalog: Catalog, p: ProfileVersion)
    ensures ReadinessIs(catalog, p.draft.bindings, p.draft.role, ReadinessOf(catalog, p))
  {}

  ghost predicate Summarised(catalog: Catalog, p: ProfileVersion, shown: ProfileSummary) {
    && shown.profileId == p.profileId && shown.versionId == p.versionId && shown.version == p.version && shown.digest == p.digest
    && shown.displayName == p.draft.displayName && shown.role == p.draft.role && shown.primarySpecialty == p.draft.primarySpecialty
    && ReadinessIs(catalog, p.draft.bindings, p.draft.role, shown.readiness)
  }

  ghost predicate Entered(catalog: Catalog, p: ProfileVersion, shown: HistoryEntry) {
    && shown.versionId == p.versionId && shown.version == p.version && shown.supersedes == p.supersedes
    && shown.createdAt == p.createdAt && shown.digest == p.digest
    && ReadinessIs(catalog, p.draft.bindings, p.draft.role, shown.readiness)
  }

  /** At most a hundred profiles, the first by name, of all that are active. */
  ghost predicate ShowsList(catalog: Catalog, s: Profiles, view: View) {
    && view.ProfilesView? && view.total == |s.active| && view.returned == |view.profiles| == Min(view.total, 100)
    && view.truncated == (view.returned < view.total)
    && exists listed :: Listed(s, listed) && |listed| == view.total
         && forall i | 0 <= i < |view.profiles| :: i < |listed| && Summarised(catalog, listed[i], view.profiles[i])
  }

  /** At most a hundred versions of the profile, newest first. */
  ghost predicate ShowsHistory(catalog: Catalog, s: Profiles, active: ProfileVersion, view: View) {
    && view.HistoryView? && view.profileId == active.profileId && view.active == active.versionId
    && view.total == active.version && view.returned == |view.versions| == Min(view.total, 100)
    && view.truncated == (view.returned < view.total)
    && forall i | 0 <= i < |view.versions| :: EntersVersion(catalog, s, active.profileId, view.total - i, view.versions[i])
  }

  ghost predicate EntersVersion(catalog: Catalog, s: Profiles, p: nat, v: int, shown: HistoryEntry) {
    v >= 1 && VersionOf(s, p, v).Some? && Entered(catalog, VersionOf(s, p, v).value, shown)
  }

  /** The version asked for, with what it changed. */
  ghost predicate ShowsVersion(lib: Library, catalog: Catalog, s: Profiles, active: ProfileVersion, version: nat, view: View) {
    && view.VersionView? && VersionOf(s, active.profileId, version) == Some(view.profile) && view.profile.version == version
    && ReadinessIs(catalog, view.profile.draft.bindings, view.profile.draft.role, view.readiness)
    && (version == 1 ==> view.predecessorDiff == [])
    && (version > 1 ==>
          && VersionOf(s, active.profileId, version - 1).Some?
          && DiffProfile(lib.foldCase, VersionOf(s, active.profileId, version - 1).value.draft, view.profile.draft) == Ok(view.predecessorDiff))
  }

  lemma ListIsShown(lib: Library, catalog: Catalog, s: Profiles, fact: Fact)
    requires ReadsProjection(lib) && Agrees(s) && fact.AgentProfilesListed? && MaterializeList(lib, catalog, fact, s).Ok?
    ensures ShowsList(catalog, s, MaterializeList(lib, catalog, fact, s).value)
  {
    hide Agrees, ActiveProfiles, ActiveProfilesBounded, Summarised, Listed;
    var listed, view := ActiveProfiles(s), MaterializeList(lib, catalog, fact, s).value;
    ListingMeaning(s);
    FirstListed(s, 100);
    forall i | 0 <= i < |view.profiles| ensures Summarised(catalog, listed[i], view.profiles[i]) { SummaryMeaning(catalog, listed[i]); }
  }

  lemma FirstListed(s: Profiles, limit: nat)
    requires Agrees(s)
    ensures ActiveProfilesBounded(s, limit) == Take(ActiveProfiles(s), limit)
  {
    hide Chains, Indexed, Newest, NamesMatch, NamespacesMatch, ActiveProfiles, ActiveProfilesBounded;
    BoundedListingMeaning(s, limit);
  }

  lemma SummaryMeaning(catalog: Catalog, p: ProfileVersion)
    ensures Summarised(catalog, p, Summarise(catalog)(p))
  {
    hide ReadinessOf, ReadinessIs;
    ReadinessMeaning(catalog, p);
  }

  lemma EntryMeaning(catalog: Catalog, p: ProfileVersion)
    ensures Entered(catalog, p, Enter(catalog)(p))
  {
    hide ReadinessOf, ReadinessIs;
    ReadinessMeaning(catalog, p);
  }

  /** A profile has as many versions as its active one says. */
  lemma VersionsCounted(s: Profiles, p: nat)
    requires Agrees(s) && ActiveProfile(s, p).Some?
    ensures p in s.index && HistoryCount(s, p) == ActiveProfile(s, p).value.version
    ensures ActiveProfile(s, p).value.profileId == p
  {
    hide Indexed, NamesMatch, NamespacesMatch;
    ActiveFits(s, p);
    assert Chain(s.versions, s.index[p], p);
    assert Entry(s.versions, s.index[p], p, |s.index[p]|);
  }

  /** The version is the first, or supersedes the stored one before it. */
  ghost predicate LinkedBack(s: Profiles, p: nat, x: ProfileVersion) {
    && (x.version == 1 ==> x.supersedes == None)
    && (x.version > 1 ==>
          VersionOf(s, p, x.version - 1).Some? && x.supersedes == Some(VersionOf(s, p, x.version - 1).value.versionId))
  }

  /** Version `v` is there exactly when it is one of those, and supersedes the one before. */
  lemma VersionLinked(s: Profiles, p: nat, v: nat)
    requires Chains(s.versions, s.index) && p in s.index
    ensures VersionOf(s, p, v).Some? <==> 1 <= v <= HistoryCount(s, p)
    ensures forall x | VersionOf(s, p, v) == Some(x) :: x.version == v && x.profileId == p && LinkedBack(s, p, x)
  {
    hide Chains;
    EntryAt(s, p, v);
    if v > 1 { EntryAt(s, p, v - 1); }
  }

  lemma EntryAt(s: Profiles, p: nat, v: nat)
    requires Chains(s.versions, s.index) && p in s.index
    ensures v in s.index[p] <==> 1 <= v <= |s.index[p]|
    ensures v in s.index[p] ==> Entry(s.versions, s.index[p], p, v)
  {
    hide Entry;
    assert Chain(s.versions, s.index[p], p);
  }

  lemma HistoryIsShown(lib: Library, catalog: Catalog, selector: Selector, fact: Fact, s: Profiles)
    requires ReadsProjection(lib) && Agrees(s) && fact.AgentProfileHistoryViewed?
    requires MaterializeHistory(lib, catalog, selector, fact, s).Ok?
    ensures ResolveActive(lib, s, selector).Some?
    ensures ShowsHistory(catalog, s, ResolveActive(lib, s, selector).value, MaterializeHistory(lib, catalog, selector, fact, s).value)
  {
    hide Agrees, HistoryBoundedDesc, Entered, NameKey, ActiveProfile, VersionOf, HistoryCount, History;
    var active, view := ResolveActive(lib, s, selector).value, MaterializeHistory(lib, catalog, selector, fact, s).value;
    ResolvedIsActive(lib, s, selector);
    var p := active.profileId;
    VersionsCounted(s, p);
    NewestListed(s, p, 100);
    forall i | 0 <= i < |view.versions|
      ensures EntersVersion(catalog, s, p, view.total - i, view.versions[i])
    {
      EntryMeaning(catalog, HistoryBoundedDesc(s, p, 100)[i]);
    }
  }

  /** The bounded history lists the newest versions, downwards. */
  lemma NewestListed(s: Profiles, p: nat, limit: nat)
    requires Agrees(s) && p in s.index
    ensures var listed := HistoryBoundedDesc(s, p, limit);
            && |listed| == Min(HistoryCount(s, p), limit)
            && forall i | 0 <= i < |listed| ::
                 i < HistoryCount(s, p) && VersionOf(s, p, HistoryCount(s, p) - i) == Some(listed[i])
  {
    hide Chains, Indexed, Newest, NamesMatch, NamespacesMatch, History, HistoryBoundedDesc, VersionOf;
    BoundedHistoryMeaning(s, p, limit);
    HistoryMeaning(s, p);
    var all, n := History(s, p), HistoryCount(s, p);
    var listed := HistoryBoundedDesc(s, p, limit);
    forall i | 0 <= i < |listed| ensures VersionOf(s, p, n - i) == Some(listed[i]) {
      assert listed[i] == all[n - 1 - i];
      assert VersionOf(s, p, (n - 1 - i) + 1) == Some(all[n - 1 - i]);
    }
  }

  lemma ResolvedIsActive(lib: Library, s: Profiles, selector: Selector)
    requires Agrees(s) && ResolveActive(lib, s, selector).Some?
    ensures var x := ResolveActive(lib, s, selector).value; ActiveProfile(s, x.profileId) == Some(x)
  {
    hide NameKey, Agrees;
    match selector {
      case ById(p) => ActiveFits(s, p);
      case ByName(name) => ActiveFits(s, s.names[NameKey(lib.foldCase, name).value]);
    }
  }

  lemma VersionIsShown(lib: Library, catalog: Catalog, c: Command, fact: Fact, s: Profiles)
    requires Sound(lib, s) && c.ShowAgentProfileVersion? && fact.AgentProfileVersionViewed?
    requires MaterializeVersion(lib, catalog, c, fact, s).Ok?
    ensures ResolveActive(lib, s, c.selector).Some?
    ensures ShowsVersion(lib, catalog, s, ResolveActive(lib, s, c.selector).value, c.version, MaterializeVersion(lib, catalog, c, fact, s).value)
  {
    hide Agrees, NameKey, ActiveProfile, VersionOf, HistoryCount, DiffProfile, ReadinessOf, ReadinessIs, Told;
    var active := ResolveActive(lib, s, c.selector).value;
    ResolvedIsActive(lib, s, c.selector);
    VersionsCounted(s, active.profileId);
    LinkedVersion(s, active.profileId, c.version);
    ReadinessMeaning(catalog, VersionOf(s, active.profileId, c.version).value);
    if c.version > 1 { StoredById(s, active.profileId, c.version - 1); }
  }

  lemma LinkedVersion(s: Profiles, p: nat, v: nat)
    requires Agrees(s) && p in s.index && VersionOf(s, p, v).Some?
    ensures VersionOf(s, p, v).value.version == v && v >= 1 && LinkedBack(s, p, VersionOf(s, p, v).value)
  {
    hide Chains, Indexed, NamesMatch, NamespacesMatch, Newest, VersionOf, LinkedBack;
    VersionLinked(s, p, v);
  }

  lemma StoredById(s: Profiles, p: nat, v: nat)
    requires Agrees(s) && VersionOf(s, p, v).Some?
    ensures Base(s, VersionOf(s, p, v).value.versionId) == VersionOf(s, p, v)
  {
    hide Indexed, NamesMatch, NamespacesMatch, Newest;
    assert Chain(s.versions, s.index[p], p);
    assert Entry(s.versions, s.index[p], p, v);
  }

  // ---------- the main result ----------

  /** What a command that was prepared and taken answers with, in terms of what it was asked and
      of the profiles it found. */
  ghost predicate Shows(lib: Library, catalog: Catalog, s: Profiles, c: Command, drawn: Fresh, view: View) {
    match c
    case CreateAgentProfile(draft, _) =>
      && view.CreatedView? && view.profileId == drawn.profileId && view.versionId == drawn.versionId && view.version == 1
      && ReadinessIs(catalog, draft.bindings, draft.role, view.readiness)
    case ActivateAgentProfileVersion(p, expected, candidate, _, _) =>
      && view.ActivatedView? && view.profileId == p && view.versionId == drawn.versionId && view.previous == expected
      && expected in s.versions && view.version == s.versions[expected].version + 1
      && ReadinessIs(catalog, candidate.bindings, candidate.role, view.readiness)
    case ChangeAgentSkill(p, expected, _, _, _) =>
      && view.SkillChangedView? && view.profileId == p && view.versionId == drawn.versionId && view.previous == expected
      && expected in s.versions && view.version == s.versions[expected].version + 1
    case ListAgentProfiles => ShowsList(catalog, s, view)
    case ShowAgentProfile(selector) =>
      && view.ProfileView? && ResolveActive(lib, s, selector) == Some(view.profile)
      && ReadinessIs(catalog, view.profile.draft.bindings, view.profile.draft.role, view.readiness)
    case ShowAgentProfileHistory(selector) =>
      ResolveActive(lib, s, selector).Some? && ShowsHistory(catalog, s, ResolveActive(lib, s, selector).value, view)
    case ShowAgentProfileVersion(selector, version) =>
      ResolveActive(lib, s, selector).Some? && ShowsVersion(lib, catalog, s, ResolveActive(lib, s, selector).value, version, view)
  }

  lemma CommandsShow(lib: Library, catalog: Catalog, s: Profiles, c: Command, found: Found, drawn: Fresh)
    requires ReadsProjection(lib) && Sound(lib, s) && Prepare(lib, s, c, found, drawn).Ok?
    requires ApplyFact(lib, s, Prepare(lib, s, c, found, drawn).value).Some?
    ensures var fact := Prepare(lib, s, c, found, drawn).value;
            var view := Materialize(lib, catalog, c, fact, ApplyFact(lib, s, fact).value);
            view.Ok? && Shows(lib, catalog, s, c, drawn, view.value)
  {
    hide PrepareCreate, PrepareActivate, PrepareChange, CreateProfile, ActivateProfile, Agrees, Told, ReviewDigest, CreateVersion, NextVersion,
      Canonicalize, ResolveActive, PredecessorDiff, VersionOf, ActiveProfile, ReadsProjection, MaterializeList, MaterializeHistory,
      MaterializeVersion, ShowsList, ShowsHistory, ShowsVersion, ReadinessOf, ReadinessIs, Unborne, DiffProfile, NamedAsShown;
    PreparedIsShown(lib, catalog, s, c, found, drawn);
    var fact := Prepare(lib, s, c, found, drawn).value;
    match c {
      case CreateAgentProfile(draft, template) =>
        CreatePreparedExactly(lib, s, draft, template, drawn);
        KeepsBindings(lib, draft);
        ReadinessMeaning(catalog, fact.created);
      case ActivateAgentProfileVersion(_, _, _, _, _) =>
        ActivatePreparedExactly(lib, s, c, found.reserved, drawn);
        assert IsActivation(lib, s, c, drawn, fact);
        NextVersionMeaning(lib.foldCase, lib.seal, s.versions[c.expectedActive], drawn.versionId, drawn.now, c.candidate);
        KeepsBindings(lib, c.candidate);
        ReadinessMeaning(catalog, fact.activated);
      case ChangeAgentSkill(_, _, _, _, _) =>
        PreparedAssignment(lib, s, c, found, drawn);
        var candidate :| NextVersion(lib.foldCase, lib.seal, s.versions[c.skillExpected], drawn.versionId, drawn.now, candidate) == Ok(fact.changed);
        NextVersionMeaning(lib.foldCase, lib.seal, s.versions[c.skillExpected], drawn.versionId, drawn.now, candidate);
      case ListAgentProfiles => ListIsShown(lib, catalog, s, fact);
      case ShowAgentProfile(selector) => ReadinessMeaning(catalog, ResolveActive(lib, s, selector).value);
      case ShowAgentProfileHistory(selector) => HistoryIsShown(lib, catalog, selector, fact, s);
      case ShowAgentProfileVersion(_, _) => VersionIsShown(lib, catalog, c, fact, s);
    }
  }

  lemma KeepsBindings(lib: Library, d: Draft)
    requires Canonicalize(lib.foldCase, d).Ok?
    ensures var c := Canonicalize(lib.foldCase, d).value; c.bindings == d.bindings && c.role == d.role
  {
    hide Canonicalize, TextsOk, TagsOk;
    CanonicalizeMeaning(lib.foldCase, d);
  }
}
