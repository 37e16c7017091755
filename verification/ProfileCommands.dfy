/** The profile commands of src/app/service.rs: the event each prepares from the projection,
    and the view each materialises from its event and the projection after it. */
module ProfileCommands {
  import opened Prelude
  import opened Sorting
  import opened ProfileDraft
  import opened ProfileDiff
  import opened ProfileProjection

  datatype Selector = ById(profileId: nat) | ByName(name: string)

  /** `ChangeAgentSkill` stands for the assign, upgrade and unassign commands, by its operation. */
  datatype Command =
    | CreateAgentProfile(draft: Draft, template: Option<nat>)
    | ActivateAgentProfileVersion(profileId: nat, expectedActive: nat, candidate: Draft, reviewToken: nat, reviewDigest: nat)
    | ChangeAgentSkill(skillProfile: nat, skillExpected: nat, operation: Assignment, skillToken: nat, skillDigest: nat)
    | ListAgentProfiles
    | ShowAgentProfile(selector: Selector)
    | ShowAgentProfileHistory(selector: Selector)
    | ShowAgentProfileVersion(selector: Selector, version: nat)

  datatype Capability = ProfileRead | ProfileCreate | ProfileActivate | SkillAssign | SkillUnassign

  function RequiredCapability(c: Command): Capability {
    match c
    case CreateAgentProfile(_, _) => ProfileCreate
    case ActivateAgentProfileVersion(_, _, _, _, _) => ProfileActivate
    case ChangeAgentSkill(_, _, operation, _, _) => if operation.Unassign? then SkillUnassign else SkillAssign
    case _ => ProfileRead
  }

  /** What the stream records; `Foreign` is everything the other commands record. */
  datatype Fact =
    | AgentProfileCreated(created: ProfileVersion)
    | AgentProfileVersionActivated(activated: ProfileVersion, previous: nat)
    | AgentSkillChanged(changed: ProfileVersion, changedFrom: nat, change: Assignment)
    | AgentProfilesListed(total: nat, returned: nat, truncated: bool)
    | AgentProfileViewed(viewedProfile: nat, viewedVersion: nat)
    | AgentProfileHistoryViewed(historyOf: nat, historyTotal: nat, historyReturned: nat, historyTruncated: bool, activeVersion: nat)
    | AgentProfileVersionViewed(ownerOf: nat, versionId: nat, versionNumber: nat, predecessor: Option<nat>)
    | Foreign(detail: string)

  const U32_MAX: nat := 0xFFFF_FFFF
  const MAX_LIST_RESULTS := 100
  const MAX_HISTORY_RESULTS := 100

  /** Library behaviour: text folding, digests, known templates, and the two bounded reads
      of the projection, which walk ordered maps. */
  datatype Library = Library(
    foldCase: string -> string, seal: ProfileVersion -> nat, candidateDigest: Draft -> nat,
    reviewDigest: (nat, nat, nat, seq<Change>) -> nat, knownTemplate: nat -> bool,
    activeBounded: (Profiles, nat) -> seq<ProfileVersion>, historyBounded: (Profiles, nat, nat) -> seq<ProfileVersion>)

  /** The bounded reads are those of the projection. */
  ghost predicate ReadsProjection(lib: Library) {
    && (forall s, n :: lib.activeBounded(s, n) == ActiveProfilesBounded(s, n))
    && (forall s, p, n :: lib.historyBounded(s, p, n) == HistoryBoundedDesc(s, p, n))
  }

  function Sealed(lib: Library): Seal { (p: ProfileVersion) => lib.seal(p.(digest := 0)) == p.digest }

  /** The ids and the time a command draws. */
  datatype Fresh = Fresh(eventId: nat, profileId: nat, versionId: nat, ns: nat, now: int)

  /** What a command finds: whether its review could be reserved, and which skill
      references resolve. */
  datatype Found = Found(reserved: bool, stored: SkillRef -> bool)

  datatype CommandError = Profile(cause: AssignmentError) | InvalidTemplate | InvalidEventRecord

  // ---------- preparing ----------

  function ResolveActive(lib: Library, s: Profiles, selector: Selector): Option<ProfileVersion> {
    match selector
    case ById(p) => ActiveProfile(s, p)
    case ByName(name) => match NameKey(lib.foldCase, name) case Ok(key) => ActiveProfileByName(s, key) case Err(_) => None
  }

  /** `ensure_name_available`: a scan of the active profiles. */
  predicate NameTakenBy(s: Profiles, excluded: Option<nat>, key: string, p: nat) {
    Some(p) != excluded && ActiveProfile(s, p).Some? && ActiveProfile(s, p).value.nameKey == key
  }

  predicate NameFree(lib: Library, s: Profiles, excluded: Option<nat>, displayName: string) {
    match NameKey(lib.foldCase, displayName)
    case Ok(key) => !exists p | p in s.active :: NameTakenBy(s, excluded, key, p)
    case Err(_) => false
  }

  function PrepareCreate(lib: Library, s: Profiles, draft: Draft, template: Option<nat>, drawn: Fresh): Result<Fact, CommandError> {
    match Canonicalize(lib.foldCase, draft)
    case Err(e) => Err(Profile(Domain(e)))
    case Ok(_) =>
      if draft.provenance != template || (template.Some? && !lib.knownTemplate(template.value)) then Err(InvalidTemplate)
      else if !NameFree(lib, s, None, draft.displayName) then Err(Profile(NameTaken))
      else match CreateVersion(lib.foldCase, lib.seal, drawn.profileId, drawn.versionId, drawn.ns, drawn.now, draft.(provenance := template))
        case Err(e) => Err(Profile(Domain(e)))
        case Ok(profile) => Ok(AgentProfileCreated(profile))
  }

  function Base(s: Profiles, versionId: nat): Option<ProfileVersion> {
    if versionId in s.versions then Some(s.versions[versionId]) else None
  }

  /** The digest a review of this change has. */
  function ReviewDigest(lib: Library, profileId: nat, expectedActive: nat, base: Draft, candidate: Draft): Result<nat, ProfileError> {
    var canonical :- Canonicalize(lib.foldCase, candidate);
    var diffs :- DiffProfile(lib.foldCase, base, candidate);
    Ok(lib.reviewDigest(profileId, expectedActive, lib.candidateDigest(canonical), diffs))
  }

  /** `reserved` says whether the review could be reserved. */
  function PrepareActivate(lib: Library, s: Profiles, c: Command, reserved: bool, drawn: Fresh): Result<Fact, CommandError>
    requires c.ActivateAgentProfileVersion?
  {
    var base := Base(s, c.expectedActive);
    var held := reserved && base.Some?
                && ReviewDigest(lib, c.profileId, c.expectedActive, base.value.draft, c.candidate) == Ok(c.reviewDigest);
    match PrepareActivation(lib.foldCase, lib.seal, base, ActiveProfile(s, c.profileId), c.expectedActive, c.candidate, held,
      NameFree(lib, s, Some(c.profileId), c.candidate.displayName), drawn.versionId, drawn.now)
    case Err(e) => Err(Profile(e))
    case Ok(profile) => Ok(AgentProfileVersionActivated(profile, c.expectedActive))
  }

  function PrepareChange(lib: Library, s: Profiles, c: Command, found: Found, drawn: Fresh): Result<Fact, CommandError>
    requires c.ChangeAgentSkill?
  {
    if !found.reserved then Err(Profile(ReviewRefused))
    else match PrepareAssignment(lib.foldCase, lib.seal, found.stored, ActiveProfile(s, c.skillProfile), c.skillExpected, c.operation,
        drawn.versionId, drawn.now)
      case Err(e) => Err(Profile(e))
      case Ok(profile) => Ok(AgentSkillChanged(profile, c.skillExpected, c.operation))
  }

  function Prepare(lib: Library, s: Profiles, c: Command, found: Found, drawn: Fresh): Result<Fact, CommandError> {
    match c
    case CreateAgentProfile(draft, template) => PrepareCreate(lib, s, draft, template, drawn)
    case ActivateAgentProfileVersion(_, _, _, _, _) => PrepareActivate(lib, s, c, found.reserved, drawn)
    case ChangeAgentSkill(_, _, _, _, _) => PrepareChange(lib, s, c, found, drawn)
    case ListAgentProfiles =>
      var total := |s.active|;
      var returned := Min(total, MAX_LIST_RESULTS);
      if total > U32_MAX then Err(InvalidEventRecord) else Ok(AgentProfilesListed(total, returned, returned < total))
    case ShowAgentProfile(selector) =>
      (match ResolveActive(lib, s, selector)
       case None => Err(Profile(AgentProfileNotFound))
       case Some(p) => Ok(AgentProfileViewed(p.profileId, p.versionId)))
    case ShowAgentProfileHistory(selector) =>
      (match ResolveActive(lib, s, selector)
       case None => Err(Profile(AgentProfileNotFound))
       case Some(p) =>
         var total := HistoryCount(s, p.profileId);
         var returned := Min(total, MAX_HISTORY_RESULTS);
         if total > U32_MAX then Err(InvalidEventRecord)
         else Ok(AgentProfileHistoryViewed(p.profileId, total, returned, returned < total, p.versionId)))
    case ShowAgentProfileVersion(selector, version) =>
      (match ResolveActive(lib, s, selector)
       case None => Err(Profile(AgentProfileNotFound))
       case Some(active) =>
         match VersionOf(s, active.profileId, version)
         case None => Err(Profile(AgentProfileNotFound))
         case Some(p) => Ok(AgentProfileVersionViewed(p.profileId, p.versionId, p.version, p.supersedes)))
  }

  function HistoryCount(s: Profiles, p: nat): nat { if p in s.index then |s.index[p]| else 0 }

  /** What an event does to the profile projection; a skill change is an activation. */
  function ApplyFact(lib: Library, s: Profiles, fact: Fact): Option<Profiles> {
    match fact
    case AgentProfileCreated(p) => CreateProfile(Sealed(lib), s, p)
    case AgentProfileVersionActivated(p, previous) => ActivateProfile(Sealed(lib), s, p, previous)
    case AgentSkillChanged(p, previous, _) => ActivateProfile(Sealed(lib), s, p, previous)
    case _ => Some(s)
  }

  // ---------- materialising ----------

  datatype Readiness = Unbound | BindingUnavailable | Ready

  /** The bindings available when a view is made. */
  datatype Catalog = Catalog(inference: set<nat>, engineering: set<nat>)

  function ReadinessOf(catalog: Catalog, p: ProfileVersion): Readiness {
    var b := p.draft.bindings;
    if b.inference.None? && b.engineering.None? then Unbound
    else if b.inference.Some? && b.inference.value in catalog.inference
            && (b.engineering.None? || b.engineering.value in catalog.engineering)
            && (p.draft.role != Engineering || (b.engineering.Some? && b.engineering.value in catalog.engineering))
    then Ready
    else BindingUnavailable
  }

  datatype ProfileSummary = ProfileSummary(
    profileId: nat, versionId: nat, version: nat, displayName: string, role: Role, primarySpecialty: string,
    readiness: Readiness, digest: nat)

  datatype HistoryEntry = HistoryEntry(
    versionId: nat, version: nat, supersedes: Option<nat>, createdAt: int, readiness: Readiness, digest: nat)

  datatype View =
    | CreatedView(profileId: nat, versionId: nat, version: nat, readiness: Readiness)
    | ActivatedView(profileId: nat, versionId: nat, previous: nat, version: nat, readiness: Readiness)
    | SkillChangedView(profileId: nat, versionId: nat, previous: nat, version: nat, digest: nat)
    | ProfilesView(profiles: seq<ProfileSummary>, total: nat, returned: nat, truncated: bool)
    | ProfileView(profile: ProfileVersion, readiness: Readiness)
    | HistoryView(profileId: nat, active: nat, versions: seq<HistoryEntry>, total: nat, returned: nat, truncated: bool)
    | VersionView(profile: ProfileVersion, readiness: Readiness, predecessorDiff: seq<Change>)

  datatype ReceiptError = InvalidReceipt

  function Summarise(catalog: Catalog): ProfileVersion -> ProfileSummary {
    (p: ProfileVersion) => ProfileSummary(p.profileId, p.versionId, p.version, p.draft.displayName, p.draft.role,
      p.draft.primarySpecialty, ReadinessOf(catalog, p), p.digest)
  }

  function Enter(catalog: Catalog): ProfileVersion -> HistoryEntry {
    (p: ProfileVersion) => HistoryEntry(p.versionId, p.version, p.supersedes, p.createdAt, ReadinessOf(catalog, p), p.digest)
  }

  function MaterializeCreated(lib: Library, catalog: Catalog, c: Command, p: ProfileVersion, s: Profiles): Result<View, ReceiptError>
    requires c.CreateAgentProfile?
  {
    if Canonicalize(lib.foldCase, c.draft).Err?
       || CreateVersion(lib.foldCase, lib.seal, p.profileId, p.versionId, p.ns, p.createdAt, c.draft.(provenance := c.template)) != Ok(p)
       || ActiveProfile(s, p.profileId) != Some(p)
    then Err(InvalidReceipt)
    else Ok(CreatedView(p.profileId, p.versionId, p.version, ReadinessOf(catalog, p)))
  }

  function MaterializeActivated(lib: Library, catalog: Catalog, c: Command, p: ProfileVersion, previous: nat, s: Profiles): Result<View, ReceiptError>
    requires c.ActivateAgentProfileVersion?
  {
    match Base(s, c.expectedActive)
    case None => Err(InvalidReceipt)
    case Some(base) =>
      if ReviewDigest(lib, c.profileId, c.expectedActive, base.draft, c.candidate) != Ok(c.reviewDigest)
         || previous != c.expectedActive || p.profileId != c.profileId
         || NextVersion(lib.foldCase, lib.seal, base, p.versionId, p.createdAt, c.candidate) != Ok(p)
         || ActiveProfile(s, c.profileId) != Some(p)
      then Err(InvalidReceipt)
      else Ok(ActivatedView(c.profileId, p.versionId, previous, p.version, ReadinessOf(catalog, p)))
  }

  /** `materialize_agent_skill_mutation`, behind the guards of its three arms. */
  function MaterializeChange(c: Command, p: ProfileVersion, previous: nat, change: Assignment, s: Profiles): Result<View, ReceiptError>
    requires c.ChangeAgentSkill?
  {
    if c.operation != change || c.skillExpected != previous || p.profileId != c.skillProfile || p.supersedes != Some(previous)
       || ActiveProfile(s, c.skillProfile) != Some(p)
    then Err(InvalidReceipt)
    else Ok(SkillChangedView(c.skillProfile, p.versionId, previous, p.version, p.digest))
  }

  function MaterializeList(lib: Library, catalog: Catalog, fact: Fact, s: Profiles): Result<View, ReceiptError>
    requires fact.AgentProfilesListed?
  {
    var profiles := lib.activeBounded(s, MAX_LIST_RESULTS);
    if fact.total != |s.active| || fact.returned != |profiles| || fact.truncated != (|profiles| < |s.active|) then Err(InvalidReceipt)
    else Ok(ProfilesView(Map(profiles, Summarise(catalog)), fact.total, fact.returned, fact.truncated))
  }

  function MaterializeHistory(lib: Library, catalog: Catalog, selector: Selector, fact: Fact, s: Profiles): Result<View, ReceiptError>
    requires fact.AgentProfileHistoryViewed?
  {
    match ResolveActive(lib, s, selector)
    case None => Err(InvalidReceipt)
    case Some(active) =>
      var versions := Map(lib.historyBounded(s, active.profileId, MAX_HISTORY_RESULTS), Enter(catalog));
      var total := HistoryCount(s, active.profileId);
      if active.profileId != fact.historyOf || active.versionId != fact.activeVersion || fact.historyTotal != total
         || fact.historyReturned != |versions| || fact.historyTruncated != (|versions| < total)
      then Err(InvalidReceipt)
      else Ok(HistoryView(fact.historyOf, fact.activeVersion, versions, fact.historyTotal, fact.historyReturned, fact.historyTruncated))
  }

  function PredecessorDiff(lib: Library, s: Profiles, p: ProfileVersion): Result<seq<Change>, ReceiptError> {
    match p.supersedes
    case None => Ok([])
    case Some(id) =>
      match Base(s, id)
      case None => Err(InvalidReceipt)
      case Some(before) =>
        match DiffProfile(lib.foldCase, before.draft, p.draft) case Ok(diff) => Ok(diff) case Err(_) => Err(InvalidReceipt)
  }

  function MaterializeVersion(lib: Library, catalog: Catalog, c: Command, fact: Fact, s: Profiles): Result<View, ReceiptError>
    requires c.ShowAgentProfileVersion? && fact.AgentProfileVersionViewed?
  {
    match ResolveActive(lib, s, c.selector)
    case None => Err(InvalidReceipt)
    case Some(active) =>
      match VersionOf(s, active.profileId, c.version)
      case None => Err(InvalidReceipt)
      case Some(p) =>
        if p.profileId != fact.ownerOf || p.versionId != fact.versionId || p.version != fact.versionNumber
           || p.supersedes != fact.predecessor
        then Err(InvalidReceipt)
        else
          var diff :- PredecessorDiff(lib, s, p);
          Ok(VersionView(p, ReadinessOf(catalog, p), diff))
  }

  /** The profile arms of `materialize_success`: the view, or a refusal when event, command
      and projection do not belong together. */
  function Materialize(lib: Library, catalog: Catalog, c: Command, fact: Fact, s: Profiles): Result<View, ReceiptError> {
    match (c, fact)
    case (CreateAgentProfile(_, _), AgentProfileCreated(p)) => MaterializeCreated(lib, catalog, c, p, s)
    case (ActivateAgentProfileVersion(_, _, _, _, _), AgentProfileVersionActivated(p, previous)) =>
      MaterializeActivated(lib, catalog, c, p, previous, s)
    case (ChangeAgentSkill(_, _, _, _, _), AgentSkillChanged(p, previous, change)) => MaterializeChange(c, p, previous, change, s)
    case (ListAgentProfiles, AgentProfilesListed(_, _, _)) => MaterializeList(lib, catalog, fact, s)
    case (ShowAgentProfile(selector), AgentProfileViewed(p, v)) =>
      (match ResolveActive(lib, s, selector)
       case None => Err(InvalidReceipt)
       case Some(active) =>
         if active.profileId != p || active.versionId != v then Err(InvalidReceipt)
         else Ok(ProfileView(active, ReadinessOf(catalog, active))))
    case (ShowAgentProfileHistory(selector), AgentProfileHistoryViewed(_, _, _, _, _)) =>
      MaterializeHistory(lib, catalog, selector, fact, s)
    case (ShowAgentProfileVersion(_, _), AgentProfileVersionViewed(_, _, _, _)) => MaterializeVersion(lib, catalog, c, fact, s)
    case _ => Err(InvalidReceipt)
  }

  // ---------- the catalog only decides readiness ----------

  function UnboundSummary(): ProfileSummary -> ProfileSummary { (p: ProfileSummary) => p.(readiness := Unbound) }
  function UnboundEntry(): HistoryEntry -> HistoryEntry { (e: HistoryEntry) => e.(readiness := Unbound) }

  /** `normalize_catalog_readiness`. */
  function Normalize(v: View): View {
    match v
    case ProfilesView(profiles, _, _, _) => v.(profiles := Map(profiles, UnboundSummary()))
    case HistoryView(_, _, versions, _, _, _) => v.(versions := Map(versions, UnboundEntry()))
    case CreatedView(p, id, version, _) => CreatedView(p, id, version, Unbound)
    case ActivatedView(p, id, previous, version, _) => ActivatedView(p, id, previous, version, Unbound)
    case SkillChangedView(_, _, _, _, _) => v
    case ProfileView(profile, _) => ProfileView(profile, Unbound)
    case VersionView(profile, _, diff) => VersionView(profile, Unbound, diff)
  }

  lemma ListsOnlyChangeReadiness(lib: Library, one: Catalog, other: Catalog, fact: Fact, s: Profiles)
    requires fact.AgentProfilesListed?
    ensures var a, b := MaterializeList(lib, one, fact, s), MaterializeList(lib, other, fact, s);
            (a.Ok? <==> b.Ok?) && (a.Ok? ==> Normalize(a.value) == Normalize(b.value))
  {
    hide ReadinessOf;
    var profiles := lib.activeBounded(s, MAX_LIST_RESULTS);
    assert Map(Map(profiles, Summarise(one)), UnboundSummary()) == Map(Map(profiles, Summarise(other)), UnboundSummary());
  }

  lemma HistoriesOnlyChangeReadiness(lib: Library, one: Catalog, other: Catalog, selector: Selector, fact: Fact, s: Profiles)
    requires fact.AgentProfileHistoryViewed?
    ensures var a, b := MaterializeHistory(lib, one, selector, fact, s), MaterializeHistory(lib, other, selector, fact, s);
            (a.Ok? <==> b.Ok?) && (a.Ok? ==> Normalize(a.value) == Normalize(b.value))
  {
    hide ReadinessOf, ResolveActive;
    if ResolveActive(lib, s, selector).Some? {
      var versions := lib.historyBounded(s, ResolveActive(lib, s, selector).value.profileId, MAX_HISTORY_RESULTS);
      assert Map(Map(versions, Enter(one)), UnboundEntry()) == Map(Map(versions, Enter(other)), UnboundEntry());
    }
  }

  /** Under any two catalogs the same inputs materialise to the same view but for readiness,
      or are refused alike. */
  lemma CatalogsOnlyChangeReadiness(lib: Library, one: Catalog, other: Catalog, c: Command, fact: Fact, s: Profiles)
    ensures Materialize(lib, one, c, fact, s).Ok? <==> Materialize(lib, other, c, fact, s).Ok?
    ensures Materialize(lib, one, c, fact, s).Ok? ==>
              Normalize(Materialize(lib, one, c, fact, s).value) == Normalize(Materialize(lib, other, c, fact, s).value)
  {
    hide ReadinessOf, ResolveActive, CreateVersion, NextVersion, ReviewDigest, Base, VersionOf, ActiveProfile, PredecessorDiff, Canonicalize,
      MaterializeList, MaterializeHistory, Map;
    if fact.AgentProfilesListed? { ListsOnlyChangeReadiness(lib, one, other, fact, s); }
    if fact.AgentProfileHistoryViewed? && c.ShowAgentProfileHistory? {
      HistoriesOnlyChangeReadiness(lib, one, other, c.selector, fact, s);
    }
  }

  // ---------- what is prepared can be shown ----------

  /** A version has a canonical draft and is known by the key of the name it shows. */
  ghost predicate NamedAsShown(lib: Library, v: ProfileVersion) {
    Canonical(lib.foldCase, v.draft) && NameKey(lib.foldCase, v.draft.displayName) == Ok(v.nameKey)
  }

  /** So does every version, and unless first it differs from its predecessor. */
  ghost predicate Told(lib: Library, s: Profiles) {
    forall id | id in s.versions :: NamedAsShown(lib, s.versions[id]) && PredecessorDiff(lib, s, s.versions[id]).Ok?
  }

  ghost predicate Sound(lib: Library, s: Profiles) { Agrees(s) && Told(lib, s) }

  lemma ListCounts(s: Profiles, limit: nat)
    requires Agrees(s)
    ensures |ActiveProfilesBounded(s, limit)| == Min(|s.active|, limit)
  {
    hide FilterMap, Enumerate, Sort, Chains, Indexed, Newest, NamespacesMatch, NamesMatch, ActiveProfilesBounded;
    BoundedListingMeaning(s, limit);
    AllActive(s);
    var ids := Enumerate(NatLe, s.active.Keys);
    EnumerateMeaning(NatLe, s.active.Keys);
    forall i | 0 <= i < |ids| ensures ActiveById(s)(ids[i]).Some? { assert ids[i] in ids; }
    FilterMapAll(ids, ActiveById(s));
    SortMultiset(ByNameThenId, FilterMap(ids, ActiveById(s)));
    assert |s.active| == |s.active.Keys|;
  }

  lemma HistoryCounts(s: Profiles, p: nat, limit: nat)
    requires Agrees(s)
    ensures |HistoryBoundedDesc(s, p, limit)| == Min(HistoryCount(s, p), limit)
  {
    hide Chains, Indexed, Newest, NamespacesMatch, NamesMatch, HistoryBoundedDesc, History;
    BoundedHistoryMeaning(s, p, limit);
    HistoryMeaning(s, p);
  }

  lemma ActivatedIsActive(sealed: Seal, s: Profiles, p: ProfileVersion, previous: nat)
    requires ActivateProfile(sealed, s, p, previous).Some?
    ensures ActiveProfile(ActivateProfile(sealed, s, p, previous).value, p.profileId) == Some(p)
    ensures forall id | id in s.versions ::
              id in ActivateProfile(sealed, s, p, previous).value.versions
              && ActivateProfile(sealed, s, p, previous).value.versions[id] == s.versions[id]
  {}

  lemma CreatedIsActive(sealed: Seal, s: Profiles, p: ProfileVersion)
    requires CreateProfile(sealed, s, p).Some?
    ensures ActiveProfile(CreateProfile(sealed, s, p).value, p.profileId) == Some(p)
    ensures forall id | id in s.versions ::
              id in CreateProfile(sealed, s, p).value.versions && CreateProfile(sealed, s, p).value.versions[id] == s.versions[id]
  {}

  lemma VersionIsTold(lib: Library, s: Profiles, p: nat, v: nat)
    requires Told(lib, s) && VersionOf(s, p, v).Some?
    ensures PredecessorDiff(lib, s, VersionOf(s, p, v).value).Ok?
  {}

  /** What an activation has passed when it is prepared. */
  lemma PreparedChecks(lib: Library, s: Profiles, c: Command, reserved: bool, drawn: Fresh)
    requires c.ActivateAgentProfileVersion? && PrepareActivate(lib, s, c, reserved, drawn).Ok?
    ensures PrepareActivate(lib, s, c, reserved, drawn).value.AgentProfileVersionActivated?
    ensures PrepareActivate(lib, s, c, reserved, drawn).value.previous == c.expectedActive
    ensures reserved && c.expectedActive in s.versions
    ensures ReviewDigest(lib, c.profileId, c.expectedActive, s.versions[c.expectedActive].draft, c.candidate) == Ok(c.reviewDigest)
    ensures ActiveProfile(s, c.profileId).Some? && ActiveProfile(s, c.profileId).value.versionId == c.expectedActive
    ensures NextVersion(lib.foldCase, lib.seal, ActiveProfile(s, c.profileId).value, drawn.versionId, drawn.now, c.candidate)
            == Ok(PrepareActivate(lib, s, c, reserved, drawn).value.activated)
  {
    hide NameFree, ReviewDigest, DiffProfile, ActiveProfile, NextVersion;
  }

  /** An activation that was prepared: its base is the active version and its version is the
      successor of that base. */
  lemma PreparedActivation(lib: Library, s: Profiles, c: Command, reserved: bool, drawn: Fresh)
    requires Agrees(s) && c.ActivateAgentProfileVersion? && PrepareActivate(lib, s, c, reserved, drawn).Ok?
    ensures c.expectedActive in s.versions && PrepareActivate(lib, s, c, reserved, drawn).value.AgentProfileVersionActivated?
    ensures var p := PrepareActivate(lib, s, c, reserved, drawn).value.activated;
            var base := s.versions[c.expectedActive];
            && PrepareActivate(lib, s, c, reserved, drawn).value == AgentProfileVersionActivated(p, c.expectedActive)
            && reserved && ReviewDigest(lib, c.profileId, c.expectedActive, base.draft, c.candidate) == Ok(c.reviewDigest)
            && ActiveProfile(s, c.profileId) == Some(base) && base.profileId == c.profileId
            && NextVersion(lib.foldCase, lib.seal, base, drawn.versionId, drawn.now, c.candidate) == Ok(p)
            && p.profileId == c.profileId && p.versionId == drawn.versionId && p.createdAt == drawn.now
            && p.supersedes == Some(c.expectedActive)
  {
    hide PrepareActivate, ReviewDigest, Chains, Indexed, Newest, NamesMatch, NamespacesMatch, NextVersion;
    PreparedChecks(lib, s, c, reserved, drawn);
    ActiveVersionFits(s, c.profileId);
    SuccessorFields(lib, s.versions[c.expectedActive], c.candidate, drawn);
  }

  lemma SuccessorFields(lib: Library, base: ProfileVersion, candidate: Draft, drawn: Fresh)
    requires NextVersion(lib.foldCase, lib.seal, base, drawn.versionId, drawn.now, candidate).Ok?
    ensures var p := NextVersion(lib.foldCase, lib.seal, base, drawn.versionId, drawn.now, candidate).value;
            && p.profileId == base.profileId && p.versionId == drawn.versionId && p.createdAt == drawn.now
            && p.supersedes == Some(base.versionId)
  {
    hide Canonicalize, NameKey;
  }

  lemma CreatedParts(lib: Library, s: Profiles, draft: Draft, template: Option<nat>, drawn: Fresh)
    requires PrepareCreate(lib, s, draft, template, drawn).Ok?
    ensures var p := PrepareCreate(lib, s, draft, template, drawn).value.created;
            && PrepareCreate(lib, s, draft, template, drawn).value == AgentProfileCreated(p)
            && p.profileId == drawn.profileId && p.versionId == drawn.versionId && p.ns == drawn.ns && p.createdAt == drawn.now
            && p.version == 1 && p.supersedes.None? && Canonicalize(lib.foldCase, draft).Ok?
            && CreateVersion(lib.foldCase, lib.seal, drawn.profileId, drawn.versionId, drawn.ns, drawn.now, draft.(provenance := template)) == Ok(p)
  {
    hide Canonicalize, NameFree, NameKey;
  }

  /** Whatever a command prepares, once the projection accepts it, can be shown: the command
      never fails after its event, and the view repeats the counts the event recorded. */
  lemma PreparedIsShown(lib: Library, catalog: Catalog, s: Profiles, c: Command, found: Found, drawn: Fresh)
    requires ReadsProjection(lib) && Sound(lib, s) && Prepare(lib, s, c, found, drawn).Ok?
    requires ApplyFact(lib, s, Prepare(lib, s, c, found, drawn).value).Some?
    ensures var fact := Prepare(lib, s, c, found, drawn).value;
            Materialize(lib, catalog, c, fact, ApplyFact(lib, s, fact).value).Ok?
  {
    hide PrepareCreate, PrepareActivate, PrepareChange, CreateProfile, ActivateProfile, Agrees, Told, ReviewDigest, CreateVersion, NextVersion,
      Canonicalize, ResolveActive, PredecessorDiff, VersionOf, ActiveProfile;
    match c {
      case CreateAgentProfile(draft, template) =>
        CreatedParts(lib, s, draft, template, drawn);
        CreatedIsActive(Sealed(lib), s, PrepareCreate(lib, s, draft, template, drawn).value.created);
      case ActivateAgentProfileVersion(_, _, _, _, _) =>
        PreparedActivation(lib, s, c, found.reserved, drawn);
        ActivatedIsActive(Sealed(lib), s, PrepareActivate(lib, s, c, found.reserved, drawn).value.activated, c.expectedActive);
      case ChangeAgentSkill(_, _, _, _, _) =>
        PreparedAssignment(lib, s, c, found, drawn);
        ActivatedIsActive(Sealed(lib), s, PrepareChange(lib, s, c, found, drawn).value.changed, c.skillExpected);
      case ListAgentProfiles => ListCounts(s, MAX_LIST_RESULTS);
      case ShowAgentProfileHistory(selector) =>
        HistoryCounts(s, ResolveActive(lib, s, selector).value.profileId, MAX_HISTORY_RESULTS);
      case ShowAgentProfileVersion(selector, version) =>
        VersionIsTold(lib, s, ResolveActive(lib, s, selector).value.profileId, version);
      case ShowAgentProfile(_) =>
    }
  }

  /** What was prepared keeps the projection sound: its maps agree, and every version is
      canonical and shows a difference to the one before it. */
  lemma PreparedKeepsSound(lib: Library, s: Profiles, c: Command, found: Found, drawn: Fresh)
    requires Sound(lib, s) && Prepare(lib, s, c, found, drawn).Ok?
    requires ApplyFact(lib, s, Prepare(lib, s, c, found, drawn).value).Some?
    ensures Sound(lib, ApplyFact(lib, s, Prepare(lib, s, c, found, drawn).value).value)
  {
    hide PrepareCreate, PrepareActivate, PrepareChange, CreateProfile, ActivateProfile, Agrees, Told;
    match c {
      case CreateAgentProfile(draft, template) =>
        CreatedParts(lib, s, draft, template, drawn);
        var p := PrepareCreate(lib, s, draft, template, drawn).value.created;
        CreateKeepsAgreement(Sealed(lib), s, p);
        CreatedIsTold(lib, s, draft.(provenance := template), drawn, p);
      case ActivateAgentProfileVersion(_, _, _, _, _) =>
        PreparedActivation(lib, s, c, found.reserved, drawn);
        var p := PrepareActivate(lib, s, c, found.reserved, drawn).value.activated;
        ActivateKeepsAgreement(Sealed(lib), s, p, c.expectedActive);
        ActivatedIsTold(lib, s, c, drawn, p);
      case ChangeAgentSkill(_, _, _, _, _) =>
        PreparedAssignment(lib, s, c, found, drawn);
        var p := PrepareChange(lib, s, c, found, drawn).value.changed;
        ActivateKeepsAgreement(Sealed(lib), s, p, c.skillExpected);
        ChangedIsTold(lib, s, p, c.skillExpected);
      case _ =>
    }
  }

  lemma CreatedIsTold(lib: Library, s: Profiles, draft: Draft, drawn: Fresh, p: ProfileVersion)
    requires Told(lib, s) && CreateProfile(Sealed(lib), s, p).Some?
    requires CreateVersion(lib.foldCase, lib.seal, drawn.profileId, drawn.versionId, drawn.ns, drawn.now, draft) == Ok(p)
    ensures Told(lib, CreateProfile(Sealed(lib), s, p).value)
  {
    hide Canonicalize, NameKey, DiffProfile, CreateVersion;
    CreatedVersionMeaning(lib.foldCase, lib.seal, drawn.profileId, drawn.versionId, drawn.ns, drawn.now, draft);
    CanonicalizeIdempotent(lib.foldCase, draft);
    var t := CreateProfile(Sealed(lib), s, p).value;
    forall id | id in t.versions
      ensures NamedAsShown(lib, t.versions[id]) && PredecessorDiff(lib, t, t.versions[id]).Ok?
    {
      if id != p.versionId { assert t.versions[id] == s.versions[id]; }
    }
  }

  lemma NextDiffers(lib: Library, base: ProfileVersion, candidate: Draft, drawn: Fresh, p: ProfileVersion)
    requires DiffProfile(lib.foldCase, base.draft, candidate).Ok?
    requires NextVersion(lib.foldCase, lib.seal, base, drawn.versionId, drawn.now, candidate) == Ok(p)
    ensures NamedAsShown(lib, p) && DiffProfile(lib.foldCase, base.draft, p.draft).Ok?
  {
    hide Canonicalize, NameKey, NextVersion;
    NextVersionMeaning(lib.foldCase, lib.seal, base, drawn.versionId, drawn.now, candidate);
  }

  lemma ActivatedIsTold(lib: Library, s: Profiles, c: Command, drawn: Fresh, p: ProfileVersion)
    requires Told(lib, s) && c.ActivateAgentProfileVersion? && c.expectedActive in s.versions
    requires ActivateProfile(Sealed(lib), s, p, c.expectedActive).Some? && p.supersedes == Some(c.expectedActive)
    requires ReviewDigest(lib, c.profileId, c.expectedActive, s.versions[c.expectedActive].draft, c.candidate).Ok?
    requires NextVersion(lib.foldCase, lib.seal, s.versions[c.expectedActive], drawn.versionId, drawn.now, c.candidate) == Ok(p)
    ensures Told(lib, ActivateProfile(Sealed(lib), s, p, c.expectedActive).value)
  {
    hide NamedAsShown, Canonicalize, NameKey, DiffProfile, NextVersion, Told, ActivateProfile;
    NextDiffers(lib, s.versions[c.expectedActive], c.candidate, drawn, p);
    ChangedIsTold(lib, s, p, c.expectedActive);
  }

  lemma ChangedIsTold(lib: Library, s: Profiles, p: ProfileVersion, previous: nat)
    requires Told(lib, s) && previous in s.versions && p.supersedes == Some(previous) && NamedAsShown(lib, p)
    requires ActivateProfile(Sealed(lib), s, p, previous).Some? && DiffProfile(lib.foldCase, s.versions[previous].draft, p.draft).Ok?
    ensures Told(lib, ActivateProfile(Sealed(lib), s, p, previous).value)
  {
    hide NamedAsShown, DiffProfile;
    var t := ActivateProfile(Sealed(lib), s, p, previous).value;
    assert t.versions == s.versions[p.versionId := p];
    forall id | id in t.versions
      ensures NamedAsShown(lib, t.versions[id]) && PredecessorDiff(lib, t, t.versions[id]).Ok?
    {
      if id != p.versionId { assert t.versions[id] == s.versions[id] && PredecessorDiff(lib, s, s.versions[id]).Ok?; }
    }
  }

  /** A skill change that was prepared: its version succeeds the active one, differs from it and
      shows the same name. */
  lemma PreparedAssignment(lib: Library, s: Profiles, c: Command, found: Found, drawn: Fresh)
    requires Sound(lib, s) && c.ChangeAgentSkill? && PrepareChange(lib, s, c, found, drawn).Ok?
    ensures PrepareChange(lib, s, c, found, drawn).value.AgentSkillChanged? && c.skillExpected in s.versions
    ensures var p := PrepareChange(lib, s, c, found, drawn).value.changed;
            && PrepareChange(lib, s, c, found, drawn).value == AgentSkillChanged(p, c.skillExpected, c.operation)
            && p.profileId == c.skillProfile && p.supersedes == Some(c.skillExpected) && NamedAsShown(lib, p)
            && DiffProfile(lib.foldCase, s.versions[c.skillExpected].draft, p.draft).Ok?
            && ActiveProfile(s, c.skillProfile) == Some(s.versions[c.skillExpected])
            && p.draft.displayName == s.versions[c.skillExpected].draft.displayName
            && exists candidate :: NextVersion(lib.foldCase, lib.seal, s.versions[c.skillExpected], drawn.versionId, drawn.now, candidate) == Ok(p)
  {
    hide Canonicalize, ValidateAssignment, NextVersion, DiffProfile, Chains, Indexed, Newest, NamesMatch, NamespacesMatch, NameKey;
    ActiveVersionFits(s, c.skillProfile);
    var active := ActiveProfile(s, c.skillProfile).value;
    assert NamedAsShown(lib, active);
    AssignmentAlwaysDiffers(lib.foldCase, lib.seal, found.stored, active, c.skillExpected, c.operation, drawn.versionId, drawn.now);
    AssignmentMeaning(lib.foldCase, found.stored, active.draft, c.operation);
    var candidate := ValidateAssignment(lib.foldCase, found.stored, active.draft, c.operation).value;
    SuccessorFields(lib, active, candidate, drawn);
    NextVersionMeaning(lib.foldCase, lib.seal, active, drawn.versionId, drawn.now, candidate);
  }
}
