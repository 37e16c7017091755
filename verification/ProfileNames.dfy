/** Names of agent profiles: a profile is found under the name it shows, exactly when a command
    can be prepared, and that the projection then takes what was prepared. */
module ProfileNames {
  import opened Prelude
  import opened ProfileDraft
  import opened ProfileDiff
  import opened ProfileProjection
  import opened ProfileCommands

  // ---------- looking up a name ----------

  /** The active version of a profile bears the name. */
  ghost predicate Bears(s: Profiles, p: nat, key: string) {
    p in s.active && s.active[p] in s.versions && s.versions[s.active[p]].nameKey == key
  }

  /** The name index finds exactly the profile whose active version bears the name. */
  lemma NameIndexMeaning(s: Profiles, key: string)
    requires Agrees(s)
    ensures forall p :: Bears(s, p, key) <==> key in s.names && s.names[key] == p
    ensures forall p | Bears(s, p, key) :: ActiveProfileByName(s, key) == Some(s.versions[s.active[p]])
    ensures key !in s.names ==> ActiveProfileByName(s, key) == None
  {
    hide Chains, Indexed, Newest, NamespacesMatch;
  }

  /** Every active profile is found under the name it shows, however that is written, and under
      that name nothing else is. */
  lemma FoundByShownName(lib: Library, s: Profiles, p: nat, name: string)
    requires Sound(lib, s) && ActiveProfile(s, p).Some?
    requires NameKey(lib.foldCase, name) == NameKey(lib.foldCase, ActiveProfile(s, p).value.draft.displayName)
    ensures ResolveActive(lib, s, ByName(name)) == ActiveProfile(s, p) == ResolveActive(lib, s, ById(p))
    ensures ActiveProfile(s, p).value.profileId == p
    ensures forall q | ActiveProfile(s, q).Some?
              && NameKey(lib.foldCase, ActiveProfile(s, q).value.draft.displayName) == NameKey(lib.foldCase, name) :: q == p
  {
    hide Chains, Indexed, NamespacesMatch, NamesMatch, NameKey, Canonicalize;
    var x := ActiveProfile(s, p).value;
    assert NamedAsShown(lib, x);
    NameIndexMeaning(s, x.nameKey);
    ActiveVersionFits(s, p);
    forall q | ActiveProfile(s, q).Some?
        && NameKey(lib.foldCase, ActiveProfile(s, q).value.draft.displayName) == NameKey(lib.foldCase, name)
      ensures q == p
    {
      assert NamedAsShown(lib, ActiveProfile(s, q).value);
      assert Bears(s, q, x.nameKey) && Bears(s, p, x.nameKey);
    }
    assert Bears(s, p, x.nameKey);
  }

  /** The name can be compared, and no active profile but the excluded one bears it. */
  ghost predicate Unborne(lib: Library, s: Profiles, excluded: Option<nat>, name: string) {
    && NameKey(lib.foldCase, name).Ok?
    && forall p: nat | Bears(s, p, NameKey(lib.foldCase, name).value) :: Some(p) == excluded
  }

  /** The scan finds a name free exactly when the index has it for no profile but the excluded one. */
  lemma NameFreeMeaning(lib: Library, s: Profiles, excluded: Option<nat>, name: string)
    requires Agrees(s)
    ensures NameFree(lib, s, excluded, name) <==> Unborne(lib, s, excluded, name)
    ensures NameFree(lib, s, excluded, name) ==>
              var key := NameKey(lib.foldCase, name).value;
              key in s.names ==> Some(s.names[key]) == excluded
  {
    hide Chains, Indexed, Newest, NamespacesMatch, NameKey;
    if NameKey(lib.foldCase, name).Ok? {
      var key := NameKey(lib.foldCase, name).value;
      NameIndexMeaning(s, key);
      forall p: nat ensures NameTakenBy(s, excluded, key, p) <==> Some(p) != excluded && Bears(s, p, key) {}
    }
  }

  // ---------- what the projection accepts ----------

  /** The projection creates exactly sealed first versions under ids, a namespace and a name that
      are not in use. */
  lemma CreateAcceptedExactly(sealed: Seal, s: Profiles, v: ProfileVersion)
    requires Agrees(s)
    ensures CreateProfile(sealed, s, v).Some? <==>
              && sealed(v) && v.version == 1 && v.supersedes == None
              && v.versionId !in s.versions && ActiveProfile(s, v.profileId) == None
              && (forall p :: !Bears(s, p, v.nameKey))
              && (forall p | ActiveProfile(s, p).Some? :: ActiveProfile(s, p).value.ns != v.ns)
    ensures CreateProfile(sealed, s, v).Some? ==>
              var t := CreateProfile(sealed, s, v).value;
              ActiveProfile(t, v.profileId) == Some(v) && forall p | p != v.profileId :: ActiveProfile(t, p) == ActiveProfile(s, p)
  {
    hide Chains, Indexed;
    NameIndexMeaning(s, v.nameKey);
    if v.nameKey in s.names { assert Bears(s, s.names[v.nameKey], v.nameKey); }
    if v.ns in s.namespaces { assert ActiveProfile(s, s.namespaces[v.ns]).Some?; }
  }

  /** It activates exactly a sealed next version of an active one, in the same namespace and of the
      same template, under a new id and a name no other active profile bears. */
  lemma ActivateAcceptedExactly(sealed: Seal, s: Profiles, v: ProfileVersion, previous: nat)
    requires Agrees(s)
    ensures ActivateProfile(sealed, s, v, previous).Some? <==>
              && ActiveProfile(s, v.profileId).Some?
              && var current := ActiveProfile(s, v.profileId).value;
              && sealed(v) && v.versionId !in s.versions
              && previous == current.versionId && v.supersedes == Some(current.versionId)
              && v.version == current.version + 1 && v.version <= U64_MAX
              && v.ns == current.ns && v.draft.provenance == current.draft.provenance
              && (forall p | Bears(s, p, v.nameKey) :: p == v.profileId)
    ensures ActivateProfile(sealed, s, v, previous).Some? ==>
              var t := ActivateProfile(sealed, s, v, previous).value;
              ActiveProfile(t, v.profileId) == Some(v) && forall p | p != v.profileId :: ActiveProfile(t, p) == ActiveProfile(s, p)
  {
    hide Chains, Indexed;
    NameIndexMeaning(s, v.nameKey);
    if v.nameKey in s.names { assert Bears(s, s.names[v.nameKey], v.nameKey); }
    if ActiveProfile(s, v.profileId).Some? { ActiveFits(s, v.profileId); }
  }

  // ---------- what can be prepared ----------

  /** A profile can be created from a draft with a canonical form, under a known template or
      none, whose name no active profile bears. */
  lemma CreatePreparedExactly(lib: Library, s: Profiles, draft: Draft, template: Option<nat>, drawn: Fresh)
    requires Agrees(s)
    ensures PrepareCreate(lib, s, draft, template, drawn).Ok? <==>
              && Canonicalize(lib.foldCase, draft).Ok?
              && draft.provenance == template && (template.Some? ==> lib.knownTemplate(template.value))
              && Unborne(lib, s, None, draft.displayName)
    ensures PrepareCreate(lib, s, draft, template, drawn).Ok? ==>
              && PrepareCreate(lib, s, draft, template, drawn).value.AgentProfileCreated?
              && var p := PrepareCreate(lib, s, draft, template, drawn).value.created;
              && p.profileId == drawn.profileId && p.versionId == drawn.versionId && p.ns == drawn.ns && p.createdAt == drawn.now
              && p.version == 1 && p.supersedes == None && Canonicalize(lib.foldCase, draft) == Ok(p.draft)
              && NamedAsShown(lib, p) && NameKey(lib.foldCase, draft.displayName) == Ok(p.nameKey)
              && p.nameKey !in s.names && Sealed(lib)(p)
  {
    hide Agrees, Canonicalize, NameKey, NameFree, CreateVersion, Unborne;
    NameFreeMeaning(lib, s, None, draft.displayName);
    CreatedVersionMeaning(lib.foldCase, lib.seal, drawn.profileId, drawn.versionId, drawn.ns, drawn.now, draft);
    assert draft.provenance == template ==> draft.(provenance := template) == draft;
    if Canonicalize(lib.foldCase, draft).Ok? { CanonicalizeIdempotent(lib.foldCase, draft); }
  }

  /** The checks of an activation, whatever the projection. */
  lemma ActivationMeaning(foldCase: string -> string, seal: ProfileVersion -> nat, base: Option<ProfileVersion>,
      active: Option<ProfileVersion>, expectedActive: nat, candidate: Draft, held: bool, nameFree: bool, versionId: nat, now: int)
    ensures var r := PrepareActivation(foldCase, seal, base, active, expectedActive, candidate, held, nameFree, versionId, now);
            && (r.Ok? <==>
                  && base.Some? && DiffProfile(foldCase, base.value.draft, candidate).Ok? && held
                  && active.Some? && active.value.versionId == expectedActive && nameFree && active.value.version < U64_MAX)
            && (r.Ok? ==>
                  && Canonicalize(foldCase, candidate).Ok?
                  && NextVersion(foldCase, seal, active.value, versionId, now, candidate) == Ok(r.value))
  {
    hide Canonicalize, NextVersion, Changes;
    if active.Some? { NextVersionMeaning(foldCase, seal, active.value, versionId, now, candidate); }
  }

  lemma ActivateChecks(lib: Library, s: Profiles, c: Command, reserved: bool, drawn: Fresh)
    requires c.ActivateAgentProfileVersion?
    ensures var r, base, active := PrepareActivate(lib, s, c, reserved, drawn), Base(s, c.expectedActive), ActiveProfile(s, c.profileId);
            && (r.Ok? <==>
                  && reserved && base.Some?
                  && ReviewDigest(lib, c.profileId, c.expectedActive, base.value.draft, c.candidate) == Ok(c.reviewDigest)
                  && active.Some? && active.value.versionId == c.expectedActive && active.value.version < U64_MAX
                  && NameFree(lib, s, Some(c.profileId), c.candidate.displayName))
            && (r.Ok? ==>
                  && r.value.AgentProfileVersionActivated? && r.value.previous == c.expectedActive
                  && Canonicalize(lib.foldCase, c.candidate).Ok?
                  && NextVersion(lib.foldCase, lib.seal, active.value, drawn.versionId, drawn.now, c.candidate) == Ok(r.value.activated))
  {
    hide PrepareActivation, DiffProfile, Canonicalize, NameFree, NextVersion, ActiveProfile, ReviewDigest, Base;
    var base, active := Base(s, c.expectedActive), ActiveProfile(s, c.profileId);
    var held := reserved && base.Some?
                && ReviewDigest(lib, c.profileId, c.expectedActive, base.value.draft, c.candidate) == Ok(c.reviewDigest);
    ActivationMeaning(lib.foldCase, lib.seal, base, active, c.expectedActive, c.candidate, held,
      NameFree(lib, s, Some(c.profileId), c.candidate.displayName), drawn.versionId, drawn.now);
    if base.Some? { DigestNeedsADiff(lib, c.profileId, c.expectedActive, base.value.draft, c.candidate); }
  }

  /** The fact activates the successor of the expected version that shows the candidate. */
  ghost predicate IsActivation(lib: Library, s: Profiles, c: Command, drawn: Fresh, fact: Fact)
    requires c.ActivateAgentProfileVersion?
  {
    && fact.AgentProfileVersionActivated? && fact.previous == c.expectedActive && c.expectedActive in s.versions
    && Canonicalize(lib.foldCase, c.candidate).Ok?
    && NextVersion(lib.foldCase, lib.seal, s.versions[c.expectedActive], drawn.versionId, drawn.now, c.candidate) == Ok(fact.activated)
  }

  /** A version can be activated by the review of exactly this change, against the version that
      is still active, under a name no other active profile bears. */
  lemma ActivatePreparedExactly(lib: Library, s: Profiles, c: Command, reserved: bool, drawn: Fresh)
    requires Agrees(s) && c.ActivateAgentProfileVersion?
    ensures var r := PrepareActivate(lib, s, c, reserved, drawn);
            && (r.Ok? <==>
                  && reserved && c.expectedActive in s.versions
                  && ReviewDigest(lib, c.profileId, c.expectedActive, s.versions[c.expectedActive].draft, c.candidate) == Ok(c.reviewDigest)
                  && ActiveProfile(s, c.profileId) == Some(s.versions[c.expectedActive]) && s.versions[c.expectedActive].version < U64_MAX
                  && Unborne(lib, s, Some(c.profileId), c.candidate.displayName))
            && forall fact | r == Ok(fact) :: IsActivation(lib, s, c, drawn, fact)
  {
    hide Agrees, PrepareActivate, Canonicalize, NameFree, NextVersion, Unborne, ActiveProfile, ReviewDigest;
    ActivateChecks(lib, s, c, reserved, drawn);
    NameFreeMeaning(lib, s, Some(c.profileId), c.candidate.displayName);
    ActiveIsStored(s, c.profileId, c.expectedActive);
  }

  lemma ActiveIsStored(s: Profiles, p: nat, versionId: nat)
    requires Agrees(s)
    ensures ActiveProfile(s, p).Some? && ActiveProfile(s, p).value.versionId == versionId ==>
              versionId in s.versions && s.versions[versionId] == ActiveProfile(s, p).value
    ensures versionId in s.versions ==> s.versions[versionId].versionId == versionId
  {
    hide NamesMatch, NamespacesMatch, Chains;
    if ActiveProfile(s, p).Some? { ActiveFits(s, p); }
  }

  lemma ActiveFits(s: Profiles, p: nat)
    requires Agrees(s) && ActiveProfile(s, p).Some?
    ensures p in s.active && s.versions[s.active[p]].versionId == s.active[p] && s.versions[s.active[p]].profileId == p
  {
    hide NamesMatch, NamespacesMatch, Chain;
    ActiveVersionFits(s, p);
  }

  lemma DigestNeedsADiff(lib: Library, profileId: nat, expectedActive: nat, base: Draft, candidate: Draft)
    ensures ReviewDigest(lib, profileId, expectedActive, base, candidate).Ok? ==> DiffProfile(lib.foldCase, base, candidate).Ok?
  {
    hide Canonicalize, DiffProfile;
  }

  /** A skill of the version that is still active can be changed as reviewed, to references that
      resolve, as `AssignmentMeaning` says. */
  lemma ChangePreparedExactly(lib: Library, s: Profiles, c: Command, found: Found, drawn: Fresh)
    requires Sound(lib, s) && c.ChangeAgentSkill?
    ensures PrepareChange(lib, s, c, found, drawn).Ok? <==>
              && found.reserved && c.skillExpected in s.versions
              && ActiveProfile(s, c.skillProfile) == Some(s.versions[c.skillExpected]) && s.versions[c.skillExpected].version < U64_MAX
              && ValidateAssignment(lib.foldCase, found.stored, s.versions[c.skillExpected].draft, c.operation).Ok?
  {
    hide Agrees, Canonicalize, NextVersion, ActiveProfile, ValidateAssignment, NameKey;
    ActiveIsStored(s, c.skillProfile, c.skillExpected);
    if ActiveProfile(s, c.skillProfile).Some? && c.skillExpected in s.versions
       && ValidateAssignment(lib.foldCase, found.stored, s.versions[c.skillExpected].draft, c.operation).Ok? {
      var current := s.versions[c.skillExpected];
      assert NamedAsShown(lib, current);
      AssignmentMeaning(lib.foldCase, found.stored, current.draft, c.operation);
      NextVersionMeaning(lib.foldCase, lib.seal, current, drawn.versionId, drawn.now,
        ValidateAssignment(lib.foldCase, found.stored, current.draft, c.operation).value);
    }
  }

  // ---------- what is prepared is accepted ----------

  /** The identifiers drawn for a new profile or version are not in use. */
  predicate FreshFor(s: Profiles, c: Command, drawn: Fresh) {
    match c
    case CreateAgentProfile(_, _) =>
      drawn.versionId !in s.versions && drawn.profileId !in s.index && drawn.ns !in s.namespaces
    case ActivateAgentProfileVersion(_, _, _, _, _) => drawn.versionId !in s.versions
    case ChangeAgentSkill(_, _, _, _, _) => drawn.versionId !in s.versions
    case _ => true
  }

  /** What makes a successor acceptable. */
  lemma SuccessorIsAccepted(lib: Library, s: Profiles, p: nat, versionId: nat, now: int, candidate: Draft, v: ProfileVersion)
    requires Agrees(s) && ActiveProfile(s, p).Some?
    requires NextVersion(lib.foldCase, lib.seal, ActiveProfile(s, p).value, versionId, now, candidate) == Ok(v)
    requires v.nameKey in s.names ==> s.names[v.nameKey] == p
    ensures ActivateProfile(Sealed(lib), s, v, ActiveProfile(s, p).value.versionId).Some? <==> versionId !in s.versions
  {
    hide Canonicalize, NameKey, Chains, Indexed, NextVersion;
    ActiveFits(s, p);
    NextVersionMeaning(lib.foldCase, lib.seal, ActiveProfile(s, p).value, versionId, now, candidate);
  }

  lemma CreatedIsAccepted(lib: Library, s: Profiles, v: ProfileVersion)
    requires Agrees(s) && Sealed(lib)(v) && v.version == 1 && v.supersedes == None && v.nameKey !in s.names
    ensures CreateProfile(Sealed(lib), s, v).Some? <==>
              v.versionId !in s.versions && v.profileId !in s.index && v.ns !in s.namespaces
  {
    hide Chains, Indexed, NamesMatch, NamespacesMatch;
  }

  /** Whatever is prepared the projection takes, exactly when the identifiers drawn are new:
      it never refuses a name the command found free. */
  lemma PreparedIsAccepted(lib: Library, s: Profiles, c: Command, found: Found, drawn: Fresh)
    requires Sound(lib, s) && Prepare(lib, s, c, found, drawn).Ok?
    ensures ApplyFact(lib, s, Prepare(lib, s, c, found, drawn).value).Some? <==> FreshFor(s, c, drawn)
  {
    hide Agrees, PrepareCreate, PrepareActivate, PrepareChange, CreateProfile, ActivateProfile, Canonicalize, NextVersion, NameKey, Told,
      Unborne, ReviewDigest, ActiveProfile, DiffProfile, NamedAsShown;
    match c {
      case CreateAgentProfile(draft, template) =>
        CreatePreparedExactly(lib, s, draft, template, drawn);
        CreatedIsAccepted(lib, s, PrepareCreate(lib, s, draft, template, drawn).value.created);
      case ActivateAgentProfileVersion(_, _, _, _, _) => ActivationIsAccepted(lib, s, c, found.reserved, drawn);
      case ChangeAgentSkill(_, _, _, _, _) => ChangeIsAccepted(lib, s, c, found, drawn);
      case _ =>
    }
  }

  lemma ActivationIsAccepted(lib: Library, s: Profiles, c: Command, reserved: bool, drawn: Fresh)
    requires Agrees(s) && c.ActivateAgentProfileVersion? && PrepareActivate(lib, s, c, reserved, drawn).Ok?
    ensures PrepareActivate(lib, s, c, reserved, drawn).value.AgentProfileVersionActivated?
    ensures var fact := PrepareActivate(lib, s, c, reserved, drawn).value;
            ActivateProfile(Sealed(lib), s, fact.activated, fact.previous).Some? <==> drawn.versionId !in s.versions
  {
    hide Agrees, PrepareActivate, ActivateProfile, Canonicalize, NextVersion, NameKey, Unborne, ReviewDigest, ActiveProfile;
    ActivatePreparedExactly(lib, s, c, reserved, drawn);
    assert IsActivation(lib, s, c, drawn, PrepareActivate(lib, s, c, reserved, drawn).value);
    var p := PrepareActivate(lib, s, c, reserved, drawn).value.activated;
    NextVersionMeaning(lib.foldCase, lib.seal, s.versions[c.expectedActive], drawn.versionId, drawn.now, c.candidate);
    UnborneIsFree(lib, s, c.profileId, c.candidate.displayName);
    ActiveIsStored(s, c.profileId, c.expectedActive);
    SuccessorIsAccepted(lib, s, c.profileId, drawn.versionId, drawn.now, c.candidate, p);
  }

  lemma UnborneIsFree(lib: Library, s: Profiles, p: nat, name: string)
    requires Agrees(s) && Unborne(lib, s, Some(p), name)
    ensures var key := NameKey(lib.foldCase, name).value; key in s.names ==> s.names[key] == p
  {
    hide Agrees, NameKey, Bears;
    var key := NameKey(lib.foldCase, name).value;
    NameIndexMeaning(s, key);
    if key in s.names { assert Bears(s, s.names[key], key); }
  }

  lemma ChangeIsAccepted(lib: Library, s: Profiles, c: Command, found: Found, drawn: Fresh)
    requires Sound(lib, s) && c.ChangeAgentSkill? && PrepareChange(lib, s, c, found, drawn).Ok?
    ensures PrepareChange(lib, s, c, found, drawn).value.AgentSkillChanged?
    ensures var fact := PrepareChange(lib, s, c, found, drawn).value;
            ActivateProfile(Sealed(lib), s, fact.changed, fact.changedFrom).Some? <==> drawn.versionId !in s.versions
  {
    hide Agrees, PrepareChange, ActivateProfile, Canonicalize, NextVersion, NameKey, ActiveProfile, DiffProfile;
    PreparedAssignment(lib, s, c, found, drawn);
    var p, base := PrepareChange(lib, s, c, found, drawn).value.changed, s.versions[c.skillExpected];
    var candidate :| NextVersion(lib.foldCase, lib.seal, base, drawn.versionId, drawn.now, candidate) == Ok(p);
    assert NamedAsShown(lib, base) && NamedAsShown(lib, p) && p.nameKey == base.nameKey;
    OwnNameIsIndexed(s, c.skillProfile);
    ActiveIsStored(s, c.skillProfile, c.skillExpected);
    SuccessorIsAccepted(lib, s, c.skillProfile, drawn.versionId, drawn.now, candidate, p);
  }

  lemma OwnNameIsIndexed(s: Profiles, p: nat)
    requires Agrees(s) && ActiveProfile(s, p).Some?
    ensures var key := ActiveProfile(s, p).value.nameKey; key in s.names && s.names[key] == p
  {
    hide Chains, Indexed, Newest, NamespacesMatch;
  }
}
