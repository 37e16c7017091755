/** Which skill versions the projection takes (src/skills/projection.rs), and what it then says:
    names and active skills correspond in every history. */
module SkillNames {
  import opened Prelude
  import opened SkillsProjection

  function ActiveSkill(s: Skills, skillId: nat): Option<SkillVersion> {
    if skillId in s.active && s.active[skillId] in s.versions then Some(s.versions[s.active[skillId]]) else None
  }

  /** The active version of a skill bears the name. */
  ghost predicate Bears(s: Skills, skillId: nat, name: string) {
    ActiveSkill(s, skillId).Some? && ActiveSkill(s, skillId).value.name == name
  }

  /** Versions are stored under their ids, and the name index finds exactly the skill whose active
      version bears the name. */
  ghost predicate Named(s: Skills) {
    && (forall id | id in s.versions :: s.versions[id].versionId == id)
    && (forall skillId | skillId in s.active ::
          ActiveSkill(s, skillId).Some? && ActiveSkill(s, skillId).value.skillId == skillId
          && ActiveSkill(s, skillId).value.name in s.names && s.names[ActiveSkill(s, skillId).value.name] == skillId)
    && (forall name | name in s.names :: s.names[name] in s.active && Bears(s, s.names[name], name))
  }

  lemma NothingIsNamed()
    ensures Named(NO_SKILLS)
  {}

  lemma InsertAccepts(sealed: Seal, s: Skills, k: SkillVersion)
    requires Keyed(s) && Named(s)
    ensures InsertSkill(sealed, s, k).Ok? <==>
              && sealed(k) && k.version == 1 && k.predecessor == None
              && k.versionId !in s.versions && ActiveSkill(s, k.skillId) == None && (forall id :: !Bears(s, id, k.name))
  {
    hide Keyed;
    KeyedSkills(s, k.skillId);
    if k.name in s.names { assert Bears(s, s.names[k.name], k.name); }
  }

  lemma KeyedSkills(s: Skills, skillId: nat)
    requires Keyed(s)
    ensures skillId in s.active <==> skillId in s.index
    ensures skillId in s.active <==> ActiveSkill(s, skillId).Some?
  {}

  lemma InsertNames(sealed: Seal, s: Skills, k: SkillVersion)
    requires Named(s) && InsertSkill(sealed, s, k).Ok?
    ensures Named(InsertSkill(sealed, s, k).value)
    ensures var t := InsertSkill(sealed, s, k).value;
            ActiveSkill(t, k.skillId) == Some(k) && forall id | id != k.skillId && id in s.active :: ActiveSkill(t, id) == ActiveSkill(s, id)
  {}

  /** A skill is inserted exactly when it is a sealed first version under new ids and a name no
      active skill bears; it is then the active one, and no other skill changes. */
  lemma InsertSucceedsExactly(sealed: Seal, s: Skills, k: SkillVersion)
    requires Keyed(s) && Named(s)
    ensures InsertSkill(sealed, s, k).Ok? <==>
              && sealed(k) && k.version == 1 && k.predecessor == None
              && k.versionId !in s.versions && ActiveSkill(s, k.skillId) == None && (forall id :: !Bears(s, id, k.name))
    ensures InsertSkill(sealed, s, k).Ok? ==>
              var t := InsertSkill(sealed, s, k).value;
              && Named(t) && Keyed(t) && ActiveSkill(t, k.skillId) == Some(k)
              && (forall id | id != k.skillId :: ActiveSkill(t, id) == ActiveSkill(s, id))
  {
    hide Keyed, Named, Bears;
    InsertAccepts(sealed, s, k);
    if InsertSkill(sealed, s, k).Ok? {
      InsertKeepsKeyed(sealed, s, k);
      InsertNames(sealed, s, k);
    }
  }

  lemma ActivateAccepts(sealed: Seal, s: Skills, k: SkillVersion, previous: nat)
    requires Keyed(s) && Named(s)
    ensures ActivateSkill(sealed, s, k, previous).Ok? <==>
              && ActiveSkill(s, k.skillId).Some?
              && var current := ActiveSkill(s, k.skillId).value;
              && sealed(k) && k.versionId !in s.versions
              && k.version == current.version + 1 && k.version <= U64_MAX
              && previous == current.versionId && k.predecessor == Some(current.versionId)
              && (forall id | Bears(s, id, k.name) :: id == k.skillId)
  {
    hide Keyed;
    KeyedSkills(s, k.skillId);
    if k.name in s.names { assert Bears(s, s.names[k.name], k.name); }
  }

  lemma ActivateNames(sealed: Seal, s: Skills, k: SkillVersion, previous: nat)
    requires Named(s) && ActivateSkill(sealed, s, k, previous).Ok?
    ensures Named(ActivateSkill(sealed, s, k, previous).value)
    ensures var t := ActivateSkill(sealed, s, k, previous).value;
            ActiveSkill(t, k.skillId) == Some(k) && forall id | id != k.skillId && id in s.active :: ActiveSkill(t, id) == ActiveSkill(s, id)
  {}

  /** A version is activated exactly when it is the sealed successor of its skill's active version,
      reviewed against that one, under a new id and a name no other active skill bears. */
  lemma ActivateSucceedsExactly(sealed: Seal, s: Skills, k: SkillVersion, previous: nat)
    requires Keyed(s) && Named(s)
    ensures ActivateSkill(sealed, s, k, previous).Ok? <==>
              && ActiveSkill(s, k.skillId).Some?
              && var current := ActiveSkill(s, k.skillId).value;
              && sealed(k) && k.versionId !in s.versions
              && k.version == current.version + 1 && k.version <= U64_MAX
              && previous == current.versionId && k.predecessor == Some(current.versionId)
              && (forall id | Bears(s, id, k.name) :: id == k.skillId)
    ensures ActivateSkill(sealed, s, k, previous).Ok? ==>
              var t := ActivateSkill(sealed, s, k, previous).value;
              && Named(t) && Keyed(t) && ActiveSkill(t, k.skillId) == Some(k)
              && (forall id | id != k.skillId :: ActiveSkill(t, id) == ActiveSkill(s, id))
  {
    hide Keyed, Named, Bears;
    ActivateAccepts(sealed, s, k, previous);
    if ActivateSkill(sealed, s, k, previous).Ok? {
      ActivateKeepsKeyed(sealed, s, k, previous);
      ActivateNames(sealed, s, k, previous);
    }
  }

  lemma {:induction false} RunKeepsNames(sealed: Seal, s: Skills, events: seq<SkillEvent>)
    requires Keyed(s) && Named(s)
    ensures Named(Run(sealed, s, events)) && Keyed(Run(sealed, s, events))
    decreases |events|
  {
    hide Keyed, Named, InsertSkill, ActivateSkill;
    if events != [] {
      match events[0] {
        case Inserted(k) => if InsertSkill(sealed, s, k).Ok? { InsertSucceedsExactly(sealed, s, k); }
        case Activated(k, previous) => if ActivateSkill(sealed, s, k, previous).Ok? { ActivateSucceedsExactly(sealed, s, k, previous); }
      }
      RunKeepsNames(sealed, Step(sealed, s, events[0]), events[1..]);
    }
  }

  /** In every history the active skills and the names correspond one to one. */
  lemma HistoriesAreNamed(sealed: Seal, events: seq<SkillEvent>, name: string)
    ensures var s := Run(sealed, NO_SKILLS, events);
            && Named(s)
            && (forall skillId | Bears(s, skillId, name) :: name in s.names && s.names[name] == skillId)
            && (name in s.names ==> Bears(s, s.names[name], name))
  {
    hide Keyed, Run;
    NothingIsNamed();
    NoSkillsKeyed();
    RunKeepsNames(sealed, NO_SKILLS, events);
  }
}
