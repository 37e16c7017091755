/** The one-use review of a profile change: `ProfileReviewRegistry` and
    `ProfileReviewOperation` of src/agents/review.rs, and how `execute_locked` of
    src/app/service.rs uses them.  Unlike the memory guard, dropping this guard does not
    release a reservation. */
module ProfileReviews {
  import opened Prelude

  datatype Review = Review(token: nat, profileId: nat, expectedActive: nat, candidateDigest: nat, reviewDigest: nat)
  datatype ReviewState = Available(offered: Review) | Reserved(commandId: nat, kept: Review)
  type Slot = Option<ReviewState>

  datatype ReservationError = Unavailable | Mismatch

  // ---------- the slot ----------

  function ReviewOf(state: ReviewState): Review {
    match state case Available(review) => review case Reserved(_, review) => review
  }

  predicate IsReserved(slot: Slot) { slot.Some? && slot.value.Reserved? }

  /** The token is compared first, then everything the review covers. */
  function Reserve(slot: Slot, commandId: nat, supplied: Review): Result<Slot, ReservationError> {
    if slot.None? || slot.value.Reserved? || slot.value.offered.token != supplied.token then Err(Unavailable)
    else if slot.value.offered != supplied then Err(Mismatch)
    else Ok(Some(Reserved(commandId, slot.value.offered)))
  }

  /** A reservation takes exactly the waiting review that covers the same; one that is waiting under
      the token but covers something else is a mismatch. */
  lemma ReserveMeaning(slot: Slot, commandId: nat, supplied: Review)
    ensures var r := Reserve(slot, commandId, supplied);
            && (r.Ok? <==> slot == Some(Available(supplied)))
            && (r.Ok? ==> r.value == Some(Reserved(commandId, supplied)))
            && (r == Err(Mismatch) <==> exists other :: slot == Some(Available(other)) && other.token == supplied.token && other != supplied)
  {
    if slot.Some? && slot.value.Available? { assert slot == Some(Available(slot.value.offered)); }
  }

  predicate ReservedBy(slot: Slot, commandId: nat) { IsReserved(slot) && slot.value.commandId == commandId }

  function Release(slot: Slot, commandId: nat): Slot {
    if ReservedBy(slot, commandId) then Some(Available(slot.value.kept)) else slot
  }

  function Consume(slot: Slot, commandId: nat): Slot {
    if ReservedBy(slot, commandId) then None else slot
  }

  // ---------- the protocol ----------

  /** An owner of the operation lock remembers the command it reserved for, as the service does. */
  datatype Thread = Idle | Waiting | Owner(reservedFor: Option<nat>)

  datatype Registry = Registry(slot: Slot, lock: Option<nat>, threads: map<nat, Thread>, nextToken: nat, consumed: seq<nat>)

  datatype Action =
    | Ask
    | Lock
    | ReplaceReview(profileId: nat, expectedActive: nat, candidateDigest: nat, reviewDigest: nat)
    | ReserveReview(commandId: nat, supplied: Review)
    | ReleaseReview(releaser: nat)
    | ConsumeReview(consumer: nat)
    | CancelReview
    | DropGuard

  function At(s: Registry, t: nat): Thread { if t in s.threads then s.threads[t] else Idle }

  function Goto(s: Registry, t: nat, at: Thread): Registry { s.(threads := s.threads[t := at]) }

  /** One step of one thread; an owner may call the registry in any order before it lets go. */
  function Step(s: Registry, t: nat, a: Action): Option<Registry> {
    match (At(s, t), a)
    case (Idle, Ask) => Some(Goto(s, t, Waiting))
    case (Waiting, Lock) => if s.lock.Some? then None else Some(Goto(s.(lock := Some(t)), t, Owner(None)))
    case (Owner(_), ReplaceReview(p, v, c, r)) =>
      Some(s.(slot := Some(Available(Review(s.nextToken, p, v, c, r))), nextToken := s.nextToken + 1))
    case (Owner(_), ReserveReview(commandId, supplied)) =>
      (match Reserve(s.slot, commandId, supplied)
       case Ok(slot) => Some(Goto(s.(slot := slot), t, Owner(Some(commandId))))
       case Err(_) => Some(s))
    case (Owner(_), ReleaseReview(commandId)) => Some(Goto(s.(slot := Release(s.slot, commandId)), t, Owner(None)))
    case (Owner(_), ConsumeReview(commandId)) =>
      var consumed := if ReservedBy(s.slot, commandId) then s.consumed + [s.slot.value.kept.token] else s.consumed;
      Some(Goto(s.(slot := Consume(s.slot, commandId), consumed := consumed), t, Owner(None)))
    case (Owner(_), CancelReview) => Some(s.(slot := None))
    case (Owner(_), DropGuard) => Some(Goto(s.(lock := None), t, Idle))
    case _ => None
  }

  function After(s: Registry, step: (nat, Action)): Registry {
    match Step(s, step.0, step.1) case Some(next) => next case None => s
  }

  function Run(s: Registry, steps: seq<(nat, Action)>): Registry
    decreases |steps|
  {
    if steps == [] then s else Run(After(s, steps[0]), steps[1..])
  }

  const START := Registry(None, None, map[], 0, [])

  lemma {:induction false} RunSplit(s: Registry, steps: seq<(nat, Action)>, k: nat)
    requires k <= |steps|
    ensures Run(s, steps) == Run(Run(s, steps[..k]), steps[k..])
    decreases k
  {
    hide After;
    if k > 0 {
      assert steps[..k][0] == steps[0] && steps[..k][1..] == steps[1..][..k - 1] && steps[1..][k - 1..] == steps[k..];
      RunSplit(After(s, steps[0]), steps[1..], k - 1);
    } else {
      assert steps[k..] == steps;
    }
  }

  lemma RunNext(s: Registry, steps: seq<(nat, Action)>, k: nat)
    requires k < |steps|
    ensures Run(s, steps[..k + 1]) == After(Run(s, steps[..k]), steps[k])
  {
    hide After;
    RunSplit(s, steps[..k + 1], k);
    var last: seq<(nat, Action)> := [steps[k]];
    assert steps[..k + 1][..k] == steps[..k] && steps[..k + 1][k..] == last;
    assert last[1..] == [];
  }

  // ---------- reserved while nobody owns the lock ----------

  /** A reservation implies that someone owns the operation lock. */
  predicate Guarded(s: Registry) { IsReserved(s.slot) ==> s.lock.Some? }

  /** The guard is dropped while the review is still reserved. */
  predicate Abandons(s: Registry, step: (nat, Action)) {
    At(s, step.0).Owner? && step.1.DropGuard? && IsReserved(s.slot)
  }

  ghost predicate Exclusive(s: Registry) {
    forall t: nat :: At(s, t).Owner? <==> s.lock == Some(t)
  }

  lemma StepKeepsExclusion(s: Registry, step: (nat, Action))
    requires Exclusive(s)
    ensures Exclusive(After(s, step))
  {
    var next := After(s, step);
    assert At(s, step.0).Owner? <==> s.lock == Some(step.0);
    forall u: nat ensures At(next, u).Owner? <==> next.lock == Some(u) {
      assert u != step.0 ==> At(next, u) == At(s, u);
      assert At(s, u).Owner? <==> s.lock == Some(u);
    }
  }

  /** From a guarded state, the next state is guarded exactly when the step does not abandon. */
  lemma StepGuards(s: Registry, step: (nat, Action))
    requires Exclusive(s) && Guarded(s)
    ensures Guarded(After(s, step)) <==> !Abandons(s, step)
  {
    assert At(s, step.0).Owner? <==> s.lock == Some(step.0);
  }

  lemma {:induction false} ExclusiveAlong(steps: seq<(nat, Action)>, k: nat)
    requires k <= |steps|
    ensures Exclusive(Run(START, steps[..k]))
  {
    hide After;
    if k > 0 {
      ExclusiveAlong(steps, k - 1);
      RunNext(START, steps, k - 1);
      StepKeepsExclusion(Run(START, steps[..k - 1]), steps[k - 1]);
    } else {
      assert steps[..0] == [];
    }
  }

  /** Reserved implies owned in every state of a run exactly when no step of the run drops
      its guard while the review is reserved. */
  lemma GuardedExactly(steps: seq<(nat, Action)>)
    ensures (forall k | 0 <= k <= |steps| :: Guarded(Run(START, steps[..k])))
            <==> forall k | 0 <= k < |steps| :: !Abandons(Run(START, steps[..k]), steps[k])
  {
    hide Guarded, Abandons, After, Run;
    if forall k | 0 <= k <= |steps| :: Guarded(Run(START, steps[..k])) {
      forall k | 0 <= k < |steps| ensures !Abandons(Run(START, steps[..k]), steps[k]) {
        ExclusiveAlong(steps, k);
        RunNext(START, steps, k);
        assert Guarded(Run(START, steps[..k])) && Guarded(Run(START, steps[..k + 1]));
        StepGuards(Run(START, steps[..k]), steps[k]);
      }
    }
    if forall k | 0 <= k < |steps| :: !Abandons(Run(START, steps[..k]), steps[k]) {
      forall k | 0 <= k <= |steps| ensures Guarded(Run(START, steps[..k])) { GuardedUpTo(steps, k); }
    }
  }

  lemma {:induction false} GuardedUpTo(steps: seq<(nat, Action)>, k: nat)
    requires k <= |steps| && forall j | 0 <= j < k :: !Abandons(Run(START, steps[..j]), steps[j])
    ensures Guarded(Run(START, steps[..k]))
  {
    hide After, Abandons;
    if k > 0 {
      GuardedUpTo(steps, k - 1);
      ExclusiveAlong(steps, k - 1);
      RunNext(START, steps, k - 1);
      StepGuards(Run(START, steps[..k - 1]), steps[k - 1]);
    } else {
      assert steps[..0] == [];
    }
  }

  /** It does fail: an owner that reserves and lets go leaves the review reserved by nobody,
      and from then on the same review can not be reserved. */
  lemma AbandonedReservation(commandId: nat, other: nat, p: nat, v: nat, c: nat, r: nat)
    ensures var s := Run(START, [(0, Ask), (0, Lock), (0, ReplaceReview(p, v, c, r)),
                                 (0, ReserveReview(commandId, Review(0, p, v, c, r))), (0, DropGuard)]);
            && IsReserved(s.slot) && s.lock == None
            && Reserve(s.slot, other, Review(0, p, v, c, r)) == Err(Unavailable)
  {
    var review := Review(0, p, v, c, r);
    var s1 := After(START, (0, Ask));
    var s2 := After(s1, (0, Lock));
    var s3 := After(s2, (0, ReplaceReview(p, v, c, r)));
    var s4 := After(s3, (0, ReserveReview(commandId, review)));
    var s5 := After(s4, (0, DropGuard));
    assert s4.slot == Some(Reserved(commandId, review));
    hide After;
    var steps := [(0, Ask), (0, Lock), (0, ReplaceReview(p, v, c, r)), (0, ReserveReview(commandId, review)), (0, DropGuard)];
    calc {
      Run(START, steps);
      { assert steps[1..] == [(0, Lock), (0, ReplaceReview(p, v, c, r)), (0, ReserveReview(commandId, review)), (0, DropGuard)]; }
      Run(s1, [(0, Lock), (0, ReplaceReview(p, v, c, r)), (0, ReserveReview(commandId, review)), (0, DropGuard)]);
      Run(s2, [(0, ReplaceReview(p, v, c, r)), (0, ReserveReview(commandId, review)), (0, DropGuard)]);
      Run(s3, [(0, ReserveReview(commandId, review)), (0, DropGuard)]);
      Run(s4, [(0, DropGuard)]);
      s5;
    }
  }

  // ---------- the service's discipline ----------

  /** What the service does under the guard: it replaces, cancels, reserves or lets go only
      without a reservation of its own, and ends its reservation under its own command. */
  predicate Polite(s: Registry, step: (nat, Action)) {
    match (At(s, step.0), step.1)
    case (Owner(reserved), ReplaceReview(_, _, _, _)) => reserved.None?
    case (Owner(reserved), ReserveReview(_, _)) => reserved.None?
    case (Owner(reserved), ReleaseReview(commandId)) => reserved == Some(commandId)
    case (Owner(reserved), ConsumeReview(commandId)) => reserved == Some(commandId)
    case (Owner(reserved), CancelReview) => reserved.None?
    case (Owner(reserved), DropGuard) => reserved.None?
    case _ => true
  }

  ghost predicate PoliteRun(steps: seq<(nat, Action)>) {
    forall k | 0 <= k < |steps| :: Polite(Run(START, steps[..k]), steps[k])
  }

  /** The slot is reserved exactly for the command the lock's owner remembers. */
  predicate OwnerMatchesSlot(s: Registry) {
    (if s.lock.Some? && At(s, s.lock.value).Owner? then At(s, s.lock.value).reservedFor else None)
    == (if IsReserved(s.slot) then Some(s.slot.value.commandId) else None)
  }

  lemma PoliteStepMatches(s: Registry, step: (nat, Action))
    requires Exclusive(s) && OwnerMatchesSlot(s) && Polite(s, step)
    ensures OwnerMatchesSlot(After(s, step)) && !Abandons(s, step)
    ensures At(s, step.0).Owner? && (step.1.ReplaceReview? || step.1.CancelReview?) ==> !IsReserved(s.slot)
    ensures At(s, step.0).Owner? && step.1.ReleaseReview? ==>
              IsReserved(s.slot) && After(s, step).slot == Some(Available(s.slot.value.kept))
    ensures At(s, step.0).Owner? && step.1.ConsumeReview? ==> IsReserved(s.slot) && After(s, step).slot == None
  {
    assert At(s, step.0).Owner? <==> s.lock == Some(step.0);
  }

  lemma {:induction false} PoliteMatches(steps: seq<(nat, Action)>, k: nat)
    requires k <= |steps| && PoliteRun(steps)
    ensures OwnerMatchesSlot(Run(START, steps[..k]))
  {
    hide After, Polite, OwnerMatchesSlot;
    if k > 0 {
      PoliteMatches(steps, k - 1);
      ExclusiveAlong(steps, k - 1);
      RunNext(START, steps, k - 1);
      PoliteStepMatches(Run(START, steps[..k - 1]), steps[k - 1]);
    } else {
      assert steps[..0] == [];
      StartMatches();
    }
  }

  lemma StartMatches()
    ensures OwnerMatchesSlot(START)
  {}

  /** Under the discipline, in every interleaving: reserved implies owned; replacing and
      cancelling never meet a reserved review; a release always makes the review available
      again and a consumption always takes it out. */
  lemma PoliteRunsAreSafe(steps: seq<(nat, Action)>, k: nat)
    requires PoliteRun(steps) && k < |steps|
    ensures var s, step := Run(START, steps[..k]), steps[k];
            && Guarded(s) && Guarded(After(s, step))
            && (At(s, step.0).Owner? && (step.1.ReplaceReview? || step.1.CancelReview?) ==> !IsReserved(s.slot))
            && (At(s, step.0).Owner? && step.1.ReleaseReview? ==>
                  IsReserved(s.slot) && After(s, step).slot == Some(Available(s.slot.value.kept)))
            && (At(s, step.0).Owner? && step.1.ConsumeReview? ==> IsReserved(s.slot) && After(s, step).slot == None)
  {
    hide After, Polite;
    var s := Run(START, steps[..k]);
    PoliteMatches(steps, k);
    ExclusiveAlong(steps, k);
    PoliteStepMatches(s, steps[k]);
    StepGuards(s, steps[k]);
  }

  ghost predicate PoliteFrom(s: Registry, steps: seq<(nat, Action)>)
    decreases |steps|
  {
    steps == [] || (Polite(s, steps[0]) && PoliteFrom(After(s, steps[0]), steps[1..]))
  }

  /** One guarded use of a review by a command that does or does not commit. */
  function GuardedUse(s: Registry, t: nat, commandId: nat, wanted: Review, committed: bool): seq<(nat, Action)> {
    [(t, Ask), (t, Lock), (t, ReserveReview(commandId, wanted))]
    + (if Reserve(s.slot, commandId, wanted).Err? then []
       else if committed then [(t, ConsumeReview(commandId))] else [(t, ReleaseReview(commandId))])
    + [(t, DropGuard)]
  }

  lemma RunOne(s: Registry, step: (nat, Action), rest: seq<(nat, Action)>)
    ensures Run(s, [step] + rest) == Run(After(s, step), rest)
    ensures PoliteFrom(s, [step] + rest) <==> Polite(s, step) && PoliteFrom(After(s, step), rest)
  {
    hide After, Polite;
    assert ([step] + rest)[0] == step && ([step] + rest)[1..] == rest;
  }

  /** It is polite, gives the lock back, and leaves the slot consumed, released or as it was. */
  lemma GuardedUseMeaning(s: Registry, t: nat, commandId: nat, wanted: Review, committed: bool)
    requires s.lock == None && At(s, t) == Idle
    ensures var steps := GuardedUse(s, t, commandId, wanted, committed);
            && PoliteFrom(s, steps) && Run(s, steps).lock == None
            && Run(s, steps).slot == match Reserve(s.slot, commandId, wanted)
                                     case Err(_) => s.slot
                                     case Ok(slot) => if committed then Consume(slot, commandId) else Release(slot, commandId)
  {
    var asked := After(s, (t, Ask));
    var locked := After(asked, (t, Lock));
    var reserve := (t, ReserveReview(commandId, wanted));
    var reserved := After(locked, reserve);
    assert At(locked, t) == Owner(None) && locked.slot == s.slot;
    var none: seq<(nat, Action)> := [];
    if Reserve(s.slot, commandId, wanted).Err? {
      var drop := [(t, DropGuard)];
      assert reserved == locked;
      assert GuardedUse(s, t, commandId, wanted, committed) == [(t, Ask)] + ([(t, Lock)] + ([reserve] + drop));
      RunOne(s, (t, Ask), [(t, Lock)] + ([reserve] + drop));
      RunOne(asked, (t, Lock), [reserve] + drop);
      RunOne(locked, reserve, drop);
      assert drop == [(t, DropGuard)] + none;
      RunOne(reserved, (t, DropGuard), none);
    } else {
      var use := if committed then (t, ConsumeReview(commandId)) else (t, ReleaseReview(commandId));
      var used := After(reserved, use);
      var drop := [use] + [(t, DropGuard)];
      assert At(reserved, t) == Owner(Some(commandId)) && At(used, t) == Owner(None);
      assert GuardedUse(s, t, commandId, wanted, committed) == [(t, Ask)] + ([(t, Lock)] + ([reserve] + drop));
      RunOne(s, (t, Ask), [(t, Lock)] + ([reserve] + drop));
      RunOne(asked, (t, Lock), [reserve] + drop);
      RunOne(locked, reserve, drop);
      RunOne(reserved, use, [(t, DropGuard)]);
      assert [(t, DropGuard)] == [(t, DropGuard)] + none;
      RunOne(used, (t, DropGuard), none);
    }
  }

  // ---------- tokens ----------

  ghost predicate TokensSound(s: Registry) {
    && (s.slot.Some? ==> ReviewOf(s.slot.value).token < s.nextToken && ReviewOf(s.slot.value).token !in s.consumed)
    && (forall token | token in s.consumed :: token < s.nextToken)
    && Distinct(s.consumed)
  }

  lemma StepKeepsTokens(s: Registry, step: (nat, Action))
    requires TokensSound(s)
    ensures TokensSound(After(s, step))
  {}

  /** Even without the discipline, no token is consumed twice. */
  lemma {:induction false} TokensAreConsumedOnce(s: Registry, steps: seq<(nat, Action)>)
    requires TokensSound(s)
    ensures TokensSound(Run(s, steps)) && Distinct(Run(s, steps).consumed)
    decreases |steps|
  {
    hide After;
    if steps != [] {
      StepKeepsTokens(s, steps[0]);
      TokensAreConsumedOnce(After(s, steps[0]), steps[1..]);
    }
  }

  // ---------- the registry as an object ----------

  class ProfileReviewRegistry {
    var held: bool
    var slot: Slot

    constructor ()
      ensures !held && slot == None
    {
      held, slot := false, None;
    }

    method Operation() returns (operation: ProfileReviewOperation)
      requires !held
      modifies this`held
      ensures held && fresh(operation) && operation.registry == this
    {
      held := true;
      operation := new ProfileReviewOperation(this);
    }
  }

  class ProfileReviewOperation {
    const registry: ProfileReviewRegistry

    constructor (registry: ProfileReviewRegistry)
      ensures this.registry == registry
    {
      this.registry := registry;
    }

    method Replace(review: Review)
      modifies registry`slot
      ensures registry.slot == Some(Available(review))
    {
      registry.slot := Some(Available(review));
    }

    /** The state is taken out and put back in every branch. */
    method TryReserve(commandId: nat, supplied: Review) returns (r: Result<(), ReservationError>)
      modifies registry`slot
      ensures var after := Reserve(old(registry.slot), commandId, supplied);
              && (r.Ok? <==> after.Ok?) && (r.Err? ==> after == Err(r.error))
              && registry.slot == if after.Ok? then after.value else old(registry.slot)
      ensures r.Ok? <==> old(registry.slot) == Some(Available(supplied))
      ensures r.Ok? ==> registry.slot == Some(Reserved(commandId, supplied))
    {
      ReserveMeaning(registry.slot, commandId, supplied);
      var taken := registry.slot;
      registry.slot := None;
      if taken.None? { return Err(Unavailable); }
      match taken.value {
        case Available(review) =>
          if review.token != supplied.token {
            registry.slot := Some(Available(review));
            return Err(Unavailable);
          }
          if review.profileId != supplied.profileId || review.expectedActive != supplied.expectedActive
             || review.candidateDigest != supplied.candidateDigest || review.reviewDigest != supplied.reviewDigest {
            registry.slot := Some(Available(review));
            return Err(Mismatch);
          }
          registry.slot := Some(Reserved(commandId, review));
          return Ok(());
        case Reserved(owner, review) =>
          registry.slot := Some(Reserved(owner, review));
          return Err(Unavailable);
      }
    }

    method GiveBack(commandId: nat)
      modifies registry`slot
      ensures registry.slot == Release(old(registry.slot), commandId)
    {
      var taken := registry.slot;
      registry.slot := None;
      registry.slot := if taken.Some? && taken.value.Reserved? && taken.value.commandId == commandId
        then Some(Available(taken.value.kept)) else taken;
    }

    method TakeOut(commandId: nat)
      modifies registry`slot
      ensures registry.slot == Consume(old(registry.slot), commandId)
    {
      var taken := registry.slot;
      registry.slot := None;
      registry.slot := if taken.Some? && taken.value.Reserved? && taken.value.commandId == commandId then None else taken;
    }

    /** Going out of scope only gives up the lock. */
    method Dropped()
      modifies registry`held
      ensures !registry.held
    {
      registry.held := false;
    }
  }
}
