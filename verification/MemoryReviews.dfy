/** The one-use review of a memory change: `MemoryReviewRegistry` and `ReservedMemoryReview`
    of src/memory/review.rs, as a protocol between threads that share one operation lock. */
module MemoryReviews {
  import opened Prelude

  /** What was reviewed: a direct edit or the resolution of a proposal. */
  datatype Binding<B> = Direct(edit: B) | Resolution(resolution: B)
  datatype ReviewState = Available | Reserved(commandId: nat)
  datatype Registration<B> = Registration(token: nat, binding: Binding<B>, state: ReviewState)
  type Slot<B> = Option<Registration<B>>

  datatype ReviewError = MemoryReviewUnavailable | MemoryProposalReviewUnavailable

  // ---------- the slot ----------

  function Unavailable<B>(supplied: Binding<B>): ReviewError {
    if supplied.Direct? then MemoryReviewUnavailable else MemoryProposalReviewUnavailable
  }

  function Reserve<B(==)>(slot: Slot<B>, commandId: nat, token: nat, supplied: Binding<B>): Result<Slot<B>, ReviewError> {
    if slot.None? || slot.value.token != token || slot.value.state != Available || slot.value.binding != supplied
    then Err(Unavailable(supplied))
    else Ok(Some(slot.value.(state := Reserved(commandId))))
  }

  /** A reservation takes exactly the review waiting under this token for this change. */
  lemma ReserveMeaning<B>(slot: Slot<B>, commandId: nat, token: nat, supplied: Binding<B>)
    ensures var r := Reserve(slot, commandId, token, supplied);
            && (r.Ok? <==> slot == Some(Registration(token, supplied, Available)))
            && (r.Ok? ==> r.value == Some(Registration(token, supplied, Reserved(commandId))))
            && (r.Err? ==> r.error == if supplied.Direct? then MemoryReviewUnavailable else MemoryProposalReviewUnavailable)
  {}

  predicate ReservedBy<B>(slot: Slot<B>, commandId: nat, token: nat) {
    slot.Some? && slot.value.token == token && slot.value.state == Reserved(commandId)
  }

  /** `transition_reserved`: to another state, or out of the slot. */
  function Transition<B>(slot: Slot<B>, commandId: nat, token: nat, next: Option<ReviewState>): Result<Slot<B>, ReviewError> {
    if !ReservedBy(slot, commandId, token) then Err(MemoryReviewUnavailable)
    else match next
      case Some(state) => Ok(Some(slot.value.(state := state)))
      case None => Ok(None)
  }

  function ReleaseIfOwned<B>(slot: Slot<B>, commandId: nat, token: nat): Slot<B> {
    if ReservedBy(slot, commandId, token) then Some(slot.value.(state := Available)) else slot
  }

  // ---------- the protocol ----------

  datatype Op<B> =
    | ReplaceReview(token: nat, binding: Binding<B>)
    | ReserveReview(commandId: nat, wanted: nat, supplied: Binding<B>)
    | CancelReview
    | FinishReview

  /** Where a thread is: outside, waiting for the operation lock, inside it before acting,
      holding a reservation, dropping an unfinished one, or about to unlock. */
  datatype Thread<B> =
    | Idle
    | Waiting(waitingFor: Op<B>)
    | Inside(op: Op<B>)
    | Holding(held: nat, holder: nat)
    | Dropping(dropped: nat, dropper: nat)
    | Leaving

  /** `nextToken` numbers the tokens issued; `issued` and `consumed` record what happened. */
  datatype Protocol<B> = Protocol(
    slot: Slot<B>, lock: Option<nat>, threads: map<nat, Thread<B>>, nextToken: nat,
    issued: map<nat, Binding<B>>, consumed: seq<(nat, Binding<B>)>)

  datatype Action<B> =
    | Preview(previewed: Binding<B>)
    | AskReserve(asker: nat, askedToken: nat, askedBinding: Binding<B>)
    | AskCancel
    | AskFinish
    | Acquire
    | Act
    | Consume
    | Release
    | Invalidate
    | DropGuard
    | Unlock

  function At<B>(s: Protocol<B>, t: nat): Thread<B> { if t in s.threads then s.threads[t] else Idle }

  function Goto<B>(s: Protocol<B>, t: nat, at: Thread<B>): Protocol<B> { s.(threads := s.threads[t := at]) }

  /** The body of an operation, under the lock. */
  function Perform<B(==)>(s: Protocol<B>, t: nat, op: Op<B>): Protocol<B> {
    match op
    case ReplaceReview(token, binding) => Goto(s.(slot := Some(Registration(token, binding, Available))), t, Leaving)
    case ReserveReview(commandId, token, supplied) =>
      (match Reserve(s.slot, commandId, token, supplied)
       case Ok(slot) => Goto(s.(slot := slot), t, Holding(token, commandId))
       case Err(_) => Goto(s, t, Leaving))
    case _ => Goto(s.(slot := None), t, Leaving)
  }

  /** Consuming takes the registration out; a failure leaves the guard to its drop. */
  function TakeOut<B>(s: Protocol<B>, t: nat, token: nat, commandId: nat): Protocol<B> {
    match Transition(s.slot, commandId, token, None)
    case Ok(slot) => Goto(s.(slot := slot, consumed := s.consumed + [(token, s.slot.value.binding)]), t, Leaving)
    case Err(_) => Goto(s, t, Dropping(token, commandId))
  }

  function GiveBack<B>(s: Protocol<B>, t: nat, token: nat, commandId: nat): Protocol<B> {
    match Transition(s.slot, commandId, token, Some(Available))
    case Ok(slot) => Goto(s.(slot := slot), t, Leaving)
    case Err(_) => Goto(s, t, Dropping(token, commandId))
  }

  /** One atomic step of one thread, if it is enabled there. */
  function Step<B(==)>(s: Protocol<B>, t: nat, a: Action<B>): Option<Protocol<B>> {
    match (At(s, t), a)
    case (Idle, Preview(binding)) =>
      var issuing := s.(nextToken := s.nextToken + 1, issued := s.issued[s.nextToken := binding]);
      Some(Goto(issuing, t, Waiting(ReplaceReview(s.nextToken, binding))))
    case (Idle, AskReserve(commandId, token, supplied)) => Some(Goto(s, t, Waiting(ReserveReview(commandId, token, supplied))))
    case (Idle, AskCancel) => Some(Goto(s, t, Waiting(CancelReview)))
    case (Idle, AskFinish) => Some(Goto(s, t, Waiting(FinishReview)))
    case (Waiting(op), Acquire) => if s.lock.Some? then None else Some(Goto(s.(lock := Some(t)), t, Inside(op)))
    case (Inside(op), Act) => Some(Perform(s, t, op))
    case (Holding(token, commandId), Consume) => Some(TakeOut(s, t, token, commandId))
    case (Holding(token, commandId), Invalidate) => Some(TakeOut(s, t, token, commandId))
    case (Holding(token, commandId), Release) => Some(GiveBack(s, t, token, commandId))
    case (Holding(token, commandId), DropGuard) => Some(Goto(s.(slot := ReleaseIfOwned(s.slot, commandId, token)), t, Leaving))
    case (Dropping(token, commandId), DropGuard) => Some(Goto(s.(slot := ReleaseIfOwned(s.slot, commandId, token)), t, Leaving))
    case (Leaving, Unlock) => Some(Goto(s.(lock := None), t, Idle))
    case _ => None
  }

  /** Any interleaving; a step that is not enabled does not happen. */
  function Run<B(==)>(s: Protocol<B>, steps: seq<(nat, Action<B>)>): Protocol<B>
    decreases |steps|
  {
    if steps == [] then s
    else Run(match Step(s, steps[0].0, steps[0].1) case Some(next) => next case None => s, steps[1..])
  }

  function Start<B>(): Protocol<B> { Protocol(None, None, map[], 0, map[], []) }

  // ---------- the invariant ----------

  predicate Owns<B>(at: Thread<B>) { at.Inside? || at.Holding? || at.Dropping? || at.Leaving? }

  /** Exactly the lock's owner is past the lock. */
  ghost predicate Exclusive<B(!new)>(s: Protocol<B>) {
    forall t: nat :: Owns(At(s, t)) <==> s.lock == Some(t)
  }

  /** A reservation in the slot and a live guard always go together. */
  ghost predicate GuardMatchesSlot<B(!new)>(s: Protocol<B>) {
    && (forall t: nat :: !At(s, t).Dropping?)
    && (forall t: nat :: At(s, t).Holding? ==> ReservedBy(s.slot, At(s, t).holder, At(s, t).held))
    && (s.slot.Some? && s.slot.value.state.Reserved? ==> s.lock.Some? && At(s, s.lock.value).Holding?)
  }

  predicate Consumed<B>(s: Protocol<B>, token: nat) { exists i :: 0 <= i < |s.consumed| && s.consumed[i].0 == token }

  /** The token a thread is about to register. */
  function Pending<B>(at: Thread<B>): Option<(nat, Binding<B>)> {
    match at
    case Waiting(ReplaceReview(token, binding)) => Some((token, binding))
    case Inside(ReplaceReview(token, binding)) => Some((token, binding))
    case _ => None
  }

  /** A token in use has been issued for that binding and not been consumed. */
  ghost predicate Unspent<B>(s: Protocol<B>, token: nat, binding: Binding<B>) {
    token in s.issued && s.issued[token] == binding && !Consumed(s, token)
  }

  ghost predicate TokensUnspent<B(!new)>(s: Protocol<B>) {
    && (s.slot.Some? ==> Unspent(s, s.slot.value.token, s.slot.value.binding))
    && (forall t: nat :: Pending(At(s, t)).Some? ==>
          && Unspent(s, Pending(At(s, t)).value.0, Pending(At(s, t)).value.1)
          && (s.slot.Some? ==> s.slot.value.token != Pending(At(s, t)).value.0))
    && (forall t: nat, u: nat | t != u && Pending(At(s, t)).Some? && Pending(At(s, u)).Some? ::
          Pending(At(s, t)).value.0 != Pending(At(s, u)).value.0)
  }

  ghost predicate HistoryIsSound<B>(s: Protocol<B>) {
    && (forall token: nat :: token in s.issued <==> token < s.nextToken)
    && (forall i | 0 <= i < |s.consumed| :: s.consumed[i].0 in s.issued && s.issued[s.consumed[i].0] == s.consumed[i].1)
    && (forall i, j | 0 <= i < j < |s.consumed| :: s.consumed[i].0 != s.consumed[j].0)
  }

  ghost predicate Inv<B(!new)>(s: Protocol<B>) {
    Exclusive(s) && GuardMatchesSlot(s) && TokensUnspent(s) && HistoryIsSound(s)
  }

  lemma StepKeepsExclusion<B(!new)>(s: Protocol<B>, t: nat, a: Action<B>)
    requires Exclusive(s) && GuardMatchesSlot(s) && Step(s, t, a).Some?
    ensures Exclusive(Step(s, t, a).value) && GuardMatchesSlot(Step(s, t, a).value)
  {
    var next := Step(s, t, a).value;
    assert Owns(At(s, t)) <==> s.lock == Some(t);
    forall u: nat ensures u != t ==> At(next, u) == At(s, u) {}
    forall u: nat ensures Owns(At(next, u)) <==> next.lock == Some(u) {
      assert Owns(At(s, u)) <==> s.lock == Some(u);
    }
  }

  /** Only taking a reservation out consumes, and it consumes the registered token. */
  lemma StepConsumes<B(!new)>(s: Protocol<B>, t: nat, a: Action<B>)
    requires GuardMatchesSlot(s) && Step(s, t, a).Some?
    ensures var next := Step(s, t, a).value;
            || next.consumed == s.consumed
            || (s.slot.Some? && next.slot.None? && next.issued == s.issued && next.nextToken == s.nextToken
                && At(s, t).Holding? && At(next, t).Leaving?
                && next.consumed == s.consumed + [(s.slot.value.token, s.slot.value.binding)])
    ensures forall u: nat | u != t :: At(Step(s, t, a).value, u) == At(s, u)
  {
    assert At(s, t).Holding? ==> ReservedBy(s.slot, At(s, t).holder, At(s, t).held);
  }

  lemma ConsumedExtends<B(!new)>(s: Protocol<B>, next: Protocol<B>, token: nat)
    requires s.slot.Some? && next.consumed == s.consumed + [(s.slot.value.token, s.slot.value.binding)]
    ensures Consumed(next, token) <==> Consumed(s, token) || token == s.slot.value.token
  {
    if i :| 0 <= i < |s.consumed| && s.consumed[i].0 == token { assert next.consumed[i].0 == token; }
    if token == s.slot.value.token { assert next.consumed[|s.consumed|].0 == token; }
  }

  lemma StepKeepsHistory<B(!new)>(s: Protocol<B>, t: nat, a: Action<B>)
    requires GuardMatchesSlot(s) && TokensUnspent(s) && HistoryIsSound(s) && Step(s, t, a).Some?
    ensures HistoryIsSound(Step(s, t, a).value)
  {
    StepConsumes(s, t, a);
    var next := Step(s, t, a).value;
    if next.consumed != s.consumed {
      hide Step;
      var x := s.slot.value.token;
      forall i | 0 <= i < |s.consumed| ensures s.consumed[i].0 != x { assert Consumed(s, s.consumed[i].0); }
    }
  }

  lemma StepKeepsTokens<B(!new)>(s: Protocol<B>, t: nat, a: Action<B>)
    requires GuardMatchesSlot(s) && TokensUnspent(s) && HistoryIsSound(s) && Step(s, t, a).Some?
    ensures TokensUnspent(Step(s, t, a).value)
  {
    StepConsumes(s, t, a);
    var next := Step(s, t, a).value;
    if next.consumed != s.consumed {
      hide Step;
      forall token: nat ensures Consumed(next, token) <==> Consumed(s, token) || token == s.slot.value.token {
        ConsumedExtends(s, next, token);
      }
    } else {
      hide HistoryIsSound;
      assert forall token: nat :: Consumed(next, token) <==> Consumed(s, token);
      FreshTokenUnused(s);
    }
  }

  lemma FreshTokenUnused<B(!new)>(s: Protocol<B>)
    requires TokensUnspent(s) && HistoryIsSound(s)
    ensures s.nextToken !in s.issued && !Consumed(s, s.nextToken)
    ensures s.slot.Some? ==> s.slot.value.token != s.nextToken
    ensures forall t: nat :: Pending(At(s, t)).Some? ==> Pending(At(s, t)).value.0 != s.nextToken
  {}

  /** Whatever the threads do, and in whatever order. */
  lemma {:induction false} RunKeepsInv<B(!new)>(s: Protocol<B>, steps: seq<(nat, Action<B>)>)
    requires Inv(s)
    ensures Inv(Run(s, steps))
    decreases |steps|
  {
    hide Inv, Step;
    if steps != [] {
      if Step(s, steps[0].0, steps[0].1).Some? {
        InvParts(s);
        StepKeepsExclusion(s, steps[0].0, steps[0].1);
        StepKeepsTokens(s, steps[0].0, steps[0].1);
        StepKeepsHistory(s, steps[0].0, steps[0].1);
        InvParts(Step(s, steps[0].0, steps[0].1).value);
      }
      RunKeepsInv(match Step(s, steps[0].0, steps[0].1) case Some(next) => next case None => s, steps[1..]);
    }
  }

  lemma InvParts<B(!new)>(s: Protocol<B>)
    ensures Inv(s) <==> Exclusive(s) && GuardMatchesSlot(s) && TokensUnspent(s) && HistoryIsSound(s)
  {}

  lemma StartInv<B(!new)>()
    ensures Inv(Start<B>())
  {}

  // ---------- what every run keeps ----------

  ghost predicate Reachable<B(!new)>(s: Protocol<B>) {
    exists steps :: s == Run(Start(), steps)
  }

  lemma ReachableInv<B(!new)>(s: Protocol<B>)
    requires Reachable(s)
    ensures Inv(s)
  {
    var steps :| s == Run(Start(), steps);
    StartInv<B>();
    RunKeepsInv(Start(), steps);
  }

  /** The slot is reserved exactly while one thread holds the matching guard, and that
      thread owns the operation lock. */
  lemma ReservedMeansOwned<B(!new)>(s: Protocol<B>)
    requires Reachable(s)
    ensures (s.slot.Some? && s.slot.value.state.Reserved?) <==> exists t: nat :: At(s, t).Holding?
    ensures forall t: nat | At(s, t).Holding? ::
              s.lock == Some(t) && ReservedBy(s.slot, At(s, t).holder, At(s, t).held)
    ensures forall t: nat, u: nat | At(s, t).Holding? && At(s, u).Holding? :: t == u
  {
    ReachableInv(s);
    assert forall t: nat :: Owns(At(s, t)) <==> s.lock == Some(t);
  }

  /** Consuming, releasing or invalidating a live reservation never fails, so no guard is
      ever left to its drop after a failure. */
  lemma LiveReservationsNeverFail<B(!new)>(s: Protocol<B>, t: nat, next: Option<ReviewState>)
    requires Reachable(s)
    ensures !At(s, t).Dropping?
    ensures At(s, t).Holding? ==> Transition(s.slot, At(s, t).holder, At(s, t).held, next).Ok?
  {
    ReachableInv(s);
  }

  /** Replacing, cancelling and finishing never meet a reserved review. */
  lemma OperationsNeverMeetReserved<B(!new)>(s: Protocol<B>, t: nat)
    requires Reachable(s) && At(s, t).Inside?
    ensures s.slot.Some? ==> s.slot.value.state == Available
  {
    ReachableInv(s);
    assert Owns(At(s, t)) <==> s.lock == Some(t);
  }

  /** No token is consumed twice, and what is consumed is what was reviewed under it. */
  lemma TokensAreConsumedOnce<B(!new)>(s: Protocol<B>)
    requires Reachable(s)
    ensures forall i, j | 0 <= i < j < |s.consumed| :: s.consumed[i].0 != s.consumed[j].0
    ensures forall i | 0 <= i < |s.consumed| :: s.consumed[i].0 in s.issued && s.issued[s.consumed[i].0] == s.consumed[i].1
  {
    ReachableInv(s);
  }

  /** A consumed or replaced token can never be reserved again, whatever follows. */
  lemma {:induction false} GoneForGood<B(!new)>(s: Protocol<B>, steps: seq<(nat, Action<B>)>, token: nat)
    requires Inv(s) && token in s.issued && Gone(s, token)
    ensures Gone(Run(s, steps), token) && token in Run(s, steps).issued
    decreases |steps|
  {
    hide Inv, Step;
    if steps != [] {
      var next := match Step(s, steps[0].0, steps[0].1) case Some(next) => next case None => s;
      if Step(s, steps[0].0, steps[0].1).Some? { GoneStep(s, steps[0].0, steps[0].1, token); }
      RunKeepsInv(s, steps[..1]);
      assert steps[..1][1..] == [] && Run(next, []) == next;
      assert Run(s, steps[..1]) == next;
      GoneForGood(next, steps[1..], token);
    }
  }

  /** Neither in the slot nor about to be registered. */
  ghost predicate Gone<B(!new)>(s: Protocol<B>, token: nat) {
    && (s.slot.Some? ==> s.slot.value.token != token)
    && (forall t: nat :: Pending(At(s, t)).Some? ==> Pending(At(s, t)).value.0 != token)
  }

  lemma GoneStep<B(!new)>(s: Protocol<B>, t: nat, a: Action<B>, token: nat)
    requires Inv(s) && token in s.issued && Gone(s, token) && Step(s, t, a).Some?
    ensures var next := Step(s, t, a).value; Gone(next, token) && token in next.issued
  {
    var next := Step(s, t, a).value;
    forall u: nat ensures u != t ==> At(next, u) == At(s, u) {}
    assert Pending(At(s, t)).Some? ==> Pending(At(s, t)).value.0 != token;
  }

  lemma ConsumedIsGone<B(!new)>(s: Protocol<B>, token: nat)
    requires Inv(s) && Consumed(s, token)
    ensures Gone(s, token) && token in s.issued
  {
    var i :| 0 <= i < |s.consumed| && s.consumed[i].0 == token;
  }

  /** Once consumed, a token is refused by every later reservation, whatever ran in between. */
  lemma ConsumedIsRefused<B(!new)>(s: Protocol<B>, steps: seq<(nat, Action<B>)>, token: nat, commandId: nat, supplied: Binding<B>)
    requires Reachable(s) && Consumed(s, token)
    ensures Reserve(Run(s, steps).slot, commandId, token, supplied) == Err(Unavailable(supplied))
  {
    ReachableInv(s);
    ConsumedIsGone(s, token);
    GoneForGood(s, steps, token);
  }

  // ---------- the registry as an object ----------

  /** `held` says whether the operation lock is taken. */
  class MemoryReviewRegistry<B(==)> {
    var held: bool
    var slot: Slot<B>

    constructor ()
      ensures !held && slot == None
    {
      held, slot := false, None;
    }

    /** `replace_direct` and `replace_resolution`. */
    method Replace(token: nat, binding: Binding<B>)
      requires !held
      modifies this
      ensures !held && slot == Some(Registration(token, binding, Available))
    {
      held := true;
      slot := Some(Registration(token, binding, Available));
      held := false;
    }

    /** `reserve_direct` and `reserve_resolution`: on success the lock stays with the guard. */
    method TryReserve(commandId: nat, token: nat, supplied: Binding<B>) returns (r: Result<ReservedMemoryReview<B>, ReviewError>)
      requires !held
      modifies this
      ensures r.Ok? <==> Reserve(old(slot), commandId, token, supplied).Ok?
      ensures r.Ok? <==> old(slot) == Some(Registration(token, supplied, Available))
      ensures r.Ok? ==>
                && fresh(r.value) && r.value.registry == this && r.value.Live()
                && r.value.token == token && r.value.commandId == commandId
                && slot == Reserve(old(slot), commandId, token, supplied).value
      ensures r.Err? ==> !held && slot == old(slot) && r.error == Unavailable(supplied)
    {
      ReserveMeaning(slot, commandId, token, supplied);
      held := true;
      if slot.None? || slot.value.token != token || slot.value.state != Available || slot.value.binding != supplied {
        held := false;
        return Err(Unavailable(supplied));
      }
      slot := Some(slot.value.(state := Reserved(commandId)));
      var guard := new ReservedMemoryReview(this, token, commandId);
      return Ok(guard);
    }

    /** `cancel` and `finish`. */
    method Cancel()
      requires !held
      modifies this
      ensures !held && slot == None
    {
      held := true;
      slot := None;
      held := false;
    }

    method TransitionReserved(commandId: nat, token: nat, next: Option<ReviewState>) returns (r: Result<(), ReviewError>)
      modifies this`slot
      ensures var after := Transition(old(slot), commandId, token, next);
              && (r.Ok? <==> after.Ok?) && slot == if after.Ok? then after.value else old(slot)
    {
      if slot.None? { return Err(MemoryReviewUnavailable); }
      if slot.value.token != token || slot.value.state != Reserved(commandId) { return Err(MemoryReviewUnavailable); }
      match next {
        case Some(state) => slot := Some(slot.value.(state := state));
        case None => slot := None;
      }
      return Ok(());
    }
  }

  class ReservedMemoryReview<B(==)> {
    const registry: MemoryReviewRegistry<B>
    const token: nat
    const commandId: nat
    var finished: bool

    constructor (registry: MemoryReviewRegistry<B>, token: nat, commandId: nat)
      ensures this.registry == registry && this.token == token && this.commandId == commandId && !finished
    {
      this.registry, this.token, this.commandId, finished := registry, token, commandId, false;
    }

    /** An unfinished guard owns the lock, and the slot is reserved for it. */
    ghost predicate Live()
      reads this, registry
    {
      !finished && registry.held && ReservedBy(registry.slot, commandId, token)
    }

    /** `consume` and `invalidate`: cannot fail while live; the lock is given up. */
    method TakeReview() returns (r: Result<(), ReviewError>)
      requires Live()
      modifies this, registry
      ensures r.Ok? && finished && registry.slot == None && !registry.held
    {
      r := registry.TransitionReserved(commandId, token, None);
      finished := r.Ok?;
      Dropped();
    }

    method ReleaseReview() returns (r: Result<(), ReviewError>)
      requires Live()
      modifies this, registry
      ensures r.Ok? && finished && !registry.held
      ensures registry.slot == Some(old(registry.slot).value.(state := Available))
    {
      r := registry.TransitionReserved(commandId, token, Some(Available));
      finished := r.Ok?;
      Dropped();
    }

    /** Going out of scope: an unfinished guard releases its review before the lock. */
    method Dropped()
      modifies registry
      ensures !registry.held
      ensures registry.slot == if finished then old(registry.slot) else ReleaseIfOwned(old(registry.slot), commandId, token)
    {
      if !finished && registry.slot.Some? && registry.slot.value.token == token && registry.slot.value.state == Reserved(commandId) {
        registry.slot := Some(registry.slot.value.(state := Available));
      }
      registry.held := false;
    }
  }
}
