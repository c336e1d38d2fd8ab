/** Host publications, and the revocations that must wait for them. */
module PublicationBoundary {
  import opened CapacityTypes

  /** Tokens are numbered in the order they are given out; `active` maps each open one to its thread. */
  datatype Boundary = Boundary(active: map<nat, nat>, revoked: bool, minted: nat)

  datatype Code = StorageOwnerUnavailable | ReentrantClose

  datatype Outcome<+T> = Ok(value: T) | Failed(code: Code)

  const OPEN := Boundary(map[], false, 0)

  function Begin(b: Boundary, thread: nat): Boundary {
    if b.revoked then b else b.(active := b.active[b.minted := thread], minted := b.minted + 1)
  }

  function Finish(b: Boundary, token: nat): Boundary { b.(active := b.active - {token}) }

  predicate Owns(b: Boundary, thread: nat) { thread in b.active.Values }

  function Revoke(b: Boundary): Boundary { b.(revoked := true) }

  predicate Empty(b: Boundary) { b.active == map[] }

  /** Nothing is open and nothing will be. */
  predicate Drained(b: Boundary) { b.revoked && Empty(b) }

  /** Tokens not yet given out are not open. */
  predicate Minted(b: Boundary) { forall token :: token in b.active ==> token < b.minted }

  /** One boundary object. Each method is one critical section; a caller that must wait leaves between two of them
      and looks at `IsDrained` each time it is woken. */
  class CapacityPublicationBoundary {
    var active: map<nat, nat>
    var revoked: bool
    var minted: nat

    function State(): Boundary
      reads this
    {
      Boundary(active, revoked, minted)
    }

    predicate Valid()
      reads this
    {
      Minted(State())
    }

    constructor ()
      ensures Valid() && State() == OPEN
    {
      active, revoked, minted := map[], false, 0;
    }

    method BeginPublication(thread: nat) returns (r: Outcome<nat>)
      requires Valid()
      modifies this
      ensures Valid() && State() == Begin(old(State()), thread)
      ensures r.Ok? <==> !old(revoked)
      ensures r.Ok? ==> r.value == old(minted) && r.value !in old(active) && minted == r.value + 1
      ensures r.Ok? ==> r.value in active && active[r.value] == thread
      ensures forall other :: other in old(active) ==> other in active && active[other] == old(active)[other]
      ensures forall other :: other in active ==> other in old(active) || (r.Ok? && other == r.value)
      ensures r.Failed? ==> State() == old(State())
    {
      if revoked {
        return Failed(StorageOwnerUnavailable);
      }
      r := Ok(minted);
      active := active[minted := thread];
      minted := minted + 1;
    }

    method FinishPublication(token: nat)
      requires Valid()
      modifies this`active
      ensures Valid() && State() == Finish(old(State()), token)
      ensures token !in active
      ensures forall other :: other != token ==> (other in active <==> other in old(active))
      ensures forall other :: other in active ==> active[other] == old(active)[other]
    {
      if token in active {
        active := active - {token};
      }
    }

    method IsCurrent(token: nat) returns (current: bool)
      ensures current <==> !revoked && token in active
    {
      current := !revoked && token in active;
    }

    /** The check made of every boundary before any of them is revoked: it refuses exactly a thread whose revocation
        would be refused, and changes nothing. */
    method EnsureRevocationNotReentrant(thread: nat) returns (r: Outcome<()>)
      ensures r.Ok? <==> !Owns(State(), thread)
    {
      r := if thread in active.Values then Failed(ReentrantClose) else Ok(());
    }

    /** The first section of `revoke`: refused to a thread that would wait for itself. */
    method StartRevoke(thread: nat) returns (r: Outcome<()>)
      requires Valid()
      modifies this`revoked
      ensures Valid() && r.Ok? <==> !Owns(old(State()), thread)
      ensures State() == (if r.Ok? then Revoke(old(State())) else old(State()))
    {
      if thread in active.Values {
        return Failed(ReentrantClose);
      }
      revoked := true;
      r := Ok(());
    }

    /** The first section of `revoke_or_defer`: always revokes; a thread with an open token is told not to wait. */
    method StartRevokeOrDefer(thread: nat) returns (wait: bool)
      requires Valid()
      modifies this`revoked
      ensures Valid() && State() == Revoke(old(State()))
      ensures wait <==> !Owns(old(State()), thread)
    {
      revoked := true;
      wait := thread !in active.Values;
    }

    method IsDrained() returns (drained: bool)
      requires revoked
      ensures drained <==> Drained(State())
    {
      drained := |active| == 0;
    }
  }

  // ----- many threads, two boundaries, one owner -----

  /** Where a thread stands in a close of the owner or in draining an invalidated owner. A thread inside a publication
      is at rest here: what it does next is up to the host. */
  datatype Stage =
    | AtRest | RevokingCandidates | DrainingCandidates | RevokingSaves | DrainingSaves | ClosingLedger
    | DeferringCandidates | AwaitingCandidates | DeferringSaves | AwaitingSaves

  /** The two boundaries and the owner's fields. `explicit` records that a close reached the ledger. */
  datatype Owner = Owner(
    candidates: Boundary, saves: Boundary, revokingCandidates: bool, revokingSaves: bool, closed: bool, invalid: bool,
    ledgerClosed: bool, explicit: bool)

  datatype System = System(owner: Owner, threads: seq<Stage>)

  datatype Action =
    | BeginCandidate | BeginSave | FinishCandidate(token: nat) | FinishSave(token: nat)
    | StartClose | Invalidate | MarkInvalid | StartDrain | Go

  /** The owner and thread `t` after the thread's next critical section. */
  function Advance(o: Owner, t: nat, stage: Stage): (Owner, Stage) {
    match stage
    case AtRest => (o, AtRest)
    case RevokingCandidates =>
      if Owns(o.candidates, t) then (o, AtRest) else (o.(candidates := Revoke(o.candidates)), DrainingCandidates)
    case DrainingCandidates => (o, if Empty(o.candidates) then RevokingSaves else stage)
    case RevokingSaves =>
      if Owns(o.saves, t) then (o, AtRest) else (o.(saves := Revoke(o.saves)), DrainingSaves)
    case DrainingSaves => (o, if Empty(o.saves) then ClosingLedger else stage)
    case ClosingLedger => (if o.closed then o else o.(ledgerClosed := true, explicit := true, closed := true), AtRest)
    case DeferringCandidates =>
      (o.(candidates := Revoke(o.candidates)), if Owns(o.candidates, t) then DeferringSaves else AwaitingCandidates)
    case AwaitingCandidates => (o, if Empty(o.candidates) then DeferringSaves else stage)
    case DeferringSaves => (o.(saves := Revoke(o.saves)), if Owns(o.saves, t) then AtRest else AwaitingSaves)
    case AwaitingSaves => (o, if Empty(o.saves) then AtRest else stage)
  }

  function Move(o: Owner, t: nat, stage: Stage, a: Action): (Owner, Stage) {
    match a
    case Go => Advance(o, t, stage)
    case FinishCandidate(token) => (o.(candidates := Finish(o.candidates, token)), stage)
    case FinishSave(token) => (o.(saves := Finish(o.saves, token)), stage)
    case BeginCandidate =>
      (if stage == AtRest && !o.closed && !o.invalid && !o.revokingCandidates
       then o.(candidates := Begin(o.candidates, t)) else o, stage)
    case BeginSave =>
      (if stage == AtRest && !o.closed && !o.invalid && !o.revokingSaves
       then o.(saves := Begin(o.saves, t)) else o, stage)
    case Invalidate =>
      (o.(invalid := true, revokingCandidates := true, revokingSaves := true, ledgerClosed := true), stage)
    case MarkInvalid => (o.(invalid := true), stage)
    case StartDrain => (o, if stage == AtRest && o.invalid then DeferringCandidates else stage)
    case StartClose =>
      if stage != AtRest || o.closed || Owns(o.candidates, t) || Owns(o.saves, t) then (o, stage)
      else (o.(revokingCandidates := true, revokingSaves := true), RevokingCandidates)
  }

  function Act(s: System, t: nat, a: Action): (u: System)
    requires t < |s.threads|
    ensures |u.threads| == |s.threads|
  {
    var (o, stage) := Move(s.owner, t, s.threads[t], a);
    System(o, s.threads[t := stage])
  }

  const UNUSED := Owner(OPEN, OPEN, false, false, false, false, false, false)

  predicate Opening(s: System) { s.owner == UNUSED && forall t :: 0 <= t < |s.threads| ==> s.threads[t] == AtRest }

  /** The states an unused owner passes through, one for each step of some thread and the first. */
  ghost predicate Trace(states: seq<System>, steps: seq<(nat, Action)>) {
    && |states| == |steps| + 1 && Opening(states[0])
    && forall k {:trigger steps[k]} :: 0 <= k < |steps| ==>
         steps[k].0 < |states[k].threads| && states[k + 1] == Act(states[k], steps[k].0, steps[k].1)
  }

  /** What a thread's place in its own call says of the boundaries. */
  predicate StageInv(stage: Stage, candidates: Boundary, saves: Boundary, t: nat) {
    match stage
    case DrainingCandidates => candidates.revoked && !Owns(candidates, t) && !Owns(saves, t)
    case RevokingCandidates => !Owns(candidates, t) && !Owns(saves, t)
    case RevokingSaves => Drained(candidates) && !Owns(saves, t)
    case DrainingSaves => Drained(candidates) && saves.revoked && !Owns(saves, t)
    case ClosingLedger => Drained(candidates) && Drained(saves)
    case AwaitingCandidates => candidates.revoked && !Owns(candidates, t)
    case DeferringSaves => candidates.revoked
    case AwaitingSaves => candidates.revoked && saves.revoked && !Owns(saves, t)
    case _ => true
  }

  ghost predicate OwnerInv(o: Owner) {
    && Minted(o.candidates) && Minted(o.saves)
    && (o.explicit ==> Drained(o.candidates) && Drained(o.saves) && o.ledgerClosed) && (o.closed <==> o.explicit)
    && (o.ledgerClosed ==> o.explicit || o.invalid)
  }

  ghost predicate Inv(s: System) {
    && OwnerInv(s.owner)
    && forall t :: 0 <= t < |s.threads| ==> StageInv(s.threads[t], s.owner.candidates, s.owner.saves, t)
  }

  /** How a boundary may change under thread `t`: it stays revoked and drained, and `t` opens nothing. */
  ghost predicate Later(before: Boundary, after: Boundary, t: nat) {
    && (before.revoked ==> after.revoked) && (Owns(after, t) ==> Owns(before, t))
    && (Drained(before) ==> Drained(after)) && (Minted(before) ==> Minted(after))
  }

  lemma BeginIsLater(b: Boundary, thread: nat, t: nat)
    requires Minted(b)
    ensures b.revoked || thread != t ==> Later(b, Begin(b, thread), t)
    ensures Minted(Begin(b, thread)) && (Drained(b) ==> Begin(b, thread) == b)
  {
    if !b.revoked {
      var after := Begin(b, thread);
      assert forall token :: token in after.active ==> token in b.active || after.active[token] == thread;
      assert forall token :: token in b.active ==> after.active[token] == b.active[token];
    }
  }

  lemma FinishIsLater(b: Boundary, token: nat, t: nat)
    ensures Later(b, Finish(b, token), t)
  {
  }

  lemma RevokeIsLater(b: Boundary, t: nat)
    ensures Later(b, b, t) && Later(b, Revoke(b), t)
    ensures Owns(Revoke(b), t) <==> Owns(b, t)
    ensures Revoke(b).revoked && (Empty(Revoke(b)) <==> Empty(b))
  {
  }

  lemma LaterKeepsStage(stage: Stage, c: Boundary, d: Boundary, saves: Boundary, after: Boundary, t: nat)
    requires StageInv(stage, c, saves, t) && Later(c, d, t) && Later(saves, after, t)
    ensures StageInv(stage, d, after, t)
  {
    hide Owns, Drained, Minted;
  }

  /** Seen from a thread that is not at rest, or from another one, the boundaries only move on. */
  lemma BoundariesMoveOn(o: Owner, t: nat, stage: Stage, a: Action, u: nat)
    requires OwnerInv(o) && (u != t || stage != AtRest)
    ensures var after := Move(o, t, stage, a).0;
            Later(o.candidates, after.candidates, u) && Later(o.saves, after.saves, u)
  {
    hide Owns, Minted, Begin, Finish, Revoke, Later, Drained, Empty;
    RevokeIsLater(o.candidates, u);
    RevokeIsLater(o.saves, u);
    match a
    case BeginCandidate => BeginIsLater(o.candidates, t, u);
    case BeginSave => BeginIsLater(o.saves, t, u);
    case FinishCandidate(token) => FinishIsLater(o.candidates, token, u);
    case FinishSave(token) => FinishIsLater(o.saves, token, u);
    case _ =>
  }

  lemma MoveKeepsStage(o: Owner, t: nat, stage: Stage, a: Action)
    requires OwnerInv(o) && StageInv(stage, o.candidates, o.saves, t)
    ensures var (after, next) := Move(o, t, stage, a);
            StageInv(next, after.candidates, after.saves, t)
  {
    if a == Go {
      AdvanceKeepsStage(o, t, stage);
    } else if stage != AtRest {
      hide Owns, Minted, Begin, Finish, Revoke, Later, Empty, Advance, StageInv;
      BoundariesMoveOn(o, t, stage, a, t);
      var after := Move(o, t, stage, a).0;
      LaterKeepsStage(stage, o.candidates, after.candidates, o.saves, after.saves, t);
    } else {
      hide Begin, Finish, Revoke, Empty, Advance;
    }
  }

  lemma AdvanceKeepsStage(o: Owner, t: nat, stage: Stage)
    requires StageInv(stage, o.candidates, o.saves, t)
    ensures var (after, next) := Advance(o, t, stage);
            StageInv(next, after.candidates, after.saves, t)
  {
    hide Owns, Revoke, Empty, Drained, Later;
    RevokeIsLater(o.candidates, t);
    RevokeIsLater(o.saves, t);
    DrainedMeans(o.candidates);
    DrainedMeans(o.saves);
  }

  lemma DrainedMeans(b: Boundary)
    ensures Drained(b) <==> b.revoked && Empty(b)
  {
  }

  lemma MoveKeepsOwner(o: Owner, t: nat, stage: Stage, a: Action)
    requires OwnerInv(o) && StageInv(stage, o.candidates, o.saves, t)
    ensures OwnerInv(Move(o, t, stage, a).0)
  {
    hide Owns, Minted, Begin, Finish, Revoke, Empty;
    MoveKeepsDrained(o, t, stage, a);
    match a
    case BeginCandidate => BeginIsLater(o.candidates, t, t);
    case BeginSave => BeginIsLater(o.saves, t, t);
    case _ => BoundariesMoveOn(o, t, stage, a, t + 1);
  }

  /** Once drained, drained. */
  lemma MoveKeepsDrained(o: Owner, t: nat, stage: Stage, a: Action)
    ensures Drained(o.candidates) ==> Drained(Move(o, t, stage, a).0.candidates)
    ensures Drained(o.saves) ==> Drained(Move(o, t, stage, a).0.saves)
  {
    hide Owns;
  }

  lemma ActKeepsInv(s: System, t: nat, a: Action)
    requires Inv(s) && t < |s.threads|
    ensures Inv(Act(s, t, a))
  {
    hide Move, StageInv, OwnerInv, Later;
    var u := Act(s, t, a);
    MoveKeepsOwner(s.owner, t, s.threads[t], a);
    forall v | 0 <= v < |u.threads|
      ensures StageInv(u.threads[v], u.owner.candidates, u.owner.saves, v)
    {
      if v == t {
        MoveKeepsStage(s.owner, t, s.threads[t], a);
      } else {
        BoundariesMoveOn(s.owner, t, s.threads[t], a, v);
        LaterKeepsStage(s.threads[v], s.owner.candidates, u.owner.candidates, s.owner.saves, u.owner.saves, v);
      }
    }
  }

  lemma OpeningHolds(s: System)
    requires Opening(s)
    ensures Inv(s)
  {
  }

  lemma {:induction false} TraceKeepsInv(states: seq<System>, steps: seq<(nat, Action)>, k: nat)
    requires Trace(states, steps) && k < |states|
    ensures Inv(states[k]) && |states[k].threads| == |states[0].threads|
  {
    hide Inv, Act, Opening;
    if k == 0 {
      OpeningHolds(states[0]);
    } else {
      TraceKeepsInv(states, steps, k - 1);
      ActKeepsInv(states[k - 1], steps[k - 1].0, steps[k - 1].1);
    }
  }

  // ----- one token, from its begin to its finish -----

  /** The two boundaries, one text for both. */
  datatype Which = Candidates | Saves

  function Of(o: Owner, which: Which): Boundary { if which.Candidates? then o.candidates else o.saves }

  /** Step `k` is a begin of thread `t`, and opens `token` for it. */
  ghost predicate BegunAt(states: seq<System>, steps: seq<(nat, Action)>, which: Which, k: nat, t: nat, token: nat) {
    && k < |steps| && |states| == |steps| + 1 && steps[k] == (t, if which.Candidates? then BeginCandidate else BeginSave)
    && token !in Of(states[k].owner, which).active && token in Of(states[k + 1].owner, which).active
  }

  /** Step `k` finishes `token`. */
  predicate FinishedAt(steps: seq<(nat, Action)>, which: Which, k: nat, token: nat) {
    k < |steps| && steps[k].1 == (if which.Candidates? then FinishCandidate(token) else FinishSave(token))
  }

  /** `token` is open for thread `t`. */
  predicate OpenFor(o: Owner, which: Which, token: nat, t: nat) {
    token in Of(o, which).active && Of(o, which).active[token] == t
  }

  /** One step closes exactly the token it finishes, and opens none that was given out before. */
  lemma MoveKeepsToken(o: Owner, t: nat, stage: Stage, a: Action, which: Which, token: nat, u: nat)
    requires OwnerInv(o) && token < Of(o, which).minted
    ensures var after := Move(o, t, stage, a).0;
            && token < Of(after, which).minted
            && (OpenFor(after, which, token, u)
                <==> OpenFor(o, which, token, u) && !FinishedAt([(t, a)], which, 0, token))
  {
    hide Owns;
  }

  /** A begin gives its thread a token that was never given out. */
  lemma BegunIsNew(states: seq<System>, steps: seq<(nat, Action)>, which: Which, k: nat, t: nat, token: nat)
    requires Trace(states, steps) && BegunAt(states, steps, which, k, t, token)
    ensures token == Of(states[k].owner, which).minted < Of(states[k + 1].owner, which).minted
    ensures OpenFor(states[k + 1].owner, which, token, t)
  {
    hide Owns, Opening;
  }

  /** A token that was given to a thread is open, for that thread, until a step finishes that very token. */
  lemma {:induction false} OpenUntilFinished(states: seq<System>, steps: seq<(nat, Action)>, which: Which, k: nat, t: nat,
                                             token: nat, j: nat)
    requires Trace(states, steps) && BegunAt(states, steps, which, k, t, token) && k < j < |states|
    ensures token < Of(states[j].owner, which).minted
    ensures OpenFor(states[j].owner, which, token, t) <==> forall i: nat :: k < i < j ==> !FinishedAt(steps, which, i, token)
    ensures token in Of(states[j].owner, which).active ==> OpenFor(states[j].owner, which, token, t)
    decreases j
  {
    BegunIsNew(states, steps, which, k, t, token);
    if k + 1 < j {
      OpenUntilFinished(states, steps, which, k, t, token, j - 1);
      TraceKeepsInv(states, steps, j - 1);
      var (u, a) := steps[j - 1];
      hide Move, OpenFor, Opening, StageInv, OwnerInv, BegunAt;
      MoveKeepsToken(states[j - 1].owner, u, states[j - 1].threads[u], a, which, token, t);
      StaysItsOwn(states[j - 1].owner, u, states[j - 1].threads[u], a, which, token, t);
      assert FinishedAt([(u, a)], which, 0, token) <==> FinishedAt(steps, which, j - 1, token);
    }
  }

  /** An open token never passes to another thread. */
  lemma StaysItsOwn(o: Owner, t: nat, stage: Stage, a: Action, which: Which, token: nat, u: nat)
    requires OwnerInv(o) && token < Of(o, which).minted
    requires token in Of(o, which).active ==> OpenFor(o, which, token, u)
    ensures var after := Move(o, t, stage, a).0;
            token in Of(after, which).active ==> OpenFor(after, which, token, u)
  {
    hide Owns;
  }

  /** When a boundary is drained, every token ever begun there was finished by a step of its own. */
  lemma DrainSawEveryFinish(states: seq<System>, steps: seq<(nat, Action)>, which: Which, k: nat, t: nat, token: nat, j: nat)
    requires Trace(states, steps) && BegunAt(states, steps, which, k, t, token) && k < j < |states|
    requires Drained(Of(states[j].owner, which))
    ensures exists i: nat :: k < i < j && FinishedAt(steps, which, i, token)
  {
    hide Trace;
    OpenUntilFinished(states, steps, which, k, t, token, j);
  }

  /** Nothing begins once the owner is invalid or closed, or a close has got past its checks. */
  predicate NoMoreBegins(o: Owner) { o.invalid || o.closed || (o.revokingCandidates && o.revokingSaves) }

  /** Step `k` starts a close, or makes the owner invalid. */
  ghost predicate ShutsAt(states: seq<System>, steps: seq<(nat, Action)>, k: nat) {
    && k < |steps| && |states| == |steps| + 1
    && (|| steps[k].1 in {Invalidate, MarkInvalid}
        || (steps[k].1 == StartClose && steps[k].0 < |states[k].threads| == |states[k + 1].threads|
            && states[k + 1].threads[steps[k].0] != states[k].threads[steps[k].0]))
  }

  lemma MoveKeepsShut(o: Owner, t: nat, stage: Stage, a: Action)
    ensures NoMoreBegins(o) ==> NoMoreBegins(Move(o, t, stage, a).0)
    ensures a in {Invalidate, MarkInvalid} || (a == StartClose && Move(o, t, stage, a).1 != stage) ==>
              NoMoreBegins(Move(o, t, stage, a).0)
    ensures NoMoreBegins(o) && a.BeginCandidate? ==> Move(o, t, stage, a).0.candidates == o.candidates
    ensures NoMoreBegins(o) && a.BeginSave? ==> Move(o, t, stage, a).0.saves == o.saves
  {
    hide Owns;
  }

  lemma {:induction false} StaysShut(states: seq<System>, steps: seq<(nat, Action)>, i: nat, j: nat)
    requires Trace(states, steps) && ShutsAt(states, steps, i) && i < j < |states|
    ensures NoMoreBegins(states[j].owner)
    decreases j
  {
    hide Move, NoMoreBegins, Opening;
    var (t, a) := steps[j - 1];
    MoveKeepsShut(states[j - 1].owner, t, states[j - 1].threads[t], a);
    if i < j - 1 {
      StaysShut(states, steps, i, j - 1);
    }
  }

  /** No publication begins after a close has started, or after the owner was found invalid. */
  lemma NothingBeginsLater(states: seq<System>, steps: seq<(nat, Action)>, which: Which, i: nat, k: nat, t: nat, token: nat)
    requires Trace(states, steps) && ShutsAt(states, steps, i) && i < k
    ensures !BegunAt(states, steps, which, k, t, token)
  {
    if BegunAt(states, steps, which, k, t, token) {
      StaysShut(states, steps, i, k);
      hide Move, NoMoreBegins, Opening, ShutsAt;
      MoveKeepsShut(states[k].owner, t, states[k].threads[t], steps[k].1);
    }
  }

  /** Nobody closes or drains, and nothing is revoked. */
  predicate Undisturbed(s: System) {
    && !s.owner.invalid && !s.owner.closed && !s.owner.revokingCandidates && !s.owner.revokingSaves
    && !s.owner.candidates.revoked && !s.owner.saves.revoked && forall t :: 0 <= t < |s.threads| ==> s.threads[t] == AtRest
  }

  /** Nothing is revoked, and nobody has left the state of rest, before a close starts or the owner is found invalid. */
  lemma {:induction false} RevokedForAReason(states: seq<System>, steps: seq<(nat, Action)>, k: nat)
    requires Trace(states, steps) && k < |states| && forall i: nat :: i < k ==> !ShutsAt(states, steps, i)
    ensures Undisturbed(states[k])
  {
    if k > 0 {
      RevokedForAReason(states, steps, k - 1);
      assert !ShutsAt(states, steps, k - 1);
      var (t, a) := steps[k - 1];
      UndisturbedStays(states[k - 1], t, a);
    }
  }

  lemma UndisturbedStays(s: System, t: nat, a: Action)
    requires Undisturbed(s) && t < |s.threads| && a !in {Invalidate, MarkInvalid}
    requires a == StartClose ==> Act(s, t, a).threads[t] == AtRest
    ensures Undisturbed(Act(s, t, a))
  {
    hide Owns;
  }

  /** A thread that asks is given a token exactly while no close has started and the owner was not found invalid. */
  lemma BeginsExactly(states: seq<System>, steps: seq<(nat, Action)>, which: Which, k: nat, t: nat)
    requires Trace(states, steps) && k < |steps|
    requires steps[k] == (t, if which.Candidates? then BeginCandidate else BeginSave)
    ensures (exists token :: BegunAt(states, steps, which, k, t, token)) <==> forall i: nat :: i < k ==> !ShutsAt(states, steps, i)
  {
    if i: nat :| i < k && ShutsAt(states, steps, i) {
      forall token: nat
        ensures !BegunAt(states, steps, which, k, t, token)
      {
        NothingBeginsLater(states, steps, which, i, k, t, token);
      }
    } else {
      RevokedForAReason(states, steps, k);
      TraceKeepsInv(states, steps, k);
      UndisturbedBegins(states[k], which, t);
      assert BegunAt(states, steps, which, k, t, Of(states[k].owner, which).minted);
    }
  }

  lemma UndisturbedBegins(s: System, which: Which, t: nat)
    requires Undisturbed(s) && t < |s.threads| && OwnerInv(s.owner)
    ensures var u := Act(s, t, if which.Candidates? then BeginCandidate else BeginSave);
            Of(s.owner, which).minted !in Of(s.owner, which).active && Of(s.owner, which).minted in Of(u.owner, which).active
  {
  }

  /** A thread leaves a call it is in only by the call's own steps, and a closed owner is closed once. */
  lemma OneCallAtATime(s: System, t: nat, a: Action, u: nat)
    requires t < |s.threads| && u < |s.threads|
    ensures Act(s, t, a).threads[u] != s.threads[u] ==> t == u && (s.threads[u] != AtRest ==> a == Go)
    ensures s.owner.closed && a == StartClose ==> Act(s, t, a) == s
  {
  }

  // ----- what every run shows, over all interleavings -----

  /** Once a boundary is drained no token of it is ever open again. */
  lemma {:induction false} DrainedStays(states: seq<System>, steps: seq<(nat, Action)>, k: nat, j: nat)
    requires Trace(states, steps) && k <= j < |states|
    ensures Drained(states[k].owner.candidates) ==> Drained(states[j].owner.candidates)
    ensures Drained(states[k].owner.saves) ==> Drained(states[j].owner.saves)
    decreases j
  {
    hide Move, Drained, Opening;
    if k < j {
      DrainedStays(states, steps, k, j - 1);
      var (t, a) := steps[j - 1];
      MoveKeepsDrained(states[j - 1].owner, t, states[j - 1].threads[t], a);
    }
  }

  /** When `revoke` returns, and when a `revoke_or_defer` that waited returns, the boundary is drained, and stays so for
      good. */
  lemma RevocationIsFinal(states: seq<System>, steps: seq<(nat, Action)>, k: nat, t: nat, j: nat)
    requires Trace(states, steps) && k < j < |states| && steps[k] == (t, Go)
    requires t < |states[k].threads| == |states[k + 1].threads| && states[k + 1].threads[t] != states[k].threads[t]
    ensures states[k].threads[t] in {DrainingCandidates, AwaitingCandidates} ==> Drained(states[j].owner.candidates)
    ensures states[k].threads[t] in {DrainingSaves, AwaitingSaves} ==> Drained(states[j].owner.saves)
  {
    hide Owns, Opening;
    TraceKeepsInv(states, steps, k);
    assert StageInv(states[k].threads[t], states[k].owner.candidates, states[k].owner.saves, t);
    DrainedStays(states, steps, k + 1, j);
  }

  /** A close reaches the ledger only after both boundaries have drained; otherwise only an invalidation closes it. */
  lemma CloseDrainsFirst(states: seq<System>, steps: seq<(nat, Action)>, k: nat)
    requires Trace(states, steps) && k < |states|
    ensures
      var o := states[k].owner;
      && (o.closed ==> Drained(o.candidates) && Drained(o.saves) && o.ledgerClosed)
      && (o.ledgerClosed && !o.invalid ==> o.closed)
  {
    hide Opening, Act, Drained;
    TraceKeepsInv(states, steps, k);
  }

  /** No thread ever waits for a token of its own. */
  lemma NobodyWaitsForItself(states: seq<System>, steps: seq<(nat, Action)>, k: nat, t: nat)
    requires Trace(states, steps) && k < |states| && t < |states[k].threads|
    ensures states[k].threads[t] in {DrainingCandidates, AwaitingCandidates} ==> !Owns(states[k].owner.candidates, t)
    ensures states[k].threads[t] in {DrainingSaves, AwaitingSaves} ==> !Owns(states[k].owner.saves, t)
  {
    hide Owns, Opening, Act;
    TraceKeepsInv(states, steps, k);
    assert StageInv(states[k].threads[t], states[k].owner.candidates, states[k].owner.saves, t);
  }

  /** A thread is on its way through the draining of an invalidated owner. */
  predicate Deferring(stage: Stage) { stage in {DeferringCandidates, AwaitingCandidates, DeferringSaves, AwaitingSaves} }

  /** What a thread that owned no token when it began to drain has seen by now. */
  predicate DrainInv(o: Owner, t: nat, stage: Stage) {
    && !Owns(o.candidates, t) && !Owns(o.saves, t)
    && (stage == DeferringSaves || stage == AwaitingSaves || stage == AtRest ==> Drained(o.candidates))
    && (stage == AtRest ==> Drained(o.saves))
  }

  lemma MoveKeepsDrain(o: Owner, t: nat, stage: Stage, a: Action, u: nat, other: Stage)
    requires OwnerInv(o) && Deferring(stage) && DrainInv(o, t, stage) && StageInv(stage, o.candidates, o.saves, t)
    ensures DrainInv(Move(o, t, stage, a).0, t, Move(o, t, stage, a).1)
    ensures u != t ==> DrainInv(Move(o, u, other, a).0, t, stage)
  {
    BoundariesMoveOn(o, t, stage, a, t);
    MoveKeepsDrained(o, t, stage, a);
    if u != t {
      BoundariesMoveOn(o, u, other, a, t);
      MoveKeepsDrained(o, u, other, a);
    }
    hide Owns, Minted, Begin, Finish, OwnerInv;
  }

  /** Draining an invalidated owner, by a thread that owns no token, returns only when both boundaries have drained. */
  lemma {:induction false} DrainWaits(states: seq<System>, steps: seq<(nat, Action)>, i: nat, j: nat, t: nat)
    requires Trace(states, steps) && i < j < |states| && steps[i] == (t, StartDrain)
    requires t < |states[i].threads| && states[i].threads[t] == AtRest
    requires !Owns(states[i].owner.candidates, t) && !Owns(states[i].owner.saves, t)
    requires forall m :: i < m <= j ==> |states[m].threads| == |states[i].threads|
    requires forall m :: i < m < j ==> Deferring(states[m].threads[t])
    requires states[i].owner.invalid
    ensures DrainInv(states[j].owner, t, states[j].threads[t])
    ensures states[j].threads[t] == AtRest ==> Drained(states[j].owner.candidates) && Drained(states[j].owner.saves)
    decreases j
  {
    hide Opening, Owns, Drained;
    if i + 1 < j {
      DrainWaits(states, steps, i, j - 1, t);
      TraceKeepsInv(states, steps, j - 1);
      var (u, a) := steps[j - 1];
      var s := states[j - 1];
      hide Move, Deferring, DrainInv, StageInv, OwnerInv;
      assert StageInv(s.threads[t], s.owner.candidates, s.owner.saves, t);
      MoveKeepsDrain(s.owner, t, s.threads[t], a, u, s.threads[u]);
    }
    hide Move, Trace;
  }

  /** An invalidation closes the ledger at once, over publications that are still open. */
  lemma InvalidationDoesNotWait() returns (states: seq<System>, steps: seq<(nat, Action)>)
    ensures Trace(states, steps) && |states| == 3
    ensures states[2].owner.ledgerClosed && !states[2].owner.closed && !Drained(states[2].owner.saves)
  {
    var s := System(UNUSED, [AtRest]);
    var begun := Act(s, 0, BeginSave);
    states, steps := [s, begun, Act(begun, 0, Invalidate)], [(0, BeginSave), (0, Invalidate)];
    assert 0 in begun.owner.saves.active;
  }
}
