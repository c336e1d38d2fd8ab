/** Appending to the protected journal under one lifecycle lease, while any number of threads close its owner. */
module LeaseProtocol {
  import opened CapacityTypes

  /** Where a call stands. The first group is an append under capacity, the second a close. */
  datatype Stage =
    | AppendReady | Leased | Admitting | Admitted | Appending | Observing | Completing | Committed
    | Marking | Retaining | Returning | Leaving | Acked | Failed | Stuck | Refused
    | CloseReady | AwaitingLease(lease: nat) | ClosingNative | AwaitingNative | Closed | CloseRaised | Reentrant

  /** What the capacity ledger holds for the call's write. */
  datatype Account = NotAdmitted | Writing | Done | Kept

  /** `moves` is the ledger's commit count when this call committed; `disturbed` marks a refused compensation, and
      `interrupted` an interrupt that struck where nothing was left to settle the write. */
  datatype Call = Call(thread: nat, stage: Stage, account: Account, moves: nat, disturbed: bool, interrupted: bool)

  /** The ledger's one active write: a call's journal replacement, or some other write. */
  datatype Active = Lease(call: nat) | Other

  datatype Event =
    | LeaseBegun(call: nat) | LeaseReleased(call: nat) | Revoked | CommitMarked(call: nat) | AckReturned(call: nat)
    | NativeStarted(call: nat) | NativeEnded(call: nat) | CloseReturned(call: nat) | OtherAdmitted

  /** The journal owner's lifecycle fields, what its calls see of the ledger, the calls, and what has happened. */
  datatype State = State(
    closed: bool, revoking: bool, uncertain: bool, lease: Option<nat>, marker: Option<nat>,
    started: bool, ended: bool, alive: bool, active: Option<Active>, moves: nat,
    calls: seq<Call>, log: seq<Event>)

  /** One step of a call: it goes on, an operation it calls raises (in completion, before or after the write was
      found), an interrupt strikes it (before or after it gives its lease back), or something else happens to the
      ledger. */
  datatype Action =
    | Go | Fault | FaultBound | Interrupt | InterruptHeld
    | OtherAdmit | OtherCommit | OtherCancel | OtherFail | LedgerDown

  function Put(s: State, c: nat, x: Call): State
    requires c < |s.calls|
  {
    s.(calls := s.calls[c := x])
  }

  function To(s: State, c: nat, stage: Stage): State
    requires c < |s.calls|
  {
    Put(s, c, s.calls[c].(stage := stage))
  }

  function Log(s: State, e: Event): State { s.(log := s.log + [e]) }

  // ----- an append -----

  function BeginLease(s: State, c: nat): State
    requires c < |s.calls|
  {
    if s.closed || s.revoking || s.lease.Some? || s.uncertain then To(s, c, Refused)
    else Log(To(s.(lease := Some(c), marker := None), c, Leased), LeaseBegun(c))
  }

  function Admit(s: State, c: nat): State
    requires c < |s.calls|
  {
    if s.revoking || s.lease != Some(c) || !s.alive || s.active.Some? then To(s, c, Leaving)
    else Put(s.(active := Some(Lease(c))), c, s.calls[c].(stage := Admitted, account := Writing))
  }

  predicate LeaseCurrent(s: State, c: nat) { !s.closed && !s.revoking && s.lease == Some(c) }

  /** The write's full bound becomes uncertain and the ledger accepts nothing more. */
  function Retain(s: State, c: nat): State
    requires c < |s.calls|
  {
    Put(s.(active := if s.active == Some(Lease(c)) then None else s.active, alive := false), c,
        s.calls[c].(account := Kept))
  }

  /** Ledger commit and acknowledgement marker, under one set of locks. */
  function Complete(s: State, c: nat): State
    requires c < |s.calls|
  {
    if !s.alive || s.active != Some(Lease(c)) then To(s, c, Marking)
    else if !LeaseCurrent(s, c) || s.marker.Some? then To(Retain(s, c), c, Marking)
    else
      Log(Put(s.(active := None, marker := Some(c)), c,
              s.calls[c].(stage := Committed, account := Done, moves := s.moves)),
          CommitMarked(c))
  }

  /** Whether the ledger can still undo the call's commit. */
  predicate Undoable(s: State, c: nat)
    requires c < |s.calls|
  {
    s.active.None? && s.moves == s.calls[c].moves
  }

  /** The exception handler's settlement of an admitted write. */
  function Settle(s: State, c: nat): State
    requires c < |s.calls|
  {
    match s.calls[c].account
    case NotAdmitted => s
    case Writing => Retain(s, c)
    case Kept => s.(alive := false)
    case Done => if Undoable(s, c) then Retain(s, c) else Put(s, c, s.calls[c].(disturbed := true))
  }

  function ReleaseLease(s: State, c: nat): State {
    if s.lease != Some(c) then s else Log(s.(lease := None, marker := None), LeaseReleased(c))
  }

  function AppendGo(s: State, c: nat): State
    requires c < |s.calls|
  {
    match s.calls[c].stage
    case AppendReady => BeginLease(s, c)
    case Leased => To(s, c, Admitting)
    case Admitting => Admit(s, c)
    case Admitted =>
      To(s, c, if s.alive && s.active == Some(Lease(c)) && LeaseCurrent(s, c) then Appending else Marking)
    case Appending => To(s, c, if LeaseCurrent(s, c) then Observing else Marking)
    case Observing => To(s, c, if LeaseCurrent(s, c) then Completing else Marking)
    case Completing => Complete(s, c)
    case Committed => To(s, c, if s.marker == Some(c) then Returning else Marking)
    case Marking => To(s.(uncertain := true), c, Retaining)
    case Retaining => To(Settle(s, c), c, Leaving)
    case Returning => Log(To(ReleaseLease(s, c), c, Acked), AckReturned(c))
    case Leaving => To(ReleaseLease(s, c), c, Failed)
    case _ => s
  }

  /** An exception raised where the call stands. */
  function AppendFault(s: State, c: nat, bound: bool): State
    requires c < |s.calls|
  {
    match s.calls[c].stage
    case Leased => To(s, c, Leaving)
    case Admitting => To(s, c, Leaving)
    case Admitted => To(s, c, Marking)
    case Appending => To(s, c, Marking)
    case Observing => To(s, c, Marking)
    case Completing =>
      if bound && s.alive && s.active == Some(Lease(c)) then To(Retain(s, c), c, Marking) else To(s, c, Marking)
    case Committed => To(s, c, Marking)
    case _ => s
  }

  /** The call ends with an exception that nothing settles; `held` keeps its lease for good. */
  function Escape(s: State, c: nat, held: bool): State
    requires c < |s.calls|
  {
    var t := Put(s, c, s.calls[c].(stage := if held then Stuck else Failed, interrupted := true));
    if held then t else ReleaseLease(t, c)
  }

  /** An interrupt can also strike where no operation raises: when an admission has been made and not yet assigned, in
      the exception handler, and in the release of the lease. */
  function AppendInterrupt(s: State, c: nat, held: bool): State
    requires c < |s.calls|
  {
    match s.calls[c].stage
    case Leased => if held then Escape(s, c, true) else To(s, c, Leaving)
    case Admitting =>
      var t := Admit(s, c);
      if t.calls[c].stage == Admitted then Put(t, c, t.calls[c].(stage := Leaving, interrupted := true)) else t
    case Marking => Put(s, c, s.calls[c].(stage := Leaving, interrupted := true))
    case Retaining => Put(s, c, s.calls[c].(stage := Leaving, interrupted := true))
    case Returning => Escape(s, c, held)
    case Leaving => Escape(s, c, held)
    case _ => AppendFault(s, c, false)
  }

  // ----- a close -----

  function BeginClose(s: State, c: nat): State
    requires c < |s.calls|
  {
    if s.closed then To(s, c, AwaitingNative)
    else if s.lease.Some? then
      if s.lease.value < |s.calls| && s.calls[s.lease.value].thread == s.calls[c].thread then To(s, c, Reentrant)
      else Log(To(s.(revoking := true), c, AwaitingLease(s.lease.value)), Revoked)
    else
      Log(Log(To(s.(revoking := true, closed := true, started := true), c, ClosingNative), Revoked), NativeStarted(c))
  }

  function CloseGo(s: State, c: nat): State
    requires c < |s.calls|
  {
    match s.calls[c].stage
    case CloseReady => BeginClose(s, c)
    case AwaitingLease(lease) =>
      if s.lease == Some(lease) then s
      else if s.started then To(s, c, AwaitingNative)
      else Log(To(s.(closed := true, started := true), c, ClosingNative), NativeStarted(c))
    case ClosingNative => Log(Log(To(s.(ended := true), c, Closed), NativeEnded(c)), CloseReturned(c))
    case AwaitingNative => if s.ended then Log(To(s, c, Closed), CloseReturned(c)) else s
    case _ => s
  }

  function CloseFault(s: State, c: nat): State
    requires c < |s.calls|
  {
    if s.calls[c].stage == ClosingNative then Log(To(s.(ended := true), c, CloseRaised), NativeEnded(c)) else s
  }

  // ----- the rest of the ledger -----

  function Down(s: State): State {
    if s.active.Some? && s.active.value.Lease? && s.active.value.call < |s.calls| then Retain(s, s.active.value.call)
    else s.(alive := false, active := None)
  }

  predicate IsClose(stage: Stage) {
    stage.CloseReady? || stage.AwaitingLease? || stage.ClosingNative? || stage.AwaitingNative? || stage.Closed?
    || stage.CloseRaised? || stage.Reentrant?
  }

  function Act(s: State, c: nat, a: Action): State
    requires c < |s.calls|
  {
    match a
    case Go => if IsClose(s.calls[c].stage) then CloseGo(s, c) else AppendGo(s, c)
    case Fault => if IsClose(s.calls[c].stage) then CloseFault(s, c) else AppendFault(s, c, false)
    case FaultBound => if IsClose(s.calls[c].stage) then CloseFault(s, c) else AppendFault(s, c, true)
    case Interrupt => if IsClose(s.calls[c].stage) then CloseFault(s, c) else AppendInterrupt(s, c, false)
    case InterruptHeld => if IsClose(s.calls[c].stage) then CloseFault(s, c) else AppendInterrupt(s, c, true)
    case OtherAdmit => if s.alive && s.active.None? then Log(s.(active := Some(Other)), OtherAdmitted) else s
    case OtherCommit => if s.alive && s.active == Some(Other) then s.(active := None, moves := s.moves + 1) else s
    case OtherCancel => if s.alive && s.active == Some(Other) then s.(active := None) else s
    case OtherFail => if s.active == Some(Other) then s.(active := None, alive := false) else s
    case LedgerDown => Down(s)
  }

  /** An open owner and calls that have not started. */
  predicate Opening(s: State) {
    && !s.closed && !s.revoking && s.lease.None? && !s.started && !s.ended && s.log == []
    && (s.active.Some? ==> s.active.value.Other?)
    && forall c :: 0 <= c < |s.calls| ==>
         (s.calls[c].stage == AppendReady || s.calls[c].stage == CloseReady) && s.calls[c].account == NotAdmitted
         && !s.calls[c].disturbed && !s.calls[c].interrupted
  }

  /** The states an open owner passes through, one for each step of some call and the first. */
  ghost predicate Trace(states: seq<State>, steps: seq<(nat, Action)>) {
    && |states| == |steps| + 1 && Opening(states[0])
    && forall k {:trigger steps[k]} :: 0 <= k < |steps| ==>
         steps[k].0 < |states[k].calls| && states[k + 1] == Act(states[k], steps[k].0, steps[k].1)
  }

  // ----- the log -----

  /** What must have happened before each event, and what must not. */
  predicate Allowed(before: seq<Event>, e: Event) {
    match e
    case LeaseBegun(c) => Revoked !in before
    case LeaseReleased(c) => LeaseBegun(c) in before
    case Revoked => true
    case CommitMarked(c) => Revoked !in before && LeaseBegun(c) in before && LeaseReleased(c) !in before
    case AckReturned(c) => CommitMarked(c) in before
    case NativeStarted(c) =>
      && Revoked in before && (forall i :: 0 <= i < |before| ==> !before[i].NativeStarted?)
      && (forall i :: 0 <= i < |before| && before[i].LeaseBegun? ==> LeaseReleased(before[i].call) in before)
    case NativeEnded(c) => NativeStarted(c) in before
    case CloseReturned(c) => exists i :: 0 <= i < |before| && before[i].NativeEnded?
    case OtherAdmitted => true
  }

  predicate Safe(log: seq<Event>) {
    forall k :: 0 <= k < |log| ==> Allowed(log[..k], log[k])
  }

  predicate Holding(stage: Stage) {
    stage in {Leased, Admitting, Admitted, Appending, Observing, Completing, Committed, Marking, Retaining, Returning, Leaving,
              Stuck}
  }

  /** A close takes effect once, after revocation, and not under a lease. */
  predicate Lifecycle(s: State) {
    && (s.lease.Some? ==> s.lease.value < |s.calls| && !s.closed)
    && (s.closed ==> s.revoking) && (s.started <==> s.closed) && (s.ended ==> s.started)
  }

  /** The lease is held by exactly the call that is under it. */
  predicate LeaseInv(s: State, c: nat)
    requires c < |s.calls|
  {
    var stage := s.calls[c].stage;
    && (Holding(stage) <==> s.lease == Some(c))
    && (stage.AwaitingLease? ==> s.revoking && (s.lease.Some? ==> s.lease.value == stage.lease))
    && (stage == ClosingNative ==> s.started)
    && (stage == Committed || stage == Returning ==> s.marker == Some(c))
  }

  /** The log agrees with the owner's fields. */
  ghost predicate Agrees(log: seq<Event>, lease: Option<nat>, revoking: bool, started: bool, ended: bool, calls: nat) {
    && Safe(log)
    && (revoking <==> Revoked in log)
    && (started <==> exists i :: 0 <= i < |log| && log[i].NativeStarted?)
    && (ended ==> exists i :: 0 <= i < |log| && log[i].NativeEnded?)
    && (forall c: nat :: LeaseBegun(c) in log && LeaseReleased(c) !in log ==> lease == Some(c))
    && (lease.Some? ==> LeaseBegun(lease.value) in log && LeaseReleased(lease.value) !in log)
    && (forall c: nat :: LeaseBegun(c) in log ==> c < calls)
  }

  ghost predicate LogInv(s: State) { Agrees(s.log, s.lease, s.revoking, s.started, s.ended, |s.calls|) }

  /** What the log holds of one call. */
  predicate CallLogged(s: State, c: nat)
    requires c < |s.calls|
  {
    && (s.calls[c].stage == AppendReady ==> LeaseBegun(c) !in s.log)
    && (s.calls[c].stage == Committed || s.calls[c].stage == Returning ==> CommitMarked(c) in s.log)
    && (s.calls[c].stage == ClosingNative ==> NativeStarted(c) in s.log)
  }

  /** A call that raised has not left its write as it is, unless its compensation was refused or an interrupt kept it
      from settling. */
  predicate Unsettled(x: Call) {
    && (x.account == Writing ==> x.interrupted)
    && (x.account == Done ==> x.disturbed || x.interrupted)
    && (x.disturbed ==> x.account == Done)
  }

  /** The ledger's account of one call's write, stage by stage. */
  predicate AccountInv(s: State, c: nat)
    requires c < |s.calls|
  {
    var x := s.calls[c];
    && (x.account == Writing <==> s.active == Some(Lease(c)))
    && (match x.stage
        case AppendReady => x.account == NotAdmitted
        case Leased => x.account == NotAdmitted
        case Admitting => x.account == NotAdmitted
        case Admitted => x.account == Writing || x.account == Kept
        case Appending => x.account == Writing || x.account == Kept
        case Observing => x.account == Writing || x.account == Kept
        case Completing => x.account == Writing || x.account == Kept
        case Committed => x.account == Done
        case Marking => x.account != NotAdmitted
        case Retaining => x.account != NotAdmitted
        case Returning => x.account == Done
        case Acked => x.account == Done
        case Leaving => Unsettled(x)
        case Failed => Unsettled(x)
        case Stuck => Unsettled(x) && x.interrupted
        case _ => x.account == NotAdmitted)
    && (x.disturbed || x.interrupted ==> x.stage == Leaving || x.stage == Failed || x.stage == Stuck)
  }

  /** Another write was admitted after this call's commit. */
  predicate OtherSince(log: seq<Event>, c: nat) {
    exists i :: 0 <= i < |log| && log[i] == CommitMarked(c) && OtherAdmitted in log[i..]
  }

  /** A commit can be undone until another write is admitted. */
  predicate UndoableInv(s: State, c: nat)
    requires c < |s.calls|
  {
    var x := s.calls[c];
    && (x.disturbed ==> OtherSince(s.log, c))
    && (x.account == Done && Holding(x.stage) ==>
          CommitMarked(c) in s.log && (Undoable(s, c) || OtherSince(s.log, c)))
  }

  ghost predicate CallInv(s: State, c: nat)
    requires c < |s.calls|
  {
    LeaseInv(s, c) && CallLogged(s, c) && AccountInv(s, c) && UndoableInv(s, c)
  }

  lemma OtherSinceGrows(log: seq<Event>, longer: seq<Event>, c: nat)
    requires log <= longer && OtherSince(log, c)
    ensures OtherSince(longer, c)
  {
    var i :| 0 <= i < |log| && log[i] == CommitMarked(c) && OtherAdmitted in log[i..];
    var j :| 0 <= j < |log[i..]| && log[i..][j] == OtherAdmitted;
    assert longer[i] == CommitMarked(c) && longer[i..][j] == OtherAdmitted;
  }

  lemma OtherSinceAdded(log: seq<Event>, c: nat)
    requires CommitMarked(c) in log
    ensures OtherSince(log + [OtherAdmitted], c)
  {
    var i :| 0 <= i < |log| && log[i] == CommitMarked(c);
    assert (log + [OtherAdmitted])[i..][|log| - i] == OtherAdmitted;
  }

  ghost predicate Inv(s: State) {
    Lifecycle(s) && LogInv(s) && forall c :: 0 <= c < |s.calls| ==> CallInv(s, c)
  }

  lemma OpeningHolds(s: State)
    requires Opening(s)
    ensures Inv(s)
  {
  }

  // ----- one call's step -----

  /** What a step of call `c` leaves alone. */
  ghost predicate Moves(s: State, t: State, c: nat) {
    && |t.calls| == |s.calls| && (forall d :: 0 <= d < |s.calls| && d != c ==> t.calls[d] == s.calls[d])
    && (t.lease == s.lease || (s.lease.None? && !s.revoking && t.lease == Some(c)) || (s.lease == Some(c) && t.lease.None?))
    && (t.lease == s.lease ==> t.marker == s.marker || (s.lease == Some(c) && t.marker == Some(c)))
    && (s.revoking ==> t.revoking) && (s.closed ==> t.closed) && (s.started ==> t.started)
    && (t.active == s.active
        || (s.lease == Some(c)
            && ((s.active.None? && t.active == Some(Lease(c))) || (s.active == Some(Lease(c)) && t.active.None?))))
    && t.moves == s.moves && s.log <= t.log && forall d: nat :: d != c && LeaseBegun(d) in t.log ==> LeaseBegun(d) in s.log
  }

  /** The step keeps everything about the owner and about the call itself. */
  ghost predicate Good(s: State, t: State, c: nat) {
    Moves(s, t, c) && c < |t.calls| && Lifecycle(t) && LogInv(t) && CallInv(t, c)
  }

  ghost predicate Before(s: State, c: nat) {
    c < |s.calls| && Lifecycle(s) && LogInv(s) && CallInv(s, c)
  }

  lemma OtherCallStands(s: State, t: State, c: nat, d: nat)
    requires d < |s.calls| && c != d && Moves(s, t, c) && Lifecycle(s) && CallInv(s, d)
    requires c < |s.calls| && LeaseInv(s, c)
    ensures CallInv(t, d)
  {
    hide OtherSince;
    if OtherSince(s.log, d) {
      OtherSinceGrows(s.log, t.log, d);
    }
  }

  lemma SafeExtends(log: seq<Event>, e: Event)
    requires Safe(log) && Allowed(log, e)
    ensures Safe(log + [e])
  {
    hide Allowed;
    var longer := log + [e];
    forall k | 0 <= k < |longer|
      ensures Allowed(longer[..k], longer[k])
    {
      if k < |log| {
        assert longer[..k] == log[..k];
      } else {
        assert longer[..k] == log;
      }
    }
  }

  lemma BeginLogged(log: seq<Event>, c: nat, ended: bool, calls: nat)
    requires Agrees(log, None, false, false, ended, calls) && LeaseBegun(c) !in log && c < calls
    ensures Agrees(log + [LeaseBegun(c)], Some(c), false, false, ended, calls)
  {
    hide Safe;
    ReleasedWasBegun(log, c);
    assert Allowed(log, LeaseBegun(c));
    SafeExtends(log, LeaseBegun(c));
    Kinds(log, LeaseBegun(c));
  }

  lemma ReleasedWasBegun(log: seq<Event>, c: nat)
    requires Safe(log)
    ensures LeaseReleased(c) in log ==> LeaseBegun(c) in log
  {
    if LeaseReleased(c) in log {
      var k :| 0 <= k < |log| && log[k] == LeaseReleased(c);
      assert Allowed(log[..k], log[k]);
    }
  }

  /** Native events of a longer log. */
  lemma Kinds(log: seq<Event>, e: Event)
    ensures (exists i :: 0 <= i < |log + [e]| && (log + [e])[i].NativeStarted?)
            <==> e.NativeStarted? || exists i :: 0 <= i < |log| && log[i].NativeStarted?
    ensures (exists i :: 0 <= i < |log + [e]| && (log + [e])[i].NativeEnded?)
            <==> e.NativeEnded? || exists i :: 0 <= i < |log| && log[i].NativeEnded?
  {
    var longer := log + [e];
    assert longer[|log|] == e && forall i :: 0 <= i < |log| ==> longer[i] == log[i];
  }

  lemma ReleaseLogged(log: seq<Event>, c: nat, revoking: bool, started: bool, ended: bool, calls: nat)
    requires Agrees(log, Some(c), revoking, started, ended, calls)
    ensures Agrees(log + [LeaseReleased(c)], None, revoking, started, ended, calls)
  {
    hide Safe;
    SafeExtends(log, LeaseReleased(c));
    Kinds(log, LeaseReleased(c));
  }

  /** Events that change none of the owner's fields. */
  lemma PlainLogged(log: seq<Event>, e: Event, lease: Option<nat>, revoking: bool, started: bool, ended: bool, calls: nat)
    requires Agrees(log, lease, revoking, started, ended, calls) && Allowed(log, e)
    requires e.CommitMarked? || e.AckReturned? || e.CloseReturned? || e.OtherAdmitted?
    ensures Agrees(log + [e], lease, revoking, started, ended, calls)
  {
    hide Safe;
    SafeExtends(log, e);
    Kinds(log, e);
  }

  lemma RevokeLogged(log: seq<Event>, lease: Option<nat>, revoking: bool, started: bool, ended: bool, calls: nat)
    requires Agrees(log, lease, revoking, started, ended, calls)
    ensures Agrees(log + [Revoked], lease, true, started, ended, calls)
  {
    hide Safe;
    SafeExtends(log, Revoked);
    Kinds(log, Revoked);
  }

  lemma StartLogged(log: seq<Event>, c: nat, ended: bool, calls: nat)
    requires Agrees(log, None, true, false, ended, calls)
    ensures Agrees(log + [NativeStarted(c)], None, true, true, ended, calls)
  {
    hide Safe;
    assert Allowed(log, NativeStarted(c)) by {
      forall i | 0 <= i < |log| && log[i].LeaseBegun?
        ensures LeaseReleased(log[i].call) in log
      {
        assert LeaseBegun(log[i].call) in log;
      }
    }
    SafeExtends(log, NativeStarted(c));
    Kinds(log, NativeStarted(c));
  }

  lemma EndLogged(log: seq<Event>, c: nat, lease: Option<nat>, revoking: bool, started: bool, ended: bool, calls: nat)
    requires Agrees(log, lease, revoking, started, ended, calls) && NativeStarted(c) in log
    ensures Agrees(log + [NativeEnded(c)], lease, revoking, started, true, calls)
  {
    hide Safe;
    SafeExtends(log, NativeEnded(c));
    Kinds(log, NativeEnded(c));
  }

  // ----- the steps of an append -----

  lemma BeginLeaseGood(s: State, c: nat)
    requires Before(s, c) && s.calls[c].stage == AppendReady
    ensures Good(s, BeginLease(s, c), c)
  {
    hide OtherSince, Agrees;
    if !(s.closed || s.revoking || s.lease.Some? || s.uncertain) {
      BeginLogged(s.log, c, s.ended, |s.calls|);
    }
  }

  /** Transitions that move a call to another stage and nothing else. */
  predicate Plain(from: Stage, to: Stage) {
    match from
    case Leased => to == Admitting || to == Leaving
    case Admitting => to == Leaving
    case Admitted => to == Appending || to == Marking
    case Appending => to == Observing || to == Marking
    case Observing => to == Completing || to == Marking
    case Completing => to == Marking
    case Committed => to == Returning || to == Marking
    case _ => false
  }

  lemma ToGood(s: State, c: nat, to: Stage)
    requires Before(s, c) && Plain(s.calls[c].stage, to)
    ensures Good(s, To(s, c, to), c)
  {
    hide OtherSince, Agrees;
  }

  lemma AdmitGood(s: State, c: nat)
    requires Before(s, c) && s.calls[c].stage == Admitting
    ensures Good(s, Admit(s, c), c)
  {
    hide OtherSince, Agrees;
  }

  lemma RetainGood(s: State, c: nat, stage: Stage)
    requires Before(s, c) && Holding(s.calls[c].stage) && s.calls[c].stage != Leaving && s.calls[c].stage != Stuck
    requires s.calls[c].account == Writing || (s.calls[c].account == Done && s.active.None?)
    requires stage == Marking || stage == Leaving
    ensures Good(s, To(Retain(s, c), c, stage), c)
  {
    hide OtherSince, Agrees;
  }

  lemma CompleteGood(s: State, c: nat)
    requires Before(s, c) && s.calls[c].stage == Completing
    ensures Good(s, Complete(s, c), c)
  {
    hide OtherSince, Agrees;
    if !s.alive || s.active != Some(Lease(c)) {
    } else if !LeaseCurrent(s, c) || s.marker.Some? {
      RetainGood(s, c, Marking);
    } else {
      CommitAllowed(s, c);
      PlainLogged(s.log, CommitMarked(c), s.lease, s.revoking, s.started, s.ended, |s.calls|);
    }
  }

  lemma CommitAllowed(s: State, c: nat)
    requires LogInv(s) && LeaseCurrent(s, c)
    ensures Allowed(s.log, CommitMarked(c))
  {
  }

  lemma RetainingGood(s: State, c: nat)
    requires Before(s, c) && s.calls[c].stage == Retaining
    ensures Good(s, To(Settle(s, c), c, Leaving), c)
  {
    hide OtherSince, Agrees;
    var account := s.calls[c].account;
    if account == Writing || (account == Done && Undoable(s, c)) {
      RetainGood(s, c, Leaving);
    } else if account == Done {
      NotUndoneGood(s, c);
    }
  }

  lemma NotUndoneGood(s: State, c: nat)
    requires Before(s, c) && s.calls[c].stage == Retaining && s.calls[c].account == Done && !Undoable(s, c)
    ensures Good(s, To(Put(s, c, s.calls[c].(disturbed := true)), c, Leaving), c)
  {
    hide OtherSince, Agrees;
  }

  lemma ReleaseGood(s: State, c: nat)
    requires Before(s, c) && s.lease == Some(c)
    ensures var t := ReleaseLease(s, c);
            t.lease.None? && LogInv(t) && t.log == s.log + [LeaseReleased(c)]
  {
    hide OtherSince, Agrees;
    ReleaseLogged(s.log, c, s.revoking, s.started, s.ended, |s.calls|);
  }

  lemma ReturningGood(s: State, c: nat)
    requires Before(s, c) && s.calls[c].stage == Returning
    ensures Good(s, Log(To(ReleaseLease(s, c), c, Acked), AckReturned(c)), c)
  {
    hide OtherSince, Agrees;
    ReleaseGood(s, c);
    if s.calls[c].disturbed {
      OtherSinceGrows(s.log, s.log + [LeaseReleased(c)] + [AckReturned(c)], c);
    }
    var log := s.log + [LeaseReleased(c)];
    PlainLogged(log, AckReturned(c), None, s.revoking, s.started, s.ended, |s.calls|);
  }

  lemma LeavingGood(s: State, c: nat)
    requires Before(s, c) && s.calls[c].stage == Leaving
    ensures Good(s, To(ReleaseLease(s, c), c, Failed), c)
  {
    LeavingKeepsCall(s, c);
    hide OtherSince, Agrees, CallInv;
    LeavingReleases(s, c);
    ReleaseGood(s, c);
  }

  lemma LeavingReleases(s: State, c: nat)
    requires Before(s, c) && s.calls[c].stage == Leaving
    ensures s.lease == Some(c)
    ensures var t := To(ReleaseLease(s, c), c, Failed);
            && t.lease.None? && t.active == s.active && t.log == s.log + [LeaseReleased(c)]
            && |t.calls| == |s.calls| && t.calls[c] == s.calls[c].(stage := Failed)
  {
    hide OtherSince, Agrees;
  }

  lemma LeavingKeepsCall(s: State, c: nat)
    requires Before(s, c) && s.calls[c].stage == Leaving
    ensures CallInv(To(ReleaseLease(s, c), c, Failed), c)
  {
    LeavingReleases(s, c);
    hide OtherSince, Agrees, LogInv, To, Put, Log, ReleaseLease, Lifecycle;
    if s.calls[c].disturbed {
      OtherSinceGrows(s.log, s.log + [LeaseReleased(c)], c);
    }
  }

  lemma StayGood(s: State, c: nat)
    requires Before(s, c)
    ensures Good(s, s, c)
  {
    hide OtherSince, Agrees;
  }

  /** The acknowledgement marker is always the call's own when it looks. */
  lemma MarkerFound(s: State, c: nat)
    requires Before(s, c) && s.calls[c].stage == Committed
    ensures s.marker == Some(c)
  {
  }

  lemma AppendGoGood(s: State, c: nat)
    requires c < |s.calls| && Before(s, c) && !IsClose(s.calls[c].stage)
    ensures Good(s, AppendGo(s, c), c)
  {
    hide OtherSince, Agrees, Good, BeginLease, Admit, Complete, Settle, ReleaseLease, Log, Moves, To, Put, Before, LeaseCurrent;
    StayGood(s, c);
    match s.calls[c].stage
    case AppendReady => BeginLeaseGood(s, c);
    case Leased => ToGood(s, c, Admitting);
    case Admitting => AdmitGood(s, c);
    case Admitted =>
      ToGood(s, c, if s.alive && s.active == Some(Lease(c)) && LeaseCurrent(s, c) then Appending else Marking);
    case Appending => ToGood(s, c, if LeaseCurrent(s, c) then Observing else Marking);
    case Observing => ToGood(s, c, if LeaseCurrent(s, c) then Completing else Marking);
    case Completing => CompleteGood(s, c);
    case Committed => MarkerFound(s, c); ToGood(s, c, Returning);
    case Marking => MarkingGood(s, c);
    case Retaining => RetainingGood(s, c);
    case Returning => ReturningGood(s, c);
    case Leaving => LeavingGood(s, c);
    case _ =>
  }

  lemma MarkingGood(s: State, c: nat)
    requires Before(s, c) && s.calls[c].stage == Marking
    ensures Good(s, To(s.(uncertain := true), c, Retaining), c)
  {
    hide OtherSince, Agrees;
  }

  lemma CompletingIsWriting(s: State, c: nat)
    requires Before(s, c) && s.active == Some(Lease(c))
    ensures s.calls[c].account == Writing
  {
  }

  lemma AppendFaultGood(s: State, c: nat, bound: bool)
    requires c < |s.calls| && Before(s, c) && !IsClose(s.calls[c].stage)
    ensures Good(s, AppendFault(s, c, bound), c)
  {
    hide OtherSince, Agrees, Good, Retain, Moves, To, Put, Before;
    StayGood(s, c);
    match s.calls[c].stage
    case Leased => ToGood(s, c, Leaving);
    case Admitting => ToGood(s, c, Leaving);
    case Admitted => ToGood(s, c, Marking);
    case Appending => ToGood(s, c, Marking);
    case Observing => ToGood(s, c, Marking);
    case Completing =>
      ToGood(s, c, Marking);
      if bound && s.alive && s.active == Some(Lease(c)) {
        CompletingIsWriting(s, c);
        RetainGood(s, c, Marking);
      }
    case Committed => ToGood(s, c, Marking);
    case _ =>
  }

  lemma EscapeHeldGood(s: State, c: nat)
    requires Before(s, c) && s.calls[c].stage in {Leased, Returning, Leaving}
    ensures Good(s, Escape(s, c, true), c)
  {
    hide OtherSince, Agrees, ReleaseLease;
  }

  lemma EscapeReleasedGood(s: State, c: nat)
    requires Before(s, c) && s.calls[c].stage in {Leased, Returning, Leaving}
    ensures Good(s, Escape(s, c, false), c)
  {
    hide OtherSince, Agrees;
    ReleaseGood(s, c);
    if s.calls[c].disturbed {
      OtherSinceGrows(s.log, s.log + [LeaseReleased(c)], c);
    }
  }

  lemma EscapeGood(s: State, c: nat, held: bool)
    requires Before(s, c) && s.calls[c].stage in {Leased, Returning, Leaving}
    ensures Good(s, Escape(s, c, held), c)
  {
    hide Before, Good, Escape;
    if held {
      EscapeHeldGood(s, c);
    } else {
      EscapeReleasedGood(s, c);
    }
  }

  lemma LostAdmissionGood(s: State, c: nat)
    requires Before(s, c) && s.calls[c].stage == Admitting
    ensures Good(s, AppendInterrupt(s, c, false), c) && Good(s, AppendInterrupt(s, c, true), c)
  {
    hide OtherSince, Agrees;
  }

  lemma LostHandlerGood(s: State, c: nat)
    requires Before(s, c) && s.calls[c].stage in {Marking, Retaining}
    ensures Good(s, Put(s, c, s.calls[c].(stage := Leaving, interrupted := true)), c)
  {
    hide OtherSince, Agrees;
  }

  lemma AppendInterruptGood(s: State, c: nat, held: bool)
    requires c < |s.calls| && Before(s, c) && !IsClose(s.calls[c].stage)
    ensures Good(s, AppendInterrupt(s, c, held), c)
  {
    hide OtherSince, Agrees, Good, Escape, Admit, AppendFault, Moves, To, Put, Before;
    AppendFaultGood(s, c, false);
    match s.calls[c].stage
    case Leased => EscapeGood(s, c, true); ToGood(s, c, Leaving);
    case Admitting => LostAdmissionGood(s, c);
    case Marking => LostHandlerGood(s, c);
    case Retaining => LostHandlerGood(s, c);
    case Returning => EscapeGood(s, c, held);
    case Leaving => EscapeGood(s, c, held);
    case _ =>
  }

  // ----- the steps of a close -----

  lemma CloseAtOnceGood(s: State, c: nat)
    requires Before(s, c) && s.calls[c].stage == CloseReady && !s.closed && s.lease.None?
    ensures
      var moved := To(s.(revoking := true, closed := true, started := true), c, ClosingNative);
      Good(s, Log(Log(moved, Revoked), NativeStarted(c)), c)
  {
    hide OtherSince, Agrees;
    RevokeLogged(s.log, None, s.revoking, s.started, s.ended, |s.calls|);
    StartLogged(s.log + [Revoked], c, s.ended, |s.calls|);
  }

  lemma CloseUnderLeaseGood(s: State, c: nat)
    requires Before(s, c) && s.calls[c].stage == CloseReady && !s.closed && s.lease.Some?
    ensures Good(s, Log(To(s.(revoking := true), c, AwaitingLease(s.lease.value)), Revoked), c)
  {
    hide OtherSince, Agrees, Unsettled;
    RevokeLogged(s.log, s.lease, s.revoking, s.started, s.ended, |s.calls|);
  }

  lemma CloseRefusedGood(s: State, c: nat, stage: Stage)
    requires Before(s, c) && s.calls[c].stage == CloseReady
    requires stage == Reentrant || (stage == AwaitingNative && s.closed)
    ensures Good(s, To(s, c, stage), c)
  {
    hide OtherSince, Agrees, Unsettled;
  }

  lemma BeginCloseGood(s: State, c: nat)
    requires Before(s, c) && s.calls[c].stage == CloseReady
    ensures Good(s, BeginClose(s, c), c)
  {
    hide Before, Good, To, Log;
    CloseRefusedGood(s, c, Reentrant);
    if s.closed {
      CloseRefusedGood(s, c, AwaitingNative);
    } else if s.lease.Some? {
      CloseUnderLeaseGood(s, c);
    } else {
      CloseAtOnceGood(s, c);
    }
  }

  lemma AwaitedGood(s: State, c: nat)
    requires Before(s, c) && s.calls[c].stage.AwaitingLease? && s.lease != Some(s.calls[c].stage.lease)
    ensures Good(s, CloseGo(s, c), c)
  {
    hide OtherSince, Agrees;
    if !s.started {
      StartLogged(s.log, c, s.ended, |s.calls|);
    }
  }

  lemma ClosingGood(s: State, c: nat, raised: bool)
    requires Before(s, c) && s.calls[c].stage == ClosingNative
    ensures Good(s, if raised then CloseFault(s, c) else CloseGo(s, c), c)
  {
    hide OtherSince, Agrees;
    EndLogged(s.log, c, s.lease, s.revoking, s.started, s.ended, |s.calls|);
    var log := s.log + [NativeEnded(c)];
    assert log[|s.log|].NativeEnded?;
    PlainLogged(log, CloseReturned(c), s.lease, s.revoking, s.started, true, |s.calls|);
  }

  lemma EndedIsLogged(s: State)
    requires LogInv(s) && s.ended
    ensures forall c: nat :: Allowed(s.log, CloseReturned(c))
  {
  }

  lemma ReturnedGood(s: State, c: nat)
    requires Before(s, c) && s.calls[c].stage == AwaitingNative && s.ended
    ensures Good(s, CloseGo(s, c), c)
  {
    hide OtherSince, Agrees;
    EndedIsLogged(s);
    PlainLogged(s.log, CloseReturned(c), s.lease, s.revoking, s.started, s.ended, |s.calls|);
  }

  lemma CloseGoGood(s: State, c: nat)
    requires Before(s, c) && IsClose(s.calls[c].stage)
    ensures Good(s, CloseGo(s, c), c)
  {
    hide OtherSince, Agrees, Good, BeginClose, Log, Moves, Put;
    StayGood(s, c);
    match s.calls[c].stage
    case CloseReady => BeginCloseGood(s, c);
    case AwaitingLease(lease) =>
      if s.lease != Some(lease) {
        AwaitedGood(s, c);
      }
    case ClosingNative => ClosingGood(s, c, false);
    case AwaitingNative =>
      if s.ended {
        ReturnedGood(s, c);
      }
    case _ =>
  }

  lemma CloseFaultGood(s: State, c: nat)
    requires Before(s, c) && IsClose(s.calls[c].stage)
    ensures Good(s, CloseFault(s, c), c)
  {
    hide OtherSince, Agrees, Good, Log, Moves, Put;
    StayGood(s, c);
    if s.calls[c].stage == ClosingNative {
      ClosingGood(s, c, true);
    }
  }

  // ----- the ledger's other users -----

  lemma OtherAdmitUndoable(s: State, c: nat)
    requires c < |s.calls| && UndoableInv(s, c)
    ensures UndoableInv(Log(s.(active := Some(Other)), OtherAdmitted), c)
  {
    hide OtherSince, Holding, Undoable;
    if OtherSince(s.log, c) {
      OtherSinceGrows(s.log, s.log + [OtherAdmitted], c);
    }
    if CommitMarked(c) in s.log {
      OtherSinceAdded(s.log, c);
    }
  }

  lemma OtherAdmitStands(s: State, c: nat)
    requires c < |s.calls| && CallInv(s, c) && s.active.None?
    ensures CallInv(Log(s.(active := Some(Other)), OtherAdmitted), c)
  {
    hide UndoableInv, Holding;
    OtherAdmitUndoable(s, c);
  }

  lemma OtherAdmitKeepsInv(s: State)
    requires Inv(s) && s.active.None?
    ensures Inv(Log(s.(active := Some(Other)), OtherAdmitted))
  {
    hide Agrees, CallInv;
    PlainLogged(s.log, OtherAdmitted, s.lease, s.revoking, s.started, s.ended, |s.calls|);
    var t := Log(s.(active := Some(Other)), OtherAdmitted);
    forall c | 0 <= c < |s.calls|
      ensures CallInv(t, c)
    {
      OtherAdmitStands(s, c);
    }
  }

  lemma OtherEndsKeepsInv(s: State, alive: bool, moves: nat)
    requires Inv(s) && s.active == Some(Other)
    ensures Inv(s.(active := None, alive := alive, moves := moves))
  {
    hide OtherSince, Agrees;
    forall c | 0 <= c < |s.calls|
      ensures CallInv(s.(active := None, alive := alive, moves := moves), c)
    {
      assert CallInv(s, c);
    }
  }

  lemma DownKeepsInv(s: State)
    requires Inv(s)
    ensures Inv(Down(s))
  {
    hide OtherSince, Agrees;
    var t := Down(s);
    forall c | 0 <= c < |s.calls|
      ensures CallInv(t, c)
    {
      assert CallInv(s, c);
    }
  }

  /** Every step of every thread, and of every other user of the ledger, keeps the invariant. */
  lemma ActKeepsInv(s: State, c: nat, a: Action)
    requires Inv(s) && c < |s.calls|
    ensures Inv(Act(s, c, a)) && |Act(s, c, a).calls| == |s.calls|
  {
    hide OtherSince, Agrees, AppendGo, AppendFault, AppendInterrupt, CloseGo, CloseFault, Down, LeaseInv, CallLogged, AccountInv, Lifecycle, Log;
    match a
    case OtherAdmit => if s.alive && s.active.None? { OtherAdmitKeepsInv(s); LogCalls(s.(active := Some(Other)), OtherAdmitted); }
    case OtherCommit => if s.alive && s.active == Some(Other) { OtherEndsKeepsInv(s, s.alive, s.moves + 1); }
    case OtherCancel => if s.alive && s.active == Some(Other) { OtherEndsKeepsInv(s, s.alive, s.moves); }
    case OtherFail => if s.active == Some(Other) { OtherEndsKeepsInv(s, false, s.moves); }
    case LedgerDown => DownKeepsInv(s); DownCalls(s);
    case _ =>
      CallKeepsInv(s, c, a);
  }

  lemma LogCalls(s: State, e: Event)
    ensures Log(s, e).calls == s.calls
  {
  }

  lemma DownCalls(s: State)
    ensures |Down(s).calls| == |s.calls|
  {
  }

  lemma CallKeepsInv(s: State, c: nat, a: Action)
    requires Inv(s) && c < |s.calls| && a in {Go, Fault, FaultBound, Interrupt, InterruptHeld}
    ensures Inv(Act(s, c, a)) && |Act(s, c, a).calls| == |s.calls|
  {
    hide OtherSince, Agrees, AppendGo, AppendFault, AppendInterrupt, CloseGo, CloseFault, LeaseInv, CallLogged, AccountInv, Lifecycle, Moves;
    var t := Act(s, c, a);
    assert CallInv(s, c);
    if IsClose(s.calls[c].stage) {
      CloseGoGood(s, c);
      CloseFaultGood(s, c);
    } else {
      AppendGoGood(s, c);
      AppendFaultGood(s, c, a == FaultBound);
      AppendInterruptGood(s, c, a == InterruptHeld);
    }
    assert Good(s, t, c);
    MovesCalls(s, t, c);
    forall d | 0 <= d < |t.calls|
      ensures CallInv(t, d)
    {
      if d != c {
        assert CallInv(s, d);
        OtherCallStands(s, t, c, d);
      }
    }
  }

  lemma MovesCalls(s: State, t: State, c: nat)
    requires Moves(s, t, c)
    ensures |t.calls| == |s.calls|
  {
  }

  lemma {:induction false} TraceKeepsInv(states: seq<State>, steps: seq<(nat, Action)>, k: nat)
    requires Trace(states, steps) && k < |states|
    ensures Inv(states[k]) && Safe(states[k].log) && |states[k].calls| == |states[0].calls|
  {
    hide Act, Opening;
    if k == 0 {
      OpeningHolds(states[0]);
    } else {
      TraceKeepsInv(states, steps, k - 1);
      ActKeepsInv(states[k - 1], steps[k - 1].0, steps[k - 1].1);
    }
  }

  // ----- what every run shows, over all interleavings -----

  /** The native owner is closed at most once. */
  lemma NativeClosesOnce(states: seq<State>, steps: seq<(nat, Action)>, k: nat, i: nat, j: nat)
    requires Trace(states, steps) && k < |states| && i < j < |states[k].log| && states[k].log[i].NativeStarted?
    ensures !states[k].log[j].NativeStarted?
  {
    TraceKeepsInv(states, steps, k);
    var log := states[k].log;
    assert Allowed(log[..j], log[j]);
    assert log[..j][i] == log[i];
  }

  /** No lease begins once revocation is published. */
  lemma NoLeaseAfterRevocation(states: seq<State>, steps: seq<(nat, Action)>, k: nat, i: nat, j: nat)
    requires Trace(states, steps) && k < |states| && i < j < |states[k].log| && states[k].log[i] == Revoked
    ensures !states[k].log[j].LeaseBegun?
  {
    TraceKeepsInv(states, steps, k);
    var log := states[k].log;
    assert Allowed(log[..j], log[j]);
    assert log[..j][i] == log[i];
  }

  /** Every lease there ever is has been given back when the native close starts. */
  lemma NativeCloseHoldsNoLease(states: seq<State>, steps: seq<(nat, Action)>, k: nat, j: nat, m: nat)
    requires Trace(states, steps) && k < |states| && j < |states[k].log| && states[k].log[j].NativeStarted?
    requires m < |states[k].log| && states[k].log[m].LeaseBegun?
    ensures m < j && LeaseReleased(states[k].log[m].call) in states[k].log[..j]
  {
    TraceKeepsInv(states, steps, k);
    var log := states[k].log;
    assert Allowed(log[..j], log[j]);
    var i :| 0 <= i < |log[..j]| && log[..j][i] == Revoked;
    forall n | i < n < |log|
      ensures !log[n].LeaseBegun?
    {
      NoLeaseAfterRevocation(states, steps, k, i, n);
    }
    assert log[..j][m] == log[m];
  }

  /** An acknowledgement is returned only for a commit marked before revocation, under the call's own lease. */
  lemma AckWasCommittedInTime(states: seq<State>, steps: seq<(nat, Action)>, k: nat, i: nat, c: nat) returns (j: nat)
    requires Trace(states, steps) && k < |states| && i < |states[k].log| && states[k].log[i] == AckReturned(c)
    ensures j < i && states[k].log[j] == CommitMarked(c) && Revoked !in states[k].log[..j]
    ensures LeaseBegun(c) in states[k].log[..j] && LeaseReleased(c) !in states[k].log[..j]
  {
    TraceKeepsInv(states, steps, k);
    var log := states[k].log;
    assert Allowed(log[..i], log[i]);
    j :| 0 <= j < |log[..i]| && log[..i][j] == CommitMarked(c);
    assert Allowed(log[..j], log[j]);
  }

  /** A committed append always finds its own acknowledgement marker, whoever has revoked the lease since. */
  lemma AckCheckNeverFails(states: seq<State>, steps: seq<(nat, Action)>, k: nat, c: nat)
    requires Trace(states, steps) && k < |states| && c < |states[k].calls| && states[k].calls[c].stage == Committed
    ensures states[k].marker == Some(c) && states[k].lease == Some(c)
  {
    hide Trace, Agrees, OtherSince;
    TraceKeepsInv(states, steps, k);
    assert CallInv(states[k], c);
  }

  /** `close` returns normally only after the native close was started and ended. */
  lemma CloseReturnsAfterNative(states: seq<State>, steps: seq<(nat, Action)>, k: nat, m: nat) returns (i: nat, j: nat)
    requires Trace(states, steps) && k < |states| && m < |states[k].log| && states[k].log[m].CloseReturned?
    ensures i < j < m && states[k].log[i].NativeStarted? && states[k].log[j].NativeEnded?
    ensures states[k].log[i].call == states[k].log[j].call
  {
    TraceKeepsInv(states, steps, k);
    var log := states[k].log;
    assert Allowed(log[..m], log[m]);
    j :| 0 <= j < |log[..m]| && log[..m][j].NativeEnded?;
    assert Allowed(log[..j], log[j]);
    i :| 0 <= i < |log[..j]| && log[..j][i] == NativeStarted(log[j].call);
  }

  /** How every append ends: acknowledged with its write completed; or refused with nothing admitted; or with an
      exception, and then with nothing admitted, or its write retained uncertain, or completed without an
      acknowledgement because another write was admitted since its commit. Only an interrupt between an admission and
      its assignment, in the exception handler or in the release of the lease can end it otherwise: with its write
      completed, or still the ledger's active write. */
  lemma EveryExitIsAccounted(states: seq<State>, steps: seq<(nat, Action)>, k: nat, c: nat)
    requires Trace(states, steps) && k < |states| && c < |states[k].calls|
    ensures
      var x := states[k].calls[c];
      && (x.stage == Acked ==> x.account == Done && !x.disturbed && !x.interrupted)
      && (x.stage == Refused ==> x.account == NotAdmitted)
      && (x.stage == Failed || x.stage == Stuck ==>
            || x.account == NotAdmitted || x.account == Kept
            || (x.account == Done && x.disturbed && OtherSince(states[k].log, c))
            || (x.account == Done && x.interrupted)
            || (x.account == Writing && x.interrupted && states[k].active == Some(Lease(c))))
      && (x.stage == Stuck ==> x.interrupted && states[k].lease == Some(c))
  {
    hide OtherSince, Agrees, Trace;
    TraceKeepsInv(states, steps, k);
    assert CallInv(states[k], c);
  }

  /** No admission and no commit was logged in between. */
  predicate Calm(log: seq<Event>, longer: seq<Event>) {
    log <= longer && forall j :: |log| <= j < |longer| ==> longer[j] != OtherAdmitted && !longer[j].CommitMarked?
  }

  lemma CalmTwice(a: seq<Event>, b: seq<Event>, c: seq<Event>)
    requires Calm(a, b) && Calm(b, c)
    ensures Calm(a, c)
  {
    forall j | |a| <= j < |c|
      ensures c[j] != OtherAdmitted && !c[j].CommitMarked?
    {
      assert j < |b| ==> c[j] == b[j];
    }
  }

  /** Accounts stay as they are, but for what is retained. */
  predicate OnlyRetained(before: seq<Call>, after: seq<Call>) {
    |after| == |before|
    && forall d :: 0 <= d < |before| && after[d].account != before[d].account ==> after[d].account == Kept
  }

  /** Nothing is admitted or committed in the step from `s` to `t`. */
  predicate AdmitsNothing(s: State, t: State) {
    t.active == s.active && t.moves == s.moves && OnlyRetained(s.calls, t.calls) && Calm(s.log, t.log)
  }

  /** A call that ended with its write still active. */
  predicate LeftWriting(s: State, c: nat) {
    && c < |s.calls| && s.calls[c].account == Writing && s.active == Some(Lease(c))
    && (s.calls[c].stage == Failed || s.calls[c].stage == Stuck)
  }

  lemma Calms(log: seq<Event>, d: nat)
    ensures Calm(log, log) && Calm(log, log + [LeaseBegun(d)]) && Calm(log, log + [LeaseReleased(d)])
    ensures Calm(log, log + [LeaseReleased(d)] + [AckReturned(d)]) && Calm(log, log + [AckReturned(d)])
    ensures Calm(log, log + [Revoked]) && Calm(log, log + [Revoked] + [NativeStarted(d)])
    ensures Calm(log, log + [NativeStarted(d)]) && Calm(log, log + [NativeEnded(d)])
    ensures Calm(log, log + [NativeEnded(d)] + [CloseReturned(d)]) && Calm(log, log + [CloseReturned(d)])
  {
  }

  /** One call moves on, its write as it was or retained. */
  lemma PutAdmitsNothing(s: State, d: nat, y: Call, c: nat)
    requires d < |s.calls| && LeftWriting(s, c) && d != c && y.account == s.calls[d].account
    ensures OnlyRetained(s.calls, s.calls[d := y])
    ensures forall t: State :: t.calls == s.calls[d := y] && t.active == s.active ==> LeftWriting(t, c)
  {
  }

  /** The steps of an append change the owner's fields, the log and the call, and leave the ledger alone. */
  ghost predicate OneMoves(s: State, t: State, d: nat)
    requires d < |s.calls|
  {
    && t.active == s.active && t.moves == s.moves && Calm(s.log, t.log)
    && |t.calls| == |s.calls| && t.calls == s.calls[d := t.calls[d]] && t.calls[d].account == s.calls[d].account
  }

  lemma OneAdmitsNothing(s: State, t: State, d: nat, c: nat)
    requires d < |s.calls| && LeftWriting(s, c) && d != c && OneMoves(s, t, d)
    ensures AdmitsNothing(s, t) && LeftWriting(t, c)
  {
    hide Calm;
    PutAdmitsNothing(s, d, t.calls[d], c);
  }

  lemma AdmitMovesOne(s: State, d: nat)
    requires d < |s.calls| && AccountInv(s, d) && s.active.Some? && s.active != Some(Lease(d))
    ensures s.calls[d].stage == AppendReady ==> OneMoves(s, BeginLease(s, d), d)
    ensures s.calls[d].stage == Admitting ==> OneMoves(s, Admit(s, d), d)
    ensures s.calls[d].stage == Completing ==> OneMoves(s, Complete(s, d), d)
    ensures s.calls[d].stage == Retaining ==> OneMoves(s, To(Settle(s, d), d, Leaving), d)
  {
    hide Calm;
    Calms(s.log, d);
  }

  lemma ReleaseMovesOne(s: State, d: nat, stage: Stage)
    requires d < |s.calls|
    ensures OneMoves(s, To(s, d, stage), d) && OneMoves(s, s, d) && OneMoves(s, To(s.(uncertain := true), d, stage), d)
    ensures OneMoves(s, To(ReleaseLease(s, d), d, stage), d)
    ensures OneMoves(s, Log(To(ReleaseLease(s, d), d, stage), AckReturned(d)), d)
  {
    hide Calm;
    Calms(s.log, d);
  }

  lemma EscapeMovesOne(s: State, d: nat, held: bool)
    requires d < |s.calls|
    ensures OneMoves(s, Escape(s, d, held), d)
    ensures OneMoves(s, Put(s, d, s.calls[d].(stage := Leaving, interrupted := true)), d)
  {
    hide Calm;
    Calms(s.log, d);
  }

  lemma GoMovesOne(s: State, d: nat)
    requires d < |s.calls| && AccountInv(s, d) && s.active.Some? && s.active != Some(Lease(d))
    ensures OneMoves(s, AppendGo(s, d), d)
  {
    hide OneMoves, To, Log, Settle, BeginLease, Admit, Complete, ReleaseLease, LeaseCurrent, AccountInv;
    AdmitMovesOne(s, d);
    forall stage
      ensures OneMoves(s, To(s, d, stage), d)
    {
      ReleaseMovesOne(s, d, stage);
    }
    ReleaseMovesOne(s, d, Retaining);
    ReleaseMovesOne(s, d, Acked);
    ReleaseMovesOne(s, d, Failed);
  }

  lemma FaultMovesOne(s: State, d: nat, bound: bool)
    requires d < |s.calls| && s.active.Some? && s.active != Some(Lease(d))
    ensures OneMoves(s, AppendFault(s, d, bound), d)
  {
    hide OneMoves, To, Retain;
    ReleaseMovesOne(s, d, Leaving);
    ReleaseMovesOne(s, d, Marking);
  }

  lemma InterruptMovesOne(s: State, d: nat, held: bool)
    requires d < |s.calls| && AccountInv(s, d) && s.active.Some? && s.active != Some(Lease(d))
    ensures OneMoves(s, AppendInterrupt(s, d, held), d)
  {
    hide OneMoves, To, Escape, AppendFault, AccountInv, Admit;
    BusyRefuses(s, d);
    FaultMovesOne(s, d, false);
    EscapeMovesOne(s, d, held);
    EscapeMovesOne(s, d, true);
    ReleaseMovesOne(s, d, Leaving);
    AdmitMovesOne(s, d);
  }

  lemma BusyRefuses(s: State, d: nat)
    requires d < |s.calls| && s.active.Some?
    ensures Admit(s, d) == To(s, d, Leaving) && |To(s, d, Leaving).calls| == |s.calls|
    ensures To(s, d, Leaving).calls[d].stage == Leaving
  {
  }

  lemma ClosingMovesOne(s: State, d: nat)
    requires d < |s.calls|
    ensures OneMoves(s, Log(Log(To(s.(ended := true), d, Closed), NativeEnded(d)), CloseReturned(d)), d)
    ensures OneMoves(s, Log(To(s, d, Closed), CloseReturned(d)), d)
    ensures OneMoves(s, Log(To(s.(ended := true), d, CloseRaised), NativeEnded(d)), d)
    ensures OneMoves(s, Log(To(s.(closed := true, started := true), d, ClosingNative), NativeStarted(d)), d)
  {
    hide Calm;
    Calms(s.log, d);
  }

  lemma RevokingMovesOne(s: State, d: nat, stage: Stage)
    requires d < |s.calls|
    ensures OneMoves(s, Log(To(s.(revoking := true), d, stage), Revoked), d)
    ensures OneMoves(s, Log(Log(To(s.(revoking := true, closed := true, started := true), d, stage), Revoked),
                            NativeStarted(d)), d)
  {
    hide Calm;
    Calms(s.log, d);
  }

  lemma BeginCloseMovesOne(s: State, d: nat)
    requires d < |s.calls|
    ensures OneMoves(s, BeginClose(s, d), d)
  {
    hide OneMoves, To, Log;
    RevokingMovesOne(s, d, ClosingNative);
    ReleaseMovesOne(s, d, AwaitingNative);
    ReleaseMovesOne(s, d, Reentrant);
    if s.lease.Some? {
      RevokingMovesOne(s, d, AwaitingLease(s.lease.value));
    }
  }

  lemma CloseMovesOne(s: State, d: nat)
    requires d < |s.calls|
    ensures OneMoves(s, CloseGo(s, d), d) && OneMoves(s, CloseFault(s, d), d)
  {
    hide OneMoves, To, Log, BeginClose;
    BeginCloseMovesOne(s, d);
    ClosingMovesOne(s, d);
    ReleaseMovesOne(s, d, AwaitingNative);
  }

  /** A call that is over takes no more steps. */
  lemma OverStays(s: State, c: nat, a: Action)
    requires LeftWriting(s, c) && a in {Go, Fault, FaultBound, Interrupt, InterruptHeld}
    ensures Act(s, c, a) == s
  {
  }

  lemma CallAdmitsNothing(s: State, d: nat, a: Action, c: nat)
    requires Inv(s) && d < |s.calls| && LeftWriting(s, c) && a in {Go, Fault, FaultBound, Interrupt, InterruptHeld}
    ensures AdmitsNothing(s, Act(s, d, a)) && LeftWriting(Act(s, d, a), c)
  {
    hide AppendGo, AppendFault, AppendInterrupt, CloseGo, CloseFault, AdmitsNothing, LeaseInv, CallLogged,
      AccountInv, UndoableInv, Agrees, Lifecycle, OneMoves;
    assert CallInv(s, d);
    if d == c {
      OverStays(s, c, a);
      SameAdmitsNothing(s);
    } else {
      CloseMovesOne(s, d);
      GoMovesOne(s, d);
      FaultMovesOne(s, d, a == FaultBound);
      InterruptMovesOne(s, d, a == InterruptHeld);
      OneAdmitsNothing(s, Act(s, d, a), d, c);
    }
  }

  lemma OtherAdmitsNothing(s: State, d: nat, a: Action, c: nat)
    requires d < |s.calls| && LeftWriting(s, c) && a in {OtherAdmit, OtherCommit, OtherCancel, OtherFail}
    ensures Act(s, d, a) == s
  {
  }

  lemma AdmitsNothingTwice(s: State, t: State, u: State)
    requires AdmitsNothing(s, t) && AdmitsNothing(t, u)
    ensures AdmitsNothing(s, u)
  {
    hide Calm;
    CalmTwice(s.log, t.log, u.log);
  }

  /** A write that its call left active keeps the ledger busy: nothing is admitted or committed any more until the
      ledger goes down, and going down retains the write. */
  lemma {:induction false} LeftWriteBlocksTheLedger(states: seq<State>, steps: seq<(nat, Action)>, k: nat, m: nat, c: nat)
    requires Trace(states, steps) && k <= m < |states| && LeftWriting(states[k], c)
    requires forall i :: k <= i < m ==> steps[i].1 != LedgerDown
    ensures AdmitsNothing(states[k], states[m]) && LeftWriting(states[m], c)
    ensures var t := Down(states[m]); !t.alive && t.active.None? && |t.calls| > c && t.calls[c].account == Kept
    decreases m - k
  {
    hide Act, Opening, AdmitsNothing, Inv, LeftWriting;
    if k == m {
      SameAdmitsNothing(states[k]);
    } else {
      LeftWriteBlocksTheLedger(states, steps, k, m - 1, c);
      TraceKeepsInv(states, steps, m - 1);
      var (d, a) := steps[m - 1];
      if a in {Go, Fault, FaultBound, Interrupt, InterruptHeld} {
        CallAdmitsNothing(states[m - 1], d, a, c);
      } else {
        OtherAdmitsNothing(states[m - 1], d, a, c);
        SameAdmitsNothing(states[m - 1]);
      }
      AdmitsNothingTwice(states[k], states[m - 1], states[m]);
    }
    DownRetains(states[m], c);
  }

  lemma SameAdmitsNothing(s: State)
    ensures AdmitsNothing(s, s)
  {
  }

  lemma DownRetains(s: State, c: nat)
    requires LeftWriting(s, c)
    ensures var t := Down(s); !t.alive && t.active.None? && |t.calls| > c && t.calls[c].account == Kept
  {
  }

  // ----- appends that end otherwise -----

  /** One append, alone but for another user of the ledger. */
  function Lone(stage: Stage, account: Account, active: Option<Active>, marker: Option<nat>, uncertain: bool,
                disturbed: bool, interrupted: bool, log: seq<Event>): State
  {
    State(false, false, uncertain, if Holding(stage) then Some(0) else None, marker, false, false, true, active, 0,
          [Call(0, stage, account, 0, disturbed, interrupted)], log)
  }

  function Start(): State { Lone(AppendReady, NotAdmitted, None, None, false, false, false, []) }

  const BEGUN := [] + [LeaseBegun(0)]
  const MARKED := BEGUN + [CommitMarked(0)]
  const OVERTAKEN := MARKED + [OtherAdmitted]

  /** The append's way up to its commit, then another write and a fault before the acknowledgement. */
  function CommitPath(): seq<State> {
    [ Start(),
      Lone(Leased, NotAdmitted, None, None, false, false, false, BEGUN),
      Lone(Admitting, NotAdmitted, None, None, false, false, false, BEGUN),
      Lone(Admitted, Writing, Some(Lease(0)), None, false, false, false, BEGUN),
      Lone(Appending, Writing, Some(Lease(0)), None, false, false, false, BEGUN),
      Lone(Observing, Writing, Some(Lease(0)), None, false, false, false, BEGUN),
      Lone(Completing, Writing, Some(Lease(0)), None, false, false, false, BEGUN),
      Lone(Committed, Done, None, Some(0), false, false, false, MARKED),
      Lone(Committed, Done, Some(Other), Some(0), false, false, false, OVERTAKEN),
      Lone(Marking, Done, Some(Other), Some(0), false, false, false, OVERTAKEN),
      Lone(Retaining, Done, Some(Other), Some(0), true, false, false, OVERTAKEN),
      Lone(Leaving, Done, Some(Other), Some(0), true, true, false, OVERTAKEN),
      Lone(Failed, Done, Some(Other), None, true, true, false, OVERTAKEN + [LeaseReleased(0)]) ]
  }

  function CommitSteps(): seq<(nat, Action)> {
    [(0, Go), (0, Go), (0, Go), (0, Go), (0, Go), (0, Go), (0, Go), (0, OtherAdmit), (0, Fault), (0, Go), (0, Go), (0, Go)]
  }

  /** An interrupt between the admission and its assignment. */
  function LostPath(): seq<State> {
    [ Start(),
      Lone(Leased, NotAdmitted, None, None, false, false, false, BEGUN),
      Lone(Admitting, NotAdmitted, None, None, false, false, false, BEGUN),
      Lone(Leaving, Writing, Some(Lease(0)), None, false, false, true, BEGUN),
      Lone(Failed, Writing, Some(Lease(0)), None, false, false, true, BEGUN + [LeaseReleased(0)]) ]
  }

  function LostSteps(): seq<(nat, Action)> { [(0, Go), (0, Go), (0, Interrupt), (0, Go)] }

  /** A run in which a failed append's write stays completed: commit, another write admitted, then an exception before
      the acknowledgement. */
  lemma InterruptedCommitCanStay() returns (states: seq<State>, steps: seq<(nat, Action)>)
    ensures Trace(states, steps) && |states[|steps|].calls| == 1
    ensures states[|steps|].calls[0].stage == Failed && states[|steps|].calls[0].account == Done
    ensures !states[|steps|].calls[0].interrupted
  {
    hide Act;
    states, steps := CommitPath(), CommitSteps();
    CommitPathStarts();
    CommitPathGoesOn();
    CommitPathCommits();
    CommitPathEnds();
  }

  lemma CommitPathStarts()
    ensures forall k :: 0 <= k < 3 ==> CommitPath()[k + 1] == Act(CommitPath()[k], CommitSteps()[k].0, CommitSteps()[k].1)
  {
    hide CloseGo, CloseFault, AppendInterrupt, AppendFault, Down, Retain, Settle, Complete, ReleaseLease;
  }

  lemma CommitPathGoesOn()
    ensures forall k :: 3 <= k < 6 ==> CommitPath()[k + 1] == Act(CommitPath()[k], CommitSteps()[k].0, CommitSteps()[k].1)
  {
    hide CloseGo, CloseFault, AppendInterrupt, AppendFault, Down, Retain, Settle, Complete, ReleaseLease, BeginLease, Admit;
  }

  lemma CommitPathCommits()
    ensures forall k :: 6 <= k < 9 ==> CommitPath()[k + 1] == Act(CommitPath()[k], CommitSteps()[k].0, CommitSteps()[k].1)
  {
    hide CloseGo, CloseFault, AppendInterrupt, Down, Retain, Admit, BeginLease, Settle, ReleaseLease;
  }

  lemma CommitPathEnds()
    ensures forall k :: 9 <= k < 12 ==> CommitPath()[k + 1] == Act(CommitPath()[k], CommitSteps()[k].0, CommitSteps()[k].1)
  {
    hide CloseGo, CloseFault, AppendInterrupt, AppendFault, Down, Retain, Admit, BeginLease, Complete;
  }

  /** A run in which a failed append's write stays active: an interrupt strikes after the ledger admitted it and before
      the append has hold of the admission. */
  lemma InterruptedAdmissionStaysActive() returns (states: seq<State>, steps: seq<(nat, Action)>)
    ensures Trace(states, steps) && LeftWriting(states[|steps|], 0)
  {
    hide Act;
    states, steps := LostPath(), LostSteps();
    LostPathFollows();
  }

  lemma LostPathFollows()
    ensures forall k :: 0 <= k < 4 ==> LostPath()[k + 1] == Act(LostPath()[k], LostSteps()[k].0, LostSteps()[k].1)
  {
    hide CloseGo, CloseFault, AppendFault, Down, Retain, Settle, Complete, Escape;
  }
}
