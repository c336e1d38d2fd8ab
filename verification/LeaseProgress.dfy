/** What a failed append, a revocation and a dead ledger put an end to, and that nothing else stops a call. */
module LeaseProgress {
  import opened CapacityTypes
  import opened LeaseProtocol

  // ----- an owner marked uncertain -----

  /** An append that is raising, or has raised, with its write admitted and no interrupt in its handler. */
  predicate Raising(x: Call) {
    x.account != NotAdmitted && !x.interrupted && (x.stage == Retaining || x.stage == Leaving || x.stage == Failed)
  }

  predicate Raised(x: Call) { Raising(x) && x.stage == Failed }

  /** Such an append has marked its owner, and once it is over nobody has the lease. */
  predicate Blames(s: State, c: nat)
    requires c < |s.calls|
  {
    (Raising(s.calls[c]) ==> s.uncertain) && (Raised(s.calls[c]) ==> s.lease.None?)
  }

  ghost predicate Blaming(s: State) { forall c :: 0 <= c < |s.calls| ==> Blames(s, c) }

  /** No lease begins, and no append commits or is acknowledged, from one log to the other. */
  predicate NoAppend(log: seq<Event>, longer: seq<Event>) {
    && log <= longer
    && forall j :: |log| <= j < |longer| ==> !longer[j].LeaseBegun? && !longer[j].CommitMarked? && !longer[j].AckReturned?
  }

  lemma NoAppendTwice(a: seq<Event>, b: seq<Event>, c: seq<Event>)
    requires NoAppend(a, b) && NoAppend(b, c)
    ensures NoAppend(a, c)
  {
    forall j | |a| <= j < |c|
      ensures !c[j].LeaseBegun? && !c[j].CommitMarked? && !c[j].AckReturned?
    {
      assert j < |b| ==> c[j] == b[j];
    }
  }

  /** What a step of call `c` does for blame: the mark stays, a marked owner gives no lease away, and the call itself
      is blamed only under a mark and without its lease. */
  predicate Marks(s: State, t: State, c: nat) {
    && (s.uncertain ==> t.uncertain) && (s.uncertain && s.lease.None? ==> t.lease.None?)
    && c < |t.calls| && (Raising(t.calls[c]) ==> t.uncertain) && (Raised(t.calls[c]) ==> t.lease.None?)
  }

  lemma AppendGoMarks(s: State, c: nat)
    requires c < |s.calls| && LeaseInv(s, c) && AccountInv(s, c) && Blames(s, c) && !IsClose(s.calls[c].stage)
    ensures Marks(s, AppendGo(s, c), c)
  {
    hide LeaseCurrent, Undoable, Log, ReleaseLease, Admit, Complete, Settle, BeginLease, To, Put, Retain, Marks, AppendGo;
    match s.calls[c].stage
    case AppendReady => BeginMarks(s, c);
    case Admitting => AdmitMarks(s, c);
    case Completing => CompleteMarks(s, c);
    case Retaining => RetainingMarks(s, c);
    case Returning => ReleasingMarks(s, c);
    case Leaving => ReleasingMarks(s, c);
    case _ => PlainMarks(s, c);
  }

  /** What moving a call to another stage, and logging, do to the fields looked at here. */
  lemma MovingLeaves()
    ensures forall s: State, c: nat, stage: Stage {:trigger To(s, c, stage)} :: c < |s.calls| ==>
              && To(s, c, stage).uncertain == s.uncertain && To(s, c, stage).lease == s.lease
              && To(s, c, stage).started == s.started && To(s, c, stage).ended == s.ended
              && To(s, c, stage).alive == s.alive && To(s, c, stage).log == s.log && |To(s, c, stage).calls| == |s.calls|
              && To(s, c, stage).calls[c] == s.calls[c].(stage := stage)
    ensures forall s: State, e: Event {:trigger Log(s, e)} ::
              && Log(s, e).uncertain == s.uncertain && Log(s, e).lease == s.lease && Log(s, e).calls == s.calls
              && Log(s, e).started == s.started && Log(s, e).ended == s.ended && Log(s, e).alive == s.alive
              && Log(s, e).log == s.log + [e]
  {
  }

  lemma BeginMarks(s: State, c: nat)
    requires c < |s.calls| && s.calls[c].stage == AppendReady && Blames(s, c)
    ensures Marks(s, AppendGo(s, c), c)
  {
  }

  lemma AdmitMarks(s: State, c: nat)
    requires c < |s.calls| && s.calls[c].stage == Admitting && AccountInv(s, c)
    ensures Marks(s, AppendGo(s, c), c)
  {
  }

  lemma CompleteMarks(s: State, c: nat)
    requires c < |s.calls| && s.calls[c].stage == Completing
    ensures Marks(s, AppendGo(s, c), c)
  {
    MovingLeaves();
    hide LeaseCurrent, Settle, BeginLease, Admit, ReleaseLease, Log, To;
  }

  lemma RetainingMarks(s: State, c: nat)
    requires c < |s.calls| && s.calls[c].stage == Retaining && AccountInv(s, c) && Blames(s, c)
    ensures Marks(s, AppendGo(s, c), c)
  {
    hide Undoable, BeginLease, Admit, ReleaseLease, Complete, Log, LeaseCurrent;
  }

  lemma ReleasingMarks(s: State, c: nat)
    requires c < |s.calls| && (s.calls[c].stage == Returning || s.calls[c].stage == Leaving)
    requires LeaseInv(s, c) && Blames(s, c)
    ensures Marks(s, AppendGo(s, c), c)
  {
  }

  lemma PlainMarks(s: State, c: nat)
    requires c < |s.calls| && Blames(s, c) && !IsClose(s.calls[c].stage)
    requires s.calls[c].stage !in {AppendReady, Admitting, Completing, Retaining, Returning, Leaving}
    ensures Marks(s, AppendGo(s, c), c)
  {
    MovingLeaves();
    hide LeaseCurrent, Settle, BeginLease, Admit, Complete, ReleaseLease, Log, To, Put;
  }

  lemma AppendFaultMarks(s: State, c: nat, bound: bool)
    requires c < |s.calls| && AccountInv(s, c) && Blames(s, c)
    ensures Marks(s, AppendFault(s, c, bound), c)
  {
    MovingLeaves();
    hide Log, To;
  }

  lemma EscapeMarks(s: State, c: nat, held: bool)
    requires c < |s.calls|
    ensures Marks(s, Escape(s, c, held), c)
  {
  }

  lemma AppendInterruptMarks(s: State, c: nat, held: bool)
    requires c < |s.calls| && AccountInv(s, c) && Blames(s, c)
    ensures Marks(s, AppendInterrupt(s, c, held), c)
  {
    AppendFaultMarks(s, c, false);
    EscapeMarks(s, c, held);
    EscapeMarks(s, c, true);
    hide AppendFault, Escape;
    if s.calls[c].stage == Admitting {
      LostAdmissionMarks(s, c, held);
    } else {
      hide Admit;
    }
  }

  lemma LostAdmissionMarks(s: State, c: nat, held: bool)
    requires c < |s.calls| && AccountInv(s, c) && s.calls[c].stage == Admitting
    ensures Marks(s, AppendInterrupt(s, c, held), c)
  {
  }

  lemma CloseMarks(s: State, c: nat)
    requires c < |s.calls| && IsClose(s.calls[c].stage)
    ensures Marks(s, CloseGo(s, c), c) && Marks(s, CloseFault(s, c), c)
  {
    MovingLeaves();
    hide BeginClose, Log, To;
    if s.calls[c].stage == CloseReady {
      BeginCloseMarks(s, c);
    }
  }

  lemma BeginCloseMarks(s: State, c: nat)
    requires c < |s.calls| && s.calls[c].stage == CloseReady
    ensures Marks(s, BeginClose(s, c), c)
  {
    MovingLeaves();
    hide Log, To;
  }

  lemma LedgerMarks(s: State, c: nat, a: Action, d: nat)
    requires c < |s.calls| && d < |s.calls| && CallInv(s, d) && Blames(s, d)
    requires a in {OtherAdmit, OtherCommit, OtherCancel, OtherFail, LedgerDown}
    ensures Marks(s, Act(s, c, a), d)
  {
    hide OtherSince;
  }

  /** What a step does to the calls' blame. */
  lemma ActKeepsBlame(s: State, c: nat, a: Action)
    requires Inv(s) && Blaming(s) && c < |s.calls|
    ensures Blaming(Act(s, c, a))
    ensures s.uncertain ==> Act(s, c, a).uncertain
    ensures s.uncertain && s.lease.None? ==> Act(s, c, a).lease.None?
  {
    hide AppendGo, AppendFault, AppendInterrupt, CloseGo, CloseFault, LeaseInv, CallLogged, AccountInv, UndoableInv, Agrees,
      Down, Raising;
    var t := Act(s, c, a);
    LeaseOf(s, c);
    ActKeepsInv(s, c, a);
    assert Blames(s, c);
    if a in {OtherAdmit, OtherCommit, OtherCancel, OtherFail, LedgerDown} {
      forall d | 0 <= d < |s.calls|
        ensures Marks(s, t, d) && Blames(t, d)
      {
        assert CallInv(s, d) && Blames(s, d);
        LedgerMarks(s, c, a, d);
      }
      assert Marks(s, t, c);
    } else {
      CallMarks(s, c, a);
      OthersStand(s, c, a);
      forall d | 0 <= d < |s.calls|
        ensures Blames(t, d)
      {
        assert Blames(s, d);
        assert d != c ==> t.calls[d] == s.calls[d];
      }
    }
  }

  lemma CallMarks(s: State, c: nat, a: Action)
    requires c < |s.calls| && LeaseInv(s, c) && AccountInv(s, c) && Blames(s, c)
    requires a in {Go, Fault, FaultBound, Interrupt, InterruptHeld}
    ensures Marks(s, Act(s, c, a), c)
  {
    hide AppendGo, AppendFault, AppendInterrupt, CloseGo, CloseFault, LeaseInv, AccountInv, Marks, Blames;
    if IsClose(s.calls[c].stage) {
      CloseMarks(s, c);
    } else {
      AppendGoMarks(s, c);
      AppendFaultMarks(s, c, a == FaultBound);
      AppendInterruptMarks(s, c, a == InterruptHeld);
    }
  }

  lemma OthersStand(s: State, c: nat, a: Action)
    requires Inv(s) && c < |s.calls| && a in {Go, Fault, FaultBound, Interrupt, InterruptHeld}
    ensures |Act(s, c, a).calls| == |s.calls|
    ensures forall d :: 0 <= d < |s.calls| && d != c ==> Act(s, c, a).calls[d] == s.calls[d]
  {
    hide AppendGo, AppendFault, AppendInterrupt, CloseGo, CloseFault, LeaseInv, CallLogged, AccountInv, UndoableInv, Agrees,
      Lifecycle;
    assert CallInv(s, c);
    if IsClose(s.calls[c].stage) {
      CloseGoGood(s, c);
      CloseFaultGood(s, c);
    } else {
      AppendGoGood(s, c);
      AppendFaultGood(s, c, a == FaultBound);
      AppendInterruptGood(s, c, a == InterruptHeld);
    }
    assert Moves(s, Act(s, c, a), c);
  }

  /** With nobody under the lease and the owner marked, a step begins nothing. */
  lemma MarkedStaysShut(s: State, c: nat, a: Action)
    requires c < |s.calls| && LeaseInv(s, c) && s.uncertain && s.lease.None?
    ensures NoAppend(s.log, Act(s, c, a).log)
    ensures a == Go && s.calls[c].stage == AppendReady ==> Act(s, c, a) == To(s, c, Refused)
  {
    hide AppendGo, AppendFault, AppendInterrupt, CloseGo, CloseFault, Down;
    NoAppendHere(s.log);
    if IsClose(s.calls[c].stage) {
      CloseAppendsNothing(s, c);
    } else {
      RestAppendsNothing(s, c, a == FaultBound, a == InterruptHeld);
    }
    OthersAppendNothing(s);
  }

  lemma OthersAppendNothing(s: State)
    ensures NoAppend(s.log, Down(s).log) && NoAppend(s.log, s.log + [OtherAdmitted])
  {
  }

  lemma CloseAppendsNothing(s: State, c: nat)
    requires c < |s.calls| && IsClose(s.calls[c].stage)
    ensures NoAppend(s.log, CloseGo(s, c).log) && NoAppend(s.log, CloseFault(s, c).log)
  {
    MovingLeaves();
    hide BeginClose, IsClose, Log, To;
    if s.calls[c].stage == CloseReady {
      BeginCloseAppendsNothing(s, c);
    }
  }

  lemma BeginCloseAppendsNothing(s: State, c: nat)
    requires c < |s.calls|
    ensures NoAppend(s.log, BeginClose(s, c).log)
  {
    MovingLeaves();
    hide Log, To;
  }

  lemma RestAppendsNothing(s: State, c: nat, bound: bool, held: bool)
    requires c < |s.calls| && LeaseInv(s, c) && s.uncertain && s.lease.None? && !IsClose(s.calls[c].stage)
    ensures NoAppend(s.log, AppendGo(s, c).log) && NoAppend(s.log, AppendFault(s, c, bound).log)
    ensures NoAppend(s.log, AppendInterrupt(s, c, held).log)
    ensures s.calls[c].stage == AppendReady ==> AppendGo(s, c) == To(s, c, Refused)
  {
    assert s.calls[c].stage in {AppendReady, Refused, Acked, Failed};
  }

  lemma {:induction false} TraceBlames(states: seq<State>, steps: seq<(nat, Action)>, k: nat)
    requires Trace(states, steps) && k < |states|
    ensures Blaming(states[k])
  {
    hide Act, Inv, Blames;
    if k > 0 {
      TraceBlames(states, steps, k - 1);
      TraceKeepsInv(states, steps, k - 1);
      TraceKeepsInv(states, steps, k);
      ActKeepsBlame(states[k - 1], steps[k - 1].0, steps[k - 1].1);
    } else {
      OpeningBlames(states[0]);
    }
  }

  lemma OpeningBlames(s: State)
    requires Opening(s)
    ensures Blaming(s)
  {
  }

  /** Once an append has ended with an exception, its write admitted and no interrupt in its handler, the owner is shut
      for good: no lease begins, nothing is committed or acknowledged, and every append that starts is refused. */
  lemma {:induction false} NoLeaseAfterFailure(states: seq<State>, steps: seq<(nat, Action)>, k: nat, c: nat, m: nat)
    requires Trace(states, steps) && k <= m < |states| && c < |states[k].calls|
    requires states[k].calls[c].stage == Failed && states[k].calls[c].account != NotAdmitted
    requires !states[k].calls[c].interrupted
    ensures states[m].uncertain && states[m].lease.None? && NoAppend(states[k].log, states[m].log)
    ensures m < |steps| && steps[m].1 == Go && states[m].calls[steps[m].0].stage == AppendReady ==>
              |states[m + 1].calls| == |states[m].calls| && states[m + 1].calls[steps[m].0].stage == Refused
    decreases m
  {
    hide Act, Inv, CallInv, NoAppend, Opening;
    if k == m {
      TraceBlames(states, steps, k);
      assert Blames(states[k], c);
      NoAppendHere(states[k].log);
    } else {
      NoLeaseAfterFailure(states, steps, k, c, m - 1);
      TraceKeepsInv(states, steps, m - 1);
      var (d, a) := steps[m - 1];
      LeaseOf(states[m - 1], d);
      TraceBlames(states, steps, m - 1);
      ActKeepsBlame(states[m - 1], d, a);
      MarkedStaysShut(states[m - 1], d, a);
      NoAppendTwice(states[k].log, states[m - 1].log, states[m].log);
    }
    if m < |steps| && steps[m].1 == Go {
      TraceKeepsInv(states, steps, m);
      LeaseOf(states[m], steps[m].0);
      MarkedStaysShut(states[m], steps[m].0, Go);
    }
  }

  lemma LeaseOf(s: State, c: nat)
    requires Inv(s) && c < |s.calls|
    ensures LeaseInv(s, c) && CallInv(s, c)
  {
    assert CallInv(s, c);
  }

  lemma NoAppendHere(log: seq<Event>)
    ensures NoAppend(log, log)
  {
  }

  // ----- after revocation -----

  /** The stages an append goes forward to only under a lease that nobody has revoked. */
  predicate Forward(stage: Stage) { stage in {Leased, Admitted, Appending, Observing, Completing, Committed} }

  lemma NotForward()
    ensures !Forward(Admitting) && !Forward(Marking) && !Forward(Retaining) && !Forward(Returning) && !Forward(Leaving)
    ensures !Forward(Acked) && !Forward(Failed) && !Forward(Stuck) && !Forward(Refused)
    ensures !Forward(ClosingNative) && !Forward(AwaitingNative) && !Forward(Closed) && !Forward(CloseRaised)
    ensures !Forward(Reentrant) && forall lease :: !Forward(AwaitingLease(lease))
  {
  }

  /** What a step of call `c` does to its stage once revocation is published. */
  predicate GoesNoFurther(s: State, t: State, c: nat)
    requires c < |s.calls|
  {
    c < |t.calls| && (Forward(t.calls[c].stage) ==> t.calls[c].stage == s.calls[c].stage)
  }

  /** The operations that keep every call at its stage, or move the one that makes the step. */
  lemma OperationsMove(s: State, c: nat)
    requires c < |s.calls|
    ensures ReleaseLease(s, c).calls == s.calls
    ensures |Retain(s, c).calls| == |s.calls| && Retain(s, c).calls[c] == s.calls[c].(account := Kept)
    ensures |Settle(s, c).calls| == |s.calls| && Settle(s, c).calls[c].stage == s.calls[c].stage
    ensures |Escape(s, c, true).calls| == |s.calls| && Escape(s, c, true).calls[c].stage == Stuck
    ensures |Escape(s, c, false).calls| == |s.calls| && Escape(s, c, false).calls[c].stage == Failed
  {
    hide Undoable;
  }

  lemma RevokedOperations(s: State, c: nat)
    requires c < |s.calls| && s.revoking
    ensures !LeaseCurrent(s, c) && BeginLease(s, c) == To(s, c, Refused) && Admit(s, c) == To(s, c, Leaving)
    ensures |Complete(s, c).calls| == |s.calls| && Complete(s, c).calls[c].stage == Marking
  {
  }

  lemma RevokedGoStops(s: State, c: nat)
    requires c < |s.calls| && s.revoking && !IsClose(s.calls[c].stage)
    ensures GoesNoFurther(s, AppendGo(s, c), c)
  {
    hide AppendGo, Forward, LeaseCurrent, IsClose;
    match s.calls[c].stage
    case Admitted => RevokedPlainStops(s, c);
    case Appending => RevokedPlainStops(s, c);
    case Observing => RevokedPlainStops(s, c);
    case Leased => RevokedPlainStops(s, c);
    case Committed => RevokedPlainStops(s, c);
    case Marking => RevokedPlainStops(s, c);
    case _ => RevokedOperationStops(s, c);
  }

  lemma RevokedPlainStops(s: State, c: nat)
    requires c < |s.calls| && s.revoking
    requires s.calls[c].stage in {Admitted, Appending, Observing, Leased, Committed, Marking}
    ensures GoesNoFurther(s, AppendGo(s, c), c)
  {
    MovingLeaves();
    RevokedOperations(s, c);
    NotForward();
    hide Forward, To, LeaseCurrent;
  }

  lemma RevokedOperationStops(s: State, c: nat)
    requires c < |s.calls| && s.revoking && !IsClose(s.calls[c].stage)
    requires s.calls[c].stage !in {Admitted, Appending, Observing, Leased, Committed, Marking}
    ensures GoesNoFurther(s, AppendGo(s, c), c)
  {
    MovingLeaves();
    OperationsMove(s, c);
    RevokedOperations(s, c);
    NotForward();
    hide Forward, To, Log, BeginLease, Admit, Complete, Settle, ReleaseLease, IsClose;
  }

  lemma RevokedFaultStops(s: State, c: nat, bound: bool)
    requires c < |s.calls|
    ensures GoesNoFurther(s, AppendFault(s, c, bound), c)
  {
    MovingLeaves();
    OperationsMove(s, c);
    NotForward();
    hide Forward, To, Put, Retain;
  }

  lemma RevokedInterruptStops(s: State, c: nat, held: bool)
    requires c < |s.calls| && s.revoking
    ensures GoesNoFurther(s, AppendInterrupt(s, c, held), c)
  {
    RevokedFaultStops(s, c, false);
    MovingLeaves();
    OperationsMove(s, c);
    RevokedOperations(s, c);
    NotForward();
    hide Forward, To, AppendFault, Escape, Admit;
    match s.calls[c].stage
    case Marking => LostHandlerStops(s, c);
    case Retaining => LostHandlerStops(s, c);
    case _ =>
  }

  lemma LostHandlerStops(s: State, c: nat)
    requires c < |s.calls|
    ensures s.calls[c].stage == Marking || s.calls[c].stage == Retaining ==> GoesNoFurther(s, AppendInterrupt(s, c, false), c)
    ensures s.calls[c].stage == Marking || s.calls[c].stage == Retaining ==> GoesNoFurther(s, AppendInterrupt(s, c, true), c)
  {
  }

  lemma CloseGoesNoFurther(s: State, c: nat)
    requires c < |s.calls| && IsClose(s.calls[c].stage)
    ensures GoesNoFurther(s, CloseGo(s, c), c) && GoesNoFurther(s, CloseFault(s, c), c)
  {
    MovingLeaves();
    NotForward();
    hide Forward, To, Log, BeginClose;
    if s.calls[c].stage == CloseReady {
      BeginCloseGoesNoFurther(s, c);
    }
  }

  lemma BeginCloseGoesNoFurther(s: State, c: nat)
    requires c < |s.calls|
    ensures GoesNoFurther(s, BeginClose(s, c), c)
  {
    MovingLeaves();
    NotForward();
    hide Forward, To, Log;
  }

  lemma LedgerMovesNobody(s: State, c: nat, a: Action)
    requires c < |s.calls| && a in {OtherAdmit, OtherCommit, OtherCancel, OtherFail, LedgerDown}
    ensures |Act(s, c, a).calls| == |s.calls|
    ensures forall d :: 0 <= d < |s.calls| ==>
              Act(s, c, a).calls[d] == s.calls[d].(account := Act(s, c, a).calls[d].account)
  {
  }

  /** Once revocation is published no append begins a lease, is admitted, appends, observes, completes or commits: it
      can only be refused, acknowledged if it had committed, or wind up. */
  lemma RevocationStopsEveryone(states: seq<State>, steps: seq<(nat, Action)>, k: nat, d: nat)
    requires Trace(states, steps) && k < |steps| && Revoked in states[k].log && d < |states[k].calls|
    ensures d < |states[k + 1].calls|
    ensures Forward(states[k + 1].calls[d].stage) ==> states[k + 1].calls[d].stage == states[k].calls[d].stage
  {
    TraceKeepsInv(states, steps, k);
    var s := states[k];
    var (c, a) := steps[k];
    IsRevoking(s);
    hide Act, Inv, Opening, Forward;
    StepStopsEveryone(s, c, a, d);
  }

  lemma StepStopsEveryone(s: State, c: nat, a: Action, d: nat)
    requires Inv(s) && s.revoking && c < |s.calls| && d < |s.calls|
    ensures GoesNoFurther(s, Act(s, c, a), d)
  {
    hide AppendGo, AppendFault, AppendInterrupt, CloseGo, CloseFault, Down, Inv, Forward;
    if a in {OtherAdmit, OtherCommit, OtherCancel, OtherFail, LedgerDown} {
      LedgerMovesNobody(s, c, a);
    } else if d != c {
      OthersStand(s, c, a);
      var t := Act(s, c, a);
      assert d < |t.calls| && t.calls[d] == s.calls[d];
    } else if IsClose(s.calls[c].stage) {
      CloseGoesNoFurther(s, c);
    } else {
      RevokedGoStops(s, c);
      RevokedFaultStops(s, c, a == FaultBound);
      RevokedInterruptStops(s, c, a == InterruptHeld);
    }
  }

  lemma IsRevoking(s: State)
    requires Inv(s)
    ensures s.revoking <==> Revoked in s.log
  {
  }

  // ----- after the ledger's end -----

  /** What a step of call `c` does to a dead ledger: nothing is admitted or committed, and a write can only be retained. */
  predicate Idles(s: State, t: State, c: nat)
    requires c < |s.calls|
  {
    && !t.alive && Calm(s.log, t.log) && c < |t.calls|
    && (t.calls[c].account == s.calls[c].account || t.calls[c].account == Kept)
  }

  lemma DeadOperations(s: State, c: nat)
    requires c < |s.calls| && !s.alive
    ensures Admit(s, c) == To(s, c, Leaving) && Complete(s, c) == To(s, c, Marking)
    ensures Idles(s, BeginLease(s, c), c) && Idles(s, Retain(s, c), c) && Idles(s, ReleaseLease(s, c), c)
    ensures !Settle(s, c).alive && Settle(s, c).log == s.log && Idles(s, Settle(s, c), c)
    ensures Retain(s, c).log == s.log && ReleaseLease(s, c).calls == s.calls
  {
    hide Undoable, Calm;
    Calms(s.log, c);
  }

  lemma DeadPlain(s: State, c: nat)
    requires c < |s.calls| && !s.alive
    ensures forall stage :: Idles(s, To(s, c, stage), c)
    ensures Idles(s, s, c) && Idles(s, Escape(s, c, true), c) && Idles(s, Escape(s, c, false), c)
    ensures Idles(s, Put(s, c, s.calls[c].(stage := Leaving, interrupted := true)), c)
  {
    hide Calm;
    Calms(s.log, c);
  }

  lemma DeadGo(s: State, c: nat)
    requires c < |s.calls| && !s.alive && !IsClose(s.calls[c].stage)
    ensures Idles(s, AppendGo(s, c), c)
  {
    MovingLeaves();
    DeadOperations(s, c);
    DeadPlain(s, c);
    Calms(s.log, c);
    hide To, Log, Put, BeginLease, Admit, Complete, Settle, ReleaseLease, LeaseCurrent, IsClose, Calm, AppendGo;
    match s.calls[c].stage
    case Returning => DeadReturns(s, c);
    case Leaving => DeadReturns(s, c);
    case Marking => DeadReturns(s, c);
    case Retaining => DeadSettles(s, c);
    case _ => DeadRest(s, c);
  }

  lemma DeadReturns(s: State, c: nat)
    requires c < |s.calls| && !s.alive && s.calls[c].stage in {Returning, Leaving, Marking}
    ensures Idles(s, AppendGo(s, c), c)
  {
    hide Calm;
    Calms(s.log, c);
  }

  lemma DeadSettles(s: State, c: nat)
    requires c < |s.calls| && !s.alive && s.calls[c].stage == Retaining
    ensures Idles(s, AppendGo(s, c), c)
  {
    MovingLeaves();
    DeadOperations(s, c);
    hide Calm, Settle, To;
  }

  lemma DeadRest(s: State, c: nat)
    requires c < |s.calls| && !s.alive && !IsClose(s.calls[c].stage)
    requires s.calls[c].stage !in {Returning, Leaving, Marking, Retaining}
    ensures Idles(s, AppendGo(s, c), c)
  {
    DeadOperations(s, c);
    DeadPlain(s, c);
    hide Idles, To, BeginLease, Admit, Complete, LeaseCurrent, Settle, ReleaseLease, Log;
  }

  lemma DeadFault(s: State, c: nat, bound: bool)
    requires c < |s.calls| && !s.alive
    ensures Idles(s, AppendFault(s, c, bound), c)
  {
    DeadPlain(s, c);
    hide Idles, To;
  }

  lemma DeadInterrupt(s: State, c: nat, held: bool)
    requires c < |s.calls| && !s.alive
    ensures Idles(s, AppendInterrupt(s, c, held), c)
  {
    MovingLeaves();
    DeadPlain(s, c);
    DeadFault(s, c, false);
    DeadOperations(s, c);
    hide Idles, To, Escape, AppendFault, Admit, Put;
  }

  lemma DeadClose(s: State, c: nat)
    requires c < |s.calls| && !s.alive
    ensures Idles(s, CloseGo(s, c), c) && Idles(s, CloseFault(s, c), c)
  {
    Calms(s.log, c);
    MovingLeaves();
    hide To, Log, Calm, BeginClose;
    if s.calls[c].stage == CloseReady {
      DeadBeginClose(s, c);
    }
  }

  lemma DeadBeginClose(s: State, c: nat)
    requires c < |s.calls| && !s.alive
    ensures Idles(s, BeginClose(s, c), c)
  {
    Calms(s.log, c);
    MovingLeaves();
    hide To, Log, Calm;
  }

  lemma DeadLedger(s: State, c: nat, a: Action, d: nat)
    requires c < |s.calls| && d < |s.calls| && !s.alive
    requires a in {OtherAdmit, OtherCommit, OtherCancel, OtherFail, LedgerDown}
    ensures Idles(s, Act(s, c, a), d)
  {
    hide Calm;
    Calms(s.log, c);
  }

  lemma DeadStep(s: State, c: nat, a: Action, d: nat)
    requires Inv(s) && !s.alive && c < |s.calls| && d < |s.calls|
    ensures Idles(s, Act(s, c, a), d)
  {
    hide AppendGo, AppendFault, AppendInterrupt, CloseGo, CloseFault, Down, Inv, Calm;
    if a in {OtherAdmit, OtherCommit, OtherCancel, OtherFail, LedgerDown} {
      DeadLedger(s, c, a, d);
    } else {
      if IsClose(s.calls[c].stage) {
        DeadClose(s, c);
      } else {
        DeadGo(s, c);
        DeadFault(s, c, a == FaultBound);
        DeadInterrupt(s, c, a == InterruptHeld);
      }
      OthersStand(s, c, a);
      var t := Act(s, c, a);
      assert d != c ==> t.calls[d] == s.calls[d];
    }
  }

  /** A ledger that has gone down admits and commits nothing more, for the journal or for anyone else; what it still
      holds is retained. */
  lemma {:induction false} DeadLedgerTakesNothing(states: seq<State>, steps: seq<(nat, Action)>, k: nat, m: nat)
    requires Trace(states, steps) && k <= m < |states| && !states[k].alive
    ensures !states[m].alive && Calm(states[k].log, states[m].log) && OnlyRetained(states[k].calls, states[m].calls)
    decreases m
  {
    hide Act, Inv, Opening, Calm;
    Calms(states[k].log, 0);
    if k < m {
      DeadLedgerTakesNothing(states, steps, k, m - 1);
      TraceKeepsInv(states, steps, m - 1);
      TraceKeepsInv(states, steps, m);
      var (c, a) := steps[m - 1];
      forall d | 0 <= d < |states[m].calls|
        ensures states[m].calls[d].account != states[m - 1].calls[d].account ==> states[m].calls[d].account == Kept
      {
        DeadStep(states[m - 1], c, a, d);
      }
      DeadStep(states[m - 1], c, a, c);
      CalmTwice(states[k].log, states[m - 1].log, states[m].log);
    }
  }

  // ----- who waits for whom -----

  /** What a close's step does to whom it waits for. */
  predicate Waits(s: State, t: State, c: nat)
    requires c < |s.calls|
  {
    && c < |t.calls| && t.calls[c].thread == s.calls[c].thread
    && (match t.calls[c].stage
        case AwaitingLease(lease) =>
          t.calls[c].stage == s.calls[c].stage
          || (s.lease == Some(lease) && lease < |s.calls| && s.calls[lease].thread != s.calls[c].thread)
        case AwaitingNative => t.started
        case _ => true)
    && (s.calls[c].stage == ClosingNative && t.calls[c].stage != ClosingNative ==> t.ended)
    && (t.started && !s.started ==> t.calls[c].stage == ClosingNative)
    && (s.started ==> t.started) && (s.ended ==> t.ended)
  }

  lemma CloseWaits(s: State, c: nat)
    requires c < |s.calls| && IsClose(s.calls[c].stage) && Lifecycle(s) && (s.calls[c].stage == AwaitingNative ==> s.started)
    ensures Waits(s, CloseGo(s, c), c) && Waits(s, CloseFault(s, c), c)
  {
    MovingLeaves();
    hide To, Log, BeginClose;
    if s.calls[c].stage == CloseReady {
      BeginCloseWaits(s, c);
    }
  }

  lemma BeginCloseWaits(s: State, c: nat)
    requires c < |s.calls| && s.calls[c].stage == CloseReady && Lifecycle(s)
    ensures Waits(s, BeginClose(s, c), c)
    ensures BeginClose(s, c).calls[c].stage == Reentrant
            <==> s.lease.Some? && s.calls[s.lease.value].thread == s.calls[c].thread
  {
    MovingLeaves();
    hide To, Log;
  }

  /** A call that is over. */
  predicate Over(stage: Stage) {
    stage in {Acked, Failed, Stuck, Refused, Closed, CloseRaised, Reentrant}
  }

  /** A step of an append, as far as its thread, its stage and the native close go. */
  predicate Keeps(s: State, t: State, c: nat)
    requires c < |s.calls|
  {
    && |t.calls| == |s.calls| && t.calls[c].thread == s.calls[c].thread && t.started == s.started && t.ended == s.ended
    && (IsClose(t.calls[c].stage) ==> IsClose(s.calls[c].stage))
  }

  /** And it has got on. */
  predicate GetsOn(s: State, t: State, c: nat)
    requires c < |s.calls|
  {
    Keeps(s, t, c) && t.calls[c].stage != s.calls[c].stage
  }

  lemma KeepsWaits(s: State, t: State, c: nat)
    requires c < |s.calls| && Keeps(s, t, c) && !IsClose(s.calls[c].stage)
    ensures Waits(s, t, c)
  {
  }

  lemma ToKeeps(s: State, c: nat, stage: Stage)
    requires c < |s.calls| && !IsClose(stage)
    ensures Keeps(s, To(s, c, stage), c) && Keeps(s, To(s.(uncertain := true), c, stage), c) && Keeps(s, s, c)
    ensures To(s, c, stage).calls[c].stage == stage && To(s.(uncertain := true), c, stage).calls[c].stage == stage
    ensures Keeps(s, Put(s, c, s.calls[c].(stage := stage, interrupted := true)), c)
  {
  }

  lemma BeginGetsOn(s: State, c: nat)
    requires c < |s.calls| && s.calls[c].stage == AppendReady
    ensures GetsOn(s, AppendGo(s, c), c)
  {
    MovingLeaves();
    hide To, Log;
  }

  lemma AdmitGetsOn(s: State, c: nat)
    requires c < |s.calls| && s.calls[c].stage == Admitting
    ensures GetsOn(s, AppendGo(s, c), c)
    ensures Admit(s, c).calls[c].stage == Admitted ==>
              Keeps(s, Put(Admit(s, c), c, Admit(s, c).calls[c].(stage := Leaving, interrupted := true)), c)
  {
    MovingLeaves();
    hide To;
  }

  lemma RetainKeeps(s: State, c: nat, stage: Stage)
    requires c < |s.calls| && !IsClose(stage)
    ensures Keeps(s, Retain(s, c), c) && Keeps(s, To(Retain(s, c), c, stage), c)
    ensures To(Retain(s, c), c, stage).calls[c].stage == stage
  {
  }

  lemma CompleteGetsOn(s: State, c: nat)
    requires c < |s.calls| && s.calls[c].stage == Completing
    ensures GetsOn(s, AppendGo(s, c), c)
  {
    RetainKeeps(s, c, Marking);
    ToKeeps(s, c, Marking);
    hide To, Retain, LeaseCurrent;
  }

  lemma SettleGetsOn(s: State, c: nat)
    requires c < |s.calls| && s.calls[c].stage == Retaining
    ensures GetsOn(s, AppendGo(s, c), c)
  {
    MovingLeaves();
    SettleKeeps(s, c);
    hide To, Settle;
  }

  lemma SettleKeeps(s: State, c: nat)
    requires c < |s.calls|
    ensures |Settle(s, c).calls| == |s.calls| && Settle(s, c).calls[c].thread == s.calls[c].thread
    ensures Settle(s, c).started == s.started && Settle(s, c).ended == s.ended
  {
    hide Undoable;
  }

  lemma ReleaseGetsOn(s: State, c: nat)
    requires c < |s.calls|
    ensures s.calls[c].stage == Returning || s.calls[c].stage == Leaving ==> GetsOn(s, AppendGo(s, c), c)
  {
    MovingLeaves();
    ReleaseKeeps(s, c);
    hide To, Log, ReleaseLease;
  }

  lemma ReleaseKeeps(s: State, c: nat)
    ensures var t := ReleaseLease(s, c);
            t.calls == s.calls && t.started == s.started && t.ended == s.ended
  {
  }

  lemma EscapeKeeps(s: State, c: nat, held: bool)
    requires c < |s.calls|
    ensures Keeps(s, Escape(s, c, held), c)
  {
  }

  lemma AppendGetsOn(s: State, c: nat)
    requires c < |s.calls| && !IsClose(s.calls[c].stage)
    ensures if Over(s.calls[c].stage) then AppendGo(s, c) == s else GetsOn(s, AppendGo(s, c), c)
  {
    hide AppendGo, GetsOn;
    match s.calls[c].stage
    case AppendReady => BeginGetsOn(s, c);
    case Admitting => AdmitGetsOn(s, c);
    case Completing => CompleteGetsOn(s, c);
    case Retaining => SettleGetsOn(s, c);
    case Returning => ReleaseGetsOn(s, c);
    case Leaving => ReleaseGetsOn(s, c);
    case Leased => PlainGetsOn(s, c);
    case Marking => PlainGetsOn(s, c);
    case Admitted => CheckGetsOn(s, c);
    case Appending => CheckGetsOn(s, c);
    case Observing => LateCheckGetsOn(s, c);
    case Committed => LateCheckGetsOn(s, c);
    case _ => OverRests(s, c);
  }

  lemma OverRests(s: State, c: nat)
    requires c < |s.calls| && s.calls[c].stage in {Acked, Failed, Stuck, Refused}
    ensures AppendGo(s, c) == s
  {
  }

  lemma CheckGetsOn(s: State, c: nat)
    requires c < |s.calls| && (s.calls[c].stage == Admitted || s.calls[c].stage == Appending)
    ensures GetsOn(s, AppendGo(s, c), c)
  {
    ToKeeps(s, c, Appending);
    ToKeeps(s, c, Observing);
    ToKeeps(s, c, Marking);
    hide To, LeaseCurrent, Keeps;
  }

  lemma LateCheckGetsOn(s: State, c: nat)
    requires c < |s.calls| && (s.calls[c].stage == Observing || s.calls[c].stage == Committed)
    ensures GetsOn(s, AppendGo(s, c), c)
  {
    ToKeeps(s, c, Completing);
    ToKeeps(s, c, Returning);
    ToKeeps(s, c, Marking);
    hide To, LeaseCurrent, Keeps;
  }

  lemma PlainGetsOn(s: State, c: nat)
    requires c < |s.calls| && (s.calls[c].stage == Leased || s.calls[c].stage == Marking)
    ensures GetsOn(s, AppendGo(s, c), c)
  {
    ToKeeps(s, c, Admitting);
    ToKeeps(s, c, Retaining);
    hide To, Keeps;
  }

  lemma FaultKeeps(s: State, c: nat, bound: bool)
    requires c < |s.calls| && !IsClose(s.calls[c].stage)
    ensures Keeps(s, AppendFault(s, c, bound), c)
  {
    ToKeeps(s, c, Leaving);
    ToKeeps(s, c, Marking);
    RetainKeeps(s, c, Marking);
    hide To, Retain, Keeps;
  }

  lemma InterruptKeeps(s: State, c: nat, held: bool)
    requires c < |s.calls| && !IsClose(s.calls[c].stage)
    ensures Keeps(s, AppendInterrupt(s, c, held), c)
  {
    ToKeeps(s, c, Leaving);
    FaultKeeps(s, c, false);
    EscapeKeeps(s, c, held);
    EscapeKeeps(s, c, true);
    hide To, Put, Admit, Escape, AppendFault, Keeps;
    if s.calls[c].stage == Admitting {
      AdmitGetsOn(s, c);
    }
  }

  lemma AppendWaits(s: State, c: nat, bound: bool, held: bool)
    requires c < |s.calls| && !IsClose(s.calls[c].stage)
    ensures Waits(s, AppendGo(s, c), c) && Waits(s, AppendFault(s, c, bound), c) && Waits(s, AppendInterrupt(s, c, held), c)
  {
    ToKeeps(s, c, Leaving);
    hide AppendGo, AppendFault, AppendInterrupt, Waits, Keeps;
    AppendGetsOn(s, c);
    FaultKeeps(s, c, bound);
    InterruptKeeps(s, c, held);
    KeepsWaits(s, AppendGo(s, c), c);
    KeepsWaits(s, AppendFault(s, c, bound), c);
    KeepsWaits(s, AppendInterrupt(s, c, held), c);
  }

  /** Every waiting call waits for another thread's lease, or for a native close that has started; and a native close that
      has started and not ended is in progress. */
  ghost predicate WaitInv(s: State) {
    && (forall c :: 0 <= c < |s.calls| ==>
          match s.calls[c].stage
          case AwaitingLease(lease) => lease < |s.calls| && s.calls[lease].thread != s.calls[c].thread
          case AwaitingNative => s.started
          case _ => true)
    && (s.started && !s.ended ==> exists c :: 0 <= c < |s.calls| && s.calls[c].stage == ClosingNative)
  }

  lemma CallKeepsWait(s: State, t: State, c: nat)
    requires WaitInv(s) && c < |s.calls| && Waits(s, t, c) && |t.calls| == |s.calls|
    requires forall d :: 0 <= d < |s.calls| && d != c ==> t.calls[d] == s.calls[d]
    ensures WaitInv(t)
  {
    if t.started && !t.ended {
      if s.started {
        var d :| 0 <= d < |s.calls| && s.calls[d].stage == ClosingNative;
        assert t.calls[d].stage == ClosingNative;
      } else {
        assert t.calls[c].stage == ClosingNative;
      }
    }
  }

  lemma LedgerKeepsWait(s: State, c: nat, a: Action)
    requires WaitInv(s) && c < |s.calls| && a in {OtherAdmit, OtherCommit, OtherCancel, OtherFail, LedgerDown}
    ensures WaitInv(Act(s, c, a))
  {
    LedgerMovesNobody(s, c, a);
    var t := Act(s, c, a);
    assert forall d :: 0 <= d < |s.calls| ==> t.calls[d].stage == s.calls[d].stage && t.calls[d].thread == s.calls[d].thread;
    LedgerStartsNothing(s, c, a);
    hide Act;
    if t.started && !t.ended {
      var d :| 0 <= d < |s.calls| && s.calls[d].stage == ClosingNative;
      assert t.calls[d].stage == ClosingNative;
    }
  }

  lemma LedgerStartsNothing(s: State, c: nat, a: Action)
    requires c < |s.calls| && a in {OtherAdmit, OtherCommit, OtherCancel, OtherFail, LedgerDown}
    ensures Act(s, c, a).started == s.started && Act(s, c, a).ended == s.ended
  {
  }

  lemma ActKeepsWait(s: State, c: nat, a: Action)
    requires Inv(s) && WaitInv(s) && c < |s.calls|
    ensures WaitInv(Act(s, c, a))
  {
    hide AppendGo, AppendFault, AppendInterrupt, CloseGo, CloseFault, Down, LogInv, CallInv, Waits;
    if a in {OtherAdmit, OtherCommit, OtherCancel, OtherFail, LedgerDown} {
      LedgerKeepsWait(s, c, a);
    } else {
      if IsClose(s.calls[c].stage) {
        CloseWaits(s, c);
      } else {
        AppendWaits(s, c, a == FaultBound, a == InterruptHeld);
      }
      OthersStand(s, c, a);
      CallKeepsWait(s, Act(s, c, a), c);
    }
  }

  lemma {:induction false} TraceWaits(states: seq<State>, steps: seq<(nat, Action)>, k: nat)
    requires Trace(states, steps) && k < |states|
    ensures WaitInv(states[k])
  {
    if k == 0 {
      OpeningWaits(states[0]);
    } else {
      hide Act, Inv, WaitInv, Opening;
      TraceWaits(states, steps, k - 1);
      TraceKeepsInv(states, steps, k - 1);
      ActKeepsWait(states[k - 1], steps[k - 1].0, steps[k - 1].1);
    }
  }

  lemma OpeningWaits(s: State)
    requires Opening(s)
    ensures WaitInv(s)
  {
  }

  /** No close waits for a lease of its own thread: it is refused as reentrant, and that exactly while its thread has the
      lease. */
  lemma NoCloseWaitsForItself(states: seq<State>, steps: seq<(nat, Action)>, k: nat, c: nat)
    requires Trace(states, steps) && k < |states| && c < |states[k].calls|
    ensures states[k].calls[c].stage.AwaitingLease? ==>
              var lease := states[k].calls[c].stage.lease;
              lease < |states[k].calls| && states[k].calls[lease].thread != states[k].calls[c].thread
    ensures k < |steps| && steps[k] == (c, Go) && states[k].calls[c].stage == CloseReady ==>
              && |states[k + 1].calls| == |states[k].calls|
              && (states[k + 1].calls[c].stage == Reentrant
                  <==> exists d: nat :: d < |states[k].calls| && states[k].calls[d].thread == states[k].calls[c].thread
                                        && LeaseBegun(d) in states[k].log && LeaseReleased(d) !in states[k].log)
  {
    hide Act, Opening, Inv, BeginClose;
    TraceWaits(states, steps, k);
    TraceKeepsInv(states, steps, k);
    if k < |steps| && steps[k] == (c, Go) && states[k].calls[c].stage == CloseReady {
      CloseReadyGo(states[k], c);
      LeaseIsLogged(states[k]);
      BeginCloseWaits(states[k], c);
      TraceKeepsInv(states, steps, k + 1);
    }
  }

  lemma CloseReadyGo(s: State, c: nat)
    requires Inv(s) && c < |s.calls| && s.calls[c].stage == CloseReady
    ensures Act(s, c, Go) == BeginClose(s, c) && Lifecycle(s)
  {
  }

  /** The lease is the one that was begun and not released. */
  lemma LeaseIsLogged(s: State)
    requires Inv(s)
    ensures s.lease.Some? ==> s.lease.value < |s.calls|
    ensures forall d: nat :: LeaseBegun(d) in s.log && LeaseReleased(d) !in s.log <==> s.lease == Some(d)
  {
  }

  /** A call that waits for nobody moves on. */
  lemma Proceeds(s: State, c: nat)
    requires c < |s.calls| && !Over(s.calls[c].stage) && Lifecycle(s)
    requires s.calls[c].stage.AwaitingLease? ==> s.lease != Some(s.calls[c].stage.lease)
    requires s.calls[c].stage == AwaitingNative ==> s.ended
    ensures Act(s, c, Go) != s
  {
    hide AppendGo, CloseGo;
    if IsClose(s.calls[c].stage) {
      CloseProceeds(s, c);
    } else {
      AppendGetsOn(s, c);
    }
  }

  lemma CloseProceeds(s: State, c: nat)
    requires c < |s.calls| && IsClose(s.calls[c].stage) && !Over(s.calls[c].stage)
    requires s.calls[c].stage.AwaitingLease? ==> s.lease != Some(s.calls[c].stage.lease)
    requires s.calls[c].stage == AwaitingNative ==> s.ended
    ensures c < |CloseGo(s, c).calls| && CloseGo(s, c).calls[c].stage != s.calls[c].stage
  {
    MovingLeaves();
    hide To, Log, BeginClose;
    if s.calls[c].stage == CloseReady {
      BeginCloseProceeds(s, c);
    }
  }

  lemma BeginCloseProceeds(s: State, c: nat)
    requires c < |s.calls|
    ensures |BeginClose(s, c).calls| == |s.calls| && BeginClose(s, c).calls[c].stage != CloseReady
  {
    MovingLeaves();
    hide To, Log;
  }

  /** No deadlock: while some call is not over, some call can move on, unless an interrupt in the release of a lease has
      left that lease held for good. */
  lemma NoDeadlock(states: seq<State>, steps: seq<(nat, Action)>, k: nat, c: nat) returns (d: nat)
    requires Trace(states, steps) && k < |states| && c < |states[k].calls| && !Over(states[k].calls[c].stage)
    requires forall e :: 0 <= e < |states[k].calls| ==> states[k].calls[e].stage != Stuck
    ensures d < |states[k].calls| && Act(states[k], d, Go) != states[k]
  {
    TraceKeepsInv(states, steps, k);
    TraceWaits(states, steps, k);
    var s := states[k];
    hide Trace, Act, Agrees, CallInv;
    d := c;
    if s.calls[c].stage.AwaitingLease? && s.lease == Some(s.calls[c].stage.lease) {
      d := s.lease.value;
      LeaseOf(s, d);
      assert !Over(s.calls[d].stage) && !IsClose(s.calls[d].stage);
    } else if s.calls[c].stage == AwaitingNative && !s.ended {
      d :| 0 <= d < |s.calls| && s.calls[d].stage == ClosingNative;
    }
    Proceeds(s, d);
  }
}
