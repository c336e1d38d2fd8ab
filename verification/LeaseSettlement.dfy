/** What the lease protocol's picture of the ledger has to do with the ledger: after a commit every run of the ledger's
    other users is matched, step by step, by the protocol's steps, and the handler's settlement of the committed write
    is refused exactly when the ledger refuses the compensation. */
module LeaseSettlement {
  import opened CapacityTypes
  import opened LedgerSpec
  import opened LedgerInvariant
  import opened LedgerSteps
  import opened LedgerWrites
  import opened LedgerRuns
  import opened LedgerCompensation
  import opened LedgerTheorems
  import opened LedgerHistory
  import opened LedgerUndo
  import P = LeaseProtocol

  // ----- what a ledger step does to what the protocol sees -----

  /** Whether a write is active and whether the ledger still accepts anything change in one of four ways, or not. */
  predicate Pulse(s: Ledger, t: Ledger) {
    || (t.activeWrite.Some? == s.activeWrite.Some? && t.Live() == s.Live())
    || (s.Live() && t.Live() && s.activeWrite.None? && t.activeWrite.Some?)
    || (s.Live() && t.Live() && s.activeWrite.Some? && t.activeWrite.None?)
    || (!t.Live() && t.activeWrite.None?)
  }

  /** A completed write was the active one. */
  predicate Completes(s: Ledger, t: Ledger) {
    s.Live() && t.Live() && s.activeWrite.Some? && t.activeWrite.None?
  }

  lemma FailActivePulse(s: Ledger, operation: nat, write: nat)
    requires RecordsOwned(s)
    ensures var found := ActiveRecord(s, operation, write);
            found.Some? ==> s.activeWrite.Some? && Retain(s, found.value).activeWrite.None?
  {
  }

  lemma CompletionPulse(s: Ledger, operation: nat, write: nat, after: Inventory, free: Option<int>)
    requires RecordsOwned(s)
    ensures var step := CompleteWrite(s, operation, write, after, free);
            Pulse(s, step.next) && (step.outcome.Ok? ==> Completes(s, step.next))
  {
    hide WriteRefusal, InventoryDelta, Retain;
    FailActivePulse(s, operation, write);
  }

  lemma ReplacementPulse(s: Ledger, operation: nat, write: nat, after: Inventory, free: int, view: JournalView, c: Completion)
    requires RecordsOwned(s)
    ensures var step := CompleteReplacement(s, operation, write, after, free, view, c);
            Pulse(s, step.next) && (step.outcome.Ok? ==> Completes(s, step.next))
  {
    hide CompletionCurrent, NewRowAcceptable, IdentityUnique, AcknowledgesNext, Bytes, Retain;
    FailActivePulse(s, operation, write);
  }

  lemma SettlingPulse(s: Ledger, operation: nat, write: nat, delta: PerPurpose<Amount>)
    requires RecordsOwned(s)
    ensures Pulse(s, RetainUncertain(s, operation, write).next)
    ensures Pulse(s, CancelWriteBeforeCreate(s, operation, write).next)
    ensures Pulse(s, CompensateWrite(s, operation, write, delta).next)
    ensures Pulse(s, CompensateReplacement(s, operation, write).next)
  {
    hide Retain;
    FailActivePulse(s, operation, write);
  }

  lemma AdmissionPulse(s: Ledger, operation: nat, b: Binding, view: JournalView)
    ensures Pulse(s, AdmitReplacement(s, operation, b, view).next)
  {
    hide BindingCurrent, TipMatches, ReplacementFits, FreeSpaceCovers, IsDigest;
  }

  lemma ReservationPulse(s: Ledger, operation: nat, reservation: nat)
    requires RecordsOwned(s)
    ensures Pulse(s, AdmitWrite(s, operation, reservation).next)
    ensures Pulse(s, CancelBeforeWrite(s, operation, reservation).next)
  {
  }

  lemma RequestPulse(s: Ledger, id: string, operation: nat, estimates: map<Purpose, Amount>)
    ensures Pulse(s, BeginOperation(s, id).next)
    ensures Pulse(s, Reserve(s, operation, estimates).next)
  {
    hide Normalize, UnfitFrom, FreeSpaceCovers;
  }

  lemma RetainingAllPulse(s: Ledger, inventory: Inventory, free: Option<int>, initial: Capture)
    requires Inv(s, initial) && RecordsOwned(s)
    ensures Pulse(s, Close(s)) && Pulse(s, ObserveInventory(s, inventory, free).next)
  {
    hide Clean, Tracked, Conserved, Positive, Tokens, RetainFrom;
    RetainFromKeepsCore(s, 0, initial);
    NothingHeldNothingActive(RetainFrom(s, 0), initial);
  }

  lemma NothingHeldNothingActive(s: Ledger, initial: Capture)
    requires Core(s, initial) && forall j :: 0 <= j < |s.records| ==> !s.records[j].Held()
    ensures s.activeWrite.None?
  {
    hide Clean, Tracked, Conserved, Positive;
  }

  lemma ActPulse(s: Ledger, a: Action, initial: Capture)
    requires Inv(s, initial) && RecordsOwned(s)
    ensures Pulse(s, Act(s, a)) && (Commits(s, a) ==> Completes(s, Act(s, a)))
  {
    hide Inv, Pulse, Completes, CompleteWrite, CompleteReplacement, CompensateWrite, CompensateReplacement, Close,
      ObserveInventory, AdmitReplacement, Reserve, AdmitWrite, CancelBeforeWrite, RetainUncertain,
      CancelWriteBeforeCreate, BeginOperation;
    match a
    case Begin(id) => RequestPulse(s, id, 0, map[]);
    case Request(op, estimates) => RequestPulse(s, "", op, estimates);
    case Cancel(op, reservation) => ReservationPulse(s, op, reservation);
    case Admit(op, reservation) => ReservationPulse(s, op, reservation);
    case AbandonUncertain(op, write) => SettlingPulse(s, op, write, NOTHING);
    case CancelWrite(op, write) => SettlingPulse(s, op, write, NOTHING);
    case Complete(op, write, after, free) => CompletionPulse(s, op, write, after, free);
    case CompleteJournal(op, write, after, free, view, c) => ReplacementPulse(s, op, write, after, free, view, c);
    case CompensateAdditive(op, write, delta) => SettlingPulse(s, op, write, delta);
    case CompensateJournal(op, write) => SettlingPulse(s, op, write, NOTHING);
    case Observe(inventory, free) => RetainingAllPulse(s, inventory, free, initial);
    case CloseLedger => RetainingAllPulse(s, PerPurpose(map[], map[], map[], map[]), None, initial);
    case AdmitJournal(op, b, view) => AdmissionPulse(s, op, b, view);
  }

  // ----- the protocol follows -----

  /** The protocol's state stands for ledger `t`: no call of its own has the active write. */
  predicate Sees(p: P.State, t: Ledger) {
    && (p.active.Some? <==> t.activeWrite.Some?) && (p.active.Some? ==> p.active.value.Other?)
    && (p.alive <==> t.Live())
  }

  /** The ledger's other users. */
  predicate ByOthers(a: P.Action) {
    a.OtherAdmit? || a.OtherCommit? || a.OtherCancel? || a.OtherFail? || a.LedgerDown?
  }

  function After(p: P.State, c: nat, steps: seq<P.Action>): (q: P.State)
    requires c < |p.calls| && forall a :: a in steps ==> ByOthers(a)
    decreases |steps|
  {
    if steps == [] then p
    else
      var q := After(p, c, steps[..|steps| - 1]);
      if c < |q.calls| then P.Act(q, c, steps[|steps| - 1]) else q
  }

  /** One ledger step, matched by at most one step of the protocol. */
  lemma Follow(p: P.State, c: nat, s: Ledger, a: Action, initial: Capture) returns (x: Option<P.Action>)
    requires c < |p.calls| && Inv(s, initial) && RecordsOwned(s) && Sees(p, s)
    ensures x.Some? ==> ByOthers(x.value)
    ensures var q := if x.Some? then P.Act(p, c, x.value) else p;
            && Sees(q, Act(s, a)) && q.calls == p.calls
            && q.moves == p.moves + (if Commits(s, a) then 1 else 0)
  {
    hide Act, Commits, Inv;
    ActPulse(s, a, initial);
    var t := Act(s, a);
    if Commits(s, a) {
      x := Some(P.OtherCommit);
    } else if t.activeWrite.Some? == s.activeWrite.Some? && t.Live() == s.Live() {
      x := None;
    } else if !t.Live() {
      x := Some(P.LedgerDown);
    } else if t.activeWrite.Some? {
      x := Some(P.OtherAdmit);
    } else {
      x := Some(P.OtherCancel);
    }
  }

  lemma AfterOne(p: P.State, c: nat, steps: seq<P.Action>, x: P.Action)
    requires c < |p.calls| && (forall a :: a in steps ==> ByOthers(a)) && ByOthers(x)
    ensures forall a :: a in steps + [x] ==> ByOthers(a)
    ensures var q := After(p, c, steps);
            After(p, c, steps + [x]) == if c < |q.calls| then P.Act(q, c, x) else q
  {
    assert (steps + [x])[..|steps|] == steps;
  }

  lemma {:induction false} FollowRun(p: P.State, c: nat, states: seq<Ledger>, actions: seq<Action>, initial: Capture, k: nat)
    returns (steps: seq<P.Action>)
    requires Run(states, actions) && Inv(states[0], initial) && Measured(initial) && k < |states|
    requires c < |p.calls| && Sees(p, states[0])
    ensures forall a :: a in steps ==> ByOthers(a)
    ensures var q := After(p, c, steps);
            && Sees(q, states[k]) && q.calls == p.calls && q.moves == p.moves + Commitments(states, actions, k)
  {
    hide Act, Commits, Inv, Measured, Run, Sees;
    if k == 0 {
      steps := [];
    } else {
      steps := FollowRun(p, c, states, actions, initial, k - 1);
      RunKeepsInv(states, actions, initial, k - 1);
      RunStep(states, actions, k);
      var q := After(p, c, steps);
      var x := Follow(q, c, states[k - 1], actions[k - 1], initial);
      if x.Some? {
        AfterOne(p, c, steps, x.value);
        steps := steps + [x.value];
      }
    }
  }

  /** When the handler settles a committed write. Let call `c` have committed replacement `b`, and let the ledger's other
      users then take it through any run, none of it on the operation whose lease the call holds. The protocol has a
      matching run, and in the state it ends in the handler leaves the write uncertain if and only if the ledger accepts
      the compensation, which it does if and only if no write is active and none was completed since. */
  lemma SettlementExactly(
    s: Ledger, initial: Inventory, operation: nat, b: Binding, admitted: JournalView, after: Inventory, free: int,
    completed: JournalView, completion: Completion, states: seq<Ledger>, actions: seq<Action>, k: nat,
    p: P.State, c: nat) returns (steps: seq<P.Action>)
    requires Reached(s, initial) && RecordsOwned(s) && Run(states, actions) && k < |states|
    requires Committed(s, operation, b, admitted, after, free, completed, completion, states[0])
    requires forall i :: 0 <= i < k ==> Named(actions[i]) != Some(operation)
    requires c < |p.calls| && Sees(p, states[0]) && p.calls[c].account == P.Done && p.moves == p.calls[c].moves
    ensures forall a :: a in steps ==> ByOthers(a)
    ensures RecordsOwned(states[k])
    ensures var q := After(p, c, steps);
            && Sees(q, states[k]) && q.calls == p.calls
            && |P.Settle(q, c).calls| == |q.calls|
            && (P.Settle(q, c).calls[c].account == P.Kept
                <==> CompensateReplacement(states[k], operation, s.nextWrite).outcome.Ok?)
            && (P.Settle(q, c).calls[c].account == P.Kept
                <==> states[k].activeWrite.None? && Commitments(states, actions, k) == 0)
  {
    hide Inv, Measured, Reached, Committed, Run, CompensateReplacement, Commitments, History;
    ReachedHolds(s, initial);
    ReachedRemembers(s, initial);
    CommitIsTwoActions(s, operation, b, admitted, after, free, completed, completion, states[0], Captured(initial));
    steps := FollowRun(p, c, states, actions, Captured(initial), k);
    CompensableUnderLeaseExactly(s, initial, operation, b, admitted, after, free, completed, completion, states, actions, k);
  }
}
