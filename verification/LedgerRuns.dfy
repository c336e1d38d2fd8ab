/** Whole runs of the ledger, and what follows for every state a run reaches. */
module LedgerRuns {
  import opened CapacityTypes
  import opened LedgerSpec
  import opened LedgerInvariant
  import opened LedgerSteps
  import opened LedgerWrites

  datatype Action =
    | Begin(id: string)
    | Request(operation: nat, estimates: map<Purpose, Amount>)
    | Cancel(operation: nat, reservation: nat)
    | Admit(operation: nat, reservation: nat)
    | Complete(operation: nat, write: nat, after: Inventory, free: Option<int>)
    | AbandonUncertain(operation: nat, write: nat)
    | CancelWrite(operation: nat, write: nat)
    | CompensateAdditive(operation: nat, write: nat, delta: PerPurpose<Amount>)
    | AdmitJournal(operation: nat, binding: Binding, view: JournalView)
    | CompleteJournal(operation: nat, write: nat, after: Inventory, freeBytes: int, view: JournalView, completion: Completion)
    | CompensateJournal(operation: nat, write: nat)
    | Observe(inventory: Inventory, free: Option<int>)
    | CloseLedger

  ghost function Act(s: Ledger, a: Action): Ledger
    requires RecordsOwned(s)
  {
    match a
    case Begin(id) => BeginOperation(s, id).next
    case Request(op, estimates) => Reserve(s, op, estimates).next
    case Cancel(op, reservation) => CancelBeforeWrite(s, op, reservation).next
    case Admit(op, reservation) => AdmitWrite(s, op, reservation).next
    case Complete(op, write, after, free) => CompleteWrite(s, op, write, after, free).next
    case AbandonUncertain(op, write) => RetainUncertain(s, op, write).next
    case CancelWrite(op, write) => CancelWriteBeforeCreate(s, op, write).next
    case CompensateAdditive(op, write, delta) => CompensateWrite(s, op, write, delta).next
    case AdmitJournal(op, binding, view) => AdmitReplacement(s, op, binding, view).next
    case CompleteJournal(op, write, after, free, view, c) => CompleteReplacement(s, op, write, after, free, view, c).next
    case CompensateJournal(op, write) => CompensateReplacement(s, op, write).next
    case Observe(inventory, free) => ObserveInventory(s, inventory, free).next
    case CloseLedger => Close(s)
  }

  /** The states a ledger passes through, one for each action and the first. */
  ghost predicate Run(states: seq<Ledger>, actions: seq<Action>) {
    && |states| == |actions| + 1
    && forall k {:trigger actions[k]} :: 0 <= k < |actions| ==>
         RecordsOwned(states[k]) && states[k + 1] == Act(states[k], actions[k])
  }

  // ----- opening -----

  lemma {:induction false} CountInitialMeans(s: Ledger, inventory: Inventory, i: nat)
    requires i <= 4
    ensures
      var step := CountInitialFrom(s, inventory, i);
      && step.next == s.(uncertain := step.next.uncertain)
      && (step.outcome.Ok? ==>
            && (forall k :: i <= k < 4 ==>
                  && step.next.uncertain.At(PURPOSES[k]) == FileAmount(inventory.At(PURPOSES[k]))
                  && DirectoryFits(s.limits, PURPOSES[k], FileAmount(inventory.At(PURPOSES[k]))))
            && (forall k :: 0 <= k < i ==> step.next.uncertain.At(PURPOSES[k]) == s.uncertain.At(PURPOSES[k])))
    decreases 4 - i
  {
    if i < 4 {
      var total := FileAmount(inventory.At(PURPOSES[i]));
      CountInitialMeans(s.(uncertain := s.uncertain.With(PURPOSES[i], total)), inventory, i + 1);
    }
  }

  ghost function Captured(inventory: Inventory): Capture { Capture(inventory, InventoryAmount(inventory)) }

  lemma InitialFilesObserved(inventory: Inventory)
    ensures FilesObserved(inventory, NOTHING, inventory)
  {
    assert inventory.journal - inventory.journal.Keys == map[];
    assert inventory.temporary - inventory.temporary.Keys == map[];
    assert inventory.retained - inventory.retained.Keys == map[];
    assert inventory.promoted - inventory.promoted.Keys == map[];
  }

  lemma InitialAmounts(s: Ledger, inventory: Inventory)
    requires CountInitialFrom(s, inventory, 0).outcome.Ok?
    ensures
      var base := InventoryAmount(inventory);
      && CountInitialFrom(s, inventory, 0).next == s.(uncertain := base) && AllNatural(base)
      && base.journal.Within(s.limits.For(PrivateJournal)) && base.temporary.Within(s.limits.For(TemporaryContainment))
      && base.retained.Within(s.limits.For(RetainedUncertain)) && base.promoted.Within(s.limits.For(PromotedAssets))
  {
    hide FileAmount;
    CountInitialMeans(s, inventory, 0);
    var u := CountInitialFrom(s, inventory, 0).next.uncertain;
    assert u.At(PURPOSES[0]) == FileAmount(inventory.journal) && u.At(PURPOSES[1]) == FileAmount(inventory.temporary)
        && u.At(PURPOSES[2]) == FileAmount(inventory.retained) && u.At(PURPOSES[3]) == FileAmount(inventory.promoted);
  }

  lemma EmptySums()
    ensures Sum([], HeldShare) == NOTHING && Sum([], RetainedShare) == NOTHING && OverhangOf([]) == 0
  {
    SumZero([], HeldShare);
    SumZero([], RetainedShare);
    SumZero([], OverhangShare);
  }

  lemma OpeningIsClean(t: Ledger, inventory: Inventory, base: PerPurpose<Amount>)
    requires t.inventory == Some(inventory) && t.records == [] && t.limits.Valid() && t.journalFiles == map[]
    requires t.reserved == NOTHING && t.observed == NOTHING && t.uncertain == base
    requires base.journal.Within(t.limits.For(PrivateJournal)) && base.temporary.Within(t.limits.For(TemporaryContainment))
    requires base.retained.Within(t.limits.For(RetainedUncertain)) && base.promoted.Within(t.limits.For(PromotedAssets))
    requires base.temporary.bytes + base.promoted.bytes <= t.limits.assetBytes
    requires base.temporary.entries + base.promoted.entries <= t.limits.SharedEntryLimit()
    ensures Clean(t, Capture(inventory, base))
  {
    hide FilesObserved;
    InitialFilesObserved(inventory);
    EmptySums();
  }

  lemma OpeningConserved(base: PerPurpose<Amount>)
    ensures Conserved([], NOTHING, base, base)
  {
    EmptySums();
  }

  /** A successful capture establishes the invariant, whatever failed attempts came before it. */
  lemma OpeningEstablishesInv(s: Ledger, inventory: Inventory, free: Option<int>)
    requires s == Fresh(s.limits, s.owner).(uncertain := s.uncertain) && s.limits.Valid()
    requires SetInitialInventory(s, inventory, free).outcome.Ok?
    ensures Inv(SetInitialInventory(s, inventory, free).next, Captured(inventory))
    ensures Measured(Captured(inventory))
  {
    hide InventoryAmount, CountInitialFrom, Clean, Conserved;
    InitialAmounts(s, inventory);
    var base := InventoryAmount(inventory);
    OpeningIsClean(SetInitialInventory(s, inventory, free).next, inventory, base);
    OpeningConserved(base);
  }

  // ----- every step, every run -----

  lemma ActKeepsInv(s: Ledger, a: Action, initial: Capture)
    requires Inv(s, initial) && Measured(initial) && RecordsOwned(s)
    ensures Inv(Act(s, a), initial)
  {
    hide Core, Phase, Measured;
    match a
    case Begin(id) => BeginKeepsInv(s, id, initial);
    case Request(op, estimates) => ReserveKeepsInv(s, op, estimates, initial);
    case Cancel(op, reservation) => CancelKeepsInv(s, op, reservation, initial);
    case Admit(op, reservation) => AdmitKeepsInv(s, op, reservation, initial);
    case Complete(op, write, after, free) => CompleteWriteKeepsInv(s, op, write, after, free, initial);
    case AbandonUncertain(op, write) => RetainUncertainKeepsInv(s, op, write, initial);
    case CancelWrite(op, write) => CancelWriteKeepsInv(s, op, write, initial);
    case CompensateAdditive(op, write, delta) => CompensateWriteKeepsInv(s, op, write, delta, initial);
    case AdmitJournal(op, binding, view) => AdmitReplacementKeepsInv(s, op, binding, view, initial);
    case CompleteJournal(op, write, after, free, view, c) =>
      CompleteReplacementKeepsInv(s, op, write, after, free, view, c, initial);
    case CompensateJournal(op, write) => CompensateReplacementKeepsInv(s, op, write, initial);
    case Observe(inventory, free) => ObserveKeepsInv(s, inventory, free, initial);
    case CloseLedger => CloseKeepsInv(s, initial);
  }

  /** Every state of every run from a captured ledger satisfies the invariant. */
  lemma {:induction false} RunKeepsInv(states: seq<Ledger>, actions: seq<Action>, initial: Capture, k: nat)
    requires Run(states, actions) && Inv(states[0], initial) && Measured(initial) && k < |states|
    ensures Inv(states[k], initial)
  {
    hide Inv, Measured;
    if k > 0 {
      RunKeepsInv(states, actions, initial, k - 1);
      ActKeepsInv(states[k - 1], actions[k - 1], initial);
    }
  }

  // ----- conservation -----

  lemma InvConserved(s: Ledger, initial: Capture)
    requires Inv(s, initial) && Measured(initial)
    ensures s.reserved == Sum(s.records, HeldShare)
    ensures s.uncertain == Added(InventoryAmount(initial.files), Sum(s.records, RetainedShare))
    ensures forall i :: 0 <= i < |s.records| ==>
              (s.records[i].state == Writing <==> s.activeWrite.Some? && s.records[i].write == s.activeWrite)
    ensures s.activeWrite.Some? ==> exists i :: 0 <= i < |s.records| && s.records[i].state == Writing
    ensures forall i, j ::
              (0 <= i < |s.records| && 0 <= j < |s.records| && s.records[i].state == Writing && s.records[j].state == Writing)
              ==> i == j
  {
    hide Clean, Tracked, Positive, Phase;
    forall i, j | 0 <= i < |s.records| && 0 <= j < |s.records| && s.records[i].state == Writing
                  && s.records[j].state == Writing
      ensures i == j
    {
      OnlyWriter(s, i, initial);
    }
    forall i | 0 <= i < |s.records| && s.activeWrite.Some? && s.records[i].write == s.activeWrite
      ensures s.records[i].state == Writing
    {
      var j :| 0 <= j < |s.records| && s.records[j].state == Writing;
      assert i == j || i < j || j < i;
    }
  }

  /** The transitions a reservation can make; nothing returns to a state whose capacity was already given up. */
  predicate Onward(before: RecordState, after: RecordState) {
    before == after
    || (match before
        case Reserved => after == Writing || after == Cancelled || after == RetainedAsUncertain
        case Writing => after == Completed || after == Cancelled || after == RetainedAsUncertain
        case Completed => after == RetainedAsUncertain || after == Uncertain
        case _ => false)
  }

  ghost predicate RecordsGoOn(s: Ledger, t: Ledger) {
    && |s.records| <= |t.records|
    && forall i :: 0 <= i < |s.records| ==>
         && Onward(s.records[i].state, t.records[i].state)
         && t.records[i].estimates == s.records[i].estimates && t.records[i].operation == s.records[i].operation
  }

  lemma {:induction false} RetainFromGoesOn(s: Ledger, i: nat)
    requires RecordsOwned(s) && i <= |s.records|
    ensures RecordsGoOn(s, RetainFrom(s, i)) && |RetainFrom(s, i).records| == |s.records|
    ensures RetainFrom(s, i).inventory == s.inventory && RetainFrom(s, i).invalid == s.invalid
    ensures RetainFrom(s, i).closed == s.closed
    decreases |s.records| - i
  {
    if i < |s.records| {
      RetainFromGoesOn(Retain(s, i), i + 1);
    }
  }

  /** What every action leaves true, whatever its outcome. */
  ghost predicate GoesOn(s: Ledger, t: Ledger) {
    && RecordsGoOn(s, t)
    && (s.inventory.Some? ==> t.inventory.Some?)
    && (!s.Live() ==> |t.records| == |s.records| && (s.inventory.Some? ==> !t.Live()))
  }

  lemma FailActiveGoesOn(s: Ledger, i: nat)
    requires RecordsOwned(s) && i < |s.records|
    ensures GoesOn(s, Retain(s, i).(invalid := true))
  {
  }

  lemma CompleteWriteGoesOn(s: Ledger, operation: nat, write: nat, after: Inventory, free: Option<int>)
    requires RecordsOwned(s)
    ensures GoesOn(s, CompleteWrite(s, operation, write, after, free).next)
  {
    hide InventoryDelta, Retain;
    var found := ActiveRecord(s, operation, write);
    if found.Some? {
      FailActiveGoesOn(s, found.value);
    }
  }

  lemma CompleteReplacementGoesOn(s: Ledger, operation: nat, write: nat, after: Inventory, free: int,
                                  view: JournalView, c: Completion)
    requires RecordsOwned(s)
    ensures GoesOn(s, CompleteReplacement(s, operation, write, after, free, view, c).next)
  {
    hide CompletionCurrent, IdentityUnique, AcknowledgesNext, NewRowAcceptable, Retain, Bytes;
    var found := ActiveRecord(s, operation, write);
    if found.Some? {
      FailActiveGoesOn(s, found.value);
    }
  }

  lemma NothingGoesOn(s: Ledger)
    ensures GoesOn(s, s)
  {
  }

  /** One record moves onward and the ledger is no more alive than before. */
  lemma OneChangeGoesOn(s: Ledger, t: Ledger, i: nat, r: Record)
    requires i < |s.records| ==>
               && Onward(s.records[i].state, r.state) && r.estimates == s.records[i].estimates
               && r.operation == s.records[i].operation
    ensures (&& i < |s.records| && t.records == s.records[i := r] && t.inventory == s.inventory
             && (s.closed ==> t.closed) && (s.invalid ==> t.invalid)) ==> GoesOn(s, t)
  {
  }

  lemma CompensationGoesOn(s: Ledger, operation: nat, write: nat, delta: PerPurpose<Amount>)
    requires RecordsOwned(s)
    ensures GoesOn(s, CompensateWrite(s, operation, write, delta).next)
    ensures GoesOn(s, CompensateReplacement(s, operation, write).next)
  {
    hide CompensationCurrent, GoesOn;
    NothingGoesOn(s);
    var replaced := FirstFrom(s.records, write, {Completed}, 0);
    if replaced.Some? {
      OneChangeGoesOn(s, CompensateReplacement(s, operation, write).next, replaced.value,
                      s.records[replaced.value].(state := RetainedAsUncertain));
    }
    var added := FirstFrom(s.records, write, ANY_STATE, 0);
    if added.Some? && WriteCompensable(s, s.records[added.value], delta) {
      OneChangeGoesOn(s, CompensateWrite(s, operation, write, delta).next, added.value,
                      s.records[added.value].(state := Uncertain));
    }
  }

  lemma RetainingAllGoesOn(s: Ledger, inventory: Inventory, free: Option<int>)
    requires RecordsOwned(s)
    ensures GoesOn(s, Close(s)) && GoesOn(s, ObserveInventory(s, inventory, free).next)
  {
    hide Retain;
    RetainFromGoesOn(s, 0);
  }

  lemma AdmissionGoesOn(s: Ledger, operation: nat, b: Binding, view: JournalView)
    ensures GoesOn(s, AdmitReplacement(s, operation, b, view).next)
  {
    hide BindingCurrent, TipMatches, ReplacementFits;
  }

  lemma ActGoesOn(s: Ledger, a: Action)
    requires RecordsOwned(s)
    ensures GoesOn(s, Act(s, a))
  {
    hide CompleteWrite, CompleteReplacement, CompensateWrite, CompensateReplacement, Close, ObserveInventory,
      AdmitReplacement, Reserve, AdmitWrite, CancelBeforeWrite, RetainUncertain, CancelWriteBeforeCreate, GoesOn;
    match a
    case Begin(id) => BeginGoesOn(s, id);
    case Request(op, estimates) => ReserveGoesOn(s, op, estimates);
    case Cancel(op, reservation) => ReservationGoesOn(s, op, reservation);
    case Admit(op, reservation) => ReservationGoesOn(s, op, reservation);
    case AbandonUncertain(op, write) => AbandonGoesOn(s, op, write);
    case CancelWrite(op, write) => AbandonGoesOn(s, op, write);
    case Complete(op, write, after, free) => CompleteWriteGoesOn(s, op, write, after, free);
    case CompleteJournal(op, write, after, free, view, c) => CompleteReplacementGoesOn(s, op, write, after, free, view, c);
    case CompensateAdditive(op, write, delta) => CompensationGoesOn(s, op, write, delta);
    case CompensateJournal(op, write) => CompensationGoesOn(s, op, write, NOTHING);
    case Observe(inventory, free) => RetainingAllGoesOn(s, inventory, free);
    case CloseLedger => RetainingAllGoesOn(s, Captured(PerPurpose(map[], map[], map[], map[])).files, None);
    case AdmitJournal(op, binding, view) => AdmissionGoesOn(s, op, binding, view);
  }

  lemma BeginGoesOn(s: Ledger, id: string)
    requires RecordsOwned(s)
    ensures GoesOn(s, BeginOperation(s, id).next)
  {
  }

  lemma ReserveGoesOn(s: Ledger, operation: nat, estimates: map<Purpose, Amount>)
    requires RecordsOwned(s)
    ensures GoesOn(s, Reserve(s, operation, estimates).next)
  {
    hide FreeSpaceCovers, UnfitFrom, Normalize;
  }

  lemma ReservationGoesOn(s: Ledger, operation: nat, reservation: nat)
    requires RecordsOwned(s)
    ensures GoesOn(s, CancelBeforeWrite(s, operation, reservation).next)
    ensures GoesOn(s, AdmitWrite(s, operation, reservation).next)
  {
    hide GoesOn;
    NothingGoesOn(s);
    if HoldsReservation(s, operation, reservation) {
      var r := s.records[reservation];
      OneChangeGoesOn(s, CancelBeforeWrite(s, operation, reservation).next, reservation, r.(state := Cancelled));
      OneChangeGoesOn(s, AdmitWrite(s, operation, reservation).next, reservation, r.(state := Writing, write := Some(s.nextWrite)));
    }
  }

  lemma AbandonGoesOn(s: Ledger, operation: nat, write: nat)
    requires RecordsOwned(s)
    ensures GoesOn(s, RetainUncertain(s, operation, write).next)
    ensures GoesOn(s, CancelWriteBeforeCreate(s, operation, write).next)
  {
    hide GoesOn;
    NothingGoesOn(s);
    var found := ActiveRecord(s, operation, write);
    if found.Some? {
      var i, r := found.value, s.records[found.value];
      OneChangeGoesOn(s, Retain(s, i).(invalid := true), i, r.(state := RetainedAsUncertain));
      OneChangeGoesOn(s, Release(s, i).(activeWrite := None), i, r.(state := Cancelled));
    }
  }

  /** Over any run a reservation only moves onward: once its capacity is released, settled or retained, no later
      action can hold it or release it again. */
  lemma {:induction false} CapacityLeavesOnce(states: seq<Ledger>, actions: seq<Action>, i: nat, j: nat, n: nat)
    requires Run(states, actions) && i <= j < |states| && n < |states[i].records|
    ensures n < |states[j].records| && states[j].records[n].estimates == states[i].records[n].estimates
    ensures states[j].records[n].Held() ==> states[i].records[n].Held()
    ensures var state := states[i].records[n].state;
            state == Cancelled || state == RetainedAsUncertain || state == Uncertain ==> states[j].records[n].state == state
    decreases j - i
  {
    if i < j {
      CapacityLeavesOnce(states, actions, i, j - 1, n);
      ActGoesOn(states[j - 1], actions[j - 1]);
    }
  }

  /** A ledger that was closed or became invalid never reserves or admits anything again. */
  lemma {:induction false} DeadLedgerStaysDead(states: seq<Ledger>, actions: seq<Action>, i: nat, j: nat)
    requires Run(states, actions) && i <= j < |states| && states[i].inventory.Some? && !states[i].Live()
    ensures !states[j].Live() && |states[j].records| == |states[i].records| && states[j].inventory.Some?
    decreases j - i
  {
    if i < j {
      DeadLedgerStaysDead(states, actions, i, j - 1);
      ActGoesOn(states[j - 1], actions[j - 1]);
    }
  }

  // ----- observed usage and the files -----

  lemma InvObserved(s: Ledger, initial: Capture)
    requires Inv(s, initial) && Measured(initial) && !s.invalid
    ensures InventoryAmount(s.inventory.value) == Added(initial.base, s.observed)
  {
    hide Tokens, Tracked, Conserved, Positive, Phase, BoundToInventory, JournalsPresent, Bounded, FileAmount, NewFilesObserved;
    DirectoryAccounted(s.inventory.value.journal, initial.files.journal, s.observed.journal);
    DirectoryAccounted(s.inventory.value.temporary, initial.files.temporary, s.observed.temporary);
    DirectoryAccounted(s.inventory.value.retained, initial.files.retained, s.observed.retained);
    DirectoryAccounted(s.inventory.value.promoted, initial.files.promoted, s.observed.promoted);
  }

  lemma InvNoConflict(s: Ledger, operation: nat, write: nat, after: Inventory, free: int,
                                      view: JournalView, c: Completion, initial: Capture)
    requires Inv(s, initial) && RecordsOwned(s)
    ensures CompleteReplacement(s, operation, write, after, free, view, c).outcome != Failed(JournalAccountingConflict)
  {
    hide Core, Phase, CompletionCurrent, IdentityUnique, AcknowledgesNext, NewRowAcceptable;
    ActiveRecordFacts(s, operation, write, initial);
    var found := ActiveRecord(s, operation, write);
    if s.Live() && found.Some? && s.records[found.value].replacement.Some? {
      ReplacementInProgress(s, found.value, initial);
    }
  }

  // ----- capacity -----

  lemma ShareAtLeast(records: seq<Record>, i: nat, f: Facet)
    requires Positive(records) && i < |records| && f != OverhangShare
    ensures AllWithin(Weight(records[i], f), Sum(records, f)) && AllNatural(Sum(records, f))
  {
    SumAtLeast(records, i, f);
    SumToNatural(Shares(records, f), |records|);
  }

  lemma SharesNatural(records: seq<Record>, f: Facet)
    requires Positive(records) && f != OverhangShare
    ensures AllNatural(Sum(records, f))
  {
    SumToNatural(Shares(records, f), |records|);
  }

  /** A replacement of an existing, nonempty journal that is in progress or was cut off by closing. */
  predicate Overrunning(r: Record) {
    Replacing(r) && r.replacement.value.previousNativeRow.Some? && 0 < r.replacement.value.previousNativeRow.value.size
  }

  lemma OverrunAmounts(s: Ledger, i: nat, initial: Capture)
    requires Inv(s, initial) && !s.invalid && i < |s.records| && Overrunning(s.records[i])
    ensures s.Used().journal.bytes
            >= JOURNAL_BYTES + s.records[i].replacement.value.previousNativeRow.value.size
  {
    hide Tokens, Tracked, Bounded, Phase, FileAmount, NewFilesObserved;
    var b := s.records[i].replacement.value;
    RecordFactsAt(s, i, initial);
    ShareAtLeast(s.records, i, HeldShare);
    ShareAtLeast(s.records, i, RetainedShare);
    NewFileCovered(s.inventory.value.journal, initial.files.journal, s.observed.journal, b.filename);
  }

  /** At most one replacement is in progress or was cut off: two would not fit the budget. */
  lemma OneReplacement(s: Ledger, i: nat, j: nat, initial: Capture)
    requires Inv(s, initial) && !s.invalid && i < |s.records| && j < |s.records| && i != j
    requires Overrunning(s.records[i])
    ensures !Replacing(s.records[j])
  {
    hide Tracked, Phase, FileAmount, NewFilesObserved;
    if Replacing(s.records[j]) {
      var b := s.records[i].replacement.value;
      RecordFactsAt(s, i, initial);
      RecordFactsAt(s, j, initial);
      HoldingsAtLeast(s.records, i, j);
      NewFileCovered(s.inventory.value.journal, initial.files.journal, s.observed.journal, b.filename);
    }
  }

  /** What two replacements hold, whether reserved or retained. */
  lemma HoldingsAtLeast(records: seq<Record>, i: nat, j: nat)
    requires Positive(records) && i < |records| && j < |records| && i != j
    requires Replacing(records[i]) && records[i].estimates == REPLACEMENT_ESTIMATE
    requires Replacing(records[j]) && records[j].estimates == REPLACEMENT_ESTIMATE
    ensures Sum(records, HeldShare).journal.bytes + Sum(records, RetainedShare).journal.bytes >= 2 * JOURNAL_BYTES
  {
    hide Sum;
    SumAtLeastTwo(records, i, j, HeldShare);
    SumAtLeastTwo(records, i, j, RetainedShare);
  }

  lemma {:induction false} OverhangIsOne(s: Ledger, i: nat, initial: Capture)
    requires Inv(s, initial) && !s.invalid && i < |s.records| && Overrunning(s.records[i])
    ensures OverhangOf(s.records) == s.records[i].replacement.value.previousNativeRow.value.size
  {
    hide Inv;
    var r := s.records[i].(state := Completed);
    var after := s.records[i := r];
    forall j | 0 <= j < |after|
      ensures Weight(after[j], OverhangShare) == NOTHING
    {
      if j != i {
        OneReplacement(s, i, j, initial);
      }
    }
    SumZero(after, OverhangShare);
    SumUpdate(s.records, i, r, OverhangShare);
  }

  lemma NothingOverruns(s: Ledger, initial: Capture)
    requires Inv(s, initial) && !s.invalid && forall i :: 0 <= i < |s.records| ==> !Overrunning(s.records[i])
    ensures OverhangOf(s.records) == 0
  {
    hide Tokens, Tracked, Conserved, Positive, Phase, Bounded, FilesObserved, JournalsPresent;
    forall i | 0 <= i < |s.records|
      ensures Weight(s.records[i], OverhangShare) == NOTHING
    {
      if Replacing(s.records[i]) {
        assert 0 <= SizeOf(s.records[i].replacement.value.previousNativeRow);
      }
    }
    SumZero(s.records, OverhangShare);
  }

  lemma InvBounded(s: Ledger, initial: Capture)
    requires Inv(s, initial) && !s.invalid
    ensures s.Used().temporary.Within(s.limits.For(TemporaryContainment))
    ensures s.Used().retained.Within(s.limits.For(RetainedUncertain))
    ensures s.Used().promoted.Within(s.limits.For(PromotedAssets))
    ensures s.Used().journal.entries <= s.limits.journalEntries
    ensures s.Used().temporary.bytes + s.Used().promoted.bytes <= s.limits.assetBytes
    ensures s.Used().temporary.entries + s.Used().promoted.entries <= s.limits.SharedEntryLimit()
    ensures s.Used().journal.bytes <= 2 * JOURNAL_BYTES
    ensures s.Used().journal.bytes > s.limits.journalBytes
            <==> exists i :: 0 <= i < |s.records| && Overrunning(s.records[i])
    ensures s.Used().journal.bytes <= s.limits.journalBytes + OverhangOf(s.records)
  {
    hide Tokens, Tracked, Conserved, Positive, Phase, FilesObserved, BoundToInventory, JournalsPresent, OverhangOf;
    if i :| 0 <= i < |s.records| && Overrunning(s.records[i]) {
      OverrunAmounts(s, i, initial);
    } else {
      NothingOverruns(s, initial);
    }
  }

  lemma InvOverrunByClosing(s: Ledger, i: nat, initial: Capture)
    requires Inv(s, initial) && s.Live() && i < |s.records| && Overrunning(s.records[i]) && RecordsOwned(s)
    ensures
      var t := Close(s);
      && t.closed && !t.invalid && t.activeWrite.None? && Inv(t, initial)
      && t.Used().journal.bytes > t.limits.journalBytes
  {
    hide Clean, Conserved, Positive, Tracked;
    OverrunAmounts(s, i, initial);
    RetainFromKeepsCore(s, 0, initial);
    CloseKeepsInv(s, initial);
  }

  lemma InvWholeBudget(s: Ledger, operation: nat, b: Binding, view: JournalView, initial: Capture)
    requires Inv(s, initial) && Measured(initial)
    requires AdmitReplacement(s, operation, b, view).outcome.Ok?
    ensures s.limits.journalBytes == JOURNAL_BYTES && s.reserved.journal.bytes == 0
    ensures Bytes(s.inventory.value.journal) == SizeOf(RowOf(s.inventory.value.journal, b.filename))
  {
    hide Tokens, Tracked, Bounded, Phase, BoundToInventory, TipMatches, BindingCurrent;
    TipSize(s, operation, b, initial);
    SharesNatural(s.records, HeldShare);
    JournalObserved(s.inventory.value, s.observed, initial.files);
    DirectoryAccounted(s.inventory.value.journal, initial.files.journal, s.observed.journal);
    BudgetArithmetic(s, b, initial);
  }

  lemma BudgetArithmetic(s: Ledger, b: Binding, initial: Capture)
    requires s.inventory.Some? && Clean(s, initial) && s.limits.Valid() && ReplacementFits(s, b)
    requires 0 <= s.reserved.journal.bytes && AllNatural(initial.base)
    requires FileAmount(s.inventory.value.journal) == initial.base.journal.Plus(s.observed.journal)
    requires RowOf(s.inventory.value.journal, b.filename).Some? ==> b.filename in s.journalFiles
    ensures s.limits.journalBytes == JOURNAL_BYTES && s.reserved.journal.bytes == 0
    ensures Bytes(s.inventory.value.journal) == SizeOf(RowOf(s.inventory.value.journal, b.filename))
  {
    hide Bounded, BoundToInventory, NewFilesObserved;
    if b.filename in s.inventory.value.journal {
      NewFileCovered(s.inventory.value.journal, initial.files.journal, s.observed.journal, b.filename);
    } else {
      ObservedNatural(s.inventory.value.journal, initial.files.journal, s.observed.journal);
    }
  }

  lemma ObservedNatural(now: Directory, initial: Directory, seen: Amount)
    requires NewFilesObserved(now, initial, seen)
    ensures seen.Natural()
  {
    BytesNatural(now - initial.Keys);
  }
}
