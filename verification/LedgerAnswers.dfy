/** When each of the ledger's smaller operations is granted, and whose records it may change. */
module LedgerAnswers {
  import opened CapacityTypes
  import opened LedgerSpec
  import opened LedgerInvariant
  import opened LedgerSteps
  import opened LedgerRuns
  import opened LedgerTheorems
  import opened LedgerHistory
  import opened LedgerAdmission

  // ----- operations and reservations -----

  lemma BeginExactly(s: Ledger, initial: Inventory, id: string)
    requires Reached(s, initial)
    ensures BeginOperation(s, id).outcome.Ok?
            <==> 1 <= |id| <= 128 && !s.closed && !s.invalid && forall k :: 0 <= k < |s.operations| ==> s.operations[k].id != id
    ensures BeginOperation(s, id).outcome.Ok? ==>
              && BeginOperation(s, id).outcome.value == |s.operations|
              && BeginOperation(s, id).next.operations == s.operations + [Operation(id, Open)]
  {
    hide Reached, Inv, Measured;
    ReachedHolds(s, initial);
    InvHasInventory(s, Captured(initial));
  }

  /** The reservation is this operation's, and nothing has come of it yet. */
  predicate Waits(s: Ledger, operation: nat, reservation: nat) {
    && reservation < |s.records| && s.records[reservation].operation == operation
    && s.records[reservation].state == Reserved
  }

  /** A reservation is given back exactly by its own operation before its write, and admitted exactly by its own operation
      while the ledger is live and no write is active. */
  lemma ReservationExactly(s: Ledger, initial: Inventory, operation: nat, reservation: nat)
    requires Reached(s, initial)
    ensures RecordsOwned(s)
    ensures CancelBeforeWrite(s, operation, reservation).outcome.Ok? <==> Waits(s, operation, reservation)
    ensures CancelBeforeWrite(s, operation, reservation).outcome.Ok? ==>
              CancelBeforeWrite(s, operation, reservation).next.records[reservation].state == Cancelled
    ensures AdmitWrite(s, operation, reservation).outcome.Ok?
            <==> Waits(s, operation, reservation) && !s.closed && !s.invalid && s.activeWrite.None?
    ensures AdmitWrite(s, operation, reservation).outcome.Ok? ==>
              && AdmitWrite(s, operation, reservation).outcome.value == s.nextWrite
              && AdmitWrite(s, operation, reservation).next.activeWrite == Some(s.nextWrite)
              && WritingIs(AdmitWrite(s, operation, reservation).next, operation, s.nextWrite, reservation)
  {
    hide Reached, Inv, Measured;
    ReachedHolds(s, initial);
    InvHasInventory(s, Captured(initial));
  }

  /** Record `n` is this operation's, and is being written under this token. */
  predicate WritingIs(s: Ledger, operation: nat, write: nat, n: nat) {
    && n < |s.records| && s.records[n].operation == operation && s.records[n].write == Some(write)
    && s.records[n].state == Writing
  }

  ghost predicate Writes(s: Ledger, operation: nat, write: nat, n: Option<nat>) {
    if n.Some? then WritingIs(s, operation, write, n.value) else forall i: nat :: !WritingIs(s, operation, write, i)
  }

  /** The active record is the one that is being written under the token by this operation. */
  lemma ActiveExactly(s: Ledger, initial: Capture, operation: nat, write: nat)
    requires Inv(s, initial) && Measured(initial) && RecordsOwned(s)
    ensures Writes(s, operation, write, ActiveRecord(s, operation, write))
    ensures forall n: nat :: WritingIs(s, operation, write, n) ==> ActiveRecord(s, operation, write) == Some(n)
  {
    hide Inv, Measured;
    InvConserved(s, initial);
    var found := ActiveRecord(s, operation, write);
    FoundIsWriting(s, operation, write);
    forall n: nat | WritingIs(s, operation, write, n)
      ensures found == Some(n)
    {
      assert s.activeWrite == Some(write);
      WritingIsFound(s, operation, write, n);
    }
  }

  lemma FoundIsWriting(s: Ledger, operation: nat, write: nat)
    requires RecordsOwned(s)
    ensures ActiveRecord(s, operation, write).Some? ==> WritingIs(s, operation, write, ActiveRecord(s, operation, write).value)
  {
  }

  lemma WritingIsFound(s: Ledger, operation: nat, write: nat, n: nat)
    requires RecordsOwned(s) && WritingIs(s, operation, write, n) && s.activeWrite == Some(write)
    requires forall i, j ::
               (0 <= i < |s.records| && 0 <= j < |s.records| && s.records[i].state == Writing && s.records[j].state == Writing)
               ==> i == j
    ensures ActiveRecord(s, operation, write) == Some(n)
  {
    var found := FirstFrom(s.records, write, {Writing}, 0);
    assert found.Some?;
  }

  /** A write is retained exactly by the operation that is writing it, and cancelled exactly by it too, while the ledger
      is live and the write replaces no journal. */
  lemma AbandonExactly(s: Ledger, initial: Inventory, operation: nat, write: nat)
    requires Reached(s, initial)
    ensures RecordsOwned(s)
    ensures RetainUncertain(s, operation, write).outcome.Ok? <==> exists n: nat :: WritingIs(s, operation, write, n)
    ensures RetainUncertain(s, operation, write).outcome.Ok? ==> RetainUncertain(s, operation, write).next.invalid
    ensures CancelWriteBeforeCreate(s, operation, write).outcome.Ok? <==>
              && !s.closed && !s.invalid
              && exists n: nat :: WritingIs(s, operation, write, n) && s.records[n].replacement.None?
  {
    hide Reached, Inv, Measured;
    ReachedHolds(s, initial);
    InvHasInventory(s, Captured(initial));
    ActiveExactly(s, Captured(initial), operation, write);
    hide ActiveRecord, Release, Retain;
    var found := ActiveRecord(s, operation, write);
    assert found.Some? ==> WritingIs(s, operation, write, found.value);
  }

  // ----- completing an additive write -----

  /** One directory keeps every file it had and gains files within the estimate and the limits. */
  ghost predicate Gains(limits: Limits, p: Purpose, before: Directory, after: Directory, estimate: Amount) {
    && (forall name :: name in before ==> name in after && after[name] == before[name])
    && (forall name :: name in after && name !in before ==> after[name].size >= 0)
    && |after| <= MAX_INVENTORY_ENTRIES && |after| <= Ceiling(limits, p).entries
    && Bytes(after - before.Keys) <= estimate.bytes && |after - before.Keys| <= estimate.entries
  }

  /** The inventory gains some file, and in every purpose nothing else than the estimate allows. */
  ghost predicate InventoryGains(limits: Limits, before: Inventory, after: Inventory, estimates: PerPurpose<Amount>) {
    && (forall p: Purpose :: Gains(limits, p, before.At(p), after.At(p), estimates.At(p)))
    && |after.temporary| + |after.promoted| <= (if limits.dualCustody then DUAL_CUSTODY_ENTRIES else limits.assetEntries)
    && (exists p: Purpose, name :: name in after.At(p) && name !in before.At(p))
  }

  lemma DeltaExactly(limits: Limits, p: Purpose, before: Directory, after: Directory, estimate: Amount)
    ensures Gains(limits, p, before, after, estimate)
            <==> && DirectoryDelta(limits, p, before, after).Some?
                 && DirectoryDelta(limits, p, before, after).value.Within(estimate)
  {
    DeltaKnown(limits, p, before, after);
    hide DirectoryDelta, FileAmount, Bytes, Contains;
    FileAmountIs(after - before.Keys);
  }

  lemma FileAmountIs(files: Directory)
    ensures FileAmount(files) == Amount(Bytes(files), |files|)
  {
  }

  lemma DeltaKnown(limits: Limits, p: Purpose, before: Directory, after: Directory)
    ensures var delta := DirectoryDelta(limits, p, before, after);
            && (delta.Some? <==>
                  && (forall name :: name in before ==> name in after && after[name] == before[name])
                  && (forall name :: name in after && name !in before ==> after[name].size >= 0)
                  && |after| <= MAX_INVENTORY_ENTRIES && |after| <= Ceiling(limits, p).entries)
            && (delta.Some? ==> delta.value == FileAmount(after - before.Keys))
  {
    hide FileAmount;
  }

  lemma DeltaIsZero(limits: Limits, p: Purpose, before: Directory, after: Directory)
    requires DirectoryDelta(limits, p, before, after).Some?
    ensures DirectoryDelta(limits, p, before, after).value == ZERO <==> forall name :: name in after ==> name in before
  {
    hide Bytes;
    var more := after - before.Keys;
    if forall name :: name in after ==> name in before {
      assert more == map[];
      NothingIsZero();
    } else {
      var name :| name in after && name !in before;
      assert name in more.Keys;
      assert |more| == |more.Keys|;
    }
  }

  lemma NothingIsZero()
    ensures Bytes(map[]) == 0
  {
  }

  lemma InventoryDeltaExactly(limits: Limits, before: Inventory, after: Inventory, estimates: PerPurpose<Amount>)
    ensures InventoryGains(limits, before, after, estimates)
            <==> && InventoryDelta(limits, before, after).Some?
                 && InventoryDelta(limits, before, after).value != NOTHING
                 && AllWithin(InventoryDelta(limits, before, after).value, estimates)
  {
    DeltaExactly(limits, PrivateJournal, before.journal, after.journal, estimates.journal);
    DeltaExactly(limits, TemporaryContainment, before.temporary, after.temporary, estimates.temporary);
    DeltaExactly(limits, RetainedUncertain, before.retained, after.retained, estimates.retained);
    DeltaExactly(limits, PromotedAssets, before.promoted, after.promoted, estimates.promoted);
    if InventoryDelta(limits, before, after).Some? {
      DeltaIsZero(limits, PrivateJournal, before.journal, after.journal);
      DeltaIsZero(limits, TemporaryContainment, before.temporary, after.temporary);
      DeltaIsZero(limits, RetainedUncertain, before.retained, after.retained);
      DeltaIsZero(limits, PromotedAssets, before.promoted, after.promoted);
    }
    GainsByPurpose(limits, before, after, estimates);
    NewByPurpose(before, after);
    hide Gains, DirectoryDelta;
  }

  lemma GainsByPurpose(limits: Limits, before: Inventory, after: Inventory, estimates: PerPurpose<Amount>)
    ensures (forall p: Purpose :: Gains(limits, p, before.At(p), after.At(p), estimates.At(p)))
            <==> && Gains(limits, PrivateJournal, before.journal, after.journal, estimates.journal)
                 && Gains(limits, TemporaryContainment, before.temporary, after.temporary, estimates.temporary)
                 && Gains(limits, RetainedUncertain, before.retained, after.retained, estimates.retained)
                 && Gains(limits, PromotedAssets, before.promoted, after.promoted, estimates.promoted)
  {
    hide Gains;
    if forall p: Purpose :: Gains(limits, p, before.At(p), after.At(p), estimates.At(p)) {
      assert Gains(limits, PrivateJournal, before.At(PrivateJournal), after.At(PrivateJournal), estimates.At(PrivateJournal));
      assert Gains(limits, TemporaryContainment, before.At(TemporaryContainment), after.At(TemporaryContainment),
                   estimates.At(TemporaryContainment));
      assert Gains(limits, RetainedUncertain, before.At(RetainedUncertain), after.At(RetainedUncertain),
                   estimates.At(RetainedUncertain));
      assert Gains(limits, PromotedAssets, before.At(PromotedAssets), after.At(PromotedAssets), estimates.At(PromotedAssets));
    }
  }

  lemma NewByPurpose(before: Inventory, after: Inventory)
    ensures (exists p: Purpose, name :: name in after.At(p) && name !in before.At(p))
            <==> || (exists name :: name in after.journal && name !in before.journal)
                 || (exists name :: name in after.temporary && name !in before.temporary)
                 || (exists name :: name in after.retained && name !in before.retained)
                 || (exists name :: name in after.promoted && name !in before.promoted)
  {
    if name :| name in after.journal && name !in before.journal {
      assert name in after.At(PrivateJournal) && name !in before.At(PrivateJournal);
    }
    if name :| name in after.temporary && name !in before.temporary {
      assert name in after.At(TemporaryContainment) && name !in before.At(TemporaryContainment);
    }
    if name :| name in after.retained && name !in before.retained {
      assert name in after.At(RetainedUncertain) && name !in before.At(RetainedUncertain);
    }
    if name :| name in after.promoted && name !in before.promoted {
      assert name in after.At(PromotedAssets) && name !in before.At(PromotedAssets);
    }
  }

  /** An additive write completes exactly when its own operation is writing it, it replaces no journal, and the inventory
      gained something and nothing but what the reservation allows. */
  lemma CompleteExactly(s: Ledger, initial: Inventory, operation: nat, write: nat, after: Inventory, free: Option<int>)
    requires Reached(s, initial)
    ensures RecordsOwned(s) && s.inventory.Some?
    ensures CompleteWrite(s, operation, write, after, free).outcome.Ok? <==>
              && (free.Some? ==> 0 <= free.value <= MAX_FREE_BYTES) && !s.closed && !s.invalid
              && exists n: nat :: WritingIs(s, operation, write, n) && s.records[n].replacement.None?
                                  && InventoryGains(s.limits, s.inventory.value, after, s.records[n].estimates)
  {
    hide Reached, Inv, Measured;
    ReachedHolds(s, initial);
    InvHasInventory(s, Captured(initial));
    ActiveExactly(s, Captured(initial), operation, write);
    var found := ActiveRecord(s, operation, write);
    CompletesWhen(s, operation, write, after, free);
    hide ActiveRecord, CompleteWrite, InventoryGains, InventoryDelta;
    if found.Some? {
      assert WritingIs(s, operation, write, found.value);
      InventoryDeltaExactly(s.limits, s.inventory.value, after, s.records[found.value].estimates);
    }
  }

  lemma CompletesWhen(s: Ledger, operation: nat, write: nat, after: Inventory, free: Option<int>)
    requires RecordsOwned(s)
    ensures var found := ActiveRecord(s, operation, write);
            CompleteWrite(s, operation, write, after, free).outcome.Ok? <==>
              && (free.Some? ==> 0 <= free.value <= MAX_FREE_BYTES) && s.Live() && found.Some?
              && WriteRefusal(s, found.value, after).None?
  {
    hide WriteRefusal, ActiveRecord;
  }

  // ----- taking an additive write back -----

  /** Record `n` completed under this token, with this observed growth, and no write has started since; or it was taken
      back so before. */
  predicate TakesBackRecord(s: Ledger, operation: nat, write: nat, delta: PerPurpose<Amount>, n: nat) {
    && n < |s.records| && operation < |s.operations|
    && s.records[n].operation == operation && s.records[n].write == Some(write) && s.records[n].delta == Some(delta)
    && (|| (s.records[n].state == Uncertain && s.operations[operation].state == OpUncertain)
        || (s.records[n].state == Completed && s.operations[operation].state == OpCompleted && s.activeWrite.None?
            && s.records[n].replacement.None? && AllNatural(delta) && AllWithin(delta, s.observed)))
  }

  lemma TakeBackExactly(s: Ledger, initial: Inventory, operation: nat, write: nat, delta: PerPurpose<Amount>)
    requires Reached(s, initial)
    ensures RecordsOwned(s)
    ensures CompensateWrite(s, operation, write, delta).outcome.Ok?
            <==> exists n: nat :: TakesBackRecord(s, operation, write, delta, n)
  {
    hide Reached, Inv, Measured;
    ReachedHolds(s, initial);
    TokenIsOne(s, Captured(initial), write);
    TakesBackWhen(s, operation, write, delta);
    var found := FirstFrom(s.records, write, ANY_STATE, 0);
    hide CompensateWrite, FirstFrom;
    if n: nat :| TakesBackRecord(s, operation, write, delta, n) {
      assert found == Some(n);
    }
  }

  lemma TakesBackWhen(s: Ledger, operation: nat, write: nat, delta: PerPurpose<Amount>)
    requires RecordsOwned(s)
    ensures var found := FirstFrom(s.records, write, ANY_STATE, 0);
            CompensateWrite(s, operation, write, delta).outcome.Ok?
            <==> found.Some? && TakesBackRecord(s, operation, write, delta, found.value)
  {
  }

  lemma TokenIsOne(s: Ledger, initial: Capture, write: nat)
    requires Inv(s, initial)
    ensures forall n: nat :: n < |s.records| && s.records[n].write == Some(write) ==>
              FirstFrom(s.records, write, ANY_STATE, 0) == Some(n)
  {
    hide Inv;
    TokensDiffer(s, initial);
    AnyState();
    hide FirstFrom;
    var found := FirstFrom(s.records, write, ANY_STATE, 0);
    forall n: nat | n < |s.records| && s.records[n].write == Some(write)
      ensures found == Some(n)
    {
      assert s.records[n].state in ANY_STATE;
      assert found.Some?;
    }
  }

  lemma AnyState()
    ensures forall state: RecordState :: state in ANY_STATE
  {
    forall state: RecordState
      ensures state in ANY_STATE
    {
      match state
      case Reserved =>
      case Writing =>
      case Completed =>
      case Cancelled =>
      case RetainedAsUncertain =>
      case Uncertain =>
    }
  }

  lemma TokensDiffer(s: Ledger, initial: Capture)
    requires Inv(s, initial)
    ensures forall i, j :: 0 <= i < |s.records| && 0 <= j < |s.records| && i != j && s.records[i].write.Some? ==>
              s.records[i].write != s.records[j].write
  {
    hide Clean, Tracked, Conserved, Positive, Phase;
    forall i, j | 0 <= i < |s.records| && 0 <= j < |s.records| && i != j && s.records[i].write.Some?
      ensures s.records[i].write != s.records[j].write
    {
      assert i < j || j < i;
    }
  }

  // ----- the capture -----

  /** What a purpose's directory may hold when the ledger opens on it. */
  ghost predicate OpensOn(limits: Limits, p: Purpose, files: Directory) {
    && 0 <= Bytes(files) <= Ceiling(limits, p).bytes && |files| <= Ceiling(limits, p).entries
    && |files| <= MAX_INVENTORY_ENTRIES
  }

  lemma {:induction false} CountExactly(s: Ledger, inventory: Inventory, i: nat)
    requires i <= 4
    ensures CountInitialFrom(s, inventory, i).outcome.Ok?
            <==> forall k :: i <= k < 4 ==> DirectoryFits(s.limits, PURPOSES[k], FileAmount(inventory.At(PURPOSES[k])))
    decreases 4 - i
  {
    hide FileAmount, DirectoryFits;
    if i < 4 {
      CountExactly(s.(uncertain := s.uncertain.With(PURPOSES[i], FileAmount(inventory.At(PURPOSES[i])))), inventory, i + 1);
    }
  }

  lemma OpensExactly(limits: Limits, p: Purpose, files: Directory)
    requires limits.Valid()
    ensures DirectoryFits(limits, p, FileAmount(files)) <==> OpensOn(limits, p, files)
  {
    hide Bytes;
  }

  /** A ledger opens on an inventory exactly if every directory is within its own limits, both asset roots together within
      theirs, and the free-space observation is one; whatever failed attempts left behind. */
  lemma CaptureExactly(limits: Limits, owner: nat, uncertain: PerPurpose<Amount>, inventory: Inventory, free: Option<int>)
    requires limits.Valid()
    ensures SetInitialInventory(Fresh(limits, owner).(uncertain := uncertain), inventory, free).outcome.Ok? <==>
              && OpensOn(limits, PrivateJournal, inventory.journal) && OpensOn(limits, TemporaryContainment, inventory.temporary)
              && OpensOn(limits, RetainedUncertain, inventory.retained) && OpensOn(limits, PromotedAssets, inventory.promoted)
              && Bytes(inventory.temporary) + Bytes(inventory.promoted) <= limits.assetBytes
              && |inventory.temporary| + |inventory.promoted|
                 <= (if limits.dualCustody then DUAL_CUSTODY_ENTRIES else limits.assetEntries)
              && (free.Some? ==> 0 <= free.value <= MAX_FREE_BYTES)
  {
    var s := Fresh(limits, owner).(uncertain := uncertain);
    hide Bytes, DirectoryFits, OpensOn, CountInitialFrom, SetInitialInventory;
    CountExactly(s, inventory, 0);
    CapturedAmounts(limits, owner, uncertain, inventory, free);
    OpensExactly(limits, PrivateJournal, inventory.journal);
    OpensExactly(limits, TemporaryContainment, inventory.temporary);
    OpensExactly(limits, RetainedUncertain, inventory.retained);
    OpensExactly(limits, PromotedAssets, inventory.promoted);
    FourPurposes(s, inventory);
  }

  /** And never twice, nor once it is closed. */
  lemma CapturedOnce(s: Ledger, inventory: Inventory, free: Option<int>)
    ensures s.inventory.Some? || s.closed ==> SetInitialInventory(s, inventory, free) == Step(s, Failed(StorageOwnerUnavailable))
  {
  }

  lemma CapturedAmounts(limits: Limits, owner: nat, uncertain: PerPurpose<Amount>, inventory: Inventory, free: Option<int>)
    requires limits.Valid()
    ensures var s := Fresh(limits, owner).(uncertain := uncertain);
            SetInitialInventory(s, inventory, free).outcome.Ok? <==>
              && CountInitialFrom(s, inventory, 0).outcome.Ok?
              && Bytes(inventory.temporary) + Bytes(inventory.promoted) <= limits.assetBytes
              && |inventory.temporary| + |inventory.promoted|
                 <= (if limits.dualCustody then DUAL_CUSTODY_ENTRIES else limits.assetEntries)
              && (free.Some? ==> 0 <= free.value <= MAX_FREE_BYTES)
  {
    var s := Fresh(limits, owner).(uncertain := uncertain);
    CountedAssets(s, inventory);
    FileAmountIs(inventory.temporary);
    FileAmountIs(inventory.promoted);
    hide Bytes, CountInitialFrom, FileAmount;
  }

  lemma CountedAssets(s: Ledger, inventory: Inventory)
    ensures CountInitialFrom(s, inventory, 0).outcome.Ok? ==>
              && CountInitialFrom(s, inventory, 0).next.uncertain.temporary == FileAmount(inventory.temporary)
              && CountInitialFrom(s, inventory, 0).next.uncertain.promoted == FileAmount(inventory.promoted)
    ensures CountInitialFrom(s, inventory, 0).next.limits == s.limits
  {
    hide FileAmount, DirectoryFits, CountInitialFrom;
    CountInitialMeans(s, inventory, 0);
    assert PURPOSES[1] == TemporaryContainment && PURPOSES[3] == PromotedAssets;
    var u := CountInitialFrom(s, inventory, 0).next.uncertain;
    if CountInitialFrom(s, inventory, 0).outcome.Ok? {
      assert u.At(PURPOSES[1]) == FileAmount(inventory.At(PURPOSES[1]));
      assert u.At(PURPOSES[3]) == FileAmount(inventory.At(PURPOSES[3]));
    }
  }

  lemma FourPurposes(s: Ledger, inventory: Inventory)
    ensures (forall k :: 0 <= k < 4 ==> DirectoryFits(s.limits, PURPOSES[k], FileAmount(inventory.At(PURPOSES[k]))))
            <==> && DirectoryFits(s.limits, PrivateJournal, FileAmount(inventory.journal))
                 && DirectoryFits(s.limits, TemporaryContainment, FileAmount(inventory.temporary))
                 && DirectoryFits(s.limits, RetainedUncertain, FileAmount(inventory.retained))
                 && DirectoryFits(s.limits, PromotedAssets, FileAmount(inventory.promoted))
  {
    hide FileAmount, DirectoryFits;
    assert PURPOSES[0] == PrivateJournal && PURPOSES[1] == TemporaryContainment && PURPOSES[2] == RetainedUncertain
           && PURPOSES[3] == PromotedAssets;
  }

  // ----- observing -----

  /** An observation is accepted exactly if it shows what the ledger knows; anything else makes the ledger invalid and
      holds nothing any more. */
  lemma ObserveExactly(s: Ledger, initial: Inventory, inventory: Inventory, free: Option<int>)
    requires Reached(s, initial)
    ensures RecordsOwned(s)
    ensures ObserveInventory(s, inventory, free).outcome.Ok? <==>
              && (free.Some? ==> 0 <= free.value <= MAX_FREE_BYTES) && !s.closed && !s.invalid
              && s.inventory == Some(inventory)
    ensures (free.Some? ==> 0 <= free.value <= MAX_FREE_BYTES) && s.Live() && s.inventory != Some(inventory) ==>
              var t := ObserveInventory(s, inventory, free).next;
              t.invalid && forall i :: 0 <= i < |t.records| ==> !t.records[i].Held()
  {
    hide Reached, Inv, Measured, RetainFrom;
    ReachedHolds(s, initial);
    InvHasInventory(s, Captured(initial));
    NothingHeld(s, 0);
  }

  /** Closing ends everything that was held: the ledger is closed, no reservation holds anything, and what was reserved is
      uncertain. */
  lemma CloseExactly(s: Ledger, initial: Inventory)
    requires Reached(s, initial)
    ensures RecordsOwned(s) && Close(s).closed && Close(s).invalid == s.invalid && Close(s).observed == s.observed
    ensures forall i :: 0 <= i < |Close(s).records| ==> !Close(s).records[i].Held()
    ensures Close(s).reserved == NOTHING && Close(s).uncertain == Added(s.uncertain, s.reserved)
  {
    hide Reached, Inv, Measured, RetainFrom, Close, Captured;
    ReachedHolds(s, initial);
    CloseKeepsInv(s, Captured(initial));
    ClosedHoldsNothing(Close(s), Captured(initial));
    CloseMoves(s);
  }

  lemma ClosedHoldsNothing(s: Ledger, initial: Capture)
    requires Inv(s, initial) && s.closed
    ensures s.reserved == NOTHING && forall i :: 0 <= i < |s.records| ==> !s.records[i].Held()
  {
    hide Clean, Tracked, Tokens, Positive;
    SumZero(s.records, HeldShare);
  }

  lemma CloseMoves(s: Ledger)
    requires RecordsOwned(s)
    ensures Close(s).invalid == s.invalid && Close(s).observed == s.observed
    ensures Added(Close(s).reserved, Close(s).uncertain) == Added(s.reserved, s.uncertain)
  {
    RetainingMoves(s, 0);
    hide RetainFrom;
  }

  lemma {:induction false} RetainingMoves(s: Ledger, i: nat)
    requires RecordsOwned(s) && i <= |s.records|
    ensures RetainFrom(s, i).invalid == s.invalid && RetainFrom(s, i).observed == s.observed
    ensures Added(RetainFrom(s, i).reserved, RetainFrom(s, i).uncertain) == Added(s.reserved, s.uncertain)
    decreases |s.records| - i
  {
    if i < |s.records| {
      RetainingMoves(Retain(s, i), i + 1);
    }
  }

  lemma {:induction false} NothingHeld(s: Ledger, i: nat)
    requires RecordsOwned(s) && i <= |s.records| && forall j :: 0 <= j < i ==> !s.records[j].Held()
    ensures forall j :: 0 <= j < |RetainFrom(s, i).records| ==> !RetainFrom(s, i).records[j].Held()
    decreases |s.records| - i
  {
    if i < |s.records| {
      NothingHeld(Retain(s, i), i + 1);
    }
  }

  // ----- whose records an operation changes -----

  /** Records and states of other operations stay as they are. */
  ghost predicate OthersStand(s: Ledger, t: Ledger, operation: nat) {
    && |s.records| <= |t.records| && |s.operations| == |t.operations|
    && (forall i :: 0 <= i < |s.records| && s.records[i].operation != operation ==> t.records[i] == s.records[i])
    && (forall i :: |s.records| <= i < |t.records| ==> t.records[i].operation == operation)
    && (forall k :: 0 <= k < |s.operations| && k != operation ==> t.operations[k] == s.operations[k])
  }

  lemma ReserveStands(s: Ledger, operation: nat, estimates: map<Purpose, Amount>)
    ensures OthersStand(s, Reserve(s, operation, estimates).next, operation)
  {
    hide Normalize, UnfitFrom, FreeSpaceCovers;
  }

  lemma AdmissionStands(s: Ledger, operation: nat, b: Binding, view: JournalView)
    ensures OthersStand(s, AdmitReplacement(s, operation, b, view).next, operation)
  {
    hide FreeSpaceCovers, TipMatches, ReplacementFits, IsDigest;
  }

  lemma ReservationsStand(s: Ledger, operation: nat, reservation: nat)
    requires RecordsOwned(s)
    ensures OthersStand(s, CancelBeforeWrite(s, operation, reservation).next, operation)
    ensures OthersStand(s, AdmitWrite(s, operation, reservation).next, operation)
  {
  }

  lemma AbandoningStands(s: Ledger, operation: nat, write: nat)
    requires RecordsOwned(s)
    ensures OthersStand(s, RetainUncertain(s, operation, write).next, operation)
    ensures OthersStand(s, CancelWriteBeforeCreate(s, operation, write).next, operation)
  {
    FoundIsWriting(s, operation, write);
    hide ActiveRecord;
  }

  lemma CompletionStands(s: Ledger, operation: nat, write: nat, after: Inventory, free: Option<int>)
    requires RecordsOwned(s)
    ensures OthersStand(s, CompleteWrite(s, operation, write, after, free).next, operation)
  {
    FoundIsWriting(s, operation, write);
    hide WriteRefusal, InventoryDelta, ActiveRecord;
  }

  lemma ReplacementStands(s: Ledger, operation: nat, write: nat, after: Inventory, free: int, view: JournalView, c: Completion)
    requires RecordsOwned(s)
    ensures OthersStand(s, CompleteReplacement(s, operation, write, after, free, view, c).next, operation)
  {
    FoundIsWriting(s, operation, write);
    hide RowOf, CompletionCurrent, NewRowAcceptable, IdentityUnique, AcknowledgesNext, Bytes, ActiveRecord;
  }

  lemma CompensationsStand(s: Ledger, operation: nat, write: nat, delta: PerPurpose<Amount>)
    requires RecordsOwned(s)
    ensures OthersStand(s, CompensateWrite(s, operation, write, delta).next, operation)
    ensures OthersStand(s, CompensateReplacement(s, operation, write).next, operation)
  {
    hide CompensationCurrent;
  }

  /** The operation an action names. */
  function Names(a: Action): Option<nat> {
    match a
    case Begin(_) => None
    case Observe(_, _) => None
    case CloseLedger => None
    case Request(op, _) => Some(op)
    case Cancel(op, _) => Some(op)
    case Admit(op, _) => Some(op)
    case Complete(op, _, _, _) => Some(op)
    case AbandonUncertain(op, _) => Some(op)
    case CancelWrite(op, _) => Some(op)
    case CompensateAdditive(op, _, _) => Some(op)
    case AdmitJournal(op, _, _) => Some(op)
    case CompleteJournal(op, _, _, _, _, _) => Some(op)
    case CompensateJournal(op, _) => Some(op)
  }

  /** No operation can do anything to another one's reservations or writes, whatever tokens it shows. */
  lemma OnlyItsOwn(s: Ledger, a: Action)
    requires RecordsOwned(s) && Names(a).Some?
    ensures OthersStand(s, Act(s, a), Names(a).value)
  {
    hide CompensateWrite, CompensateReplacement, CompleteWrite, CompleteReplacement, AdmitReplacement, Reserve, AdmitWrite,
      CancelBeforeWrite, RetainUncertain, CancelWriteBeforeCreate, OthersStand;
    match a
    case Request(op, estimates) => ReserveStands(s, op, estimates);
    case AdmitJournal(op, b, view) => AdmissionStands(s, op, b, view);
    case Cancel(op, reservation) => ReservationsStand(s, op, reservation);
    case Admit(op, reservation) => ReservationsStand(s, op, reservation);
    case AbandonUncertain(op, write) => AbandoningStands(s, op, write);
    case CancelWrite(op, write) => AbandoningStands(s, op, write);
    case Complete(op, write, after, free) => CompletionStands(s, op, write, after, free);
    case CompleteJournal(op, write, after, free, v, c) => ReplacementStands(s, op, write, after, free, v, c);
    case CompensateAdditive(op, write, delta) => CompensationsStand(s, op, write, delta);
    case CompensateJournal(op, write) => CompensationsStand(s, op, write, NOTHING);
  }
}
