/** Completing, replacing and compensating writes keep the invariant. */
module LedgerWrites {
  import opened CapacityTypes
  import opened LedgerSpec
  import opened LedgerInvariant
  import opened LedgerSteps

  // ----- the one write in progress -----

  lemma OnlyWriter(s: Ledger, i: nat, initial: Capture)
    requires Core(s, initial) && i < |s.records| && s.records[i].state == Writing
    ensures forall j :: 0 <= j < |s.records| && j != i ==> s.records[j].state != Writing
  {
    hide Clean, Conserved, Positive, Tracked;
    forall j | 0 <= j < |s.records| && j != i
      ensures s.records[j].state != Writing
    {
      assert s.records[i].write.Some? && (j < i || i < j);
    }
  }

  /** On a live ledger, only the write in progress can pass the journal ceiling, and nothing is retained. */
  lemma LiveShares(s: Ledger, initial: Capture)
    requires Inv(s, initial) && !s.closed && !s.invalid
    ensures s.activeWrite.None? ==> OverhangOf(s.records) == 0
    ensures s.uncertain == initial.base
  {
    hide Clean, Tracked, Positive;
    SumZero(s.records, RetainedShare);
    Rearranged(initial.base, NOTHING);
    if s.activeWrite.None? {
      SumZero(s.records, OverhangShare);
    }
  }

  lemma NoWriterNoOverhang(records: seq<Record>)
    requires forall i :: 0 <= i < |records| ==> records[i].state != Writing && records[i].state != RetainedAsUncertain
    ensures OverhangOf(records) == 0
  {
    SumZero(records, OverhangShare);
  }

  lemma NoWriterStaysBound(records: seq<Record>, inventory: Inventory, files: map<string, JournalFile>)
    requires forall i :: 0 <= i < |records| ==> !Replacing(records[i])
    ensures BoundToInventory(records, inventory, files)
  {
  }

  /** Once the one write in progress has settled, a live ledger is replacing nothing. */
  lemma NothingReplaced(s: Ledger, i: nat, after: seq<Record>, initial: Capture)
    requires Inv(s, initial) && s.Live() && i < |s.records| && s.records[i].state == Writing
    requires |after| == |s.records| && after[i].state == Completed
    requires forall j :: 0 <= j < |after| && j != i ==> after[j] == s.records[j]
    ensures forall j :: 0 <= j < |after| ==> !Replacing(after[j])
  {
    hide Clean, Conserved, Positive, Tracked, Tokens;
    OnlyWriter(s, i, initial);
  }

  lemma ActiveRecordFacts(s: Ledger, operation: nat, write: nat, initial: Capture)
    requires Core(s, initial) && RecordsOwned(s)
    ensures
      var found := ActiveRecord(s, operation, write);
      found.Some? ==>
        && found.value < |s.records| && s.records[found.value].state == Writing
        && s.records[found.value].operation == operation < |s.operations| && s.activeWrite == Some(write)
  {
    hide Clean, Conserved, Positive, Tracked, Tokens;
  }

  lemma RetainUncertainKeepsInv(s: Ledger, operation: nat, write: nat, initial: Capture)
    requires Inv(s, initial) && RecordsOwned(s)
    ensures Inv(RetainUncertain(s, operation, write).next, initial)
  {
    hide Core, Phase;
    ActiveRecordFacts(s, operation, write, initial);
    var i := ActiveRecord(s, operation, write);
    if i.Some? {
      FailActiveKeepsInv(s, i.value, initial);
    }
  }

  lemma CancelWriteKeepsInv(s: Ledger, operation: nat, write: nat, initial: Capture)
    requires Inv(s, initial) && RecordsOwned(s)
    ensures Inv(CancelWriteBeforeCreate(s, operation, write).next, initial)
  {
    hide Core, Phase;
    ActiveRecordFacts(s, operation, write, initial);
    var step := CancelWriteBeforeCreate(s, operation, write);
    if step.outcome.Ok? {
      var i := ActiveRecord(s, operation, write).value;
      ReleaseKeepsCore(s, i, None, initial);
      ChangeKeepsPhase(s, step.next, i, s.records[i].(state := Cancelled));
    }
  }

  // ----- additive writes -----

  lemma AdditionsSplit(now: Directory, after: Directory, initial: Directory)
    requires Contains(now, initial) && Contains(after, now)
    ensures FileAmount(after - initial.Keys) == FileAmount(now - initial.Keys).Plus(FileAmount(after - now.Keys))
  {
    hide FileAmount;
    var whole, part := after - initial.Keys, now - initial.Keys;
    assert whole - part.Keys == after - now.Keys;
    FileAmountSplit(whole, part);
  }

  /** What a directory gains is observed: new files beside the old ones, none of the old ones changed. */
  lemma AdditionsObserved(limits: Limits, p: Purpose, now: Directory, after: Directory, initial: Directory, seen: Amount)
    requires NewFilesObserved(now, initial, seen) && DirectoryDelta(limits, p, now, after).Some?
    ensures NewFilesObserved(after, initial, seen.Plus(DirectoryDelta(limits, p, now, after).value))
  {
    hide FileAmount;
    AdditionsSplit(now, after, initial);
  }

  lemma InventoryAdditionsObserved(limits: Limits, now: Inventory, after: Inventory, initial: Inventory, seen: PerPurpose<Amount>)
    requires FilesObserved(now, seen, initial) && InventoryDelta(limits, now, after).Some?
    ensures FilesObserved(after, Added(seen, InventoryDelta(limits, now, after).value), initial)
  {
    hide NewFilesObserved, DirectoryDelta;
    AdditionsObserved(limits, PrivateJournal, now.journal, after.journal, initial.journal, seen.journal);
    AdditionsObserved(limits, TemporaryContainment, now.temporary, after.temporary, initial.temporary, seen.temporary);
    AdditionsObserved(limits, RetainedUncertain, now.retained, after.retained, initial.retained, seen.retained);
    AdditionsObserved(limits, PromotedAssets, now.promoted, after.promoted, initial.promoted, seen.promoted);
  }

  lemma CompletionBounded(limits: Limits, reserved: PerPurpose<Amount>, observed: PerPurpose<Amount>,
                          uncertain: PerPurpose<Amount>, est: PerPurpose<Amount>, delta: PerPurpose<Amount>, overhang: int)
    requires Bounded(limits, Added(Added(reserved, observed), uncertain), overhang) && AllWithin(delta, est)
    ensures Bounded(limits, Added(Added(Removed(reserved, est), Added(observed, delta)), uncertain), overhang)
  {
  }

  lemma JournalsStayPresent(files: map<string, JournalFile>, now: Directory, after: Directory, initial: Directory)
    requires JournalsPresent(files, now, initial) && Contains(after, now)
    ensures JournalsPresent(files, after, initial)
  {
  }

  lemma CompleteWriteStaysClean(s: Ledger, t: Ledger, i: nat, r: Record, after: Inventory, initial: Capture)
    requires Inv(s, initial) && s.Live() && i < |s.records| && s.records[i].state == Writing
    requires s.records[i].replacement.None? && r.replacement.None? && r.state == Completed
    requires InventoryDelta(s.limits, s.inventory.value, after).Some?
    requires AllWithin(InventoryDelta(s.limits, s.inventory.value, after).value, s.records[i].estimates)
    requires t.records == s.records[i := r] && t.limits == s.limits && t.inventory == Some(after)
    requires t.reserved == Removed(s.reserved, s.records[i].estimates) && t.uncertain == s.uncertain
    requires t.observed == Added(s.observed, InventoryDelta(s.limits, s.inventory.value, after).value)
    requires t.journalFiles == s.journalFiles
    ensures Clean(t, initial)
  {
    hide Tokens, Tracked, Conserved, Positive, Phase, FilesObserved, BoundToInventory, JournalsPresent, Bounded;
    var delta := InventoryDelta(s.limits, s.inventory.value, after).value;
    OnlyWriter(s, i, initial);
    InventoryAdditionsObserved(s.limits, s.inventory.value, after, initial.files, s.observed);
    JournalsStayPresent(s.journalFiles, s.inventory.value.journal, after.journal, initial.files.journal);
    NothingReplaced(s, i, t.records, initial);
    NoWriterStaysBound(t.records, after, t.journalFiles);
    CompletionBounded(s.limits, s.reserved, s.observed, s.uncertain, s.records[i].estimates, delta, OverhangOf(s.records));
    ChangeKeepsOverhang(s.records, i, r);
  }

  lemma ChangeKeepsOverhang(records: seq<Record>, i: nat, r: Record)
    requires i < |records| && Weight(r, OverhangShare) == Weight(records[i], OverhangShare)
    ensures OverhangOf(records[i := r]) == OverhangOf(records)
  {
    SumUpdate(records, i, r, OverhangShare);
    Rearranged(Sum(records, OverhangShare), Weight(r, OverhangShare));
  }

  lemma CompleteWriteKeepsInv(s: Ledger, operation: nat, write: nat, after: Inventory, free: Option<int>, initial: Capture)
    requires Inv(s, initial) && RecordsOwned(s)
    ensures Inv(CompleteWrite(s, operation, write, after, free).next, initial)
  {
    hide Core, Phase, InventoryDelta, Clean, Moves;
    ActiveRecordFacts(s, operation, write, initial);
    var step := CompleteWrite(s, operation, write, after, free);
    var found := ActiveRecord(s, operation, write);
    if s.Live() && found.Some? && (free.None? || ValidFreeBytes(free.value)) {
      var i := found.value;
      if step.outcome.Failed? {
        FailActiveKeepsInv(s, i, initial);
      } else {
        var t := step.next;
        var r := s.records[i].(state := Completed, delta := InventoryDelta(s.limits, s.inventory.value, after));
        CompleteWriteStaysClean(s, t, i, r, after, initial);
        Rearranged(s.reserved, r.estimates);
        Rearranged(s.uncertain, NOTHING);
        CompletedMoves(s.records[i], r, s.operations[operation].state, OpCompleted);
        ChangeKeepsCore(s, t, i, r, OpCompleted, initial);
        ChangeKeepsPhase(s, t, i, r);
      }
    }
  }

  lemma CompletedMoves(before: Record, after: Record, opBefore: OperationState, opAfter: OperationState)
    requires before.state == Writing && after == before.(state := Completed, delta := after.delta)
    requires opAfter == OpCompleted || opAfter == JournalCompleted
    ensures Moves(before, after, opBefore, opAfter)
  {
  }

  lemma CompensateWriteKeepsInv(s: Ledger, operation: nat, write: nat, delta: PerPurpose<Amount>, initial: Capture)
    requires Inv(s, initial) && RecordsOwned(s)
    ensures Inv(CompensateWrite(s, operation, write, delta).next, initial)
  {
    hide Core, Phase, Clean;
    var t := CompensateWrite(s, operation, write, delta).next;
    if t != s {
      var i := FirstFrom(s.records, write, ANY_STATE, 0).value;
      var r := s.records[i].(state := Uncertain);
      CoreHasInventory(s, initial);
      Rearranged(s.reserved, NOTHING);
      Rearranged(s.uncertain, r.estimates);
      ChangeKeepsCore(s, t, i, r, OpUncertain, initial);
      ChangeKeepsPhase(s, t, i, r);
    }
  }

  lemma CoreHasInventory(s: Ledger, initial: Capture)
    requires Core(s, initial)
    ensures s.inventory.Some?
  {
    hide Clean, Conserved, Positive, Tracked, Tokens;
  }

  // ----- replacing a journal in place -----

  /** The directory is exactly the captured files and the observed ones. */
  lemma DirectoryAccounted(now: Directory, initial: Directory, seen: Amount)
    requires NewFilesObserved(now, initial, seen)
    ensures FileAmount(now) == FileAmount(initial).Plus(seen)
  {
    hide FileAmount;
    FileAmountSplit(now, initial);
  }

  /** A file that appeared since capture is covered by the observed counters. */
  lemma NewFileCovered(now: Directory, initial: Directory, seen: Amount, name: string)
    requires NewFilesObserved(now, initial, seen) && name in now && name !in initial
    ensures 0 <= now[name].size <= seen.bytes && 1 <= seen.entries
  {
    BytesAtLeast(now - initial.Keys, name);
  }

  function Replaced(now: Directory, name: string): Amount {
    if name in now then Amount(now[name].size, 1) else ZERO
  }

  /** Replacing one new file: its old size leaves the observed counters and its new size enters them. */
  lemma ReplacementObserved(now: Directory, initial: Directory, seen: Amount, name: string, row: Row)
    requires NewFilesObserved(now, initial, seen) && name !in initial && 0 <= row.size
    ensures NewFilesObserved(now[name := row], initial, seen.Minus(Replaced(now, name)).Plus(Amount(row.size, 1)))
  {
    hide FileAmount;
    var rest := now - initial.Keys - {name};
    assert now[name := row] - initial.Keys == rest[name := row];
    BytesAdd(rest, name, row);
    if name in now {
      BytesAdd(rest, name, now[name]);
      assert rest[name := now[name]] == now - initial.Keys;
    } else {
      assert rest == now - initial.Keys;
    }
  }

  lemma FirstAdmissionAmounts(reserved: PerPurpose<Amount>, observed: PerPurpose<Amount>, base: PerPurpose<Amount>,
                              limits: Limits, size: int)
    requires Bounded(limits, Added(Added(reserved, observed), base), 0) && 0 <= size <= JOURNAL_BYTES
    requires base.journal.bytes + observed.journal.bytes - size + JOURNAL_BYTES + reserved.journal.bytes
             <= limits.journalBytes
    requires base.journal.entries + observed.journal.entries + 2 + reserved.journal.entries <= limits.journalEntries
    ensures Bounded(limits, Added(Added(Added(reserved, REPLACEMENT_ESTIMATE), observed), base), size)
  {
  }

  /** The file being replaced, if any, was committed by this ledger. */
  lemma TipSize(s: Ledger, operation: nat, b: Binding, initial: Capture)
    requires s.inventory.Some? && Clean(s, initial) && TipMatches(s, operation, b) && ReplacementFits(s, b)
    ensures b.previousNativeRow == RowOf(s.inventory.value.journal, b.filename)
    ensures b.previousNativeRow.Some? ==> b.filename in s.journalFiles
    ensures 0 <= SizeOf(b.previousNativeRow) <= JOURNAL_BYTES
  {
    hide BoundToInventory, Bounded, FileAmount;
    if b.previousNativeRow.Some? {
      NewFileCovered(s.inventory.value.journal, initial.files.journal, s.observed.journal, b.filename);
    }
  }

  lemma AppendReplacementStaysBound(records: seq<Record>, r: Record, inventory: Inventory, files: map<string, JournalFile>)
    requires BoundToInventory(records, inventory, files) && r.replacement.Some?
    requires
      var b := r.replacement.value;
      && b.priorInventory == inventory && b.previousNativeRow == RowOf(inventory.journal, b.filename)
      && (b.previousNativeRow.Some? ==> b.filename in files)
      && 0 <= SizeOf(b.previousNativeRow) <= JOURNAL_BYTES
    ensures BoundToInventory(records + [r], inventory, files)
  {
    var after := records + [r];
    assert forall i :: 0 <= i < |records| ==> after[i] == records[i];
  }

  lemma AppendReplacementOverhang(records: seq<Record>, r: Record)
    requires r.replacement.Some? && r.state == Writing
    ensures OverhangOf(records + [r]) == OverhangOf(records) + SizeOf(r.replacement.value.previousNativeRow)
  {
    SumAppend(records, r, OverhangShare);
  }

  lemma AdmitReplacementStaysClean(s: Ledger, t: Ledger, operation: nat, b: Binding, r: Record, initial: Capture)
    requires Inv(s, initial) && Measured(initial) && s.Live() && s.activeWrite.None?
    requires TipMatches(s, operation, b) && ReplacementFits(s, b) && b.priorInventory == s.inventory.value
    requires r.replacement == Some(b) && r.state == Writing && r.estimates == REPLACEMENT_ESTIMATE
    requires t.records == s.records + [r] && t.reserved == Added(s.reserved, REPLACEMENT_ESTIMATE)
    requires t.limits == s.limits && t.inventory == s.inventory && t.observed == s.observed
    requires t.uncertain == s.uncertain && t.journalFiles == s.journalFiles
    ensures Clean(t, initial)
  {
    hide Tokens, Tracked, Conserved, Positive, Phase, FilesObserved, BoundToInventory, JournalsPresent, Bounded, TipMatches,
      FileAmount, NewFilesObserved, OverhangOf;
    LiveShares(s, initial);
    TipSize(s, operation, b, initial);
    AppendReplacementStaysBound(s.records, r, s.inventory.value, s.journalFiles);
    AppendReplacementOverhang(s.records, r);
    JournalObserved(s.inventory.value, s.observed, initial.files);
    DirectoryAccounted(s.inventory.value.journal, initial.files.journal, s.observed.journal);
    FirstAdmissionAmounts(s.reserved, s.observed, initial.base, s.limits, SizeOf(b.previousNativeRow));
  }

  lemma JournalObserved(inventory: Inventory, seen: PerPurpose<Amount>, initial: Inventory)
    requires FilesObserved(inventory, seen, initial)
    ensures NewFilesObserved(inventory.journal, initial.journal, seen.journal)
  {
    hide NewFilesObserved;
  }

  lemma AdmitReplacementKeepsInv(s: Ledger, operation: nat, b: Binding, view: JournalView, initial: Capture)
    requires Inv(s, initial) && Measured(initial)
    ensures Inv(AdmitReplacement(s, operation, b, view).next, initial)
  {
    hide Tokens, Tracked, Conserved, Positive, Phase, Clean, TipMatches, ReplacementFits, Measured;
    var step := AdmitReplacement(s, operation, b, view);
    if step.outcome.Ok? {
      var r := Record(operation, REPLACEMENT_ESTIMATE, Writing, Some(s.nextWrite), Some(b), None);
      AppendKeepsTokens(s.records, |s.operations|, s.activeWrite, s.nextWrite, r);
      AppendKeepsTracked(s.records, s.operations, r, OpWriting);
      AppendKeepsConserved(s.records, s.reserved, s.uncertain, initial.base, r);
      AdmitReplacementStaysClean(s, step.next, operation, b, r, initial);
      AppendKeepsPositive(s.records, r);
      AppendKeepsPhase(s.records, r);
    }
  }

  lemma ReplacementBounded(limits: Limits, reserved: PerPurpose<Amount>, observed: PerPurpose<Amount>,
                           uncertain: PerPurpose<Amount>, old_: Amount, new_: Amount)
    requires 0 <= old_.bytes && 0 <= old_.entries && new_.bytes <= JOURNAL_BYTES && new_.entries == 1
    requires Bounded(limits, Added(Added(reserved, observed), uncertain), old_.bytes)
    ensures Bounded(limits, Added(Added(Removed(reserved, REPLACEMENT_ESTIMATE),
                                        observed.(journal := observed.journal.Minus(old_).Plus(new_))), uncertain), 0)
  {
  }

  lemma JournalCommitted(files: map<string, JournalFile>, now: Directory, initial: Directory, name: string, f: JournalFile)
    requires JournalsPresent(files, now, initial) && name !in initial && 0 < f.nativeRow.size
    ensures JournalsPresent(files[name := f], now[name := f.nativeRow], initial)
  {
  }

  lemma ReplacementInProgress(s: Ledger, i: nat, initial: Capture)
    requires Inv(s, initial) && s.Live() && i < |s.records|
    requires s.records[i].state == Writing && s.records[i].replacement.Some?
    ensures
      var b := s.records[i].replacement.value;
      var now := s.inventory.value.journal;
      && b.priorInventory == s.inventory.value && b.previousNativeRow == RowOf(now, b.filename)
      && b.filename !in initial.files.journal
      && (b.filename in now ==> 0 <= now[b.filename].size <= s.observed.journal.bytes && 1 <= s.observed.journal.entries)
      && OverhangOf(s.records) == Replaced(now, b.filename).bytes
      && s.records[i].estimates == REPLACEMENT_ESTIMATE
  {
    hide Tracked, Conserved, Positive, Bounded, FileAmount, Tokens, Phase;
    var b := s.records[i].replacement.value;
    var now := s.inventory.value.journal;
    RecordFactsAt(s, i, initial);
    if b.filename in now {
      NewFileCovered(now, initial.files.journal, s.observed.journal, b.filename);
    }
    OnlyOverhang(s, i, initial);
  }

  lemma OnlyOverhang(s: Ledger, i: nat, initial: Capture)
    requires Inv(s, initial) && s.Live() && i < |s.records| && s.records[i].state == Writing
    ensures OverhangOf(s.records) == Weight(s.records[i], OverhangShare).journal.bytes
  {
    hide Tracked, Conserved, Positive, Clean, Tokens;
    OnlyWriter(s, i, initial);
    var r := s.records[i].(state := Cancelled);
    NoWriterNoOverhang(s.records[i := r]);
    SumUpdate(s.records, i, r, OverhangShare);
  }

  lemma CompleteReplacementStaysClean(s: Ledger, t: Ledger, i: nat, f: JournalFile, after: Inventory, initial: Capture)
    requires Inv(s, initial) && s.Live() && i < |s.records| && s.records[i].state == Writing
    requires s.records[i].replacement.Some? && 0 < f.nativeRow.size <= JOURNAL_BYTES
    requires
      var b := s.records[i].replacement.value;
      var now := s.inventory.value;
      && after == now.(journal := now.journal[b.filename := f.nativeRow])
      && t.observed == s.observed.(journal :=
           s.observed.journal.Minus(Replaced(now.journal, b.filename)).Plus(Amount(f.nativeRow.size, 1)))
      && t.journalFiles == s.journalFiles[b.filename := f]
    requires t.records == s.records[i := s.records[i].(state := Completed)] && t.inventory == Some(after)
    requires t.limits == s.limits && t.uncertain == s.uncertain
    requires t.reserved == Removed(s.reserved, s.records[i].estimates)
    ensures Clean(t, initial)
  {
    hide Tokens, Tracked, Conserved, Positive, Phase, BoundToInventory, JournalsPresent, Bounded, NewFilesObserved;
    var b := s.records[i].replacement.value;
    var now := s.inventory.value.journal;
    ReplacementInProgress(s, i, initial);
    ReplacementObserved(now, initial.files.journal, s.observed.journal, b.filename, f.nativeRow);
    JournalCommitted(s.journalFiles, now, initial.files.journal, b.filename, f);
    OnlyWriter(s, i, initial);
    NothingReplaced(s, i, t.records, initial);
    NoWriterStaysBound(t.records, after, t.journalFiles);
    ReplacementBounded(s.limits, s.reserved, s.observed, s.uncertain, Replaced(now, b.filename), Amount(f.nativeRow.size, 1));
    OverhangEnds(s, i, initial);
  }

  lemma OverhangEnds(s: Ledger, i: nat, initial: Capture)
    requires Inv(s, initial) && s.Live() && i < |s.records| && s.records[i].state == Writing
    ensures OverhangOf(s.records[i := s.records[i].(state := Completed)]) == 0
  {
    hide Tracked, Conserved, Positive, Clean, Tokens;
    OnlyWriter(s, i, initial);
    NoWriterNoOverhang(s.records[i := s.records[i].(state := Completed)]);
  }

  lemma CompleteReplacementKeepsInv(s: Ledger, operation: nat, write: nat, after: Inventory, free: int,
                                    view: JournalView, c: Completion, initial: Capture)
    requires Inv(s, initial) && RecordsOwned(s)
    ensures Inv(CompleteReplacement(s, operation, write, after, free, view, c).next, initial)
  {
    hide Core, Phase, Clean, Moves, CompletionCurrent, IdentityUnique, AcknowledgesNext;
    ActiveRecordFacts(s, operation, write, initial);
    var step := CompleteReplacement(s, operation, write, after, free, view, c);
    var found := ActiveRecord(s, operation, write);
    if s.Live() && found.Some? && ValidFreeBytes(free) {
      var i := found.value;
      if step.outcome.Failed? {
        FailActiveKeepsInv(s, i, initial);
      } else {
        var t := step.next;
        var b := s.records[i].replacement.value;
        var r := s.records[i].(state := Completed);
        CompleteReplacementStaysClean(s, t, i, t.journalFiles[b.filename], after, initial);
        Rearranged(s.reserved, r.estimates);
        Rearranged(s.uncertain, NOTHING);
        CompletedMoves(s.records[i], r, s.operations[operation].state, JournalCompleted);
        ChangeKeepsCore(s, t, i, r, JournalCompleted, initial);
        ChangeKeepsPhase(s, t, i, r);
      }
    }
  }

  lemma CompensateReplacementKeepsInv(s: Ledger, operation: nat, write: nat, initial: Capture)
    requires Inv(s, initial) && RecordsOwned(s)
    ensures Inv(CompensateReplacement(s, operation, write).next, initial)
  {
    hide Core, Phase, Clean;
    var t := CompensateReplacement(s, operation, write).next;
    if t != s {
      var i := FirstFrom(s.records, write, {Completed}, 0).value;
      var r := s.records[i].(state := RetainedAsUncertain);
      RecordFactsAt(s, i, initial);
      Rearranged(s.reserved, NOTHING);
      Rearranged(s.uncertain, r.estimates);
      ChangeKeepsCore(s, t, i, r, OpRetained, initial);
      ChangeKeepsPhase(s, t, i, r);
    }
  }

  lemma ObserveKeepsInv(s: Ledger, inventory: Inventory, free: Option<int>, initial: Capture)
    requires Inv(s, initial) && RecordsOwned(s)
    ensures Inv(ObserveInventory(s, inventory, free).next, initial)
  {
    hide Tokens, Tracked, Conserved, Positive, Clean;
    RetainFromKeepsCore(s, 0, initial);
    if !s.invalid {
      SameAccountsStayClean(s, s.(freeBytes := if free.Some? then free.value else s.freeBytes), initial);
    }
  }
}
