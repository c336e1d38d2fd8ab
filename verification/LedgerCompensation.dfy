/** What a journal replacement's compensation gives back. */
module LedgerCompensation {
  import opened CapacityTypes
  import opened LedgerSpec
  import opened LedgerInvariant
  import opened LedgerSteps
  import opened LedgerWrites

  /** A replacement of binding `b` admitted in `s`, then committed. */
  ghost predicate Committed(
    s: Ledger, operation: nat, b: Binding, admitted: JournalView, after: Inventory, free: int, completed: JournalView,
    c: Completion, u: Ledger)
    requires RecordsOwned(s)
  {
    var admission := AdmitReplacement(s, operation, b, admitted);
    && admission.outcome.Ok? && RecordsOwned(admission.next)
    && var completion := CompleteReplacement(admission.next, operation, admission.outcome.value, after, free, completed, c);
    completion.outcome.Ok? && u == completion.next
  }

  lemma NewestIsFound(records: seq<Record>, r: Record, states: set<RecordState>, i: nat)
    requires r.write.Some? && r.state in states && i <= |records|
    requires forall k :: 0 <= k < |records| ==> records[k].write != r.write
    ensures FirstFrom(records + [r], r.write.value, states, i) == Some(|records|)
    decreases |records| - i
  {
    if i < |records| {
      NewestIsFound(records, r, states, i + 1);
    }
  }

  lemma WriteIsFresh(s: Ledger, initial: Capture)
    requires Inv(s, initial)
    ensures forall k :: 0 <= k < |s.records| ==> s.records[k].write != Some(s.nextWrite)
  {
    hide Tracked, Conserved, Positive, Clean, Phase;
    assert forall k :: 0 <= k < |s.records| && s.records[k].write.Some? ==> s.records[k].write.value < s.nextWrite;
  }

  /** The ledger after the replacement: its one new record, and what the commit changed. */
  ghost predicate Replaced(s: Ledger, operation: nat, b: Binding, row: Row, c: Completion, u: Ledger) {
    && operation < |s.operations| && s.inventory.Some?
    && u.records == s.records + [Record(operation, REPLACEMENT_ESTIMATE, Completed, Some(s.nextWrite), Some(b), None)]
    && |u.operations| == |s.operations| && u.operations[operation] == Operation(b.operationId, JournalCompleted)
    && u.activeWrite.None? && u.owner == s.owner && u.uncertain == s.uncertain
    && u.reserved == Removed(Added(s.reserved, REPLACEMENT_ESTIMATE), REPLACEMENT_ESTIMATE)
    && u.observed == ObservedAfter(s.observed, b.previousNativeRow, row)
    && u.inventory == Some(s.inventory.value.(journal := s.inventory.value.journal[b.filename := row]))
    && b.filename in u.journalFiles && b.operationId in u.journalWriters
    && u.journalFiles[b.filename].operation == operation && u.journalFiles[b.filename].writer == b.writer
    && u.journalFiles[b.filename].schema == b.schema && u.journalFiles[b.filename].nativeRow == row
    && u.journalFiles[b.filename].revision == b.previousRevision + 1
    && u.journalWriters[b.operationId] == JournalWriter(operation, b.writer, b.schema)
  }

  /** What admission found out about the binding. */
  ghost predicate Admitted(s: Ledger, operation: nat, b: Binding) {
    && s.inventory.Some? && b.issued && b.admissionOwner == s.owner && s.inventory.value == b.priorInventory
    && RowOf(s.inventory.value.journal, b.filename) == b.previousNativeRow
    && (b.previousRevision == 0 <==> b.previousNativeRow.None?) && s.observed.journal.Natural()
    && (b.previousNativeRow.Some? ==>
          0 < b.previousNativeRow.value.size <= s.observed.journal.bytes && 1 <= s.observed.journal.entries)
  }

  lemma AdmissionFacts(s: Ledger, operation: nat, b: Binding, view: JournalView, initial: Capture)
    requires Inv(s, initial) && RecordsOwned(s) && AdmitReplacement(s, operation, b, view).outcome.Ok?
    ensures Admitted(s, operation, b)
  {
    hide Tokens, Tracked, Conserved, Positive, Phase, BoundToInventory, Bounded, ReplacementFits, FreeSpaceCovers;
    BytesNatural(s.inventory.value.journal - initial.files.journal.Keys);
    if b.previousRevision > 0 {
      NewFileCovered(s.inventory.value.journal, initial.files.journal, s.observed.journal, b.filename);
    }
  }

  lemma CommitFacts(
    s: Ledger, operation: nat, b: Binding, admitted: JournalView, after: Inventory, free: int, completed: JournalView,
    c: Completion, u: Ledger, initial: Capture) returns (row: Row)
    requires Inv(s, initial) && RecordsOwned(s) && Committed(s, operation, b, admitted, after, free, completed, c, u)
    ensures Replaced(s, operation, b, row, c, u) && Admitted(s, operation, b) && 0 < row.size
  {
    hide Core, Phase, ReplacementFits, FreeSpaceCovers, IdentityUnique, TipMatches, Inv;
    AdmissionFacts(s, operation, b, admitted, initial);
    var r := Record(operation, REPLACEMENT_ESTIMATE, Writing, Some(s.nextWrite), Some(b), None);
    WriteIsFresh(s, initial);
    NewestIsFound(s.records, r, {Writing}, 0);
    row := after.journal[b.filename];
  }

  /** A committed replacement, with nothing else admitted since, meets every condition of its compensation. */
  lemma CommitIsCompensable(s: Ledger, operation: nat, b: Binding, row: Row, c: Completion, u: Ledger)
    requires Replaced(s, operation, b, row, c, u) && Admitted(s, operation, b) && 0 < row.size
    ensures CompensationCurrent(u, operation, u.records[|s.records|], b)
  {
    var prior := s.inventory.value.journal;
    assert prior - {b.filename} == prior[b.filename := row] - {b.filename};
  }

  lemma InvCompensation(
    s: Ledger, operation: nat, b: Binding, admitted: JournalView, after: Inventory, free: int, completed: JournalView,
    c: Completion, u: Ledger, initial: Capture)
    requires Inv(s, initial) && RecordsOwned(s) && Committed(s, operation, b, admitted, after, free, completed, c, u)
    ensures RecordsOwned(u)
    ensures
      var undone := CompensateReplacement(u, operation, s.nextWrite);
      && undone.outcome.Ok? && undone.next.invalid
      && undone.next.reserved == s.reserved && undone.next.observed == s.observed
      && undone.next.uncertain == Added(s.uncertain, REPLACEMENT_ESTIMATE)
      && undone.next.records == s.records + [Record(operation, REPLACEMENT_ESTIMATE, RetainedAsUncertain,
                                                    Some(s.nextWrite), Some(b), None)]
  {
    hide Core, Phase, CompensationCurrent, Committed, Inv;
    var row := CommitFacts(s, operation, b, admitted, after, free, completed, c, u, initial);
    CommitIsCompensable(s, operation, b, row, c, u);
    var r := Record(operation, REPLACEMENT_ESTIMATE, Completed, Some(s.nextWrite), Some(b), None);
    WriteIsFresh(s, initial);
    NewestIsFound(s.records, r, {Completed}, 0);
  }
}
