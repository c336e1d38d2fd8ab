/** What holds of every ledger that any run reaches. */
module LedgerTheorems {
  import opened CapacityTypes
  import opened LedgerSpec
  import opened LedgerInvariant
  import opened LedgerRuns
  import opened LedgerCompensation

  /** `s` is a ledger just after its successful capture of `initial`, whatever failed attempts came before. */
  ghost predicate Opened(s: Ledger, initial: Inventory) {
    exists limits, owner, uncertain, free :: OpenedFrom(s, initial, limits, owner, uncertain, free)
  }

  ghost predicate OpenedFrom(
    s: Ledger, initial: Inventory, limits: Limits, owner: nat, uncertain: PerPurpose<Amount>, free: Option<int>)
  {
    limits.Valid() && SetInitialInventory(Fresh(limits, owner).(uncertain := uncertain), initial, free) == Step(s, Ok(()))
  }

  /** `s` is reached by some run from a captured ledger; the ledger may be closed or invalid by then. */
  ghost predicate Reached(s: Ledger, initial: Inventory) {
    exists states, actions :: Leads(states, actions, s, initial)
  }

  ghost predicate Leads(states: seq<Ledger>, actions: seq<Action>, s: Ledger, initial: Inventory) {
    Run(states, actions) && Opened(states[0], initial) && s == states[|states| - 1]
  }

  lemma OpenedHolds(s: Ledger, initial: Inventory)
    requires Opened(s, initial)
    ensures Inv(s, Captured(initial)) && Measured(Captured(initial))
  {
    hide Inv, Measured, InventoryAmount;
    var limits, owner, uncertain, free :| OpenedFrom(s, initial, limits, owner, uncertain, free);
    OpeningEstablishesInv(Fresh(limits, owner).(uncertain := uncertain), initial, free);
  }

  lemma ReachedHolds(s: Ledger, initial: Inventory)
    requires Reached(s, initial)
    ensures Inv(s, Captured(initial)) && Measured(Captured(initial)) && RecordsOwned(s)
  {
    hide Inv, Measured, Opened, InventoryAmount, RecordsOwned;
    var states, actions :| Leads(states, actions, s, initial);
    OpenedHolds(states[0], initial);
    RunKeepsInv(states, actions, Captured(initial), |states| - 1);
    InvOwnsRecords(s, Captured(initial));
  }

  lemma InvOwnsRecords(s: Ledger, initial: Capture)
    requires Inv(s, initial)
    ensures RecordsOwned(s)
  {
    hide Clean, Tracked, Conserved, Positive, Phase;
  }

  /** In every reachable state, closed and invalid ones included: reserved capacity is the sum of the estimates still
      held, uncertain capacity is the captured inventory plus the full estimates retained, and the active write
      names the unique record that is writing. */
  lemma LedgerConserved(s: Ledger, initial: Inventory)
    requires Reached(s, initial)
    ensures s.reserved == Sum(s.records, HeldShare)
    ensures s.uncertain == Added(InventoryAmount(initial), Sum(s.records, RetainedShare))
    ensures forall i :: 0 <= i < |s.records| ==>
              (s.records[i].state == Writing <==> s.activeWrite.Some? && s.records[i].write == s.activeWrite)
    ensures s.activeWrite.Some? ==> exists i :: 0 <= i < |s.records| && s.records[i].state == Writing
    ensures forall i, j ::
              (0 <= i < |s.records| && 0 <= j < |s.records| && s.records[i].state == Writing && s.records[j].state == Writing)
              ==> i == j
  {
    hide Inv, Reached, Sum, InventoryAmount;
    ReachedHolds(s, initial);
    InvConserved(s, Captured(initial));
  }

  /** While the ledger is not invalid, the native inventory is the captured inventory plus what was observed. */
  lemma ObservedAgreesWithFiles(s: Ledger, initial: Inventory)
    requires Reached(s, initial) && !s.invalid
    ensures s.inventory.Some?
    ensures InventoryAmount(s.inventory.value) == Added(InventoryAmount(initial), s.observed)
  {
    hide Core, Phase, Reached, InventoryAmount;
    ReachedHolds(s, initial);
    InvHasInventory(s, Captured(initial));
    InvObserved(s, Captured(initial));
  }

  lemma InvHasInventory(s: Ledger, initial: Capture)
    requires Inv(s, initial)
    ensures s.inventory.Some?
  {
    hide Clean, Tracked, Conserved, Positive, Phase, Tokens;
  }

  /** So the guard against replacing a journal that was never counted cannot fire. */
  lemma AccountingConflictUnreachable(s: Ledger, initial: Inventory, operation: nat, write: nat, after: Inventory, free: int,
                                      view: JournalView, c: Completion)
    requires Reached(s, initial)
    ensures RecordsOwned(s)
    ensures CompleteReplacement(s, operation, write, after, free, view, c).outcome != Failed(JournalAccountingConflict)
  {
    hide Inv, Reached, CompleteReplacement, RecordsOwned;
    ReachedHolds(s, initial);
    InvNoConflict(s, operation, write, after, free, view, c, Captured(initial));
  }

  /** While the ledger is not invalid every purpose is within its limits, entries and bytes, alone and for the
      two asset roots together; only private-journal bytes may pass their ceiling, and they never pass twice
      the journal size. They pass it exactly when an existing journal is being replaced or its replacement was
      cut off by closing, and then by at most that journal's old size. */
  lemma CapacityBound(s: Ledger, initial: Inventory)
    requires Reached(s, initial) && !s.invalid
    ensures s.Used().temporary.Within(s.limits.For(TemporaryContainment))
    ensures s.Used().retained.Within(s.limits.For(RetainedUncertain))
    ensures s.Used().promoted.Within(s.limits.For(PromotedAssets))
    ensures s.Used().journal.entries <= s.limits.journalEntries
    ensures s.Used().temporary.bytes + s.Used().promoted.bytes <= s.limits.assetBytes
    ensures s.Used().temporary.entries + s.Used().promoted.entries <= s.limits.SharedEntryLimit()
    ensures s.Used().journal.bytes <= 2 * JOURNAL_BYTES
    ensures s.Used().journal.bytes > s.limits.journalBytes
            <==> exists i :: 0 <= i < |s.records| && Overrunning(s.records[i])
    ensures forall i :: 0 <= i < |s.records| && Overrunning(s.records[i]) ==>
              s.Used().journal.bytes
              <= s.limits.journalBytes + s.records[i].replacement.value.previousNativeRow.value.size
  {
    hide Inv, Reached;
    ReachedHolds(s, initial);
    InvBounded(s, Captured(initial));
    forall i | 0 <= i < |s.records| && Overrunning(s.records[i])
      ensures OverhangOf(s.records) == s.records[i].replacement.value.previousNativeRow.value.size
    {
      OverhangIsOne(s, i, Captured(initial));
    }
  }

  /** Replacement is not the only state with an overrun: closing during the replacement of an existing journal
      leaves a ledger that is not invalid, has no active write, and is over the private-journal ceiling. */
  lemma ClosingCanLeaveAnOverrun(s: Ledger, initial: Inventory, i: nat)
    requires Reached(s, initial) && s.Live() && i < |s.records| && Overrunning(s.records[i])
    ensures RecordsOwned(s)
    ensures
      var t := Close(s);
      t.closed && !t.invalid && t.activeWrite.None? && t.Used().journal.bytes > t.limits.journalBytes
  {
    hide Inv, Reached, Close, RecordsOwned;
    ReachedHolds(s, initial);
    InvOverrunByClosing(s, i, Captured(initial));
  }

  /** A journal replacement is admitted only when it can have the whole private-journal budget: the policy must
      be at its maximum, nothing else may be reserved there, and no other journal byte may exist. */
  lemma AdmissionNeedsTheWholeBudget(s: Ledger, initial: Inventory, operation: nat, b: Binding, view: JournalView)
    requires Reached(s, initial) && AdmitReplacement(s, operation, b, view).outcome.Ok?
    ensures s.limits.journalBytes == JOURNAL_BYTES && s.reserved.journal.bytes == 0
    ensures s.inventory.Some?
    ensures Bytes(s.inventory.value.journal) == SizeOf(RowOf(s.inventory.value.journal, b.filename))
  {
    hide Inv, Reached, AdmitReplacement, Bytes;
    ReachedHolds(s, initial);
    InvHasInventory(s, Captured(initial));
    InvWholeBudget(s, operation, b, view, Captured(initial));
  }

  /** The compensation of a commit undoes its effect on the counters and keeps the whole admitted bound as uncertain:
      reserved and observed are what they were before the replacement was admitted, uncertain has grown by the two
      entries and the full budget, and the ledger accepts nothing more. */
  lemma CompensationUndoesCommit(
    s: Ledger, initial: Inventory, operation: nat, b: Binding, admitted: JournalView, after: Inventory, free: int,
    completed: JournalView, c: Completion, u: Ledger)
    requires Reached(s, initial) && RecordsOwned(s) && Committed(s, operation, b, admitted, after, free, completed, c, u)
    ensures RecordsOwned(u)
    ensures
      var undone := CompensateReplacement(u, operation, s.nextWrite);
      && undone.outcome.Ok? && undone.next.invalid
      && undone.next.reserved == s.reserved && undone.next.observed == s.observed
      && undone.next.uncertain == Added(s.uncertain, REPLACEMENT_ESTIMATE)
      && undone.next.records == s.records + [Record(operation, REPLACEMENT_ESTIMATE, RetainedAsUncertain,
                                                    Some(s.nextWrite), Some(b), None)]
  {
    hide Inv, Reached, Committed, CompensateReplacement, RecordsOwned;
    ReachedHolds(s, initial);
    InvCompensation(s, operation, b, admitted, after, free, completed, c, u, Captured(initial));
  }
}
