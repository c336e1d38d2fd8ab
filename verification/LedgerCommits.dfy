/** What a completed journal replacement was: over every run, the completion of one admission, acknowledged as its next
    revision and left as the only change of the inventory. */
module LedgerCommits {
  import opened CapacityTypes
  import opened LedgerSpec
  import opened LedgerInvariant
  import opened LedgerWrites
  import opened LedgerRuns
  import opened LedgerTheorems
  import opened LedgerHistory
  import opened LedgerUndo
  import opened LedgerTips

  /** Action `i` of the run admits a replacement for this binding and gives out this write. */
  ghost predicate IssuedAt(states: seq<Ledger>, actions: seq<Action>, i: nat, operation: nat, write: nat, b: Binding) {
    && i < |actions| && i < |states| && actions[i].AdmitJournal?
    && actions[i].operation == operation && actions[i].binding == b
    && AdmitReplacement(states[i], operation, b, actions[i].view).outcome == Ok(write)
  }

  /** A record of this replacement. */
  ghost predicate RecordOf(s: Ledger, n: nat, operation: nat, write: nat, b: Binding) {
    && n < |s.records| && s.records[n].operation == operation && s.records[n].write == Some(write)
    && s.records[n].replacement == Some(b)
  }

  lemma AdmissionRecords(s: Ledger, operation: nat, b: Binding, view: JournalView)
    ensures var step := AdmitReplacement(s, operation, b, view);
            if step.outcome.Ok? then
              && |step.next.records| == |s.records| + 1
              && RecordOf(step.next, |s.records|, operation, step.outcome.value, b)
            else |step.next.records| == |s.records|
  {
    hide BindingCurrent, TipMatches, ReplacementFits, FreeSpaceCovers;
  }

  lemma ReplacementIsNotReserved(s: Ledger, initial: Capture, n: nat)
    requires Inv(s, initial) && n < |s.records| && s.records[n].replacement.Some?
    ensures s.records[n].state != Reserved
  {
    hide Clean, Tracked, Conserved, Positive, Phase;
  }

  lemma RecordStays(s: Ledger, a: Action, initial: Capture, n: nat, operation: nat, write: nat, b: Binding)
    requires Inv(s, initial) && RecordsOwned(s) && RecordOf(s, n, operation, write, b)
    ensures RecordOf(Act(s, a), n, operation, write, b)
  {
    ReplacementIsNotReserved(s, initial, n);
    ActKeepsToken(s, a, n);
    hide Act, Inv, RecordsOwned;
  }

  /** An admission's record is there in every later state. */
  lemma {:induction false} IssuedHasRecord(states: seq<Ledger>, actions: seq<Action>, initial: Inventory, i: nat, k: nat,
                                           operation: nat, write: nat, b: Binding)
    requires Run(states, actions) && Opened(states[0], initial) && i < k < |states|
    requires IssuedAt(states, actions, i, operation, write, b)
    ensures RecordOf(states[k], |states[i].records|, operation, write, b)
    decreases k
  {
    hide Opened, Inv, RecordOf, Captured, RecordsOwned;
    RunStep(states, actions, k);
    if k == i + 1 {
      AdmissionRecords(states[i], operation, b, actions[i].view);
    } else {
      IssuedHasRecord(states, actions, initial, i, k - 1, operation, write, b);
      InRun(states, actions, initial, k - 1);
      hide Act;
      RecordStays(states[k - 1], actions[k - 1], Captured(initial), |states[i].records|, operation, write, b);
    }
  }

  ghost predicate HasOrigin(states: seq<Ledger>, actions: seq<Action>, k: nat, r: Record) {
    r.replacement.Some? ==>
      && r.write.Some?
      && exists i: nat :: i < k && IssuedAt(states, actions, i, r.operation, r.write.value, r.replacement.value)
  }

  /** Every replacement on record was admitted by a step. */
  lemma {:induction false} RecordHasOrigin(states: seq<Ledger>, actions: seq<Action>, initial: Inventory, k: nat, n: nat)
    requires Run(states, actions) && Opened(states[0], initial) && k < |states| && n < |states[k].records|
    ensures HasOrigin(states, actions, k, states[k].records[n])
    decreases k
  {
    hide Opened, Inv, Captured, IssuedAt;
    if k == 0 {
      OpenedHasNoRecords(states[0], initial);
    } else {
      RunStep(states, actions, k);
      InRun(states, actions, initial, k - 1);
      OriginStep(states, actions, initial, k, n);
      if n < |states[k - 1].records| {
        RecordHasOrigin(states, actions, initial, k - 1, n);
        hide Act, Run;
        if states[k - 1].records[n].replacement.Some? {
          ReplacementIsNotReserved(states[k - 1], Captured(initial), n);
        }
      }
    }
  }

  lemma OpenedHasNoRecords(s: Ledger, initial: Inventory)
    requires Opened(s, initial)
    ensures s.records == []
  {
    hide FileAmount, DirectoryFits;
    var limits, owner, uncertain, free :| OpenedFrom(s, initial, limits, owner, uncertain, free);
    CountInitialMeans(Fresh(limits, owner).(uncertain := uncertain), initial, 0);
  }

  /** A record is an old one, with its token and binding if it had one, or it has just been admitted. */
  lemma OriginStep(states: seq<Ledger>, actions: seq<Action>, initial: Inventory, k: nat, n: nat)
    requires Run(states, actions) && 0 < k < |states| && n < |states[k].records|
    ensures |states[k - 1].records| <= |states[k].records|
    ensures n < |states[k - 1].records| ==>
              && states[k].records[n].replacement == states[k - 1].records[n].replacement
              && states[k].records[n].operation == states[k - 1].records[n].operation
              && SameToken(states[k - 1].records[n], states[k].records[n])
    ensures n >= |states[k - 1].records| && states[k].records[n].replacement.Some? ==>
              && states[k].records[n].write.Some?
              && IssuedAt(states, actions, k - 1, states[k].records[n].operation, states[k].records[n].write.value,
                          states[k].records[n].replacement.value)
  {
    RunStep(states, actions, k);
    var s, a := states[k - 1], actions[k - 1];
    hide Run, Reserve, AdmitReplacement, BeginOperation, CompleteReplacement;
    if CommitsJournal(s, a) {
      CommitRemembers(s, a.operation, a.write, a.after, a.freeBytes, a.view, a.completion);
    } else {
      ActKeepsTips(s, a);
    }
    hide CommitsJournal;
    if n < |s.records| {
      hide Act;
      ActKeepsToken(s, a, n);
    } else {
      match a
      case Begin(id) => BeginAdds(s, id);
      case Request(op, estimates) => ReserveAdds(s, op, estimates);
      case AdmitJournal(op, b, view) => AdmissionAdds(s, op, b, view); AdmissionRecords(s, op, b, view);
      case _ => ActAddsNothing(s, a);
    }
  }

  // ----- when a replacement commits -----

  /** The new journal is the one the writer acknowledges as the next revision of this binding: it is the only change of
      the inventory, a new file under the old access control, and the writer's live tip. */
  ghost predicate Completes(s: Ledger, b: Binding, after: Inventory, view: JournalView, c: Completion) {
    var before, row, ack := b.priorInventory, c.nativeRow, c.acknowledgement;
    && c.issued && b.admissionOwner == s.owner && (!b.leased || view.leaseCurrent)
    && after == before.(journal := before.journal[b.filename := row])
    && 0 < row.size <= JOURNAL_BYTES && Bytes(after.journal) <= s.limits.journalBytes
    && (b.filename in before.journal ==>
          before.journal[b.filename].identity != row.identity && before.journal[b.filename].acl == row.acl)
    && (forall name :: name in before.journal && name != b.filename ==> before.journal[name].identity != row.identity)
    && (forall name :: name in before.temporary ==> before.temporary[name].identity != row.identity)
    && (forall name :: name in before.retained ==> before.retained[name].identity != row.identity)
    && (forall name :: name in before.promoted ==> before.promoted[name].identity != row.identity)
    && ack == Acknowledgement(ack.serial, b.schema, b.operationId, b.previousRevision + 1, view.digest, c.fileIdentity)
    && view.operationId == b.operationId && view.revision == b.previousRevision + 1
    && view.fileIdentity == Some(c.fileIdentity) && (b.schema == MultiRequestSchema ==> view.tip == Some(ack.serial))
  }

  lemma RefusalExactly(s: Ledger, b: Binding, after: Inventory, view: JournalView, c: Completion)
    requires s.inventory == Some(b.priorInventory)
    requires b.previousNativeRow == RowOf(b.priorInventory.journal, b.filename)
    requires b.previousRevision == 0 ==> b.previousNativeRow.None?
    requires b.filename in b.priorInventory.journal ==>
               b.priorInventory.journal[b.filename].size <= s.observed.journal.bytes && 1 <= s.observed.journal.entries
    ensures ReplacementRefusal(s, b, after, view, c).None? <==> c.binding == b && Completes(s, b, after, view, c)
  {
    hide Bytes;
    var row := c.nativeRow;
    if after.journal == b.priorInventory.journal[b.filename := row] {
      assert RowOf(after.journal, b.filename) == Some(row);
      assert forall name :: name != b.filename ==>
               (name in after.journal <==> name in b.priorInventory.journal);
      assert forall name :: name != b.filename && name in after.journal ==> after.journal[name] == b.priorInventory.journal[name];
    }
  }

  lemma IssuedIsConsistent(states: seq<Ledger>, actions: seq<Action>, i: nat, operation: nat, write: nat, b: Binding)
    requires IssuedAt(states, actions, i, operation, write, b)
    ensures b.previousRevision == 0 ==> b.previousNativeRow.None?
  {
    hide BindingCurrent, ReplacementFits, FreeSpaceCovers;
  }

  lemma CommitsWhen(s: Ledger, operation: nat, write: nat, after: Inventory, free: int, view: JournalView, c: Completion)
    requires RecordsOwned(s)
    ensures var found := ActiveRecord(s, operation, write);
            CompleteReplacement(s, operation, write, after, free, view, c).outcome.Ok? <==>
              && 0 <= free <= MAX_FREE_BYTES && s.Live() && found.Some? && s.records[found.value].replacement.Some?
              && ReplacementRefusal(s, s.records[found.value].replacement.value, after, view, c).None?
  {
    hide ReplacementRefusal;
  }

  lemma FoundIsActive(s: Ledger, operation: nat, write: nat)
    requires RecordsOwned(s) && ActiveRecord(s, operation, write).Some?
    ensures var n := ActiveRecord(s, operation, write).value;
            && n < |s.records| && s.records[n].state == Writing && s.records[n].operation == operation
            && s.records[n].write == Some(write) && s.activeWrite == Some(write)
  {
  }

  /** The active write finds the record it was issued for. */
  lemma ActiveIsFound(s: Ledger, initial: Capture, n: nat, operation: nat, write: nat, b: Binding)
    requires Inv(s, initial) && Measured(initial) && RecordsOwned(s)
    requires RecordOf(s, n, operation, write, b) && s.activeWrite == Some(write)
    ensures ActiveRecord(s, operation, write) == Some(n)
  {
    InvConserved(s, initial);
    hide Inv, Measured;
    var found := FirstFrom(s.records, write, {Writing}, 0);
    assert s.records[n].state == Writing;
  }

  /** Whatever a run has done, a replacement commits if and only if its write is the active one, a step of the run issued
      that write to this operation for the completion's very binding, and the new journal completes it. */
  lemma CommittedExactly(states: seq<Ledger>, actions: seq<Action>, initial: Inventory, k: nat, operation: nat, write: nat,
                         after: Inventory, free: int, view: JournalView, c: Completion)
    requires Run(states, actions) && Opened(states[0], initial) && k < |states|
    ensures RecordsOwned(states[k])
    ensures CompleteReplacement(states[k], operation, write, after, free, view, c).outcome.Ok? <==>
              && 0 <= free <= MAX_FREE_BYTES && !states[k].closed && !states[k].invalid
              && states[k].activeWrite == Some(write)
              && (exists i: nat :: i < k && IssuedAt(states, actions, i, operation, write, c.binding))
              && Completes(states[k], c.binding, after, view, c)
  {
    var s := states[k];
    InRun(states, actions, initial, k);
    InvOwnsRecords(s, Captured(initial));
    var found := ActiveRecord(s, operation, write);
    CommitsWhen(s, operation, write, after, free, view, c);
    hide Run, Opened, Inv, Captured, IssuedAt, Completes, ReplacementRefusal, CompleteReplacement, RecordsOwned, ActiveRecord,
      Measured, RowOf;
    if i: nat :| i < k && IssuedAt(states, actions, i, operation, write, c.binding) && s.activeWrite == Some(write) {
      IssuedHasRecord(states, actions, initial, i, k, operation, write, c.binding);
      ActiveIsFound(s, Captured(initial), |states[i].records|, operation, write, c.binding);
    }
    if s.Live() && found.Some? && s.records[found.value].replacement.Some? {
      FoundIsActive(s, operation, write);
      FoundRefusal(states, actions, initial, k, found.value, operation, write, after, view, c);
    }
  }

  /** What the record of the active write has against a completion. */
  lemma FoundRefusal(states: seq<Ledger>, actions: seq<Action>, initial: Inventory, k: nat, n: nat, operation: nat, write: nat,
                     after: Inventory, view: JournalView, c: Completion)
    requires Run(states, actions) && Opened(states[0], initial) && k < |states|
    requires Inv(states[k], Captured(initial)) && states[k].Live() && n < |states[k].records|
    requires var r := states[k].records[n];
             r.state == Writing && r.operation == operation && r.write == Some(write) && r.replacement.Some?
    ensures
      var b := states[k].records[n].replacement.value;
      && (exists i: nat :: i < k && IssuedAt(states, actions, i, operation, write, b))
      && (ReplacementRefusal(states[k], b, after, view, c).None? <==> c.binding == b && Completes(states[k], b, after, view, c))
  {
    var s := states[k];
    var b := s.records[n].replacement.value;
    RecordHasOrigin(states, actions, initial, k, n);
    ReplacementInProgress(s, n, Captured(initial));
    hide Run, Opened, Inv, Captured, IssuedAt, Completes, ReplacementRefusal;
    var i: nat :| i < k && IssuedAt(states, actions, i, operation, write, b);
    IssuedIsConsistent(states, actions, i, operation, write, b);
    RefusalExactly(s, b, after, view, c);
  }
}
