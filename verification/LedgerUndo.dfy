/** When a committed journal replacement can still be taken back: over any run after the commit, exactly while no write
    is active and none was completed since. */
module LedgerUndo {
  import opened CapacityTypes
  import opened LedgerSpec
  import opened LedgerInvariant
  import opened LedgerWrites
  import opened LedgerRuns
  import opened LedgerCompensation
  import opened LedgerTheorems
  import opened LedgerHistory

  lemma ReachedRemembers(s: Ledger, initial: Inventory)
    requires Reached(s, initial)
    ensures History(s, initial)
  {
    hide Inv, Measured, Opened, InventoryAmount, History;
    var states, actions :| Leads(states, actions, s, initial);
    OpenedHolds(states[0], initial);
    OpenedRemembers(states[0], initial);
    RunKeepsHistory(states, actions, Captured(initial), |states| - 1);
  }

  lemma OpenedRemembers(s: Ledger, initial: Inventory)
    requires Opened(s, initial)
    ensures History(s, initial)
  {
    hide History, FileAmount, DirectoryFits;
    var limits, owner, uncertain, free :| OpenedFrom(s, initial, limits, owner, uncertain, free);
    CountInitialMeans(Fresh(limits, owner).(uncertain := uncertain), initial, 0);
    OpeningRemembers(s, initial);
  }

  // ----- just after a commit -----

  /** Record `r`, if it is a commit of the same journal, is one of an earlier revision. */
  predicate Precedes(r: Record, b: Binding) {
    r.state == Completed && r.replacement.Some? && r.replacement.value.filename == b.filename ==>
      r.replacement.value.previousRevision < b.previousRevision
  }

  ghost predicate AllPrecede(records: seq<Record>, n: nat, b: Binding)
    requires n <= |records|
  {
    forall i {:trigger records[i]} :: 0 <= i < n ==> Precedes(records[i], b)
  }

  /** The commit's record: the newest one, completed, and the only completed record of its revision. */
  ghost predicate Newest(records: seq<Record>, operation: nat, n: nat, w: nat, b: Binding) {
    && n + 1 == |records|
    && records[n] == Record(operation, REPLACEMENT_ESTIMATE, Completed, Some(w), Some(b), None)
    && AllPrecede(records, n, b)
  }

  /** The journal directory holds no other committed journal, and the observed counters count this one besides what
      additive writes added. */
  predicate OnlyJournal(u: Ledger, b: Binding, size: int) {
    && u.journalFiles.Keys == {b.filename}
    && u.observed.journal == Additive(u.records).journal.Plus(Amount(size, 1))
  }

  ghost predicate JustCommitted(u: Ledger, operation: nat, n: nat, w: nat, b: Binding, size: int, initial: Capture) {
    && Inv(u, initial) && Measured(initial) && History(u, initial.files) && RecordsOwned(u)
    && u.inventory.Some? && operation < |u.operations| && Newest(u.records, operation, n, w, b)
    && CompensationCurrent(u, operation, u.records[n], b) && OnlyJournal(u, b, size)
    && SizeOf(RowOf(u.inventory.value.journal, b.filename)) == size
  }

  lemma OlderRevisions(records: seq<Record>, files: map<string, JournalFile>, b: Binding)
    requires Remembered(records, files) && Continues(b, files)
    ensures AllPrecede(records, |records|, b)
  {
    forall i | 0 <= i < |records|
      ensures Precedes(records[i], b)
    {
      assert RecordRemembered(records[i], files);
    }
  }

  /** A replacement is admitted only with the private-journal directory to itself, so no other journal is committed. */
  lemma AdmittedAlone(s: Ledger, operation: nat, b: Binding, view: JournalView, initial: Capture)
    requires Inv(s, initial) && Measured(initial) && AdmitReplacement(s, operation, b, view).outcome.Ok?
    ensures s.inventory.Some? && Continues(b, s.journalFiles) && s.journalFiles.Keys <= {b.filename}
  {
    hide Tokens, Tracked, Conserved, Positive, Phase, BoundToInventory, Bounded, FileAmount, ReplacementFits,
      FreeSpaceCovers, IsDigest;
    InvWholeBudget(s, operation, b, view, initial);
    var now, first := s.inventory.value.journal, initial.files.journal;
    DirectoryAccounted(now, first, s.observed.journal);
    forall name | name in s.journalFiles
      ensures name == b.filename
    {
      if name != b.filename {
        OtherJournalIsCounted(now, first, s.journalFiles, b.filename, name);
        AmountBytes(now, now - first.Keys);
      }
    }
  }

  lemma AmountBytes(a: Directory, b: Directory)
    ensures FileAmount(a).bytes == Bytes(a) && FileAmount(b).bytes == Bytes(b)
  {
  }

  lemma OtherJournalIsCounted(now: Directory, initial: Directory, files: map<string, JournalFile>, f: string, name: string)
    requires JournalsPresent(files, now, initial) && name in files && name != f && (f in now ==> f in files)
    requires forall other :: other in now && other !in initial ==> 0 <= now[other].size
    ensures SizeOf(RowOf(now, f)) < Bytes(now - initial.Keys)
  {
    var added := now - initial.Keys;
    BytesTake(added, name);
    if f in now {
      BytesTake(added - {name}, f);
      BytesNatural(added - {name} - {f});
    } else {
      BytesNatural(added - {name});
    }
  }

  /** What the two steps of a replacement are as actions. */
  lemma CommitIsTwoActions(
    s: Ledger, operation: nat, b: Binding, admitted: JournalView, after: Inventory, free: int, completed: JournalView,
    c: Completion, u: Ledger, initial: Capture)
    requires Inv(s, initial) && Measured(initial) && History(s, initial.files) && RecordsOwned(s)
    requires Committed(s, operation, b, admitted, after, free, completed, c, u)
    ensures Inv(u, initial) && History(u, initial.files) && RecordsOwned(u) && !u.invalid
  {
    hide Inv, History, AdmitReplacement, CompleteReplacement, RecordsOwned;
    var first := AdmitJournal(operation, b, admitted);
    ActKeepsInv(s, first, initial);
    ActKeepsHistory(s, first, initial);
    var t := Act(s, first);
    var second := CompleteJournal(operation, AdmitReplacement(s, operation, b, admitted).outcome.value, after, free,
                                  completed, c);
    ActKeepsInv(t, second, initial);
    ActKeepsHistory(t, second, initial);
    InvOwnsRecords(u, initial);
    CommitIsLive(t, operation, AdmitReplacement(s, operation, b, admitted).outcome.value, after, free, completed, c);
  }

  lemma CommitIsLive(s: Ledger, operation: nat, write: nat, after: Inventory, free: int, view: JournalView, c: Completion)
    requires RecordsOwned(s) && CompleteReplacement(s, operation, write, after, free, view, c).outcome.Ok?
    ensures !CompleteReplacement(s, operation, write, after, free, view, c).next.invalid
  {
    hide ReplacementRefusal;
  }

  lemma CommitJournals(s: Ledger, operation: nat, b: Binding, admitted: JournalView, after: Inventory, free: int,
                       completed: JournalView, c: Completion, u: Ledger, initial: Capture)
    requires Inv(s, initial) && RecordsOwned(s) && Committed(s, operation, b, admitted, after, free, completed, c, u)
    ensures u.journalFiles.Keys == s.journalFiles.Keys + {b.filename}
  {
    hide Core, Phase, ReplacementRefusal, ReplacementFits, FreeSpaceCovers, TipMatches, BindingCurrent, IsDigest;
    var r := Record(operation, REPLACEMENT_ESTIMATE, Writing, Some(s.nextWrite), Some(b), None);
    WriteIsFresh(s, initial);
    NewestIsFound(s.records, r, {Writing}, 0);
  }

  lemma OnlyJournalIsCounted(u: Ledger, b: Binding, initial: Capture)
    requires Inv(u, initial) && History(u, initial.files) && !u.invalid && u.journalFiles.Keys == {b.filename}
    ensures b.filename in u.inventory.value.journal
    ensures OnlyJournal(u, b, u.inventory.value.journal[b.filename].size)
  {
    hide Tokens, Tracked, Conserved, Positive, Phase, BoundToInventory, Bounded, Additive, Remembered, FileAmount;
    var added := u.inventory.value.journal - initial.files.journal.Keys;
    assert added - u.journalFiles.Keys == added - {b.filename};
    AmountTake(added, b.filename);
  }

  lemma AmountTake(files: Directory, name: string)
    requires name in files
    ensures FileAmount(files) == FileAmount(files - {name}).Plus(Amount(files[name].size, 1))
  {
    assert (files - {name})[name := files[name]] == files;
    BytesAdd(files - {name}, name, files[name]);
  }

  lemma CommittedMeans(
    s: Ledger, operation: nat, b: Binding, admitted: JournalView, after: Inventory, free: int, completed: JournalView,
    c: Completion, u: Ledger, initial: Capture) returns (size: int)
    requires Inv(s, initial) && Measured(initial) && History(s, initial.files) && RecordsOwned(s)
    requires Committed(s, operation, b, admitted, after, free, completed, c, u)
    ensures JustCommitted(u, operation, |s.records|, s.nextWrite, b, size, initial)
  {
    hide Inv, History, Admitted, CompensationCurrent, OnlyJournal, Continues, Committed, RecordsOwned, AllPrecede;
    CommitIsTwoActions(s, operation, b, admitted, after, free, completed, c, u, initial);
    var row := CommitFacts(s, operation, b, admitted, after, free, completed, c, u, initial);
    CommitIsCompensable(s, operation, b, row, c, u);
    CommitOlder(s, operation, b, admitted, after, free, completed, c, u, initial);
    OnlyJournalIsCounted(u, b, initial);
    size := row.size;
    AllPrecedeIn(s.records, u.records, b);
  }

  lemma CommitOlder(s: Ledger, operation: nat, b: Binding, admitted: JournalView, after: Inventory, free: int,
                    completed: JournalView, c: Completion, u: Ledger, initial: Capture)
    requires Inv(s, initial) && Measured(initial) && History(s, initial.files) && RecordsOwned(s)
    requires Committed(s, operation, b, admitted, after, free, completed, c, u)
    ensures AllPrecede(s.records, |s.records|, b) && u.journalFiles.Keys == {b.filename}
  {
    hide Inv, Continues, AdmitReplacement, CompleteReplacement, RecordsOwned, AllPrecede, JournalDeltas;
    AdmittedAlone(s, operation, b, admitted, initial);
    OlderRevisions(s.records, s.journalFiles, b);
    CommitJournals(s, operation, b, admitted, after, free, completed, c, u, initial);
  }

  lemma AllPrecedeIn(records: seq<Record>, longer: seq<Record>, b: Binding)
    requires AllPrecede(records, |records|, b) && records <= longer
    ensures AllPrecede(longer, |records|, b)
  {
    hide Precedes;
    assert forall i :: 0 <= i < |records| ==> longer[i] == records[i];
  }

  // ----- while nothing is committed -----

  /** What the commit's run leaves of a record it found: it may only be settled or taken back. */
  predicate Settling(before: Record, after: Record) {
    && after.replacement == before.replacement && after.delta == before.delta && after.operation == before.operation
    && after.estimates == before.estimates
    && (after.state == Completed ==> before.state == Completed && after.write == before.write)
  }

  ghost predicate SettlingAll(before: seq<Record>, after: seq<Record>) {
    && |before| <= |after|
    && (forall i {:trigger after[i]} :: 0 <= i < |before| ==> Settling(before[i], after[i]))
    && (forall i {:trigger after[i]} :: |before| <= i < |after| ==> after[i].state != Completed)
  }

  /** While the commit stands, the observed counters count its file besides what additive writes added. */
  predicate StillCounted(t: Ledger, n: nat, size: int)
    requires n < |t.records|
  {
    t.records[n].state == Completed ==> t.observed.journal == Additive(t.records).journal.Plus(Amount(size, 1))
  }

  /** Ledger `t`, reached from `u` by a run that completes no write. */
  ghost predicate Uncommitted(u: Ledger, t: Ledger, n: nat, size: int)
    requires n < |u.records|
  {
    && t.inventory == u.inventory && t.journalFiles == u.journalFiles && t.journalWriters == u.journalWriters
    && SameOperations(u, t) && t.owner == u.owner && SettlingAll(u.records, t.records) && StillCounted(t, n, size)
  }

  lemma NothingIsUncommitted(u: Ledger, operation: nat, n: nat, w: nat, b: Binding, size: int, initial: Capture)
    requires JustCommitted(u, operation, n, w, b, size, initial)
    ensures Uncommitted(u, u, n, size)
  {
    hide Inv, History, CompensationCurrent, Additive, RecordsOwned, AllPrecede;
  }

  lemma QuietSettles(records: seq<Record>, before: seq<Record>, after: seq<Record>, files: map<string, JournalFile>)
    requires SettlingAll(records, before) && SameRecords(before, after, files)
    ensures SettlingAll(records, after)
  {
    forall i | 0 <= i < |records|
      ensures Settling(records[i], after[i])
    {
      assert Settling(records[i], before[i]) && SameRecord(before[i], after[i]);
    }
    forall i | |records| <= i < |after|
      ensures after[i].state != Completed
    {
      if i < |before| {
        assert SameRecord(before[i], after[i]);
      } else {
        assert NewRecord(after[i], files);
      }
    }
  }

  lemma QuietStaysUncommitted(u: Ledger, t: Ledger, next: Ledger, n: nat, size: int)
    requires n < |u.records| && Uncommitted(u, t, n, size) && Quiet(t, next)
    ensures Uncommitted(u, next, n, size)
  {
    hide Additive, SettlingAll, SameRecords;
    QuietSettles(u.records, t.records, next.records, t.journalFiles);
    SameAdditive(t.records, next.records, t.journalFiles);
    CompletedBefore(u.records, t.records, next.records, t.journalFiles, n);
  }

  lemma CompletedBefore(records: seq<Record>, before: seq<Record>, after: seq<Record>, files: map<string, JournalFile>, n: nat)
    requires SettlingAll(records, before) && SameRecords(before, after, files) && n < |records|
    ensures n < |before| && n < |after| && (after[n].state == Completed ==> before[n].state == Completed)
  {
    assert SameRecord(before[n], after[n]);
  }

  lemma ChangeSettles(records: seq<Record>, before: seq<Record>, i: nat, state: RecordState)
    requires SettlingAll(records, before) && i < |before| && state != Completed
    ensures SettlingAll(records, before[i := before[i].(state := state)])
  {
    var after := before[i := before[i].(state := state)];
    forall j | 0 <= j < |records|
      ensures Settling(records[j], after[j])
    {
      assert Settling(records[j], before[j]);
    }
  }

  lemma AdditiveTakenBackStaysUncommitted(u: Ledger, t: Ledger, n: nat, size: int, operation: nat, write: nat,
                                          delta: PerPurpose<Amount>)
    requires n < |u.records| && Uncommitted(u, t, n, size) && RecordsOwned(t)
    requires u.records[n].replacement.Some?
    requires CompensateWrite(t, operation, write, delta).outcome.Ok?
    ensures Uncommitted(u, CompensateWrite(t, operation, write, delta).next, n, size)
  {
    hide Additive, SettlingAll;
    var next := CompensateWrite(t, operation, write, delta).next;
    var i := FirstFrom(t.records, write, ANY_STATE, 0).value;
    RecordSettles(u.records, t.records, n);
    if next != t {
      ChangeSettles(u.records, t.records, i, Uncertain);
      AdditiveChanges(t.records, i, t.records[i].(state := Uncertain));
    }
  }

  lemma RecordSettles(records: seq<Record>, after: seq<Record>, n: nat)
    requires SettlingAll(records, after) && n < |records|
    ensures n < |after| && Settling(records[n], after[n])
  {
  }

  /** The only committed replacement that a compensation can take back is the last one. */
  lemma OnlyOwnTakenBack(u: Ledger, t: Ledger, operation: nat, n: nat, w: nat, b: Binding, size: int, initial: Capture,
                         other: nat, write: nat)
    requires JustCommitted(u, operation, n, w, b, size, initial) && Uncommitted(u, t, n, size) && RecordsOwned(t)
    requires CompensateReplacement(t, other, write).outcome.Ok?
    ensures FirstFrom(t.records, write, {Completed}, 0) == Some(n)
  {
    hide Inv, History, Additive, StillCounted, Measured;
    var i := FirstFrom(t.records, write, {Completed}, 0).value;
    assert i < |u.records|;
    assert Settling(u.records[i], t.records[i]);
  }

  lemma OwnTakenBackStaysUncommitted(u: Ledger, t: Ledger, operation: nat, n: nat, w: nat, b: Binding, size: int,
                                     initial: Capture, other: nat, write: nat)
    requires JustCommitted(u, operation, n, w, b, size, initial) && Uncommitted(u, t, n, size) && RecordsOwned(t)
    requires CompensateReplacement(t, other, write).outcome.Ok?
    ensures Uncommitted(u, CompensateReplacement(t, other, write).next, n, size)
  {
    hide JustCommitted, Additive, SettlingAll, CompensationCurrent;
    OnlyOwnTakenBack(u, t, operation, n, w, b, size, initial, other, write);
    ChangeSettles(u.records, t.records, n, RetainedAsUncertain);
  }

  lemma ActStaysUncommitted(u: Ledger, t: Ledger, operation: nat, n: nat, w: nat, b: Binding, size: int, initial: Capture,
                            a: Action)
    requires JustCommitted(u, operation, n, w, b, size, initial) && Uncommitted(u, t, n, size) && RecordsOwned(t)
    requires !Commits(t, a)
    ensures Uncommitted(u, Act(t, a), n, size)
  {
    hide JustCommitted, Uncommitted, Quiet, CompensateWrite, CompensateReplacement, CompleteWrite, CompleteReplacement,
      Close, ObserveInventory, AdmitReplacement, Reserve, AdmitWrite, CancelBeforeWrite, RetainUncertain,
      CancelWriteBeforeCreate, BeginOperation;
    CommitHasRecord(u, operation, n, w, b, size, initial);
    if TakesBack(t, a) {
      match a {
        case CompensateAdditive(op, write, delta) => AdditiveTakenBackStaysUncommitted(u, t, n, size, op, write, delta);
        case CompensateJournal(op, write) =>
          OwnTakenBackStaysUncommitted(u, t, operation, n, w, b, size, initial, op, write);
        case _ =>
      }
    } else {
      ActIsQuiet(t, a);
      QuietStaysUncommitted(u, t, Act(t, a), n, size);
    }
  }

  lemma CommitHasRecord(u: Ledger, operation: nat, n: nat, w: nat, b: Binding, size: int, initial: Capture)
    requires JustCommitted(u, operation, n, w, b, size, initial)
    ensures n < |u.records| && u.records[n].replacement == Some(b) && u.records[n].operation == operation
    ensures Inv(u, initial) && Measured(initial) && History(u, initial.files)
  {
    hide Inv, History, CompensationCurrent, OnlyJournal, Measured, AllPrecede;
  }

  // ----- what a commit leaves for good -----

  lemma HistoryRemembers(s: Ledger, initial: Inventory)
    requires History(s, initial)
    ensures s.inventory.Some? && Remembered(s.records, s.journalFiles)
  {
  }

  predicate NamesGrow(before: Inventory, after: Inventory) {
    && before.journal.Keys <= after.journal.Keys && before.temporary.Keys <= after.temporary.Keys
    && before.retained.Keys <= after.retained.Keys && before.promoted.Keys <= after.promoted.Keys
  }

  predicate RevisionsGrow(before: map<string, JournalFile>, after: map<string, JournalFile>) {
    forall name :: name in before ==> name in after && before[name].revision <= after[name].revision
  }

  /** No step takes a name out of the inventory or a journal back to an earlier revision. */
  ghost predicate Grows(s: Ledger, t: Ledger) {
    && s.inventory.Some? && t.inventory.Some? && NamesGrow(s.inventory.value, t.inventory.value)
    && RevisionsGrow(s.journalFiles, t.journalFiles)
  }

  lemma SameFilesGrow(s: Ledger, t: Ledger)
    requires s.inventory.Some? && t.inventory == s.inventory && t.journalFiles == s.journalFiles
    ensures Grows(s, t)
  {
  }

  lemma AdditionGrows(s: Ledger, operation: nat, write: nat, after: Inventory, free: Option<int>)
    requires RecordsOwned(s) && CompleteWrite(s, operation, write, after, free).outcome.Ok?
    ensures Grows(s, CompleteWrite(s, operation, write, after, free).next)
    ensures CompleteWrite(s, operation, write, after, free).next.inventory == Some(after)
    ensures !NamesGrow(after, s.inventory.value)
  {
    hide FileAmount;
    var before := s.inventory.value;
    if NamesGrow(after, before) {
      NothingGained(before.journal, after.journal);
      NothingGained(before.temporary, after.temporary);
      NothingGained(before.retained, after.retained);
      NothingGained(before.promoted, after.promoted);
    }
  }

  lemma NothingGained(before: Directory, after: Directory)
    ensures after.Keys <= before.Keys ==> FileAmount(after - before.Keys) == ZERO
  {
    if after.Keys <= before.Keys {
      assert after - before.Keys == map[];
    }
  }

  /** A replacement commits the next revision of the one journal, or makes a journal under a new name. */
  lemma ReplacementGrows(s: Ledger, operation: nat, write: nat, after: Inventory, free: int, view: JournalView,
                         c: Completion, initial: Inventory) returns (name: string)
    requires RecordsOwned(s) && History(s, initial)
    requires CompleteReplacement(s, operation, write, after, free, view, c).outcome.Ok?
    ensures Grows(s, CompleteReplacement(s, operation, write, after, free, view, c).next)
    ensures var t := CompleteReplacement(s, operation, write, after, free, view, c).next;
            && name in t.journalFiles && name in t.inventory.value.journal
            && (if name in s.journalFiles then t.journalFiles[name].revision == s.journalFiles[name].revision + 1
                else name !in s.inventory.value.journal)
  {
    hide JournalDeltas, CompletionCurrent, NewRowAcceptable, IdentityUnique, AcknowledgesNext, Bytes, Remembered;
    var i := ActiveRecord(s, operation, write).value;
    name := s.records[i].replacement.value.filename;
    ReplacedDelta(s.records, s.journalFiles, i);
  }

  lemma TakingBackGrows(s: Ledger, operation: nat, write: nat, delta: PerPurpose<Amount>)
    requires RecordsOwned(s) && s.inventory.Some?
    ensures Grows(s, CompensateWrite(s, operation, write, delta).next)
    ensures Grows(s, CompensateReplacement(s, operation, write).next)
  {
    hide Grows, CompensationCurrent;
    SameFilesGrow(s, CompensateWrite(s, operation, write, delta).next);
    SameFilesGrow(s, CompensateReplacement(s, operation, write).next);
  }

  lemma ActGrows(s: Ledger, a: Action, initial: Inventory)
    requires RecordsOwned(s) && History(s, initial)
    ensures Grows(s, Act(s, a))
  {
    hide History, Grows, CompensateWrite, CompensateReplacement, CompleteWrite, CompleteReplacement,
      Close, ObserveInventory, AdmitReplacement, Reserve, AdmitWrite, CancelBeforeWrite, RetainUncertain,
      CancelWriteBeforeCreate, BeginOperation, SameRecords;
    HistoryRemembers(s, initial);
    if Commits(s, a) {
      match a {
        case Complete(op, write, after, free) => AdditionGrows(s, op, write, after, free);
        case CompleteJournal(op, write, after, free, view, c) =>
          var name := ReplacementGrows(s, op, write, after, free, view, c, initial);
        case _ =>
      }
    } else if TakesBack(s, a) {
      match a {
        case CompensateAdditive(op, write, delta) => TakingBackGrows(s, op, write, delta);
        case CompensateJournal(op, write) => TakingBackGrows(s, op, write, NOTHING);
        case _ =>
      }
    } else {
      ActIsQuiet(s, a);
      SameFilesGrow(s, Act(s, a));
    }
  }

  lemma GrowsTwice(s: Ledger, t: Ledger, u: Ledger)
    requires Grows(s, t) && Grows(t, u)
    ensures Grows(s, u)
  {
  }

  lemma {:induction false} RunGrows(states: seq<Ledger>, actions: seq<Action>, initial: Capture, i: nat, j: nat)
    requires Run(states, actions) && Inv(states[0], initial) && Measured(initial) && History(states[0], initial.files)
    requires i <= j < |states|
    ensures Grows(states[i], states[j])
    decreases j - i
  {
    hide Inv, Measured, History, Grows;
    RunKeepsHistory(states, actions, initial, i);
    HistoryRemembers(states[i], initial.files);
    if i == j {
      SameFilesGrow(states[i], states[i]);
    } else {
      RunGrows(states, actions, initial, i, j - 1);
      RunKeepsHistory(states, actions, initial, j - 1);
      ActGrows(states[j - 1], actions[j - 1], initial.files);
      GrowsTwice(states[i], states[j - 1], states[j]);
    }
  }

  /** Something was committed after `u`: a name it did not have, or a later revision of its journal. */
  predicate Passed(u: Ledger, t: Ledger, b: Binding)
    requires u.inventory.Some? && t.inventory.Some?
  {
    || !NamesGrow(t.inventory.value, u.inventory.value)
    || (b.filename in t.journalFiles && t.journalFiles[b.filename].revision > b.previousRevision + 1)
  }

  lemma PassedStays(u: Ledger, t: Ledger, next: Ledger, b: Binding)
    requires u.inventory.Some? && t.inventory.Some? && Passed(u, t, b) && Grows(t, next)
    ensures Passed(u, next, b)
  {
  }

  lemma FirstCommitPasses(u: Ledger, t: Ledger, operation: nat, n: nat, w: nat, b: Binding, size: int, initial: Capture,
                          a: Action)
    requires JustCommitted(u, operation, n, w, b, size, initial) && Uncommitted(u, t, n, size) && RecordsOwned(t)
    requires History(t, initial.files) && Commits(t, a)
    ensures u.inventory.Some? && Act(t, a).inventory.Some? && Passed(u, Act(t, a), b)
  {
    hide History, Inv, CompleteWrite, CompleteReplacement, Additive, SettlingAll, SameOperations, AllPrecede, Grows,
      CompensationCurrent, NamesGrow, RecordsOwned, Measured;
    CommittedRevision(u, operation, u.records[n], b);
    match a {
      case Complete(op, write, after, free) =>
        AdditionGrows(t, op, write, after, free);
      case CompleteJournal(op, write, after, free, view, c) =>
        var name := ReplacementGrows(t, op, write, after, free, view, c, initial.files);
        GrownInventory(t, Act(t, a));
        if name != b.filename {
          NewName(u.inventory.value, Act(t, a).inventory.value, name);
        }
    }
  }

  lemma GrownInventory(s: Ledger, t: Ledger)
    requires Grows(s, t)
    ensures s.inventory.Some? && t.inventory.Some?
  {
  }

  lemma NewName(before: Inventory, after: Inventory, name: string)
    requires name in after.journal && name !in before.journal
    ensures !NamesGrow(after, before)
  {
  }

  lemma CommittedRevision(u: Ledger, operation: nat, r: Record, b: Binding)
    requires u.inventory.Some? && operation < |u.operations| && CompensationCurrent(u, operation, r, b)
    ensures b.filename in u.journalFiles && u.journalFiles[b.filename].revision == b.previousRevision + 1
    ensures b.filename in u.inventory.value.journal
    ensures b.priorInventory.temporary == u.inventory.value.temporary
    ensures b.priorInventory.retained == u.inventory.value.retained
    ensures b.priorInventory.promoted == u.inventory.value.promoted
    ensures b.priorInventory.journal - {b.filename} == u.inventory.value.journal - {b.filename}
  {
  }

  /** Once something was committed the compensation's conditions fail for good. */
  lemma PassedIsRefused(u: Ledger, v: Ledger, operation: nat, n: nat, w: nat, b: Binding, size: int, initial: Capture,
                        r: Record)
    requires JustCommitted(u, operation, n, w, b, size, initial)
    requires v.inventory.Some? && operation < |v.operations| && Passed(u, v, b)
    ensures !CompensationCurrent(v, operation, r, b)
  {
    hide Inv, History, OnlyJournal, AllPrecede, RecordsOwned, Measured;
    if CompensationCurrent(v, operation, r, b) {
      CommittedRevision(u, operation, u.records[n], b);
      CommittedRevision(v, operation, r, b);
      hide CompensationCurrent;
      SameNames(u.inventory.value.journal, v.inventory.value.journal, b.filename);
    }
  }

  lemma SameNames(before: Directory, after: Directory, name: string)
    requires before - {name} == after - {name} && name in before && name in after
    ensures before.Keys == after.Keys
  {
    forall other
      ensures other in before <==> other in after
    {
      assert other in before - {name} <==> other in after - {name};
    }
  }

  // ----- when it can be taken back -----

  /** How many writes the run has completed by its state `k`. */
  ghost function Commitments(states: seq<Ledger>, actions: seq<Action>, k: nat): nat
    requires Run(states, actions) && k < |states|
  {
    if k == 0 then 0
    else Commitments(states, actions, k - 1) + (if Commits(states[k - 1], actions[k - 1]) then 1 else 0)
  }

  lemma RunStep(states: seq<Ledger>, actions: seq<Action>, k: nat)
    requires Run(states, actions) && 0 < k < |states|
    ensures k <= |actions| && RecordsOwned(states[k - 1]) && states[k] == Act(states[k - 1], actions[k - 1])
  {
    hide Act, RecordsOwned;
    var a := actions[k - 1];
    assert RecordsOwned(states[k - 1]) && states[k - 1 + 1] == Act(states[k - 1], a);
  }

  lemma {:induction false} RunStaysUncommitted(states: seq<Ledger>, actions: seq<Action>, operation: nat, n: nat, w: nat,
                                               b: Binding, size: int, initial: Capture, k: nat)
    requires Run(states, actions) && JustCommitted(states[0], operation, n, w, b, size, initial)
    requires k < |states| && Commitments(states, actions, k) == 0
    ensures n < |states[0].records| && Uncommitted(states[0], states[k], n, size)
  {
    hide JustCommitted, Uncommitted, Commits, Act, Run, RecordsOwned, Inv, History, Measured;
    CommitHasRecord(states[0], operation, n, w, b, size, initial);
    if k == 0 {
      NothingIsUncommitted(states[0], operation, n, w, b, size, initial);
    } else {
      RunStep(states, actions, k);
      RunStaysUncommitted(states, actions, operation, n, w, b, size, initial, k - 1);
      ActStaysUncommitted(states[0], states[k - 1], operation, n, w, b, size, initial, actions[k - 1]);
    }
  }

  lemma {:induction false} RunPasses(states: seq<Ledger>, actions: seq<Action>, operation: nat, n: nat, w: nat,
                                     b: Binding, size: int, initial: Capture, k: nat)
    requires Run(states, actions) && JustCommitted(states[0], operation, n, w, b, size, initial)
    requires k < |states| && Commitments(states, actions, k) > 0
    ensures states[0].inventory.Some? && states[k].inventory.Some? && Passed(states[0], states[k], b)
  {
    hide JustCommitted, Uncommitted, Commits, Inv, History, Measured, Passed, Act, Run, RecordsOwned;
    CommitHasRecord(states[0], operation, n, w, b, size, initial);
    RunStep(states, actions, k);
    RunKeepsHistory(states, actions, initial, k - 1);
    RunGrows(states, actions, initial, 0, k);
    if Commitments(states, actions, k - 1) == 0 {
      RunStaysUncommitted(states, actions, operation, n, w, b, size, initial, k - 1);
      FirstCommitPasses(states[0], states[k - 1], operation, n, w, b, size, initial, actions[k - 1]);
    } else {
      RunPasses(states, actions, operation, n, w, b, size, initial, k - 1);
      RunGrows(states, actions, initial, k - 1, k);
      PassedStays(states[0], states[k - 1], states[k], b);
    }
  }

  lemma {:induction false} AdditiveNatural(records: seq<Record>, n: nat)
    requires n <= |records| && forall i :: 0 <= i < |records| && records[i].delta.Some? ==> AllNatural(records[i].delta.value)
    ensures AllNatural(SumTo(Deltas(records), n))
  {
    SumToNatural(Deltas(records), n);
  }

  lemma RememberedNatural(records: seq<Record>, files: map<string, JournalFile>)
    requires Remembered(records, files)
    ensures AllNatural(Additive(records))
  {
    forall i | 0 <= i < |records| && records[i].delta.Some?
      ensures AllNatural(records[i].delta.value)
    {
      assert RecordRemembered(records[i], files);
    }
    AdditiveNatural(records, |Deltas(records)|);
  }

  lemma StandingIsCompensable(u: Ledger, v: Ledger, operation: nat, n: nat, w: nat, b: Binding, size: int, initial: Capture)
    requires JustCommitted(u, operation, n, w, b, size, initial) && Uncommitted(u, v, n, size) && History(v, initial.files)
    requires v.activeWrite.None? && v.records[n].state == Completed
    requires v.operations[operation].state == JournalCompleted
    ensures CompensationCurrent(v, operation, v.records[n], b)
  {
    hide Inv, JournalDeltas, Remembered, Additive, AllPrecede, Measured;
    RecordSettles(u.records, v.records, n);
    RememberedNatural(v.records, v.journalFiles);
  }

  /** A write token finds its own record. */
  lemma TokenFinds(v: Ledger, n: nat, w: nat, initial: Capture)
    requires Inv(v, initial) && n < |v.records| && v.records[n].write == Some(w)
    ensures v.records[n].state == Completed ==> FirstFrom(v.records, w, {Completed}, 0) == Some(n)
    ensures FirstFrom(v.records, w, {Completed}, 0).Some? ==> v.records[n].state == Completed
  {
    hide Clean, Tracked, Conserved, Positive, Phase;
    forall i | 0 <= i < |v.records| && i != n
      ensures v.records[i].write != Some(w)
    {
      assert i < n || n < i;
    }
  }

  /** A record that is past reservation keeps its token, its binding and its operation. */
  predicate SameToken(before: Record, after: Record) {
    before.state != Reserved ==>
      && after.state != Reserved && after.write == before.write && after.replacement == before.replacement
      && after.operation == before.operation
  }

  lemma ActKeepsToken(s: Ledger, a: Action, n: nat)
    requires RecordsOwned(s) && n < |s.records|
    ensures n < |Act(s, a).records| && SameToken(s.records[n], Act(s, a).records[n])
  {
    hide CompensateWrite, CompensateReplacement, CompleteWrite, CompleteReplacement, Close, ObserveInventory,
      AdmitReplacement, Reserve, AdmitWrite, CancelBeforeWrite, RetainUncertain, CancelWriteBeforeCreate, BeginOperation,
      SameFiles, SameOperations, NewRecord;
    if Commits(s, a) {
      match a {
        case Complete(op, write, after, free) => CompletionKeepsToken(s, op, write, after, free, n);
        case CompleteJournal(op, write, after, free, view, c) =>
          ReplacementKeepsToken(s, op, write, after, free, view, c, n);
        case _ =>
      }
    } else if TakesBack(s, a) {
      match a {
        case CompensateAdditive(op, write, delta) => TakingBackKeepsToken(s, op, write, delta, n);
        case CompensateJournal(op, write) => TakingBackKeepsToken(s, op, write, NOTHING, n);
        case _ =>
      }
    } else {
      ActIsQuiet(s, a);
      assert SameRecord(s.records[n], Act(s, a).records[n]);
    }
  }

  lemma CompletionKeepsToken(s: Ledger, operation: nat, write: nat, after: Inventory, free: Option<int>, n: nat)
    requires RecordsOwned(s) && n < |s.records| && CompleteWrite(s, operation, write, after, free).outcome.Ok?
    ensures var t := CompleteWrite(s, operation, write, after, free).next;
            n < |t.records| && SameToken(s.records[n], t.records[n])
  {
    hide WriteRefusal, InventoryDelta;
  }

  lemma ReplacementKeepsToken(s: Ledger, operation: nat, write: nat, after: Inventory, free: int, view: JournalView,
                              c: Completion, n: nat)
    requires RecordsOwned(s) && n < |s.records|
    requires CompleteReplacement(s, operation, write, after, free, view, c).outcome.Ok?
    ensures var t := CompleteReplacement(s, operation, write, after, free, view, c).next;
            n < |t.records| && SameToken(s.records[n], t.records[n])
  {
    hide CompletionCurrent, NewRowAcceptable, IdentityUnique, AcknowledgesNext, Bytes;
  }

  lemma TakingBackKeepsToken(s: Ledger, operation: nat, write: nat, delta: PerPurpose<Amount>, n: nat)
    requires RecordsOwned(s) && n < |s.records|
    ensures |CompensateWrite(s, operation, write, delta).next.records| == |s.records|
    ensures |CompensateReplacement(s, operation, write).next.records| == |s.records|
    ensures SameToken(s.records[n], CompensateWrite(s, operation, write, delta).next.records[n])
    ensures SameToken(s.records[n], CompensateReplacement(s, operation, write).next.records[n])
  {
    hide CompensationCurrent;
  }

  lemma {:induction false} RunKeepsToken(states: seq<Ledger>, actions: seq<Action>, n: nat, k: nat)
    requires Run(states, actions) && k < |states| && n < |states[0].records|
    ensures n < |states[k].records| && SameToken(states[0].records[n], states[k].records[n])
  {
    hide Act;
    if k > 0 {
      RunKeepsToken(states, actions, n, k - 1);
      ActKeepsToken(states[k - 1], actions[k - 1], n);
    }
  }

  lemma {:induction false} RunKeepsOperations(states: seq<Ledger>, actions: seq<Action>, k: nat)
    requires Run(states, actions) && k < |states|
    ensures |states[0].operations| <= |states[k].operations|
  {
    hide Act;
    if k > 0 {
      RunKeepsOperations(states, actions, k - 1);
      ActKeepsOperations(states[k - 1], actions[k - 1]);
    }
  }

  lemma ActKeepsOperations(s: Ledger, a: Action)
    requires RecordsOwned(s)
    ensures |s.operations| <= |Act(s, a).operations|
  {
    hide CompensateWrite, CompensateReplacement, CompleteWrite, CompleteReplacement, Close, ObserveInventory,
      AdmitReplacement, Reserve, AdmitWrite, CancelBeforeWrite, RetainUncertain, CancelWriteBeforeCreate, BeginOperation,
      SameFiles, SameRecords;
    if Commits(s, a) || TakesBack(s, a) {
      SettlingKeepsOperations(s, a);
    } else {
      ActIsQuiet(s, a);
    }
  }

  lemma SettlingKeepsOperations(s: Ledger, a: Action)
    requires RecordsOwned(s) && (Commits(s, a) || TakesBack(s, a))
    ensures |s.operations| == |Act(s, a).operations|
  {
    hide CompensationCurrent, WriteRefusal, ReplacementRefusal, InventoryDelta, Bytes;
  }

  /** A committed replacement can be taken back exactly while it stands, no write is active and none was completed
      since. */
  lemma StandingExactly(states: seq<Ledger>, actions: seq<Action>, operation: nat, n: nat, w: nat, b: Binding, size: int,
                        initial: Capture, k: nat)
    requires Run(states, actions) && JustCommitted(states[0], operation, n, w, b, size, initial) && k < |states|
    ensures RecordsOwned(states[k]) && operation < |states[k].operations| && n < |states[k].records|
    ensures CompensateReplacement(states[k], operation, w).outcome.Ok? <==>
              && states[k].activeWrite.None? && Commitments(states, actions, k) == 0
              && states[k].records[n].state == Completed && states[k].operations[operation].state == JournalCompleted
  {
    hide Inv, Measured, History, Commitments, Uncommitted, Run, CompensationCurrent;
    var v := states[k];
    CommittedRecord(states[0], operation, n, w, b, size, initial);
    RunKeepsInv(states, actions, initial, k);
    RunKeepsHistory(states, actions, initial, k);
    RunKeepsToken(states, actions, n, k);
    RunKeepsOperations(states, actions, k);
    InvOwnsRecords(v, initial);
    TokenFinds(v, n, w, initial);
    hide JustCommitted;
    if Commitments(states, actions, k) > 0 {
      RunPasses(states, actions, operation, n, w, b, size, initial, k);
      PassedIsRefused(states[0], v, operation, n, w, b, size, initial, v.records[n]);
    } else {
      RunStaysUncommitted(states, actions, operation, n, w, b, size, initial, k);
      HistoryRemembers(v, initial.files);
      if v.activeWrite.None? && v.records[n].state == Completed && v.operations[operation].state == JournalCompleted {
        StandingIsCompensable(states[0], v, operation, n, w, b, size, initial);
      }
      CurrentStands(v, operation, v.records[n], b);
    }
  }

  lemma CurrentStands(v: Ledger, operation: nat, r: Record, b: Binding)
    requires v.inventory.Some? && operation < |v.operations|
    ensures CompensationCurrent(v, operation, r, b) ==>
              v.activeWrite.None? && v.operations[operation].state == JournalCompleted
  {
  }

  lemma CommittedRecord(u: Ledger, operation: nat, n: nat, w: nat, b: Binding, size: int, initial: Capture)
    requires JustCommitted(u, operation, n, w, b, size, initial)
    ensures n < |u.records| && operation < |u.operations| && Inv(u, initial) && Measured(initial) && History(u, initial.files)
    ensures u.records[n] == Record(operation, REPLACEMENT_ESTIMATE, Completed, Some(w), Some(b), None)
  {
    hide Inv, History, CompensationCurrent, OnlyJournal, Measured, AllPrecede;
  }

  /** For every run that starts at the commit of a replacement, in any reachable ledger: the commit can be taken back
      if and only if no write is active, none was completed since, and the record and its operation stand as committed. */
  lemma CompensableExactly(
    s: Ledger, initial: Inventory, operation: nat, b: Binding, admitted: JournalView, after: Inventory, free: int,
    completed: JournalView, c: Completion, states: seq<Ledger>, actions: seq<Action>, k: nat)
    requires Reached(s, initial) && RecordsOwned(s) && Run(states, actions) && k < |states|
    requires Committed(s, operation, b, admitted, after, free, completed, c, states[0])
    ensures RecordsOwned(states[k]) && operation < |states[k].operations| && |s.records| < |states[k].records|
    ensures CompensateReplacement(states[k], operation, s.nextWrite).outcome.Ok? <==>
              && states[k].activeWrite.None? && Commitments(states, actions, k) == 0
              && states[k].records[|s.records|].state == Completed
              && states[k].operations[operation].state == JournalCompleted
  {
    hide Inv, Measured, History, Reached, Committed, Run, CompensateReplacement, JustCommitted, Commitments;
    ReachedHolds(s, initial);
    ReachedRemembers(s, initial);
    var size := CommittedMeans(s, operation, b, admitted, after, free, completed, c, states[0], Captured(initial));
    StandingExactly(states, actions, operation, |s.records|, s.nextWrite, b, size, Captured(initial), k);
  }

  // ----- under the lease -----

  /** The operation an action names, if it names one. */
  function Named(a: Action): Option<nat> {
    match a
    case Begin(_) => None
    case Request(op, _) => Some(op)
    case Cancel(op, _) => Some(op)
    case Admit(op, _) => Some(op)
    case Complete(op, _, _, _) => Some(op)
    case AbandonUncertain(op, _) => Some(op)
    case CancelWrite(op, _) => Some(op)
    case CompensateAdditive(op, _, _) => Some(op)
    case AdmitJournal(op, _, _) => Some(op)
    case CompleteJournal(op, _, _, _, _, _) => Some(op)
    case CompensateJournal(op, _) => Some(op)
    case Observe(_, _) => None
    case CloseLedger => None
  }

  /** The operation is between writes, as record `n` committed it. */
  predicate Stands(s: Ledger, operation: nat, n: nat) {
    && operation < |s.operations| && s.operations[operation].state == JournalCompleted
    && n < |s.records| && s.records[n].operation == operation && s.records[n].state == Completed
  }

  lemma RetainLeavesStanding(s: Ledger, i: nat, operation: nat, n: nat)
    requires Stands(s, operation, n) && RecordsOwned(s) && i < |s.records|
    requires s.records[i].Held() ==> s.records[i].operation != operation
    ensures Stands(Retain(s, i), operation, n) && RecordsOwned(Retain(s, i))
    ensures |Retain(s, i).records| == |s.records|
    ensures forall j :: 0 <= j < |s.records| && Retain(s, i).records[j].Held() ==> Retain(s, i).records[j] == s.records[j]
  {
  }

  lemma {:induction false} RetainFromLeavesStanding(s: Ledger, i: nat, operation: nat, n: nat)
    requires Stands(s, operation, n) && RecordsOwned(s) && i <= |s.records|
    requires forall j :: 0 <= j < |s.records| && s.records[j].Held() ==> s.records[j].operation != operation
    ensures Stands(RetainFrom(s, i), operation, n)
    decreases |s.records| - i
  {
    hide Retain, Stands;
    if i < |s.records| {
      RetainLeavesStanding(s, i, operation, n);
      RetainFromLeavesStanding(Retain(s, i), i + 1, operation, n);
    }
  }

  /** An operation between writes holds no reservation. */
  lemma StandingHoldsNothing(s: Ledger, operation: nat, n: nat, initial: Capture)
    requires Inv(s, initial) && Stands(s, operation, n)
    ensures forall j :: 0 <= j < |s.records| && s.records[j].Held() ==> s.records[j].operation != operation
  {
    hide Clean, Tokens, Conserved, Positive, Phase;
  }

  lemma AllRetainedLeavesStanding(s: Ledger, inventory: Inventory, free: Option<int>, operation: nat, n: nat, initial: Capture)
    requires Inv(s, initial) && Stands(s, operation, n) && RecordsOwned(s)
    ensures Stands(Close(s), operation, n) && Stands(ObserveInventory(s, inventory, free).next, operation, n)
  {
    hide Inv, RetainFrom;
    StandingHoldsNothing(s, operation, n, initial);
    RetainFromLeavesStanding(s, 0, operation, n);
  }

  lemma ReservationLeavesStanding(s: Ledger, other: nat, estimates: map<Purpose, Amount>, reservation: nat,
                                  operation: nat, n: nat)
    requires Stands(s, operation, n) && RecordsOwned(s) && other != operation
    ensures Stands(Reserve(s, other, estimates).next, operation, n)
    ensures Stands(CancelBeforeWrite(s, other, reservation).next, operation, n)
    ensures Stands(AdmitWrite(s, other, reservation).next, operation, n)
  {
    hide Normalize, UnfitFrom, FreeSpaceCovers;
  }

  lemma SettlementLeavesStanding(s: Ledger, other: nat, write: nat, delta: PerPurpose<Amount>, operation: nat, n: nat)
    requires Stands(s, operation, n) && RecordsOwned(s) && other != operation
    ensures Stands(RetainUncertain(s, other, write).next, operation, n)
    ensures Stands(CancelWriteBeforeCreate(s, other, write).next, operation, n)
    ensures Stands(CompensateWrite(s, other, write, delta).next, operation, n)
    ensures Stands(CompensateReplacement(s, other, write).next, operation, n)
  {
    hide CompensationCurrent;
  }

  lemma CompletionLeavesStanding(s: Ledger, other: nat, write: nat, after: Inventory, free: Option<int>, operation: nat, n: nat)
    requires Stands(s, operation, n) && RecordsOwned(s) && other != operation
    ensures Stands(CompleteWrite(s, other, write, after, free).next, operation, n)
  {
    hide WriteRefusal, InventoryDelta;
  }

  lemma ReplacementLeavesStanding(s: Ledger, other: nat, write: nat, after: Inventory, free: int, view: JournalView,
                                  c: Completion, operation: nat, n: nat)
    requires Stands(s, operation, n) && RecordsOwned(s) && other != operation
    ensures Stands(CompleteReplacement(s, other, write, after, free, view, c).next, operation, n)
  {
    hide CompletionCurrent, NewRowAcceptable, IdentityUnique, AcknowledgesNext, Bytes;
  }

  lemma AdmissionLeavesStanding(s: Ledger, other: nat, b: Binding, view: JournalView, operation: nat, n: nat)
    requires Stands(s, operation, n) && RecordsOwned(s) && other != operation
    ensures Stands(AdmitReplacement(s, other, b, view).next, operation, n)
  {
    hide TipMatches, ReplacementFits, FreeSpaceCovers, IsDigest;
  }

  lemma BeginLeavesStanding(s: Ledger, id: string, operation: nat, n: nat)
    requires Stands(s, operation, n)
    ensures Stands(BeginOperation(s, id).next, operation, n)
  {
  }

  lemma ActLeavesStanding(s: Ledger, a: Action, operation: nat, n: nat, initial: Capture)
    requires Inv(s, initial) && RecordsOwned(s) && Stands(s, operation, n) && Named(a) != Some(operation)
    ensures Stands(Act(s, a), operation, n)
  {
    hide Inv, CompleteWrite, CompleteReplacement, CompensateWrite, CompensateReplacement, Close, ObserveInventory, Stands,
      AdmitReplacement, Reserve, AdmitWrite, CancelBeforeWrite, RetainUncertain, CancelWriteBeforeCreate, BeginOperation;
    match a
    case Begin(id) => BeginLeavesStanding(s, id, operation, n);
    case Request(op, estimates) => ReservationLeavesStanding(s, op, estimates, 0, operation, n);
    case Cancel(op, reservation) => ReservationLeavesStanding(s, op, map[], reservation, operation, n);
    case Admit(op, reservation) => ReservationLeavesStanding(s, op, map[], reservation, operation, n);
    case AbandonUncertain(op, write) => SettlementLeavesStanding(s, op, write, NOTHING, operation, n);
    case CancelWrite(op, write) => SettlementLeavesStanding(s, op, write, NOTHING, operation, n);
    case Complete(op, write, after, free) => CompletionLeavesStanding(s, op, write, after, free, operation, n);
    case CompleteJournal(op, write, after, free, view, c) =>
      ReplacementLeavesStanding(s, op, write, after, free, view, c, operation, n);
    case CompensateAdditive(op, write, delta) => SettlementLeavesStanding(s, op, write, delta, operation, n);
    case CompensateJournal(op, write) => SettlementLeavesStanding(s, op, write, NOTHING, operation, n);
    case Observe(inventory, free) => AllRetainedLeavesStanding(s, inventory, free, operation, n, initial);
    case CloseLedger =>
      AllRetainedLeavesStanding(s, PerPurpose(map[], map[], map[], map[]), None, operation, n, initial);
    case AdmitJournal(op, b, view) => AdmissionLeavesStanding(s, op, b, view, operation, n);
  }

  lemma {:induction false} RunLeavesStanding(states: seq<Ledger>, actions: seq<Action>, operation: nat, n: nat,
                                             initial: Capture, k: nat)
    requires Run(states, actions) && Inv(states[0], initial) && Measured(initial) && Stands(states[0], operation, n)
    requires k < |states| && forall i :: 0 <= i < k ==> Named(actions[i]) != Some(operation)
    ensures Stands(states[k], operation, n)
  {
    hide Act, Inv, Measured, Stands;
    if k > 0 {
      RunLeavesStanding(states, actions, operation, n, initial, k - 1);
      RunKeepsInv(states, actions, initial, k - 1);
      ActLeavesStanding(states[k - 1], actions[k - 1], operation, n, initial);
    }
  }

  /** While the journal's lease keeps every other caller off its operation, a commit can be taken back if and only if no
      write is active and none was completed since. */
  lemma CompensableUnderLeaseExactly(
    s: Ledger, initial: Inventory, operation: nat, b: Binding, admitted: JournalView, after: Inventory, free: int,
    completed: JournalView, c: Completion, states: seq<Ledger>, actions: seq<Action>, k: nat)
    requires Reached(s, initial) && RecordsOwned(s) && Run(states, actions) && k < |states|
    requires Committed(s, operation, b, admitted, after, free, completed, c, states[0])
    requires forall i :: 0 <= i < k ==> Named(actions[i]) != Some(operation)
    ensures RecordsOwned(states[k])
    ensures CompensateReplacement(states[k], operation, s.nextWrite).outcome.Ok? <==>
              states[k].activeWrite.None? && Commitments(states, actions, k) == 0
  {
    hide Inv, Measured, History, Reached, Committed, Run, CompensateReplacement, JustCommitted, Commitments;
    ReachedHolds(s, initial);
    ReachedRemembers(s, initial);
    var size := CommittedMeans(s, operation, b, admitted, after, free, completed, c, states[0], Captured(initial));
    StandingExactly(states, actions, operation, |s.records|, s.nextWrite, b, size, Captured(initial), k);
    CommitStands(states[0], operation, |s.records|, s.nextWrite, b, size, Captured(initial));
    RunLeavesStanding(states, actions, operation, |s.records|, Captured(initial), k);
  }

  lemma CommitStands(u: Ledger, operation: nat, n: nat, w: nat, b: Binding, size: int, initial: Capture)
    requires JustCommitted(u, operation, n, w, b, size, initial)
    ensures Stands(u, operation, n) && Inv(u, initial) && Measured(initial)
  {
    hide Inv, History, OnlyJournal, Measured, AllPrecede;
  }
}
