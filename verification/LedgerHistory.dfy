/** What the ledger's records say about the commits behind it: each committed journal revision is newer than the one
    before, and the completed additive writes account for every new journal-directory file that no replacement made. */
module LedgerHistory {
  import opened CapacityTypes
  import opened LedgerSpec
  import opened LedgerInvariant
  import opened LedgerWrites
  import opened LedgerRuns

  /** What a completed additive write is observed to have added. */
  function Delta(r: Record): PerPurpose<Amount> {
    if r.state == Completed && r.delta.Some? then r.delta.value else NOTHING
  }

  function Deltas(records: seq<Record>): seq<PerPurpose<Amount>> {
    seq(|records|, i requires 0 <= i < |records| => Delta(records[i]))
  }

  function Additive(records: seq<Record>): PerPurpose<Amount> { SumTo(Deltas(records), |Deltas(records)|) }

  /** A binding's previous revision is the last one committed for its file. */
  predicate Continues(b: Binding, files: map<string, JournalFile>) {
    if b.previousRevision == 0 then b.filename !in files
    else b.filename in files && files[b.filename].revision == b.previousRevision
  }

  predicate RecordRemembered(r: Record, files: map<string, JournalFile>) {
    && (r.delta.Some? ==> r.replacement.None? && AllNatural(r.delta.value))
    && (r.replacement.Some? ==>
          var b := r.replacement.value;
          && 0 <= b.previousRevision
          && (r.state == Writing ==> Continues(b, files))
          && (r.state == Completed ==> b.filename in files && b.previousRevision < files[b.filename].revision))
  }

  ghost predicate Remembered(records: seq<Record>, files: map<string, JournalFile>) {
    forall i {:trigger records[i]} :: 0 <= i < |records| ==> RecordRemembered(records[i], files)
  }

  /** Completed additive writes made exactly the new journal-directory files that are not committed journals. */
  ghost predicate JournalDeltas(records: seq<Record>, now: Directory, initial: Directory, files: map<string, JournalFile>) {
    Additive(records).journal == FileAmount(now - initial.Keys - files.Keys)
  }

  ghost predicate History(s: Ledger, initial: Inventory) {
    && s.inventory.Some? && Remembered(s.records, s.journalFiles)
    && (!s.invalid ==> JournalDeltas(s.records, s.inventory.value.journal, initial.journal, s.journalFiles))
  }

  lemma OpeningRemembers(s: Ledger, initial: Inventory)
    requires s.records == [] && s.journalFiles == map[] && s.inventory == Some(initial)
    ensures History(s, initial)
  {
    assert initial.journal - initial.journal.Keys - s.journalFiles.Keys == map[];
  }

  // ----- steps that neither commit nor take back -----

  /** What no record's step changes besides its state. */
  predicate SameRecord(before: Record, after: Record) {
    && after.replacement == before.replacement && after.delta == before.delta && after.operation == before.operation
    && after.estimates == before.estimates
    && (after.state == Completed <==> before.state == Completed)
    && (after.state == Reserved ==> before.state == Reserved)
    && (after.state == Writing ==> before.state == Writing || before.state == Reserved)
    && (before.state != Reserved ==> after.write == before.write)
  }

  predicate NewRecord(r: Record, files: map<string, JournalFile>) {
    && r.Held() && r.delta.None?
    && (r.replacement.Some? ==> 0 <= r.replacement.value.previousRevision && Continues(r.replacement.value, files))
  }

  ghost predicate SameRecords(before: seq<Record>, after: seq<Record>, files: map<string, JournalFile>) {
    && |before| <= |after|
    && (forall i {:trigger after[i]} :: 0 <= i < |before| ==> SameRecord(before[i], after[i]))
    && (forall i {:trigger after[i]} :: |before| <= i < |after| ==> NewRecord(after[i], files))
  }

  predicate SameFiles(s: Ledger, t: Ledger) {
    && t.inventory == s.inventory && t.journalFiles == s.journalFiles && t.journalWriters == s.journalWriters
    && (s.invalid ==> t.invalid)
  }

  predicate SameOperations(s: Ledger, t: Ledger) {
    && |s.operations| <= |t.operations|
    && forall i :: 0 <= i < |s.operations| ==> t.operations[i].id == s.operations[i].id
  }

  ghost predicate Quiet(s: Ledger, t: Ledger) {
    && SameFiles(s, t) && SameOperations(s, t) && t.observed == s.observed && t.owner == s.owner
    && SameRecords(s.records, t.records, s.journalFiles)
  }

  lemma NothingIsQuiet(s: Ledger)
    ensures Quiet(s, s)
  {
  }

  lemma ChangeIsQuiet(s: Ledger, t: Ledger, i: nat, r: Record)
    requires i < |s.records| && SameRecord(s.records[i], r) && t.records == s.records[i := r]
    requires SameFiles(s, t) && SameOperations(s, t) && t.observed == s.observed && t.owner == s.owner
    ensures Quiet(s, t)
  {
    hide SameFiles, SameOperations;
    forall j | 0 <= j < |s.records|
      ensures SameRecord(s.records[j], t.records[j])
    {
    }
  }

  lemma AppendIsQuiet(s: Ledger, t: Ledger, r: Record)
    requires NewRecord(r, s.journalFiles) && t.records == s.records + [r]
    requires SameFiles(s, t) && SameOperations(s, t) && t.observed == s.observed && t.owner == s.owner
    ensures Quiet(s, t)
  {
    hide SameFiles, SameOperations, NewRecord;
    forall j | 0 <= j < |s.records|
      ensures SameRecord(s.records[j], t.records[j])
    {
    }
  }

  lemma RetainIsQuiet(s: Ledger, i: nat)
    requires RecordsOwned(s) && i < |s.records|
    ensures Quiet(s, Retain(s, i)) && RecordsOwned(Retain(s, i))
  {
    hide Quiet;
    NothingIsQuiet(s);
    if s.records[i].Held() {
      ChangeIsQuiet(s, Retain(s, i), i, s.records[i].(state := RetainedAsUncertain));
    }
  }

  lemma QuietTwice(s: Ledger, t: Ledger, u: Ledger)
    requires Quiet(s, t) && Quiet(t, u) && |t.records| == |s.records|
    ensures Quiet(s, u)
  {
    hide NewRecord;
    forall j | 0 <= j < |s.records|
      ensures SameRecord(s.records[j], u.records[j])
    {
      assert SameRecord(s.records[j], t.records[j]);
      assert SameRecord(t.records[j], u.records[j]);
    }
  }

  lemma {:induction false} RetainFromIsQuiet(s: Ledger, i: nat)
    requires RecordsOwned(s) && i <= |s.records|
    ensures Quiet(s, RetainFrom(s, i))
    decreases |s.records| - i
  {
    hide Quiet, Retain;
    NothingIsQuiet(s);
    if i < |s.records| {
      RetainIsQuiet(s, i);
      RetainKeepsCount(s, i);
      RetainFromIsQuiet(Retain(s, i), i + 1);
      QuietTwice(s, Retain(s, i), RetainFrom(Retain(s, i), i + 1));
    }
  }

  lemma RetainKeepsCount(s: Ledger, i: nat)
    requires RecordsOwned(s) && i < |s.records|
    ensures |Retain(s, i).records| == |s.records|
  {
  }

  lemma InvalidIsQuiet(s: Ledger, t: Ledger)
    requires Quiet(s, t)
    ensures Quiet(s, t.(invalid := true)) && Quiet(s, t.(closed := true))
  {
    hide SameRecords;
  }

  lemma FailActiveIsQuiet(s: Ledger, i: nat)
    requires RecordsOwned(s) && i < |s.records|
    ensures Quiet(s, Retain(s, i).(invalid := true))
  {
    hide Quiet, Retain;
    RetainIsQuiet(s, i);
    InvalidIsQuiet(s, Retain(s, i));
  }

  // ----- which steps those are -----

  /** The action completes a write. */
  ghost predicate Commits(s: Ledger, a: Action)
    requires RecordsOwned(s)
  {
    match a
    case Complete(op, write, after, free) => CompleteWrite(s, op, write, after, free).outcome.Ok?
    case CompleteJournal(op, write, after, free, view, c) =>
      CompleteReplacement(s, op, write, after, free, view, c).outcome.Ok?
    case _ => false
  }

  /** The action takes a completed write back into uncertainty. */
  ghost predicate TakesBack(s: Ledger, a: Action)
    requires RecordsOwned(s)
  {
    match a
    case CompensateAdditive(op, write, delta) => CompensateWrite(s, op, write, delta).outcome.Ok?
    case CompensateJournal(op, write) => CompensateReplacement(s, op, write).outcome.Ok?
    case _ => false
  }

  lemma BeginIsQuiet(s: Ledger, id: string)
    ensures Quiet(s, BeginOperation(s, id).next)
  {
  }

  lemma ReserveIsQuiet(s: Ledger, operation: nat, estimates: map<Purpose, Amount>)
    ensures Quiet(s, Reserve(s, operation, estimates).next)
  {
    hide Normalize, UnfitFrom, FreeSpaceCovers, Quiet;
    NothingIsQuiet(s);
    var step := Reserve(s, operation, estimates);
    if step.outcome.Ok? {
      AppendIsQuiet(s, step.next, Record(operation, Normalize(estimates).value, Reserved, None, None, None));
    }
  }

  lemma ReservationIsQuiet(s: Ledger, operation: nat, reservation: nat)
    requires RecordsOwned(s)
    ensures Quiet(s, CancelBeforeWrite(s, operation, reservation).next)
    ensures Quiet(s, AdmitWrite(s, operation, reservation).next)
  {
    hide Quiet;
    NothingIsQuiet(s);
    if HoldsReservation(s, operation, reservation) {
      var r := s.records[reservation];
      ChangeIsQuiet(s, CancelBeforeWrite(s, operation, reservation).next, reservation, r.(state := Cancelled));
      if AdmitWrite(s, operation, reservation).outcome.Ok? {
        ChangeIsQuiet(s, AdmitWrite(s, operation, reservation).next, reservation,
                      r.(state := Writing, write := Some(s.nextWrite)));
      }
    }
  }

  lemma AbandonIsQuiet(s: Ledger, operation: nat, write: nat)
    requires RecordsOwned(s)
    ensures Quiet(s, RetainUncertain(s, operation, write).next)
    ensures Quiet(s, CancelWriteBeforeCreate(s, operation, write).next)
  {
    hide Quiet, Retain;
    NothingIsQuiet(s);
    var found := ActiveRecord(s, operation, write);
    if found.Some? {
      FailActiveIsQuiet(s, found.value);
      if CancelWriteBeforeCreate(s, operation, write).outcome.Ok? {
        ChangeIsQuiet(s, CancelWriteBeforeCreate(s, operation, write).next, found.value,
                      s.records[found.value].(state := Cancelled));
      }
    }
  }

  lemma RefusedCompletionIsQuiet(s: Ledger, operation: nat, write: nat, after: Inventory, free: Option<int>)
    requires RecordsOwned(s) && CompleteWrite(s, operation, write, after, free).outcome.Failed?
    ensures Quiet(s, CompleteWrite(s, operation, write, after, free).next)
  {
    hide Quiet, Retain, WriteRefusal, InventoryDelta;
    NothingIsQuiet(s);
    var found := ActiveRecord(s, operation, write);
    if found.Some? {
      FailActiveIsQuiet(s, found.value);
    }
  }

  lemma RefusedReplacementIsQuiet(s: Ledger, operation: nat, write: nat, after: Inventory, free: int,
                                  view: JournalView, c: Completion)
    requires RecordsOwned(s) && CompleteReplacement(s, operation, write, after, free, view, c).outcome.Failed?
    ensures Quiet(s, CompleteReplacement(s, operation, write, after, free, view, c).next)
  {
    hide Quiet, Retain, CompletionCurrent, NewRowAcceptable, IdentityUnique, AcknowledgesNext, Bytes;
    NothingIsQuiet(s);
    var found := ActiveRecord(s, operation, write);
    if found.Some? {
      FailActiveIsQuiet(s, found.value);
    }
  }

  lemma AdmissionIsQuiet(s: Ledger, operation: nat, b: Binding, view: JournalView)
    ensures Quiet(s, AdmitReplacement(s, operation, b, view).next)
  {
    hide Quiet, ReplacementFits, FreeSpaceCovers;
    NothingIsQuiet(s);
    var step := AdmitReplacement(s, operation, b, view);
    if step.outcome.Ok? {
      AppendIsQuiet(s, step.next, Record(operation, REPLACEMENT_ESTIMATE, Writing, Some(s.nextWrite), Some(b), None));
    }
  }

  lemma RetainingAllIsQuiet(s: Ledger, inventory: Inventory, free: Option<int>)
    requires RecordsOwned(s)
    ensures Quiet(s, Close(s)) && Quiet(s, ObserveInventory(s, inventory, free).next)
  {
    hide Quiet, RetainFrom;
    NothingIsQuiet(s);
    RetainFromIsQuiet(s, 0);
    InvalidIsQuiet(s, RetainFrom(s, 0));
    if ObserveInventory(s, inventory, free).outcome.Ok? {
      FreeBytesAreQuiet(s, if free.Some? then free.value else s.freeBytes);
    }
  }

  lemma FreeBytesAreQuiet(s: Ledger, free: int)
    ensures Quiet(s, s.(freeBytes := free))
  {
  }

  lemma ActIsQuiet(s: Ledger, a: Action)
    requires RecordsOwned(s) && !Commits(s, a) && !TakesBack(s, a)
    ensures Quiet(s, Act(s, a))
  {
    hide Quiet, CompleteWrite, CompleteReplacement, CompensateWrite, CompensateReplacement, Close, ObserveInventory,
      AdmitReplacement, Reserve, AdmitWrite, CancelBeforeWrite, RetainUncertain, CancelWriteBeforeCreate, BeginOperation;
    match a
    case Begin(id) => BeginIsQuiet(s, id);
    case Request(op, estimates) => ReserveIsQuiet(s, op, estimates);
    case Cancel(op, reservation) => ReservationIsQuiet(s, op, reservation);
    case Admit(op, reservation) => ReservationIsQuiet(s, op, reservation);
    case AbandonUncertain(op, write) => AbandonIsQuiet(s, op, write);
    case CancelWrite(op, write) => AbandonIsQuiet(s, op, write);
    case Complete(op, write, after, free) => RefusedCompletionIsQuiet(s, op, write, after, free);
    case CompleteJournal(op, write, after, free, view, c) => RefusedReplacementIsQuiet(s, op, write, after, free, view, c);
    case CompensateAdditive(op, write, delta) => RefusedCompensationIsQuiet(s, op, write, delta);
    case CompensateJournal(op, write) => RefusedCompensationIsQuiet(s, op, write, NOTHING);
    case Observe(inventory, free) => RetainingAllIsQuiet(s, inventory, free);
    case CloseLedger => RetainingAllIsQuiet(s, PerPurpose(map[], map[], map[], map[]), None);
    case AdmitJournal(op, binding, view) => AdmissionIsQuiet(s, op, binding, view);
  }

  lemma RefusedCompensationIsQuiet(s: Ledger, operation: nat, write: nat, delta: PerPurpose<Amount>)
    requires RecordsOwned(s)
    ensures CompensateWrite(s, operation, write, delta).outcome.Failed? ==>
              Quiet(s, CompensateWrite(s, operation, write, delta).next)
    ensures CompensateReplacement(s, operation, write).outcome.Failed? ==>
              Quiet(s, CompensateReplacement(s, operation, write).next)
  {
    hide Quiet, CompensationCurrent;
    NothingIsQuiet(s);
  }

  // ----- the history is kept -----

  lemma {:induction false} SameDeltas(before: seq<Record>, after: seq<Record>, files: map<string, JournalFile>, n: nat)
    requires SameRecords(before, after, files) && n <= |after|
    ensures SumTo(Deltas(after), n) == SumTo(Deltas(before), if n < |before| then n else |before|)
  {
    hide NewRecord;
    if n > 0 {
      SameDeltas(before, after, files, n - 1);
      if n <= |before| {
        assert SameRecord(before[n - 1], after[n - 1]);
      } else {
        NewHasNoDelta(after[n - 1], files);
      }
    }
  }

  lemma NewHasNoDelta(r: Record, files: map<string, JournalFile>)
    requires NewRecord(r, files)
    ensures Delta(r) == NOTHING && RecordRemembered(r, files)
  {
  }

  lemma SameRecordRemembered(before: Record, after: Record, files: map<string, JournalFile>)
    requires RecordRemembered(before, files) && SameRecord(before, after)
    requires before.state == Reserved ==> before.replacement.None?
    ensures RecordRemembered(after, files)
  {
  }

  ghost predicate ReservedIsPlain(records: seq<Record>) {
    forall i {:trigger records[i]} :: 0 <= i < |records| && records[i].state == Reserved ==> records[i].replacement.None?
  }

  lemma QuietKeepsHistory(s: Ledger, t: Ledger, initial: Inventory)
    requires History(s, initial) && Quiet(s, t) && ReservedIsPlain(s.records)
    ensures History(t, initial)
  {
    hide FileAmount, RecordRemembered, SameRecord, NewRecord, Additive;
    forall i | 0 <= i < |t.records|
      ensures RecordRemembered(t.records[i], t.journalFiles)
    {
      if i < |s.records| {
        SameRecordRemembered(s.records[i], t.records[i], s.journalFiles);
      } else {
        NewHasNoDelta(t.records[i], s.journalFiles);
      }
    }
    SameAdditive(s.records, t.records, s.journalFiles);
  }

  lemma SameAdditive(before: seq<Record>, after: seq<Record>, files: map<string, JournalFile>)
    requires SameRecords(before, after, files)
    ensures Additive(after) == Additive(before)
  {
    SameDeltas(before, after, files, |after|);
  }

  lemma AdditiveChanges(records: seq<Record>, i: nat, r: Record)
    requires i < |records|
    ensures Additive(records[i := r]) == Added(Removed(Additive(records), Delta(records[i])), Delta(r))
  {
    var shares := Deltas(records);
    assert Deltas(records[i := r]) == shares[i := Delta(r)];
    SumToUpdate(shares, i, Delta(r), |shares|);
  }

  lemma ChangeRemembered(records: seq<Record>, i: nat, r: Record, files: map<string, JournalFile>)
    requires Remembered(records, files) && i < |records| && RecordRemembered(r, files)
    ensures Remembered(records[i := r], files)
  {
    hide RecordRemembered;
  }

  /** What an additive commit makes of the new files that are not journals. */
  lemma AdditionsBesideJournals(now: Directory, after: Directory, initial: Directory, journals: set<string>)
    requires Contains(now, initial) && Contains(after, now)
    requires forall name :: name in journals ==> name in now
    ensures FileAmount(after - initial.Keys - journals)
            == FileAmount(now - initial.Keys - journals).Plus(FileAmount(after - now.Keys))
  {
    hide FileAmount;
    var whole, part := after - initial.Keys - journals, now - initial.Keys - journals;
    assert whole - part.Keys == after - now.Keys;
    FileAmountSplit(whole, part);
  }

  lemma DeltaIsNatural(limits: Limits, before: Inventory, after: Inventory)
    requires InventoryDelta(limits, before, after).Some?
    ensures AllNatural(InventoryDelta(limits, before, after).value)
  {
    BytesNatural(after.journal - before.journal.Keys);
    BytesNatural(after.temporary - before.temporary.Keys);
    BytesNatural(after.retained - before.retained.Keys);
    BytesNatural(after.promoted - before.promoted.Keys);
  }

  lemma CommitWriteKeepsHistory(s: Ledger, operation: nat, write: nat, after: Inventory, free: Option<int>, initial: Capture)
    requires Inv(s, initial) && RecordsOwned(s) && History(s, initial.files)
    requires CompleteWrite(s, operation, write, after, free).outcome.Ok?
    ensures History(CompleteWrite(s, operation, write, after, free).next, initial.files)
  {
    hide Tokens, Tracked, Conserved, Positive, Phase, BoundToInventory, Bounded, FileAmount, Additive, Delta;
    var t := CompleteWrite(s, operation, write, after, free).next;
    var i := ActiveRecord(s, operation, write).value;
    var delta := InventoryDelta(s.limits, s.inventory.value, after).value;
    var r := s.records[i].(state := Completed, delta := Some(delta));
    DeltaIsNatural(s.limits, s.inventory.value, after);
    ChangeRemembered(s.records, i, r, s.journalFiles);
    AdditiveChanges(s.records, i, r);
    CompletedDelta(s.records[i], r, delta);
    AdditionsBesideJournals(s.inventory.value.journal, after.journal, initial.files.journal, s.journalFiles.Keys);
  }

  lemma CompletedDelta(before: Record, after: Record, delta: PerPurpose<Amount>)
    requires before.state == Writing && after == before.(state := Completed, delta := Some(delta))
    ensures Delta(before) == NOTHING && Delta(after) == delta
  {
  }

  lemma JournalsBesideAdditions(now: Directory, after: Directory, initial: Directory, journals: set<string>, name: string)
    requires name in after && after - {name} == now - {name} && name !in initial
    requires name in journals || name !in now
    ensures after - initial.Keys - (journals + {name}) == now - initial.Keys - journals
  {
    forall other
      ensures other in after - initial.Keys - (journals + {name}) <==> other in now - initial.Keys - journals
      ensures other in after && other in now && other != name ==> after[other] == now[other]
    {
      assert other in after - {name} <==> other in now - {name};
      if other in after && other in now && other != name {
        assert (after - {name})[other] == (now - {name})[other];
      }
    }
  }

  /** A commit's revision passes every revision of the same file. */
  lemma CommitRemembered(records: seq<Record>, i: nat, files: map<string, JournalFile>, f: JournalFile)
    requires Remembered(records, files) && i < |records| && records[i].state == Writing && records[i].replacement.Some?
    requires f.revision == records[i].replacement.value.previousRevision + 1
    requires forall j :: 0 <= j < |records| && j != i ==> records[j].state != Writing
    ensures Remembered(records[i := records[i].(state := Completed)],
                       files[records[i].replacement.value.filename := f])
  {
    var after := records[i := records[i].(state := Completed)];
    forall j | 0 <= j < |after|
      ensures RecordRemembered(after[j], files[records[i].replacement.value.filename := f])
    {
      assert RecordRemembered(records[j], files) && RecordRemembered(records[i], files);
    }
  }

  lemma CommitReplacementKeepsHistory(s: Ledger, operation: nat, write: nat, after: Inventory, free: int,
                                      view: JournalView, c: Completion, initial: Capture)
    requires Inv(s, initial) && RecordsOwned(s) && History(s, initial.files)
    requires CompleteReplacement(s, operation, write, after, free, view, c).outcome.Ok?
    ensures History(CompleteReplacement(s, operation, write, after, free, view, c).next, initial.files)
  {
    hide Tokens, Tracked, Conserved, Positive, Phase, Bounded, FileAmount, Additive, Delta, CompletionCurrent,
      NewRowAcceptable, IdentityUnique, AcknowledgesNext, Remembered, Bytes;
    var t := CompleteReplacement(s, operation, write, after, free, view, c).next;
    var i := ActiveRecord(s, operation, write).value;
    var b := s.records[i].replacement.value;
    OnlyWriter(s, i, initial);
    CommitRemembered(s.records, i, s.journalFiles, t.journalFiles[b.filename]);
    AdditiveChanges(s.records, i, s.records[i].(state := Completed));
    ReplacedDelta(s.records, s.journalFiles, i);
    ReplacementInProgress(s, i, initial);
    JournalsBesideAdditions(s.inventory.value.journal, after.journal, initial.files.journal, s.journalFiles.Keys, b.filename);
    assert t.journalFiles.Keys == s.journalFiles.Keys + {b.filename};
  }

  lemma ReplacedDelta(records: seq<Record>, files: map<string, JournalFile>, i: nat)
    requires Remembered(records, files) && i < |records| && records[i].state == Writing && records[i].replacement.Some?
    ensures Delta(records[i]) == NOTHING && Delta(records[i].(state := Completed)) == NOTHING
    ensures Continues(records[i].replacement.value, files)
  {
    assert RecordRemembered(records[i], files);
  }

  lemma TakingBackKeepsHistory(s: Ledger, operation: nat, write: nat, delta: PerPurpose<Amount>, initial: Inventory)
    requires RecordsOwned(s) && History(s, initial)
    ensures CompensateWrite(s, operation, write, delta).outcome.Ok? ==>
              History(CompensateWrite(s, operation, write, delta).next, initial)
    ensures CompensateReplacement(s, operation, write).outcome.Ok? ==>
              History(CompensateReplacement(s, operation, write).next, initial)
  {
    hide FileAmount, Additive, Delta, CompensationCurrent, Remembered;
    if CompensateWrite(s, operation, write, delta).outcome.Ok? {
      var i := FirstFrom(s.records, write, ANY_STATE, 0).value;
      TakenBackRemembered(s.records, i, Uncertain, s.journalFiles);
    }
    if CompensateReplacement(s, operation, write).outcome.Ok? {
      var i := FirstFrom(s.records, write, {Completed}, 0).value;
      TakenBackRemembered(s.records, i, RetainedAsUncertain, s.journalFiles);
    }
  }

  lemma TakenBackRemembered(records: seq<Record>, i: nat, state: RecordState, files: map<string, JournalFile>)
    requires Remembered(records, files) && i < |records| && state != Writing && state != Completed
    ensures Remembered(records[i := records[i].(state := state)], files)
  {
    ChangeRemembered(records, i, records[i].(state := state), files);
  }

  lemma InvReservedIsPlain(s: Ledger, initial: Capture)
    requires Inv(s, initial)
    ensures ReservedIsPlain(s.records)
  {
    hide Clean, Tracked, Conserved, Positive, Phase;
  }

  lemma ActKeepsHistory(s: Ledger, a: Action, initial: Capture)
    requires Inv(s, initial) && RecordsOwned(s) && History(s, initial.files)
    ensures History(Act(s, a), initial.files)
  {
    hide Inv, History, Quiet, CompleteWrite, CompleteReplacement, CompensateWrite, CompensateReplacement, Close,
      ObserveInventory, AdmitReplacement, Reserve, AdmitWrite, CancelBeforeWrite, RetainUncertain,
      CancelWriteBeforeCreate, BeginOperation;
    if Commits(s, a) {
      match a {
        case Complete(op, write, after, free) => CommitWriteKeepsHistory(s, op, write, after, free, initial);
        case CompleteJournal(op, write, after, free, view, c) =>
          CommitReplacementKeepsHistory(s, op, write, after, free, view, c, initial);
        case _ =>
      }
    } else if TakesBack(s, a) {
      match a {
        case CompensateAdditive(op, write, delta) => TakingBackKeepsHistory(s, op, write, delta, initial.files);
        case CompensateJournal(op, write) => TakingBackKeepsHistory(s, op, write, NOTHING, initial.files);
        case _ =>
      }
    } else {
      ActIsQuiet(s, a);
      InvReservedIsPlain(s, initial);
      QuietKeepsHistory(s, Act(s, a), initial.files);
    }
  }

  lemma {:induction false} RunKeepsHistory(states: seq<Ledger>, actions: seq<Action>, initial: Capture, k: nat)
    requires Run(states, actions) && Inv(states[0], initial) && Measured(initial) && History(states[0], initial.files)
    requires k < |states|
    ensures History(states[k], initial.files)
  {
    hide Inv, Measured, History;
    if k > 0 {
      RunKeepsHistory(states, actions, initial, k - 1);
      RunKeepsInv(states, actions, initial, k - 1);
      ActKeepsHistory(states[k - 1], actions[k - 1], initial);
    }
  }
}
