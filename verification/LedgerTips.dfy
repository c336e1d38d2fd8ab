/** What a journal replacement must name: over every run, exactly what the last commit of its file was acknowledged with. */
module LedgerTips {
  import opened CapacityTypes
  import opened LedgerSpec
  import opened LedgerInvariant
  import opened LedgerRuns
  import opened LedgerTheorems
  import opened LedgerHistory
  import opened LedgerAdmission

  // ----- identities and files -----

  predicate IdsDistinct(operations: seq<Operation>) {
    forall i, j :: 0 <= i < j < |operations| ==> operations[i].id != operations[j].id
  }

  /** A replacement is bound to its own operation's file. */
  predicate Bound(r: Record, operations: seq<Operation>) {
    r.replacement.Some? ==>
      var b := r.replacement.value;
      && r.operation < |operations| && b.operationId == operations[r.operation].id
      && b.filename == b.operationId + ".json" && 0 <= b.previousRevision
  }

  predicate FileOwned(name: string, f: JournalFile, operations: seq<Operation>, writers: map<string, JournalWriter>) {
    && f.operation < |operations| && name == operations[f.operation].id + ".json"
    && operations[f.operation].id in writers
    && writers[operations[f.operation].id] == JournalWriter(f.operation, f.writer, f.schema)
  }

  ghost predicate TipInv(s: Ledger) {
    && IdsDistinct(s.operations)
    && (forall i :: 0 <= i < |s.records| ==> Bound(s.records[i], s.operations))
    && (forall name :: name in s.journalFiles ==> FileOwned(name, s.journalFiles[name], s.operations, s.journalWriters))
    && (forall id :: id in s.journalWriters ==> id + ".json" in s.journalFiles)
  }

  lemma SameSuffix(a: string, b: string)
    ensures a + ".json" == b + ".json" ==> a == b
  {
    if a + ".json" == b + ".json" {
      assert a == (a + ".json")[..|a|];
      assert b == (b + ".json")[..|b|];
    }
  }

  /** The action commits a journal replacement. */
  ghost predicate CommitsJournal(s: Ledger, a: Action)
    requires RecordsOwned(s)
  {
    a.CompleteJournal?
    && CompleteReplacement(s, a.operation, a.write, a.after, a.freeBytes, a.view, a.completion).outcome.Ok?
  }

  /** A step that leaves journals, identities and bindings as they are, but for what it adds. */
  ghost predicate KeepsTips(s: Ledger, t: Ledger) {
    && t.journalFiles == s.journalFiles && t.journalWriters == s.journalWriters && SameOperations(s, t)
    && |s.records| <= |t.records|
    && forall i :: 0 <= i < |s.records| ==>
         t.records[i].replacement == s.records[i].replacement && t.records[i].operation == s.records[i].operation
  }

  lemma QuietKeepsTips(s: Ledger, t: Ledger)
    requires Quiet(s, t)
    ensures KeepsTips(s, t)
  {
    hide NewRecord;
    forall i | 0 <= i < |s.records|
      ensures t.records[i].replacement == s.records[i].replacement && t.records[i].operation == s.records[i].operation
    {
      assert SameRecord(s.records[i], t.records[i]);
    }
  }

  lemma CompletionKeepsTips(s: Ledger, operation: nat, write: nat, after: Inventory, free: Option<int>)
    requires RecordsOwned(s) && CompleteWrite(s, operation, write, after, free).outcome.Ok?
    ensures KeepsTips(s, CompleteWrite(s, operation, write, after, free).next)
  {
    hide WriteRefusal, InventoryDelta;
  }

  lemma TakingBackKeepsTips(s: Ledger, operation: nat, write: nat, delta: PerPurpose<Amount>)
    requires RecordsOwned(s) && CompensateWrite(s, operation, write, delta).outcome.Ok?
    ensures KeepsTips(s, CompensateWrite(s, operation, write, delta).next)
  {
    hide WriteCompensable;
  }

  lemma ReopeningKeepsTips(s: Ledger, operation: nat, write: nat)
    requires RecordsOwned(s) && CompensateReplacement(s, operation, write).outcome.Ok?
    ensures KeepsTips(s, CompensateReplacement(s, operation, write).next)
  {
    var i := FirstFrom(s.records, write, {Completed}, 0).value;
    ReopenedKeepsTips(s, i, s.records[i].replacement.value);
  }

  lemma ReopenedKeepsTips(s: Ledger, i: nat, b: Binding)
    requires i < |s.records| && s.records[i].operation < |s.operations|
    requires s.inventory.Some? && b.filename in s.inventory.value.journal
    ensures KeepsTips(s, ReopenReplacement(s, i, b))
  {
  }

  lemma ActKeepsTips(s: Ledger, a: Action)
    requires RecordsOwned(s) && !CommitsJournal(s, a)
    ensures KeepsTips(s, Act(s, a))
  {
    hide KeepsTips, CompleteWrite, CompleteReplacement, CompensateWrite, CompensateReplacement, Close, ObserveInventory,
      AdmitReplacement, Reserve, AdmitWrite, CancelBeforeWrite, RetainUncertain, CancelWriteBeforeCreate, BeginOperation;
    if Commits(s, a) || TakesBack(s, a) {
      match a {
        case Complete(op, write, after, free) => CompletionKeepsTips(s, op, write, after, free);
        case CompensateAdditive(op, write, delta) => TakingBackKeepsTips(s, op, write, delta);
        case CompensateJournal(op, write) => ReopeningKeepsTips(s, op, write);
        case _ =>
      }
    } else {
      ActIsQuiet(s, a);
      QuietKeepsTips(s, Act(s, a));
    }
  }

  // ----- what is added -----

  lemma {:induction false} RetainFromAddsNothing(s: Ledger, i: nat)
    requires RecordsOwned(s) && i <= |s.records|
    ensures |RetainFrom(s, i).operations| == |s.operations| && |RetainFrom(s, i).records| == |s.records|
    decreases |s.records| - i
  {
    if i < |s.records| {
      RetainFromAddsNothing(Retain(s, i), i + 1);
    }
  }

  ghost predicate AddsNothing(s: Ledger, t: Ledger) { |t.operations| == |s.operations| && |t.records| == |s.records| }

  lemma ReservationAddsNothing(s: Ledger, operation: nat, reservation: nat, write: nat)
    requires RecordsOwned(s)
    ensures AddsNothing(s, CancelBeforeWrite(s, operation, reservation).next)
    ensures AddsNothing(s, AdmitWrite(s, operation, reservation).next)
    ensures AddsNothing(s, RetainUncertain(s, operation, write).next)
    ensures AddsNothing(s, CancelWriteBeforeCreate(s, operation, write).next)
  {
  }

  lemma SettlingAddsNothing(s: Ledger, operation: nat, write: nat, after: Inventory, free: Option<int>,
                            delta: PerPurpose<Amount>)
    requires RecordsOwned(s)
    ensures AddsNothing(s, CompleteWrite(s, operation, write, after, free).next)
    ensures AddsNothing(s, CompensateWrite(s, operation, write, delta).next)
    ensures AddsNothing(s, CompensateReplacement(s, operation, write).next)
  {
    hide CompensationCurrent, WriteRefusal, InventoryDelta;
  }

  lemma CommitAddsNothing(s: Ledger, operation: nat, write: nat, after: Inventory, free: int, view: JournalView, c: Completion)
    requires RecordsOwned(s)
    ensures AddsNothing(s, CompleteReplacement(s, operation, write, after, free, view, c).next)
  {
    hide ReplacementRefusal;
  }

  lemma ObservingAddsNothing(s: Ledger, inventory: Inventory, free: Option<int>)
    requires RecordsOwned(s)
    ensures AddsNothing(s, ObserveInventory(s, inventory, free).next) && AddsNothing(s, Close(s))
  {
    RetainFromAddsNothing(s, 0);
  }

  lemma ActAddsNothing(s: Ledger, a: Action)
    requires RecordsOwned(s) && !a.Begin? && !a.Request? && !a.AdmitJournal?
    ensures AddsNothing(s, Act(s, a))
  {
    hide AddsNothing, CompleteWrite, CompleteReplacement, CompensateWrite, CompensateReplacement, Close, ObserveInventory,
      AdmitWrite, CancelBeforeWrite, RetainUncertain, CancelWriteBeforeCreate;
    match a
    case Cancel(op, reservation) => ReservationAddsNothing(s, op, reservation, 0);
    case Admit(op, reservation) => ReservationAddsNothing(s, op, reservation, 0);
    case AbandonUncertain(op, write) => ReservationAddsNothing(s, op, 0, write);
    case CancelWrite(op, write) => ReservationAddsNothing(s, op, 0, write);
    case Complete(op, write, after, free) => SettlingAddsNothing(s, op, write, after, free, NOTHING);
    case CompensateAdditive(op, write, delta) =>
      SettlingAddsNothing(s, op, write, PerPurpose(map[], map[], map[], map[]), None, delta);
    case CompensateJournal(op, write) =>
      SettlingAddsNothing(s, op, write, PerPurpose(map[], map[], map[], map[]), None, NOTHING);
    case CompleteJournal(op, write, after, free, view, c) => CommitAddsNothing(s, op, write, after, free, view, c);
    case Observe(inventory, free) => ObservingAddsNothing(s, inventory, free);
    case CloseLedger => ObservingAddsNothing(s, PerPurpose(map[], map[], map[], map[]), None);
  }

  lemma BeginAdds(s: Ledger, id: string)
    ensures var t := BeginOperation(s, id).next;
            && t.records == s.records
            && (t.operations == s.operations || (t.operations == s.operations + [Operation(id, Open)] && id !in Ids(s.operations)))
  {
  }

  lemma ReserveAdds(s: Ledger, operation: nat, estimates: map<Purpose, Amount>)
    ensures var t := Reserve(s, operation, estimates).next;
            && |t.operations| == |s.operations|
            && (t.records == s.records
                || (|t.records| == |s.records| + 1 && t.records[|s.records|].replacement.None?))
  {
    hide Normalize, UnfitFrom, FreeSpaceCovers;
  }

  lemma AdmissionAdds(s: Ledger, operation: nat, b: Binding, view: JournalView)
    ensures var t := AdmitReplacement(s, operation, b, view).next;
            && |t.operations| == |s.operations|
            && (t.records == s.records
                || (|t.records| == |s.records| + 1 && t.records[|s.records|].replacement == Some(b)
                    && t.records[|s.records|].operation == operation < |s.operations|
                    && s.operations[operation].id == b.operationId && b.filename == b.operationId + ".json"
                    && 0 <= b.previousRevision))
  {
    hide TipMatches, ReplacementFits, FreeSpaceCovers, IsDigest;
  }

  // ----- the invariant -----

  lemma KeptBound(s: Ledger, t: Ledger, i: nat)
    requires TipInv(s) && KeepsTips(s, t) && i < |s.records|
    ensures Bound(t.records[i], t.operations)
  {
    assert Bound(s.records[i], s.operations);
  }

  lemma KeptOwned(s: Ledger, t: Ledger)
    requires TipInv(s) && KeepsTips(s, t)
    ensures forall name :: name in t.journalFiles ==> FileOwned(name, t.journalFiles[name], t.operations, t.journalWriters)
    ensures forall id :: id in t.journalWriters ==> id + ".json" in t.journalFiles
  {
    forall name | name in t.journalFiles
      ensures FileOwned(name, t.journalFiles[name], t.operations, t.journalWriters)
    {
      assert FileOwned(name, s.journalFiles[name], s.operations, s.journalWriters);
    }
  }

  lemma ActKeepsDistinct(s: Ledger, a: Action)
    requires RecordsOwned(s) && IdsDistinct(s.operations) && SameOperations(s, Act(s, a))
    ensures IdsDistinct(Act(s, a).operations)
  {
    hide Act, BeginOperation, Ids;
    if a.Begin? {
      BeginDistinct(s, a.id);
    } else {
      ActAddsNoOperation(s, a);
    }
  }

  lemma BeginDistinct(s: Ledger, id: string)
    requires RecordsOwned(s) && IdsDistinct(s.operations)
    ensures IdsDistinct(Act(s, Begin(id)).operations)
  {
    BeginAdds(s, id);
  }

  lemma ActAddsNoOperation(s: Ledger, a: Action)
    requires RecordsOwned(s) && !a.Begin?
    ensures |Act(s, a).operations| == |s.operations|
  {
    hide Reserve, AdmitReplacement;
    match a
    case Request(op, estimates) => ReserveAdds(s, op, estimates);
    case AdmitJournal(op, b, view) => AdmissionAdds(s, op, b, view);
    case _ => ActAddsNothing(s, a);
  }

  lemma ActKeepsBound(s: Ledger, a: Action)
    requires RecordsOwned(s) && TipInv(s) && KeepsTips(s, Act(s, a))
    ensures forall i :: 0 <= i < |Act(s, a).records| ==> Bound(Act(s, a).records[i], Act(s, a).operations)
  {
    hide BeginOperation, Reserve, AdmitReplacement, CompleteWrite, CompleteReplacement, CompensateWrite,
      CompensateReplacement, Close, ObserveInventory, AdmitWrite, CancelBeforeWrite, RetainUncertain,
      CancelWriteBeforeCreate, TipInv;
    var t := Act(s, a);
    forall i | 0 <= i < |t.records|
      ensures Bound(t.records[i], t.operations)
    {
      if i < |s.records| {
        KeptBound(s, t, i);
      } else {
        match a
        case Begin(id) => BeginAdds(s, id);
        case Request(op, estimates) => ReserveAdds(s, op, estimates);
        case AdmitJournal(op, b, view) => AdmissionAdds(s, op, b, view);
        case _ => ActAddsNothing(s, a);
      }
    }
  }

  /** What a commit leaves: its record's binding is the completion's, and its file is remembered as acknowledged. */
  lemma CommitRemembers(s: Ledger, operation: nat, write: nat, after: Inventory, free: int, view: JournalView, c: Completion)
    requires RecordsOwned(s)
    requires CompleteReplacement(s, operation, write, after, free, view, c).outcome.Ok?
    ensures var t := CompleteReplacement(s, operation, write, after, free, view, c).next;
            && t.journalFiles == s.journalFiles[c.binding.filename := RememberedAs(operation, c)]
            && t.journalWriters
               == s.journalWriters[c.binding.operationId := JournalWriter(operation, c.binding.writer, c.binding.schema)]
            && SameOperations(s, t) && |t.operations| == |s.operations| && |t.records| == |s.records|
            && (forall i :: 0 <= i < |s.records| ==>
                  t.records[i].replacement == s.records[i].replacement && t.records[i].operation == s.records[i].operation)
            && exists i: nat :: BoundRecord(s, i, operation, c.binding)
  {
    hide IdentityUnique, Bytes;
    var i := ActiveRecord(s, operation, write).value;
    assert BoundRecord(s, i, operation, c.binding);
  }

  ghost predicate BoundRecord(s: Ledger, i: nat, operation: nat, b: Binding) {
    i < |s.records| && s.records[i].operation == operation && s.records[i].replacement == Some(b)
  }

  /** The file a completion makes of its operation's journal. */
  function RememberedAs(operation: nat, c: Completion): JournalFile {
    JournalFile(operation, c.binding.writer, c.binding.schema, c.acknowledgement.revision, c.acknowledgement.digest,
                c.fileIdentity, c.nativeRow, c.acknowledgement)
  }

  lemma CommitKeepsTipInv(s: Ledger, a: Action)
    requires RecordsOwned(s) && TipInv(s) && CommitsJournal(s, a)
    ensures TipInv(Act(s, a))
    ensures Act(s, a).journalFiles
            == s.journalFiles[a.completion.binding.filename := RememberedAs(a.operation, a.completion)]
  {
    var b := a.completion.binding;
    CommitRemembers(s, a.operation, a.write, a.after, a.freeBytes, a.view, a.completion);
    hide CompleteReplacement, TipInv;
    CommittedKeepsTipInv(s, Act(s, a), a.operation, a.completion);
  }

  lemma CommittedKeepsTipInv(s: Ledger, t: Ledger, operation: nat, c: Completion)
    requires TipInv(s) && exists i: nat :: BoundRecord(s, i, operation, c.binding)
    requires t.journalFiles == s.journalFiles[c.binding.filename := RememberedAs(operation, c)]
    requires t.journalWriters
             == s.journalWriters[c.binding.operationId := JournalWriter(operation, c.binding.writer, c.binding.schema)]
    requires SameOperations(s, t) && |t.operations| == |s.operations| && |t.records| == |s.records|
    requires forall i :: 0 <= i < |s.records| ==>
               t.records[i].replacement == s.records[i].replacement && t.records[i].operation == s.records[i].operation
    ensures TipInv(t)
  {
    var b := c.binding;
    var i: nat :| BoundRecord(s, i, operation, b);
    assert Bound(s.records[i], s.operations);
    forall name | name in t.journalFiles
      ensures FileOwned(name, t.journalFiles[name], t.operations, t.journalWriters)
    {
      if name != b.filename {
        assert FileOwned(name, s.journalFiles[name], s.operations, s.journalWriters);
        SameSuffix(s.operations[s.journalFiles[name].operation].id, b.operationId);
      }
    }
    forall k | 0 <= k < |t.records|
      ensures Bound(t.records[k], t.operations)
    {
      assert Bound(s.records[k], s.operations);
    }
  }

  lemma ActKeepsTipInv(s: Ledger, a: Action)
    requires RecordsOwned(s) && TipInv(s)
    ensures TipInv(Act(s, a))
  {
    hide Act, IdsDistinct, Bound, FileOwned, CommitsJournal;
    if CommitsJournal(s, a) {
      CommitKeepsTipInv(s, a);
    } else {
      ActKeepsTips(s, a);
      ActKeepsDistinct(s, a);
      ActKeepsBound(s, a);
      KeptOwned(s, Act(s, a));
    }
  }

  lemma {:induction false} RunKeepsTipInv(states: seq<Ledger>, actions: seq<Action>, initial: Inventory, k: nat)
    requires Run(states, actions) && Opened(states[0], initial) && k < |states|
    ensures TipInv(states[k])
  {
    hide Act, TipInv, Opened;
    if k == 0 {
      OpenedHasNoTips(states[0], initial);
    } else {
      RunKeepsTipInv(states, actions, initial, k - 1);
      ActKeepsTipInv(states[k - 1], actions[k - 1]);
    }
  }

  lemma OpenedHasNoTips(s: Ledger, initial: Inventory)
    requires Opened(s, initial)
    ensures TipInv(s) && s.journalFiles == map[] && s.journalWriters == map[]
  {
    hide FileAmount, DirectoryFits;
    var limits, owner, uncertain, free :| OpenedFrom(s, initial, limits, owner, uncertain, free);
    CountInitialMeans(Fresh(limits, owner).(uncertain := uncertain), initial, 0);
  }

  // ----- the last commit of a file, over a run -----

  /** Action `i` of the run commits a replacement of this file. */
  ghost predicate CommittedAt(states: seq<Ledger>, actions: seq<Action>, i: nat, filename: string) {
    && i < |actions| && i < |states| && RecordsOwned(states[i])
    && CommitsJournal(states[i], actions[i]) && actions[i].completion.binding.filename == filename
  }

  /** And it is the last one before step `k`. */
  ghost predicate LastCommittedAt(states: seq<Ledger>, actions: seq<Action>, i: nat, k: nat, filename: string) {
    && i < k && CommittedAt(states, actions, i, filename)
    && forall j: nat :: i < j < k ==> !CommittedAt(states, actions, j, filename)
  }

  /** The binding continues this commit: its operation and writer, its acknowledged revision and digest, the file and row
      it left, and the acknowledgement itself. */
  predicate ContinuesCommit(operation: nat, b: Binding, a: Action)
    requires a.CompleteJournal?
  {
    var c := a.completion;
    && a.operation == operation && b.writer == c.binding.writer && b.schema == c.binding.schema
    && b.previousRevision == c.acknowledgement.revision && b.previousDigest == c.acknowledgement.digest
    && b.previousFileIdentity == Some(c.fileIdentity) && b.previousNativeRow == Some(c.nativeRow)
    && b.previousAcknowledgement == Some(c.acknowledgement)
  }

  /** The binding is of a file that no step has committed and that is not there. */
  ghost predicate StartsFile(states: seq<Ledger>, actions: seq<Action>, k: nat, b: Binding) {
    && b.previousDigest == ZERO_DIGEST && b.previousFileIdentity.None? && b.previousNativeRow.None?
    && b.previousAcknowledgement.None? && b.filename !in b.priorInventory.journal
    && forall i: nat :: i < k ==> !CommittedAt(states, actions, i, b.filename)
  }

  /** The binding names exactly the tip that the run has come to. */
  ghost predicate NamesTip(states: seq<Ledger>, actions: seq<Action>, k: nat, operation: nat, b: Binding) {
    if b.previousRevision == 0 then StartsFile(states, actions, k, b)
    else
      exists i: nat :: LastCommittedAt(states, actions, i, k, b.filename) && ContinuesCommit(operation, b, actions[i])
  }

  /** A file is remembered exactly as its last commit before step `k` left it. */
  ghost predicate Remembers(states: seq<Ledger>, actions: seq<Action>, k: nat, filename: string)
    requires k < |states|
  {
    var files := states[k].journalFiles;
    && (filename in files ==> exists i: nat :: LastCommittedAt(states, actions, i, k, filename))
    && (filename !in files ==> forall i: nat :: i < k ==> !CommittedAt(states, actions, i, filename))
    && forall i: nat :: LastCommittedAt(states, actions, i, k, filename) ==>
         && i < |actions| && actions[i].CompleteJournal? && filename in files
         && files[filename] == RememberedAs(actions[i].operation, actions[i].completion)
  }

  /** Step `k` commits the file, or leaves what is remembered of it. */
  ghost predicate FileStep(states: seq<Ledger>, actions: seq<Action>, k: nat, filename: string)
    requires k + 1 < |states|
  {
    var before, after := states[k].journalFiles, states[k + 1].journalFiles;
    if CommittedAt(states, actions, k, filename) then
      && k < |actions| && actions[k].CompleteJournal? && filename in after
      && after[filename] == RememberedAs(actions[k].operation, actions[k].completion)
    else (filename in after <==> filename in before) && (filename in before ==> after[filename] == before[filename])
  }

  lemma {:induction false} RemembersLastCommit(states: seq<Ledger>, actions: seq<Action>, initial: Inventory, k: nat,
                                               filename: string)
    requires Run(states, actions) && Opened(states[0], initial) && k < |states|
    ensures Remembers(states, actions, k, filename)
  {
    hide Act, TipInv, Opened, FileStep, CommittedAt, RememberedAs;
    if k == 0 {
      OpenedHasNoTips(states[0], initial);
    } else {
      hide Remembers;
      RemembersLastCommit(states, actions, initial, k - 1, filename);
      RunKeepsTipInv(states, actions, initial, k - 1);
      CommittedNow(states, actions, k - 1, filename);
      RemembersStep(states, actions, k, filename);
    }
  }

  lemma RemembersStep(states: seq<Ledger>, actions: seq<Action>, k: nat, filename: string)
    requires 0 < k < |states| && Remembers(states, actions, k - 1, filename) && FileStep(states, actions, k - 1, filename)
    ensures Remembers(states, actions, k, filename)
  {
    LastOrEarlier(states, actions, k, filename);
    hide CommittedAt, LastCommittedAt, RememberedAs;
    if !CommittedAt(states, actions, k - 1, filename) && filename in states[k].journalFiles {
      var i: nat :| LastCommittedAt(states, actions, i, k - 1, filename);
      assert LastCommittedAt(states, actions, i, k, filename);
    }
  }

  lemma CommittedNow(states: seq<Ledger>, actions: seq<Action>, k: nat, filename: string)
    requires Run(states, actions) && k < |actions| && TipInv(states[k])
    ensures FileStep(states, actions, k, filename)
  {
    hide Act, CompleteReplacement, TipInv;
    var a := actions[k];
    assert RecordsOwned(states[k]);
    if CommitsJournal(states[k], a) {
      CommitKeepsTipInv(states[k], a);
    } else {
      ActKeepsTips(states[k], a);
    }
  }

  /** The last commit before a step is the step before, if that commits, and otherwise the last one before that. */
  lemma LastOrEarlier(states: seq<Ledger>, actions: seq<Action>, k: nat, filename: string)
    requires k > 0
    ensures if CommittedAt(states, actions, k - 1, filename)
            then LastCommittedAt(states, actions, k - 1, k, filename)
                 && forall i: nat :: LastCommittedAt(states, actions, i, k, filename) ==> i == k - 1
            else forall i: nat :: LastCommittedAt(states, actions, i, k, filename)
                                  <==> LastCommittedAt(states, actions, i, k - 1, filename)
  {
    hide CommittedAt;
  }

  // ----- when a replacement is admitted -----

  /** The binding is this ledger's, for an operation that may replace its journal, under a lease that stands if there is
      one, on the inventory as it is; and no write is active. */
  predicate Presented(s: Ledger, operation: nat, b: Binding, view: JournalView) {
    && !s.closed && !s.invalid && s.activeWrite.None?
    && b.issued && b.admissionOwner == s.owner && s.inventory == Some(b.priorInventory)
    && operation < |s.operations| && b.operationId == s.operations[operation].id
    && (s.operations[operation].state == Open || s.operations[operation].state == JournalCompleted)
    && b.filename == b.operationId + ".json" && b.previousRevision >= 0
    && |b.previousDigest| == 64
    && (forall i :: 0 <= i < 64 ==> b.previousDigest[i] in "0123456789abcdef")
    && view.rootMatches && (!b.leased || view.leaseCurrent)
  }

  /** One more journal of the full size and its empty lock fit beside what is there, the old journal not counted. */
  ghost predicate JournalRoom(s: Ledger, b: Binding) {
    var files := b.priorInventory.journal;
    var prior := if b.filename in files then files[b.filename].size else 0;
    && prior <= JOURNAL_BYTES && Bytes(files) <= JOURNAL_BYTES
    && Bytes(files) - prior + JOURNAL_BYTES + s.reserved.journal.bytes <= s.limits.journalBytes
    && |files| + 2 + s.reserved.journal.entries <= s.limits.journalEntries
  }

  lemma DigitIsHex(c: char)
    ensures c in "0123456789abcdef" <==> '0' <= c <= '9' || 'a' <= c <= 'f'
  {
    var hex := "0123456789abcdef";
    if '0' <= c <= '9' {
      assert hex[c as int - '0' as int] == c;
    } else if 'a' <= c <= 'f' {
      assert hex[10 + c as int - 'a' as int] == c;
    }
  }

  lemma PresentedExactly(s: Ledger, operation: nat, b: Binding, view: JournalView)
    requires s.inventory.Some?
    ensures Presented(s, operation, b, view)
            <==> s.Live() && BindingCurrent(s, operation, b, view) && s.activeWrite.None? && IsDigest(b.previousDigest)
  {
    forall c: char
      ensures c in "0123456789abcdef" <==> '0' <= c <= '9' || 'a' <= c <= 'f'
    {
      DigitIsHex(c);
    }
  }

  lemma RoomExactly(s: Ledger, b: Binding)
    requires s.inventory == Some(b.priorInventory)
    ensures JournalRoom(s, b) <==> ReplacementFits(s, b)
  {
    hide Bytes;
  }

  /** The remembered file is in the directory, as it was committed. */
  lemma FilePresent(s: Ledger, initial: Capture, filename: string)
    requires Inv(s, initial) && s.Live() && filename in s.journalFiles
    ensures filename in s.inventory.value.journal
    ensures s.inventory.value.journal[filename] == s.journalFiles[filename].nativeRow
  {
    hide Tokens, Tracked, Conserved, Positive, Phase, FilesObserved, BoundToInventory, Bounded;
  }

  lemma TipExactly(states: seq<Ledger>, actions: seq<Action>, initial: Inventory, k: nat, operation: nat, b: Binding,
                   view: JournalView)
    requires Run(states, actions) && Opened(states[0], initial) && k < |states|
    requires Inv(states[k], Captured(initial)) && states[k].Live() && BindingCurrent(states[k], operation, b, view)
    ensures TipMatches(states[k], operation, b) <==> NamesTip(states, actions, k, operation, b)
  {
    var s := states[k];
    RunKeepsTipInv(states, actions, initial, k);
    RemembersLastCommit(states, actions, initial, k, b.filename);
    LastIsCommitted(states, actions, k, b.filename);
    hide Run, Opened, Inv, LastCommittedAt, CommittedAt, TipInv, BindingCurrent, TipMatches, ContinuesCommit, StartsFile;
    if b.filename in s.journalFiles {
      var i: nat :| LastCommittedAt(states, actions, i, k, b.filename);
      LastIsOne(states, actions, i, k, b.filename);
      KnownTip(s, Captured(initial), operation, b, view, actions[i]);
      StartedIsUncommitted(states, actions, i, k, b);
    } else {
      UnknownTip(s, operation, b, view);
      StartsExactly(states, actions, k, b);
    }
  }

  /** A remembered file is continued by a binding that names its commit. */
  lemma KnownTip(s: Ledger, initial: Capture, operation: nat, b: Binding, view: JournalView, a: Action)
    requires TipInv(s) && Inv(s, initial) && s.Live() && BindingCurrent(s, operation, b, view) && a.CompleteJournal?
    requires b.filename in s.journalFiles && s.journalFiles[b.filename] == RememberedAs(a.operation, a.completion)
    ensures TipMatches(s, operation, b) <==> b.previousRevision > 0 && ContinuesCommit(operation, b, a)
  {
    hide Inv, TipInv, ContinuesCommit, TipMatches, BindingCurrent;
    FilePresent(s, initial, b.filename);
    OwnerIsOne(s, operation, b, view);
    NamedExactly(s, operation, b, view, a);
  }

  lemma NamedExactly(s: Ledger, operation: nat, b: Binding, view: JournalView, a: Action)
    requires a.CompleteJournal? && b.filename in s.journalFiles && s.inventory.Some?
    requires BindingCurrent(s, operation, b, view)
    requires s.journalFiles[b.filename] == RememberedAs(a.operation, a.completion)
    requires var f := s.journalFiles[b.filename];
             && f.operation == operation && b.operationId in s.journalWriters
             && s.journalWriters[b.operationId] == JournalWriter(operation, f.writer, f.schema)
             && RowOf(s.inventory.value.journal, b.filename) == Some(f.nativeRow)
    ensures TipMatches(s, operation, b) <==> b.previousRevision > 0 && ContinuesCommit(operation, b, a)
  {
  }

  /** A file of this operation's name is this operation's, and so is its writer. */
  lemma OwnerIsOne(s: Ledger, operation: nat, b: Binding, view: JournalView)
    requires TipInv(s) && s.Live() && BindingCurrent(s, operation, b, view) && b.filename in s.journalFiles
    ensures var f := s.journalFiles[b.filename];
            && f.operation == operation && b.operationId in s.journalWriters
            && s.journalWriters[b.operationId] == JournalWriter(operation, f.writer, f.schema)
  {
    assert FileOwned(b.filename, s.journalFiles[b.filename], s.operations, s.journalWriters);
    SameSuffix(s.operations[s.journalFiles[b.filename].operation].id, b.operationId);
    OperationIsOne(s.operations, s.journalFiles[b.filename].operation, operation);
    hide TipInv, IdsDistinct;
  }

  /** A file that is not remembered can only be started. */
  lemma UnknownTip(s: Ledger, operation: nat, b: Binding, view: JournalView)
    requires TipInv(s) && s.Live() && BindingCurrent(s, operation, b, view) && b.filename !in s.journalFiles
    ensures TipMatches(s, operation, b)
            <==> && b.previousRevision == 0 && b.previousDigest == ZERO_DIGEST && b.previousFileIdentity.None?
                 && b.previousNativeRow.None? && b.previousAcknowledgement.None? && b.filename !in b.priorInventory.journal
  {
    assert b.operationId in s.journalWriters ==> b.operationId + ".json" in s.journalFiles;
    hide TipInv;
  }

  lemma StartsExactly(states: seq<Ledger>, actions: seq<Action>, k: nat, b: Binding)
    requires forall i: nat :: i < k ==> !CommittedAt(states, actions, i, b.filename)
    ensures StartsFile(states, actions, k, b)
            <==> && b.previousDigest == ZERO_DIGEST && b.previousFileIdentity.None? && b.previousNativeRow.None?
                 && b.previousAcknowledgement.None? && b.filename !in b.priorInventory.journal
  {
    hide CommittedAt;
  }

  lemma StartedIsUncommitted(states: seq<Ledger>, actions: seq<Action>, i: nat, k: nat, b: Binding)
    requires i < k && CommittedAt(states, actions, i, b.filename)
    ensures !StartsFile(states, actions, k, b)
  {
    hide CommittedAt;
  }

  lemma OperationIsOne(operations: seq<Operation>, i: nat, j: nat)
    requires IdsDistinct(operations) && i < |operations| && j < |operations|
    ensures operations[i].id == operations[j].id ==> i == j
  {
    assert i < j || j < i || i == j;
  }

  lemma LastIsOne(states: seq<Ledger>, actions: seq<Action>, i: nat, k: nat, filename: string)
    requires LastCommittedAt(states, actions, i, k, filename)
    ensures i < k && i < |actions| && actions[i].CompleteJournal? && CommittedAt(states, actions, i, filename)
    ensures forall j: nat :: LastCommittedAt(states, actions, j, k, filename) ==> j == i
  {
    forall j: nat | LastCommittedAt(states, actions, j, k, filename)
      ensures j == i
    {
      assert i < j || j < i || i == j;
    }
  }

  lemma LastIsCommitted(states: seq<Ledger>, actions: seq<Action>, k: nat, filename: string)
    ensures forall i: nat :: LastCommittedAt(states, actions, i, k, filename) ==>
              i < k && CommittedAt(states, actions, i, filename)
  {
  }

  /** Whatever a run has done, a replacement is admitted if and only if its binding is presented as it must be and names
      exactly what the last commit of its file was acknowledged with, or starts a file that no step has committed, and
      there is room in the directory and free space for a journal of the full size. Each refusal has its own ground. */
  lemma AdmittedExactly(states: seq<Ledger>, actions: seq<Action>, initial: Inventory, k: nat, operation: nat, b: Binding,
                        view: JournalView)
    requires Run(states, actions) && Opened(states[0], initial) && k < |states|
    ensures
      var s := states[k];
      var outcome := AdmitReplacement(s, operation, b, view).outcome;
      var named := Presented(s, operation, b, view) && NamesTip(states, actions, k, operation, b);
      && (outcome.Ok? <==> named && JournalRoom(s, b) && Covered(s, JOURNAL_BYTES))
      && (outcome == Failed(JournalRevisionConflict) <==> Presented(s, operation, b, view) && !named)
      && (outcome == Failed(JournalCapacityExceeded) <==> named && !JournalRoom(s, b))
      && (outcome == Failed(ObservedFreeCapacityInsufficient) <==> named && JournalRoom(s, b) && !Covered(s, JOURNAL_BYTES))
  {
    var s := states[k];
    InRun(states, actions, initial, k);
    PresentedExactly(s, operation, b, view);
    InvCountersNatural(s, Captured(initial));
    CoveredExactly(s, JOURNAL_BYTES);
    if s.Live() && BindingCurrent(s, operation, b, view) {
      TipExactly(states, actions, initial, k, operation, b, view);
      BindingOnInventory(s, operation, b, view);
      RoomExactly(s, b);
    }
    hide Presented, BindingCurrent, TipMatches, NamesTip, JournalRoom, ReplacementFits, Covered, FreeSpaceCovers, IsDigest,
      Run, Opened, Inv;
  }

  lemma BindingOnInventory(s: Ledger, operation: nat, b: Binding, view: JournalView)
    requires s.inventory.Some? && BindingCurrent(s, operation, b, view)
    ensures s.inventory == Some(b.priorInventory)
  {
  }

  lemma InRun(states: seq<Ledger>, actions: seq<Action>, initial: Inventory, k: nat)
    requires Run(states, actions) && Opened(states[0], initial) && k < |states|
    ensures Inv(states[k], Captured(initial)) && states[k].inventory.Some?
  {
    hide Inv, Measured, Opened;
    OpenedHolds(states[0], initial);
    RunKeepsInv(states, actions, Captured(initial), k);
    InvHasInventory(states[k], Captured(initial));
  }
}
