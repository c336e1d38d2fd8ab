/** The ledger object: it updates its counters, records and active write in place. Every method leaves exactly the
    state and outcome that LedgerSpec gives for it, and keeps the invariant. */
module CapacityLedger {
  import opened CapacityTypes
  import opened LedgerSpec
  import opened LedgerInvariant
  import opened LedgerSteps
  import opened LedgerWrites
  import opened LedgerRuns

  /** Sum the sizes of a directory and count its files. */
  method Measure(files: Directory) returns (total: Amount)
    ensures total == FileAmount(files)
  {
    var left := files;
    var bytes := 0;
    while left != map[]
      invariant Bytes(files) == bytes + Bytes(left)
      decreases |left|
    {
      var name :| name in left;
      BytesTake(left, name);
      bytes := bytes + left[name].size;
      left := left - {name};
    }
    total := Amount(bytes, |files|);
  }

  /** Check one request, purpose by purpose. */
  method ValidateEstimates(estimates: map<Purpose, Amount>) returns (r: Outcome<PerPurpose<Amount>>)
    ensures r == Normalize(estimates)
  {
    if estimates == map[] {
      return Failed(InvalidCapacityEstimate);
    }
    var normalized := NOTHING;
    var bytes, entries := 0, 0;
    for i := 0 to 4
      invariant Normalize(estimates) == NormalizeFrom(estimates, i, normalized)
      invariant bytes == TotalBytes(normalized) && entries == TotalEntries(normalized)
      invariant forall k :: i <= k < 4 ==> normalized.At(PURPOSES[k]) == ZERO
    {
      var p := PURPOSES[i];
      if p in estimates {
        var a := estimates[p];
        if !ValidEstimate(a) {
          return Failed(InvalidCapacityEstimate);
        }
        if bytes > MAX_OPERATION_BYTES - a.bytes {
          return Failed(OperationCapacityExceeded);
        }
        if entries > MAX_OPERATION_ENTRIES - a.entries {
          return Failed(OperationEntryCapacityExceeded);
        }
        bytes, entries := bytes + a.bytes, entries + a.entries;
        normalized := normalized.With(p, a);
      }
    }
    r := Ok(normalized);
  }

  /** Every old file is still there, unchanged. */
  method KeepsOldFiles(before: Directory, after: Directory) returns (kept: bool)
    ensures kept == Contains(after, before)
  {
    var left := before;
    while left != map[]
      invariant Contains(before, left)
      invariant forall name :: name in before && name !in left ==> name in after && after[name] == before[name]
      decreases |left|
    {
      var name :| name in left;
      if name !in after || after[name] != left[name] {
        return false;
      }
      left := left - {name};
    }
    kept := true;
  }

  /** Measure the added files, unless one of them has a negative size. */
  method MeasureAdditions(additions: Directory) returns (r: Option<Amount>)
    ensures r == if exists name :: name in additions && additions[name].size < 0 then None else Some(FileAmount(additions))
  {
    hide FileAmount;
    var left := additions;
    var delta := ZERO;
    NothingMeasured();
    while left != map[]
      invariant Contains(additions, left)
      invariant forall name :: name in additions && name !in left ==> 0 <= additions[name].size
      invariant FileAmount(additions) == delta.Plus(FileAmount(left))
      decreases |left|
    {
      var name :| name in left;
      if left[name].size < 0 {
        return None;
      }
      BytesAdd(left - {name}, name, left[name]);
      assert (left - {name})[name := left[name]] == left;
      delta := delta.Plus(Amount(left[name].size, 1));
      left := left - {name};
    }
    r := Some(delta);
  }

  lemma NothingMeasured()
    ensures FileAmount(map[]) == ZERO
  {
  }

  /** The bytes and entries a new directory adds to the old one, or nothing if it may not follow it. */
  method MeasureDelta(limits: Limits, p: Purpose, before: Directory, after: Directory) returns (r: Option<Amount>)
    ensures r == DirectoryDelta(limits, p, before, after)
  {
    hide FileAmount;
    var kept := KeepsOldFiles(before, after);
    if !kept || |after| > MAX_INVENTORY_ENTRIES || |after| > limits.EntryLimit(p) {
      return None;
    }
    r := MeasureAdditions(after - before.Keys);
    assert forall name :: name in after - before.Keys <==> name in after && name !in before;
  }

  method MeasureInventoryDelta(limits: Limits, before: Inventory, after: Inventory)
    returns (r: Option<PerPurpose<Amount>>)
    ensures r == InventoryDelta(limits, before, after)
  {
    hide DirectoryDelta;
    var delta := NOTHING;
    var j := MeasureDelta(limits, PrivateJournal, before.journal, after.journal);
    var t := MeasureDelta(limits, TemporaryContainment, before.temporary, after.temporary);
    var n := MeasureDelta(limits, RetainedUncertain, before.retained, after.retained);
    var p := MeasureDelta(limits, PromotedAssets, before.promoted, after.promoted);
    if j.None? || t.None? || n.None? || p.None?
       || |after.temporary| + |after.promoted| > limits.SharedEntryLimit() {
      return None;
    }
    r := Some(PerPurpose(j.value, t.value, n.value, p.value));
  }

  /** No file other than the replaced one has this identity. */
  method IdentityIsUnique(files: Directory, except: Option<string>, identity: Identity) returns (unique: bool)
    ensures unique <==> forall name :: name in files && Some(name) != except ==> files[name].identity != identity
  {
    var left := files;
    while left != map[]
      invariant Contains(files, left)
      invariant forall name :: name in files && name !in left && Some(name) != except ==> files[name].identity != identity
      decreases |left|
    {
      var name :| name in left;
      if Some(name) != except && left[name].identity == identity {
        return false;
      }
      left := left - {name};
    }
    unique := true;
  }

  class CapacityLedger {
    const limits: Limits
    const owner: nat
    var closed: bool
    var invalid: bool
    var operationIds: set<string>
    var operations: seq<Operation>
    var records: seq<Record>
    var activeWrite: Option<nat>
    var nextWrite: nat
    var reserved: PerPurpose<Amount>
    var observed: PerPurpose<Amount>
    var uncertain: PerPurpose<Amount>
    var inventory: Option<Inventory>
    var freeBytes: int
    var journalFiles: map<string, JournalFile>
    var journalWriters: map<string, JournalWriter>
    ghost var captured: Capture

    ghost function State(): Ledger
      reads this
    {
      Ledger(limits, owner, closed, invalid, operations, records, activeWrite, nextWrite,
             reserved, observed, uncertain, inventory, freeBytes, journalFiles, journalWriters)
    }

    ghost predicate Valid()
      reads this
    {
      && limits.Valid()
      && operationIds == Ids(operations)
      && (if inventory.Some? then Inv(State(), captured) && Measured(captured)
          else State() == Fresh(limits, owner).(uncertain := uncertain, closed := closed))
    }

    lemma Owned()
      requires Valid()
      ensures RecordsOwned(State())
    {
      hide Phase, Measured, Ids;
      if inventory.Some? {
        RecordFacts(State(), captured);
      }
    }

    constructor (limits: Limits, owner: nat)
      requires limits.Valid()
      ensures Valid() && State() == Fresh(limits, owner)
    {
      this.limits, this.owner := limits, owner;
      closed, invalid := false, false;
      operationIds, operations, records := {}, [], [];
      activeWrite, nextWrite := None, 0;
      reserved, observed, uncertain := NOTHING, NOTHING, NOTHING;
      inventory, freeBytes := None, 0;
      journalFiles, journalWriters := map[], map[];
      captured := Captured(PerPurpose(map[], map[], map[], map[]));
    }

    predicate IsLive()
      reads this
    {
      !closed && !invalid && inventory.Some?
    }

    /** Count each directory as retained uncertainty, until one is over its capacity. */
    method CountInitial(found: Inventory) returns (r: Outcome<()>)
      modifies this
      ensures Step(State(), r) == CountInitialFrom(old(State()), found, 0)
      ensures State() == old(State()).(uncertain := uncertain)
      ensures operationIds == old(operationIds) && captured == old(captured)
    {
      hide FileAmount;
      ghost var before := State();
      for i := 0 to 4
        invariant State() == before.(uncertain := uncertain)
        invariant operationIds == old(operationIds) && captured == old(captured)
        invariant CountInitialFrom(before, found, 0) == CountInitialFrom(State(), found, i)
      {
        var total := Measure(found.At(PURPOSES[i]));
        if !DirectoryFits(limits, PURPOSES[i], total) {
          return Failed(RetainedInventoryOverCapacity);
        }
        uncertain := uncertain.With(PURPOSES[i], total);
      }
      r := Ok(());
    }

    method SetInitialInventory(found: Inventory, free: Option<int>) returns (r: Outcome<()>)
      requires Valid()
      modifies this
      ensures Valid() && Step(State(), r) == LedgerSpec.SetInitialInventory(old(State()), found, free)
      ensures r.Ok? ==> captured == Captured(found)
    {
      hide Inv, Measured, CountInitialFrom, Ids;
      if inventory.Some? || closed {
        return Failed(StorageOwnerUnavailable);
      }
      ghost var before := State();
      r := CountInitial(found);
      if r.Failed? {
        return;
      }
      var assets := uncertain.temporary.Plus(uncertain.promoted);
      if assets.bytes > limits.assetBytes || assets.entries > limits.SharedEntryLimit() {
        return Failed(RetainedInventoryOverCapacity);
      }
      var bytes := if free.Some? then free.value else DefaultFreeBytes(limits);
      if !ValidFreeBytes(bytes) {
        return Failed(InvalidFreeCapacityObservation);
      }
      freeBytes, inventory := bytes, Some(found);
      captured := Captured(found);
      OpeningEstablishesInv(before, found, free);
      r := Ok(());
    }

    method BeginOperation(id: string) returns (r: Outcome<nat>)
      requires Valid()
      modifies this
      ensures Valid() && Step(State(), r) == LedgerSpec.BeginOperation(old(State()), id) && captured == old(captured)
    {
      hide Inv, Measured;
      if !(1 <= |id| <= 128) {
        return Failed(InvalidOperationIdentity);
      }
      if !IsLive() {
        return Failed(StorageOwnerUnavailable);
      }
      if id in operationIds {
        return Failed(OperationIdentityReused);
      }
      BeginKeepsInv(State(), id, captured);
      operationIds := operationIds + {id};
      operations := operations + [Operation(id, Open)];
      r := Ok(|operations| - 1);
      IdsGrow(old(operations), Operation(id, Open));
    }

    lemma IdsGrow(operations: seq<Operation>, added: Operation)
      ensures Ids(operations + [added]) == Ids(operations) + {added.id}
    {
      var after := operations + [added];
      forall k | 0 <= k < |operations|
        ensures operations[k].id in Ids(after)
      {
        assert after[k] == operations[k];
      }
      assert after[|operations|] == added;
    }

    /** Changing an operation's state keeps every operation's identifier. */
    lemma IdsStay(before: seq<Operation>, after: seq<Operation>)
      requires |after| == |before| && forall k :: 0 <= k < |before| ==> after[k].id == before[k].id
      ensures Ids(after) == Ids(before)
    {
      forall k | 0 <= k < |before|
        ensures before[k].id in Ids(after) && after[k].id in Ids(before)
      {
      }
    }

    method Reserve(operation: nat, estimates: map<Purpose, Amount>) returns (r: Outcome<nat>)
      requires Valid()
      modifies this
      ensures Valid() && Step(State(), r) == LedgerSpec.Reserve(old(State()), operation, estimates)
      ensures captured == old(captured)
    {
      hide Inv, Measured, Normalize, Ids;
      ghost var before := State();
      var normalized := ValidateEstimates(estimates);
      if normalized.Failed? {
        return Failed(normalized.code);
      }
      if !IsLive() {
        return Failed(StorageOwnerUnavailable);
      }
      if operation >= |operations| || operations[operation].state != Open {
        return Failed(OperationUnavailable);
      }
      var est := normalized.value;
      var projected := Added(Added(reserved, observed), uncertain);
      for i := 0 to 4
        invariant UnfitFrom(before, est, 0) == UnfitFrom(before, est, i)
      {
        var p := PURPOSES[i];
        if est.At(p) != ZERO {
          if !Fits(projected.At(p).bytes, est.At(p).bytes, limits.ByteLimit(p)) {
            return Failed(StorageCapacityExceeded);
          }
          if !Fits(projected.At(p).entries, est.At(p).entries, limits.EntryLimit(p)) {
            return Failed(StorageEntryCapacityExceeded);
          }
        }
      }
      projected := Added(projected, est);
      var unsettled, retained := TotalBytes(reserved), TotalBytes(uncertain);
      if unsettled > freeBytes || retained > freeBytes - unsettled || TotalBytes(est) > freeBytes - unsettled - retained {
        return Failed(ObservedFreeCapacityInsufficient);
      }
      var assets := projected.temporary.Plus(projected.promoted);
      if assets.bytes > limits.assetBytes || assets.entries > limits.SharedEntryLimit() {
        return Failed(SharedAssetCapacityExceeded);
      }
      ReserveKeepsInv(before, operation, estimates, captured);
      records := records + [Record(operation, est, Reserved, None, None, None)];
      operations := operations[operation := operations[operation].(state := OpReserved)];
      reserved := Added(reserved, est);
      r := Ok(|records| - 1);
      IdsStay(before.operations, operations);
    }

    method CancelBeforeWrite(operation: nat, reservation: nat) returns (r: Outcome<()>)
      requires Valid()
      modifies this
      ensures RecordsOwned(old(State()))
      ensures Valid() && Step(State(), r) == LedgerSpec.CancelBeforeWrite(old(State()), operation, reservation)
      ensures captured == old(captured)
    {
      hide Inv, Measured, Ids;
      Owned();
      ghost var before := State();
      if reservation >= |records| || records[reservation].operation != operation
         || records[reservation].state != Reserved {
        return Failed(ReservationNotReleasable);
      }
      HoldingNeedsInventory();
      CancelKeepsInv(before, operation, reservation, captured);
      reserved := Removed(reserved, records[reservation].estimates);
      operations := operations[operation := operations[operation].(state := OpCancelled)];
      records := records[reservation := records[reservation].(state := Cancelled)];
      r := Ok(());
      IdsStay(before.operations, operations);
    }

    lemma HoldingNeedsInventory()
      requires Valid() && records != []
      ensures inventory.Some? && Inv(State(), captured) && Measured(captured)
    {
      hide Inv, Measured, Ids;
    }

    method AdmitWrite(operation: nat, reservation: nat) returns (r: Outcome<nat>)
      requires Valid()
      modifies this
      ensures RecordsOwned(old(State()))
      ensures Valid() && Step(State(), r) == LedgerSpec.AdmitWrite(old(State()), operation, reservation)
      ensures captured == old(captured)
    {
      hide Inv, Measured, Ids;
      Owned();
      ghost var before := State();
      if !IsLive() {
        return Failed(StorageOwnerUnavailable);
      }
      if reservation >= |records| || records[reservation].operation != operation
         || records[reservation].state != Reserved {
        return Failed(ReservationUnavailable);
      }
      if activeWrite.Some? {
        return Failed(WriteAdmissionBusy);
      }
      AdmitKeepsInv(before, operation, reservation, captured);
      var write := nextWrite;
      nextWrite := nextWrite + 1;
      records := records[reservation := records[reservation].(state := Writing, write := Some(write))];
      activeWrite := Some(write);
      operations := operations[operation := operations[operation].(state := OpWriting)];
      r := Ok(write);
      IdsStay(before.operations, operations);
    }

    /** The first record that holds this write token in one of these states. */
    method FindRecord(write: nat, states: set<RecordState>) returns (found: Option<nat>)
      ensures found == FirstFrom(records, write, states, 0)
    {
      for i := 0 to |records|
        invariant FirstFrom(records, write, states, 0) == FirstFrom(records, write, states, i)
      {
        if records[i].write == Some(write) && records[i].state in states {
          return Some(i);
        }
      }
      found := None;
    }

    method FindActiveWrite(operation: nat, write: nat) returns (found: Option<nat>)
      requires RecordsOwned(State())
      ensures found == ActiveRecord(State(), operation, write)
    {
      found := FindRecord(write, {Writing});
      if found.Some? && (records[found.value].operation != operation || activeWrite != Some(write)) {
        found := None;
      }
    }

    /** Move a held record's full estimate from reserved to uncertain. */
    method RetainLocked(i: nat)
      requires i < |records| && RecordsOwned(State())
      modifies this
      ensures State() == Retain(old(State()), i) && RecordsOwned(State())
      ensures operationIds == old(operationIds) && captured == old(captured)
    {
      var record := records[i];
      if record.state != Reserved && record.state != Writing {
        return;
      }
      reserved := Removed(reserved, record.estimates);
      uncertain := Added(uncertain, record.estimates);
      records := records[i := record.(state := RetainedAsUncertain)];
      operations := operations[record.operation := operations[record.operation].(state := OpRetained)];
      if activeWrite == record.write {
        activeWrite := None;
      }
    }

    method FailActive(i: nat, code: Code) returns (r: Outcome<()>)
      requires Valid() && inventory.Some? && i < |records| && RecordsOwned(State())
      modifies this
      ensures Valid() && Step(State(), r) == LedgerSpec.FailActive(old(State()), i, code)
      ensures captured == old(captured)
    {
      hide Inv, Measured, Ids;
      ghost var before := State();
      FailActiveKeepsInv(before, i, captured);
      RetainLocked(i);
      invalid := true;
      IdsStay(before.operations, operations);
      r := Failed(code);
    }

    method RetainUncertain(operation: nat, write: nat) returns (r: Outcome<()>)
      requires Valid()
      modifies this
      ensures RecordsOwned(old(State()))
      ensures Valid() && Step(State(), r) == LedgerSpec.RetainUncertain(old(State()), operation, write)
      ensures captured == old(captured)
    {
      hide Inv, Measured, Ids;
      Owned();
      var found := FindActiveWrite(operation, write);
      if found.None? {
        return Failed(WriteAdmissionUnavailable);
      }
      HoldingNeedsInventory();
      var failed := FailActive(found.value, WriteAdmissionUnavailable);
      r := Ok(());
    }

    /** Release a token whose owner proved that no file was created. */
    method CancelWriteBeforeCreate(operation: nat, write: nat) returns (r: Outcome<()>)
      requires Valid()
      modifies this
      ensures RecordsOwned(old(State()))
      ensures Valid() && Step(State(), r) == LedgerSpec.CancelWriteBeforeCreate(old(State()), operation, write)
      ensures captured == old(captured)
    {
      hide Inv, Measured, Ids;
      Owned();
      ghost var before := State();
      if !IsLive() {
        return Failed(StorageOwnerUnavailable);
      }
      var found := FindActiveWrite(operation, write);
      if found.None? {
        return Failed(WriteAdmissionUnavailable);
      }
      var i := found.value;
      if records[i].replacement.Some? {
        return Failed(JournalPrecreateProofRequired);
      }
      CancelWriteKeepsInv(before, operation, write, captured);
      reserved := Removed(reserved, records[i].estimates);
      operations := operations[operation := operations[operation].(state := OpCancelled)];
      records := records[i := records[i].(state := Cancelled)];
      activeWrite := None;
      r := Ok(());
      IdsStay(before.operations, operations);
    }

    /** Why the inventory does not settle the write of record `i`, with what it adds. */
    method CheckWrite(i: nat, after: Inventory) returns (refusal: Option<Code>, delta: PerPurpose<Amount>)
      requires inventory.Some? && i < |records|
      ensures refusal == WriteRefusal(State(), i, after)
      ensures refusal.None? ==> InventoryDelta(limits, inventory.value, after) == Some(delta)
    {
      hide InventoryDelta;
      delta := NOTHING;
      if records[i].replacement.Some? {
        return Some(JournalCommitRequired), delta;
      }
      var measured := MeasureInventoryDelta(limits, inventory.value, after);
      if measured.None? {
        return Some(StorageInventoryChanged), delta;
      }
      delta := measured.value;
      if delta == NOTHING {
        return Some(NoNewStorageObserved), delta;
      }
      if !AllWithin(delta, records[i].estimates) {
        return Some(ObservedUsageExceededReservation), delta;
      }
      refusal := None;
    }

    method CompleteWrite(operation: nat, write: nat, after: Inventory, free: Option<int>) returns (r: Outcome<()>)
      requires Valid()
      modifies this
      ensures RecordsOwned(old(State()))
      ensures Valid() && Step(State(), r) == LedgerSpec.CompleteWrite(old(State()), operation, write, after, free)
      ensures captured == old(captured)
    {
      hide Inv, Measured, Ids, InventoryDelta, Retain, WriteRefusal;
      Owned();
      ghost var before := State();
      if free.Some? && !ValidFreeBytes(free.value) {
        return Failed(InvalidFreeCapacityObservation);
      }
      if !IsLive() {
        return Failed(StorageOwnerUnavailable);
      }
      var found := FindActiveWrite(operation, write);
      if found.None? {
        return Failed(WriteAdmissionUnavailable);
      }
      var i := found.value;
      var refusal, delta := CheckWrite(i, after);
      if refusal.Some? {
        r := FailActive(i, refusal.value);
        return;
      }
      CompleteWriteKeepsInv(before, operation, write, after, free, captured);
      CommitWriteInPlace(i, delta, after, free);
      r := Ok(());
      IdsStay(before.operations, operations);
    }

    method CommitWriteInPlace(i: nat, delta: PerPurpose<Amount>, after: Inventory, free: Option<int>)
      requires i < |records| && records[i].operation < |operations|
      modifies this
      ensures State() == CommitWrite(old(State()), i, delta, after, free)
      ensures operationIds == old(operationIds) && captured == old(captured)
    {
      hide Added, Removed;
      var record := records[i];
      reserved := Removed(reserved, record.estimates);
      observed := Added(observed, delta);
      records := records[i := record.(state := Completed, delta := Some(delta))];
      operations := operations[record.operation := operations[record.operation].(state := OpCompleted)];
      activeWrite := None;
      inventory := Some(after);
      if free.Some? {
        freeBytes := free.value;
      }
    }

    method RetainCompletedWriteAsUncertain(operation: nat, write: nat, delta: PerPurpose<Amount>) returns (r: Outcome<()>)
      requires Valid()
      modifies this
      ensures RecordsOwned(old(State()))
      ensures Valid() && Step(State(), r) == CompensateWrite(old(State()), operation, write, delta)
      ensures captured == old(captured)
    {
      hide Inv, Measured, Ids;
      Owned();
      ghost var before := State();
      var found := FindRecord(write, ANY_STATE);
      if found.None? || records[found.value].operation != operation {
        return Failed(WriteAdmissionUnavailable);
      }
      var record := records[found.value];
      if record.state == Uncertain && record.delta == Some(delta) && operations[operation].state == OpUncertain {
        return Ok(());
      }
      if !WriteCompensable(Snapshot(), record, delta) {
        return Failed(WriteAdmissionUnavailable);
      }
      HoldingNeedsInventory();
      CompensateWriteKeepsInv(before, operation, write, delta, captured);
      observed := Removed(observed, delta);
      uncertain := Added(uncertain, record.estimates);
      records := records[found.value := record.(state := Uncertain)];
      operations := operations[operation := operations[operation].(state := OpUncertain)];
      invalid := true;
      r := Ok(());
      IdsStay(before.operations, operations);
    }

    method AdmitJournalReplacement(operation: nat, b: Binding, view: JournalView) returns (r: Outcome<nat>)
      requires Valid()
      modifies this
      ensures Valid() && Step(State(), r) == AdmitReplacement(old(State()), operation, b, view)
      ensures captured == old(captured)
    {
      hide Inv, Measured, Ids, IsDigest, FileAmount, BindingCurrent, TipMatches, Added;
      BindingNamesOperation(operation, b, view);
      ghost var before := State();
      if !IsLive() {
        return Failed(StorageOwnerUnavailable);
      }
      if !BindingCurrent(Snapshot(), operation, b, view) {
        return Failed(JournalBindingInvalid);
      }
      if activeWrite.Some? {
        return Failed(WriteAdmissionBusy);
      }
      if !IsDigest(b.previousDigest) {
        return Failed(JournalBindingInvalid);
      }
      if !TipMatches(Snapshot(), operation, b) {
        return Failed(JournalRevisionConflict);
      }
      var files := inventory.value.journal;
      var oldSize := SizeOf(RowOf(files, b.filename));
      var current := Measure(files);
      if oldSize > JOURNAL_BYTES || oldSize + JOURNAL_BYTES > JOURNAL_LIVE_BYTES
         || current.bytes + JOURNAL_BYTES > JOURNAL_LIVE_BYTES
         || current.bytes - oldSize + JOURNAL_BYTES + reserved.journal.bytes > limits.journalBytes
         || current.entries + 2 + reserved.journal.entries > limits.journalEntries {
        return Failed(JournalCapacityExceeded);
      }
      var unsettled, retained := TotalBytes(reserved), TotalBytes(uncertain);
      if unsettled > freeBytes || retained > freeBytes - unsettled || JOURNAL_BYTES > freeBytes - unsettled - retained {
        return Failed(ObservedFreeCapacityInsufficient);
      }
      AdmitReplacementKeepsInv(before, operation, b, view, captured);
      var write := nextWrite;
      nextWrite := nextWrite + 1;
      records := records + [Record(operation, REPLACEMENT_ESTIMATE, Writing, Some(write), Some(b), None)];
      reserved := Added(reserved, REPLACEMENT_ESTIMATE);
      activeWrite := Some(write);
      operations := operations[operation := operations[operation].(state := OpWriting)];
      r := Ok(write);
      IdsStay(before.operations, operations);
    }

    lemma BindingNamesOperation(operation: nat, b: Binding, view: JournalView)
      ensures inventory.Some? && BindingCurrent(State(), operation, b, view) ==> operation < |operations|
    {
    }

    /** The fields as a value, for the checks that compare many of them. */
    function Snapshot(): (s: Ledger)
      reads this
      ensures s == State()
    {
      Ledger(limits, owner, closed, invalid, operations, records, activeWrite, nextWrite,
             reserved, observed, uncertain, inventory, freeBytes, journalFiles, journalWriters)
    }

    /** Why the inventory and acknowledgement do not commit replacement `b`. */
    method CheckReplacement(b: Binding, after: Inventory, view: JournalView, c: Completion) returns (refusal: Option<Code>)
      requires inventory.Some?
      ensures refusal == ReplacementRefusal(State(), b, after, view, c)
      ensures refusal.None? ==> b.filename in after.journal
    {
      hide CompletionCurrent, AcknowledgesNext, NewRowAcceptable, Bytes;
      var previous := RowOf(inventory.value.journal, b.filename);
      var row := RowOf(after.journal, b.filename);
      if !CompletionCurrent(Snapshot(), b, view, c) {
        return Some(JournalInventoryConflict);
      }
      if (if b.previousRevision == 0 then previous.Some? else previous != b.previousNativeRow) {
        return Some(JournalRevisionConflict);
      }
      if !NewRowAcceptable(previous, row, c) {
        return Some(JournalIdentityConflict);
      }
      RowIsPresent(previous, row, c);
      if after != inventory.value.(journal := inventory.value.journal[b.filename := row.value]) {
        return Some(JournalInventoryConflict);
      }
      var uniqueJ := IdentityIsUnique(after.journal, Some(b.filename), row.value.identity);
      var uniqueT := IdentityIsUnique(after.temporary, None, row.value.identity);
      var uniqueR := IdentityIsUnique(after.retained, None, row.value.identity);
      var uniqueP := IdentityIsUnique(after.promoted, None, row.value.identity);
      if !uniqueJ || !uniqueT || !uniqueR || !uniqueP {
        return Some(JournalIdentityConflict);
      }
      if !AcknowledgesNext(b, view, c) {
        return Some(JournalAckConflict);
      }
      var total := Measure(after.journal);
      if total.bytes > limits.journalBytes {
        return Some(JournalCapacityExceeded);
      }
      if previous.Some? && (observed.journal.bytes < previous.value.size || observed.journal.entries < 1) {
        return Some(JournalAccountingConflict);
      }
      refusal := None;
    }

    method CompleteJournalReplacement(
      operation: nat, write: nat, after: Inventory, free: int, view: JournalView, c: Completion) returns (r: Outcome<()>)
      requires Valid()
      modifies this
      ensures RecordsOwned(old(State()))
      ensures Valid() && Step(State(), r) == CompleteReplacement(old(State()), operation, write, after, free, view, c)
      ensures captured == old(captured)
    {
      hide Inv, Measured, Ids, Retain, ReplacementRefusal;
      Owned();
      ghost var before := State();
      if !ValidFreeBytes(free) {
        return Failed(InvalidFreeCapacityObservation);
      }
      if !IsLive() {
        return Failed(StorageOwnerUnavailable);
      }
      var found := FindActiveWrite(operation, write);
      if found.None? {
        return Failed(WriteAdmissionUnavailable);
      }
      var i := found.value;
      if records[i].replacement.None? {
        r := FailActive(i, JournalCommitInvalid);
        return;
      }
      var b := records[i].replacement.value;
      var refusal := CheckReplacement(b, after, view, c);
      if refusal.Some? {
        r := FailActive(i, refusal.value);
        return;
      }
      CompleteReplacementKeepsInv(before, operation, write, after, free, view, c, captured);
      CommitReplacementInPlace(i, b, after.journal[b.filename], after, free, c);
      r := Ok(());
      IdsStay(before.operations, operations);
    }

    method CommitReplacementInPlace(i: nat, b: Binding, row: Row, after: Inventory, free: int, c: Completion)
      requires i < |records| && records[i].operation < |operations| && inventory.Some?
      modifies this
      ensures State() == CommitReplacement(old(State()), i, b, row, after, free, c)
      ensures operationIds == old(operationIds) && captured == old(captured)
    {
      hide Added, Removed, ObservedAfter;
      var operation := records[i].operation;
      MoveObserved(RowOf(inventory.value.journal, b.filename), row);
      reserved := Removed(reserved, records[i].estimates);
      records := records[i := records[i].(state := Completed)];
      operations := operations[operation := operations[operation].(state := JournalCompleted)];
      activeWrite, inventory, freeBytes := None, Some(after), free;
      NoteJournal(b, JournalFile(operation, b.writer, b.schema, b.previousRevision + 1, c.acknowledgement.digest,
                                 c.fileIdentity, row, c.acknowledgement));
    }

    method MoveObserved(previous: Option<Row>, row: Row)
      modifies this`observed
      ensures observed == ObservedAfter(old(observed), previous, row)
    {
      var counted := observed.journal;
      if previous.Some? {
        counted := counted.Minus(Amount(previous.value.size, 1));
      }
      observed := observed.(journal := counted.Plus(Amount(row.size, 1)));
    }

    /** Remember which writer committed which file. */
    method NoteJournal(b: Binding, file: JournalFile)
      modifies this
      ensures State() == old(State()).(
                journalFiles := old(journalFiles)[b.filename := file],
                journalWriters := old(journalWriters)[b.operationId := JournalWriter(file.operation, file.writer, file.schema)])
      ensures operationIds == old(operationIds) && captured == old(captured)
    {
      journalFiles := journalFiles[b.filename := file];
      journalWriters := journalWriters[b.operationId := JournalWriter(file.operation, file.writer, file.schema)];
    }

    lemma RowIsPresent(previous: Option<Row>, row: Option<Row>, c: Completion)
      requires NewRowAcceptable(previous, row, c)
      ensures row.Some?
    {
    }

    method RetainCompletedJournalReplacementAsUncertain(operation: nat, write: nat) returns (r: Outcome<()>)
      requires Valid()
      modifies this
      ensures RecordsOwned(old(State()))
      ensures Valid() && Step(State(), r) == CompensateReplacement(old(State()), operation, write)
      ensures captured == old(captured)
    {
      hide Inv, Measured, Ids;
      Owned();
      ghost var before := State();
      var found := FindRecord(write, {Completed});
      if found.None? || records[found.value].operation != operation || records[found.value].replacement.None? {
        return Failed(JournalUncertainUnavailable);
      }
      var record := records[found.value];
      var b := record.replacement.value;
      if inventory.None? || !CompensationCurrent(Snapshot(), operation, record, b) {
        return Failed(JournalUncertainUnavailable);
      }
      CompensateReplacementKeepsInv(before, operation, write, captured);
      ReopenReplacementInPlace(found.value, b);
      r := Ok(());
      IdsStay(before.operations, operations);
    }

    method ReopenReplacementInPlace(i: nat, b: Binding)
      requires i < |records| && records[i].operation < |operations|
      requires inventory.Some? && b.filename in inventory.value.journal
      modifies this
      ensures State() == ReopenReplacement(old(State()), i, b)
      ensures operationIds == old(operationIds) && captured == old(captured)
    {
      var record := records[i];
      var current := Amount(inventory.value.journal[b.filename].size, 1);
      var prior := if b.previousNativeRow.Some? then Amount(b.previousNativeRow.value.size, 1) else ZERO;
      observed := observed.(journal := observed.journal.Minus(current).Plus(prior));
      uncertain := uncertain.(journal := uncertain.journal.Plus(record.estimates.journal));
      records := records[i := record.(state := RetainedAsUncertain)];
      operations := operations[record.operation := operations[record.operation].(state := OpRetained)];
      invalid := true;
    }

    /** Retain every held record, in order. */
    method RetainAll()
      requires RecordsOwned(State())
      modifies this
      ensures State() == RetainFrom(old(State()), 0)
      ensures operationIds == old(operationIds) && captured == old(captured)
      ensures |operations| == |old(operations)|
      ensures forall k :: 0 <= k < |operations| ==> operations[k].id == old(operations)[k].id
    {
      hide Retain;
      ghost var before := State();
      for i := 0 to |records|
        invariant |records| == |before.records| && |operations| == |before.operations| && RecordsOwned(State())
        invariant RetainFrom(before, 0) == RetainFrom(State(), i)
        invariant forall k :: 0 <= k < |operations| ==> operations[k].id == before.operations[k].id
        invariant operationIds == old(operationIds) && captured == old(captured)
      {
        RetainShape(State(), i);
        RetainLocked(i);
      }
    }

    lemma RetainShape(s: Ledger, i: nat)
      requires RecordsOwned(s) && i < |s.records|
      ensures
        var t := Retain(s, i);
        && |t.records| == |s.records| && |t.operations| == |s.operations|
        && forall k :: 0 <= k < |t.operations| ==> t.operations[k].id == s.operations[k].id
    {
    }

    method ObserveInventory(seen: Inventory, free: Option<int>) returns (r: Outcome<()>)
      requires Valid()
      modifies this
      ensures RecordsOwned(old(State()))
      ensures Valid() && Step(State(), r) == LedgerSpec.ObserveInventory(old(State()), seen, free)
      ensures captured == old(captured)
    {
      hide Inv, Measured, Ids, RetainFrom;
      Owned();
      ghost var before := State();
      if free.Some? && !ValidFreeBytes(free.value) {
        return Failed(InvalidFreeCapacityObservation);
      }
      if !IsLive() {
        return Failed(StorageOwnerUnavailable);
      }
      ObserveKeepsInv(before, seen, free, captured);
      if seen != inventory.value {
        RetainAll();
        invalid := true;
        IdsStay(before.operations, operations);
        RetainFromGoesOn(before, 0);
        return Failed(StorageInventoryChanged);
      }
      if free.Some? {
        freeBytes := free.value;
      }
      r := Ok(());
      IdsStay(before.operations, operations);
    }

    method Close()
      requires Valid()
      modifies this
      ensures RecordsOwned(old(State()))
      ensures Valid() && closed && State() == LedgerSpec.Close(old(State()))
      ensures captured == old(captured)
    {
      hide Inv, Measured, Ids, Retain;
      Owned();
      ghost var before := State();
      if closed {
        return;
      }
      if inventory.Some? {
        CloseKeepsInv(before, captured);
      }
      RetainAll();
      closed := true;
      IdsStay(before.operations, operations);
      RetainFromGoesOn(before, 0);
    }
  }
}
