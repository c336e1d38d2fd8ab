/** The capacity ledger as a value, and what each of its operations does to that value.
    Tokens are issued in order: an operation or reservation token is the position of its row,
    a write token is a serial number. */
module LedgerSpec {
  import opened CapacityTypes

  datatype RecordState = Reserved | Writing | Completed | Cancelled | RetainedAsUncertain | Uncertain

  datatype OperationState =
    Open | OpReserved | OpWriting | OpCompleted | JournalCompleted | OpCancelled | OpRetained | OpUncertain

  datatype Schema = LegacySchema | MultiRequestSchema

  /** Acknowledgement of a journal revision; the serial is its object identity. */
  datatype Acknowledgement = Acknowledgement(
    serial: nat, schema: Schema, operationId: string, revision: int, digest: string, fileIdentity: Identity)

  /** The exact live journal tip one replacement is admitted for. */
  datatype Binding = Binding(
    issued: bool, admissionOwner: nat, writer: nat, schema: Schema, operationId: string, filename: string,
    previousRevision: int, previousDigest: string, previousFileIdentity: Option<Identity>,
    previousNativeRow: Option<Row>, previousAcknowledgement: Option<Acknowledgement>,
    priorInventory: Inventory, leased: bool)

  datatype Completion = Completion(
    issued: bool, binding: Binding, acknowledgement: Acknowledgement, fileIdentity: Identity, nativeRow: Row)

  /** What the bound journal owner and its writer look like at the moment of a call. */
  datatype JournalView = JournalView(
    rootMatches: bool, leaseCurrent: bool, tip: Option<nat>, operationId: string,
    revision: int, digest: string, fileIdentity: Option<Identity>)

  datatype JournalFile = JournalFile(
    operation: nat, writer: nat, schema: Schema, revision: int, digest: string,
    fileIdentity: Identity, nativeRow: Row, acknowledgement: Acknowledgement)

  datatype JournalWriter = JournalWriter(operation: nat, writer: nat, schema: Schema)

  datatype Operation = Operation(id: string, state: OperationState)

  /** A reservation. A purpose absent from the request has a zero estimate. */
  datatype Record = Record(
    operation: nat, estimates: PerPurpose<Amount>, state: RecordState, write: Option<nat>,
    replacement: Option<Binding>, delta: Option<PerPurpose<Amount>>)
  {
    predicate Held() { state == Reserved || state == Writing }
  }

  datatype Code =
    | StorageOwnerUnavailable | InvalidOperationIdentity | OperationIdentityReused | InvalidCapacityEstimate
    | OperationCapacityExceeded | OperationEntryCapacityExceeded | OperationUnavailable | StorageCapacityExceeded
    | StorageEntryCapacityExceeded | ObservedFreeCapacityInsufficient | SharedAssetCapacityExceeded
    | ReservationNotReleasable | ReservationUnavailable | WriteAdmissionBusy | WriteAdmissionUnavailable
    | InvalidFreeCapacityObservation | StorageInventoryChanged | NoNewStorageObserved
    | ObservedUsageExceededReservation | RetainedInventoryOverCapacity
    | JournalBindingInvalid | JournalRevisionConflict | JournalCapacityExceeded | JournalCommitInvalid
    | JournalCommitRequired | JournalInventoryConflict | JournalIdentityConflict | JournalAckConflict
    | JournalAccountingConflict | JournalPrecreateProofRequired | JournalUncertainUnavailable

  datatype Outcome<+T> = Ok(value: T) | Failed(code: Code)

  datatype Ledger = Ledger(
    limits: Limits, owner: nat, closed: bool, invalid: bool, operations: seq<Operation>, records: seq<Record>,
    activeWrite: Option<nat>, nextWrite: nat,
    reserved: PerPurpose<Amount>, observed: PerPurpose<Amount>, uncertain: PerPurpose<Amount>,
    inventory: Option<Inventory>, freeBytes: int,
    journalFiles: map<string, JournalFile>, journalWriters: map<string, JournalWriter>)
  {
    predicate Live() { !closed && !invalid && inventory.Some? }

    function Used(): PerPurpose<Amount> { Added(Added(reserved, observed), uncertain) }
  }

  datatype Step<+T> = Step(next: Ledger, outcome: Outcome<T>)

  /** The operation identifiers issued so far. */
  function Ids(operations: seq<Operation>): set<string> {
    set k | 0 <= k < |operations| :: operations[k].id
  }

  /** Every reservation belongs to an operation the ledger issued. */
  predicate RecordsOwned(s: Ledger) {
    forall i :: 0 <= i < |s.records| ==> s.records[i].operation < |s.operations|
  }

  predicate ValidFreeBytes(free: int) { 0 <= free <= MAX_FREE_BYTES }

  function Fresh(limits: Limits, owner: nat): Ledger {
    Ledger(limits, owner, false, false, [], [], None, 0, NOTHING, NOTHING, NOTHING, None, 0, map[], map[])
  }

  // ----- initial inventory -----

  predicate DirectoryFits(limits: Limits, p: Purpose, total: Amount) {
    && total.entries <= MAX_INVENTORY_ENTRIES && total.bytes <= MAX_ROOT_FILE_BYTES
    && Fits(0, total.bytes, limits.ByteLimit(p)) && Fits(0, total.entries, limits.EntryLimit(p))
  }

  /** Existing files have no custody: each directory is counted as retained uncertainty. */
  ghost function CountInitialFrom(s: Ledger, inventory: Inventory, i: nat): Step<()>
    requires i <= 4
    decreases 4 - i
  {
    if i == 4 then Step(s, Ok(()))
    else
      var total := FileAmount(inventory.At(PURPOSES[i]));
      if !DirectoryFits(s.limits, PURPOSES[i], total) then Step(s, Failed(RetainedInventoryOverCapacity))
      else CountInitialFrom(s.(uncertain := s.uncertain.With(PURPOSES[i], total)), inventory, i + 1)
  }

  function DefaultFreeBytes(limits: Limits): int {
    limits.journalBytes + limits.assetBytes + limits.retainedBytes
  }

  ghost function SetInitialInventory(s: Ledger, inventory: Inventory, free: Option<int>): Step<()> {
    if s.inventory.Some? || s.closed then Step(s, Failed(StorageOwnerUnavailable))
    else
      var counted := CountInitialFrom(s, inventory, 0);
      var assets := counted.next.uncertain.temporary.Plus(counted.next.uncertain.promoted);
      var freeBytes := if free.Some? then free.value else DefaultFreeBytes(s.limits);
      if counted.outcome.Failed? then counted
      else if assets.bytes > s.limits.assetBytes || assets.entries > s.limits.SharedEntryLimit() then
        Step(counted.next, Failed(RetainedInventoryOverCapacity))
      else if !ValidFreeBytes(freeBytes) then Step(counted.next, Failed(InvalidFreeCapacityObservation))
      else Step(counted.next.(freeBytes := freeBytes, inventory := Some(inventory)), Ok(()))
  }

  // ----- operations and reservations -----

  ghost function BeginOperation(s: Ledger, id: string): Step<nat> {
    if !(1 <= |id| <= 128) then Step(s, Failed(InvalidOperationIdentity))
    else if !s.Live() then Step(s, Failed(StorageOwnerUnavailable))
    else if id in Ids(s.operations) then Step(s, Failed(OperationIdentityReused))
    else Step(s.(operations := s.operations + [Operation(id, Open)]), Ok(|s.operations|))
  }

  predicate ValidEstimate(a: Amount) {
    0 < a.bytes <= MAX_OPERATION_BYTES && 0 < a.entries <= MAX_OPERATION_ENTRIES
  }

  function NormalizeFrom(estimates: map<Purpose, Amount>, i: nat, sofar: PerPurpose<Amount>): Outcome<PerPurpose<Amount>>
    requires i <= 4
    decreases 4 - i
  {
    if i == 4 then Ok(sofar)
    else if PURPOSES[i] !in estimates then NormalizeFrom(estimates, i + 1, sofar)
    else
      var a := estimates[PURPOSES[i]];
      if !ValidEstimate(a) then Failed(InvalidCapacityEstimate)
      else if TotalBytes(sofar) > MAX_OPERATION_BYTES - a.bytes then Failed(OperationCapacityExceeded)
      else if TotalEntries(sofar) > MAX_OPERATION_ENTRIES - a.entries then Failed(OperationEntryCapacityExceeded)
      else NormalizeFrom(estimates, i + 1, sofar.With(PURPOSES[i], a))
  }

  function Normalize(estimates: map<Purpose, Amount>): Outcome<PerPurpose<Amount>> {
    if estimates == map[] then Failed(InvalidCapacityEstimate) else NormalizeFrom(estimates, 0, NOTHING)
  }

  /** The first purpose, in order, whose ceiling the new estimate would break. */
  function UnfitFrom(s: Ledger, estimates: PerPurpose<Amount>, i: nat): Option<Code>
    requires i <= 4
    decreases 4 - i
  {
    if i == 4 then None
    else
      var p := PURPOSES[i];
      var a := estimates.At(p);
      if a != ZERO && !Fits(s.Used().At(p).bytes, a.bytes, s.limits.ByteLimit(p)) then Some(StorageCapacityExceeded)
      else if a != ZERO && !Fits(s.Used().At(p).entries, a.entries, s.limits.EntryLimit(p)) then
        Some(StorageEntryCapacityExceeded)
      else UnfitFrom(s, estimates, i + 1)
  }

  /** Free disk space must cover every unsettled and retained byte besides the new request. */
  predicate FreeSpaceCovers(s: Ledger, bytes: int) {
    var unsettled := TotalBytes(s.reserved);
    var retained := TotalBytes(s.uncertain);
    unsettled <= s.freeBytes && retained <= s.freeBytes - unsettled && bytes <= s.freeBytes - unsettled - retained
  }

  function WithOperation(s: Ledger, operation: nat, state: OperationState): seq<Operation>
    requires operation < |s.operations|
  {
    s.operations[operation := s.operations[operation].(state := state)]
  }

  function Reserve(s: Ledger, operation: nat, estimates: map<Purpose, Amount>): Step<nat> {
    var normalized := Normalize(estimates);
    if normalized.Failed? then Step(s, Failed(normalized.code))
    else if !s.Live() then Step(s, Failed(StorageOwnerUnavailable))
    else if operation >= |s.operations| || s.operations[operation].state != Open then
      Step(s, Failed(OperationUnavailable))
    else
      var est := normalized.value;
      var unfit := UnfitFrom(s, est, 0);
      var assets := Added(s.Used(), est).temporary.Plus(Added(s.Used(), est).promoted);
      if unfit.Some? then Step(s, Failed(unfit.value))
      else if !FreeSpaceCovers(s, TotalBytes(est)) then Step(s, Failed(ObservedFreeCapacityInsufficient))
      else if assets.bytes > s.limits.assetBytes || assets.entries > s.limits.SharedEntryLimit() then
        Step(s, Failed(SharedAssetCapacityExceeded))
      else
        Step(s.(records := s.records + [Record(operation, est, Reserved, None, None, None)],
                operations := WithOperation(s, operation, OpReserved),
                reserved := Added(s.reserved, est)),
             Ok(|s.records|))
  }

  predicate HoldsReservation(s: Ledger, operation: nat, reservation: nat) {
    && reservation < |s.records| && s.records[reservation].operation == operation
    && s.records[reservation].state == Reserved
  }

  /** Give a held record's capacity back and mark record and operation as cancelled. */
  function Release(s: Ledger, i: nat): Ledger
    requires i < |s.records| && s.records[i].operation < |s.operations|
  {
    s.(reserved := Removed(s.reserved, s.records[i].estimates),
       records := s.records[i := s.records[i].(state := Cancelled)],
       operations := WithOperation(s, s.records[i].operation, OpCancelled))
  }

  function CancelBeforeWrite(s: Ledger, operation: nat, reservation: nat): Step<()>
    requires RecordsOwned(s)
  {
    if !HoldsReservation(s, operation, reservation) then
      Step(s, Failed(ReservationNotReleasable))
    else Step(Release(s, reservation), Ok(()))
  }

  function AdmitWrite(s: Ledger, operation: nat, reservation: nat): Step<nat>
    requires RecordsOwned(s)
  {
    if !s.Live() then Step(s, Failed(StorageOwnerUnavailable))
    else if !HoldsReservation(s, operation, reservation) then
      Step(s, Failed(ReservationUnavailable))
    else if s.activeWrite.Some? then Step(s, Failed(WriteAdmissionBusy))
    else
      Step(s.(records := s.records[reservation :=
                s.records[reservation].(state := Writing, write := Some(s.nextWrite))],
              operations := WithOperation(s, operation, OpWriting),
              activeWrite := Some(s.nextWrite), nextWrite := s.nextWrite + 1),
           Ok(s.nextWrite))
  }

  // ----- retaining uncertainty -----

  /** Move a held record's full estimate from reserved to uncertain. */
  function Retain(s: Ledger, i: nat): Ledger
    requires i < |s.records| && s.records[i].operation < |s.operations|
  {
    if !s.records[i].Held() then s
    else
      var r := s.records[i];
      s.(reserved := Removed(s.reserved, r.estimates),
         uncertain := Added(s.uncertain, r.estimates),
         records := s.records[i := r.(state := RetainedAsUncertain)],
         operations := WithOperation(s, r.operation, OpRetained),
         activeWrite := if s.activeWrite == r.write then None else s.activeWrite)
  }

  ghost function RetainFrom(s: Ledger, i: nat): Ledger
    requires RecordsOwned(s) && i <= |s.records|
    decreases |s.records| - i
  {
    if i == |s.records| then s else RetainFrom(Retain(s, i), i + 1)
  }

  ghost function Close(s: Ledger): Ledger
    requires RecordsOwned(s)
  {
    if s.closed then s else RetainFrom(s, 0).(closed := true)
  }

  ghost function Invalidate(s: Ledger): Ledger
    requires RecordsOwned(s)
  {
    RetainFrom(s, 0).(invalid := true)
  }

  function FailActive<T>(s: Ledger, i: nat, code: Code): Step<T>
    requires i < |s.records| && s.records[i].operation < |s.operations|
  {
    Step(Retain(s, i).(invalid := true), Failed(code))
  }

  /** The first record holding this write token and in one of these states. */
  function FirstFrom(records: seq<Record>, write: nat, states: set<RecordState>, i: nat): (found: Option<nat>)
    requires i <= |records|
    ensures found.Some? ==>
              && i <= found.value < |records| && records[found.value].write == Some(write)
              && records[found.value].state in states
    ensures found.None? ==>
              forall j :: i <= j < |records| ==> !(records[j].write == Some(write) && records[j].state in states)
    decreases |records| - i
  {
    if i == |records| then None
    else if records[i].write == Some(write) && records[i].state in states then Some(i)
    else FirstFrom(records, write, states, i + 1)
  }

  /** The record of the write that may settle now, or nothing. */
  function ActiveRecord(s: Ledger, operation: nat, write: nat): Option<nat>
    requires RecordsOwned(s)
  {
    var found := FirstFrom(s.records, write, {Writing}, 0);
    if found.None? || s.records[found.value].operation != operation || s.activeWrite != Some(write)
    then None else found
  }

  function RetainUncertain(s: Ledger, operation: nat, write: nat): Step<()>
    requires RecordsOwned(s)
  {
    var i := ActiveRecord(s, operation, write);
    if i.None? then Step(s, Failed(WriteAdmissionUnavailable))
    else Step(Retain(s, i.value).(invalid := true), Ok(()))
  }

  function CancelWriteBeforeCreate(s: Ledger, operation: nat, write: nat): Step<()>
    requires RecordsOwned(s)
  {
    var i := ActiveRecord(s, operation, write);
    if !s.Live() then Step(s, Failed(StorageOwnerUnavailable))
    else if i.None? then Step(s, Failed(WriteAdmissionUnavailable))
    else if s.records[i.value].replacement.Some? then Step(s, Failed(JournalPrecreateProofRequired))
    else Step(Release(s, i.value).(activeWrite := None), Ok(()))
  }

  // ----- completing an additive write -----

  predicate Contains(whole: Directory, part: Directory) {
    forall name :: name in part ==> name in whole && whole[name] == part[name]
  }

  /** What the new directory adds to the old one; nothing if an old file changed or a limit is broken. */
  ghost function DirectoryDelta(limits: Limits, p: Purpose, before: Directory, after: Directory): Option<Amount> {
    if !Contains(after, before) || |after| > MAX_INVENTORY_ENTRIES || |after| > limits.EntryLimit(p)
       || exists name :: name in after && name !in before && after[name].size < 0
    then None
    else Some(FileAmount(after - before.Keys))
  }

  ghost function InventoryDelta(limits: Limits, before: Inventory, after: Inventory): Option<PerPurpose<Amount>> {
    var j := DirectoryDelta(limits, PrivateJournal, before.journal, after.journal);
    var t := DirectoryDelta(limits, TemporaryContainment, before.temporary, after.temporary);
    var r := DirectoryDelta(limits, RetainedUncertain, before.retained, after.retained);
    var p := DirectoryDelta(limits, PromotedAssets, before.promoted, after.promoted);
    if j.None? || t.None? || r.None? || p.None?
       || |after.temporary| + |after.promoted| > limits.SharedEntryLimit()
    then None
    else Some(PerPurpose(j.value, t.value, r.value, p.value))
  }

  /** Why this inventory does not settle the write of record `i`, if it does not. */
  ghost function WriteRefusal(s: Ledger, i: nat, after: Inventory): Option<Code>
    requires s.inventory.Some? && i < |s.records|
  {
    var delta := InventoryDelta(s.limits, s.inventory.value, after);
    if s.records[i].replacement.Some? then Some(JournalCommitRequired)
    else if delta.None? then Some(StorageInventoryChanged)
    else if delta.value == NOTHING then Some(NoNewStorageObserved)
    else if !AllWithin(delta.value, s.records[i].estimates) then Some(ObservedUsageExceededReservation)
    else None
  }

  function CommitWrite(s: Ledger, i: nat, delta: PerPurpose<Amount>, after: Inventory, free: Option<int>): Ledger
    requires i < |s.records| && s.records[i].operation < |s.operations|
  {
    s.(reserved := Removed(s.reserved, s.records[i].estimates),
       observed := Added(s.observed, delta),
       records := s.records[i := s.records[i].(state := Completed, delta := Some(delta))],
       operations := WithOperation(s, s.records[i].operation, OpCompleted),
       activeWrite := None, inventory := Some(after),
       freeBytes := if free.Some? then free.value else s.freeBytes)
  }

  ghost function CompleteWrite(s: Ledger, operation: nat, write: nat, after: Inventory, free: Option<int>): Step<()>
    requires RecordsOwned(s)
  {
    if free.Some? && !ValidFreeBytes(free.value) then Step(s, Failed(InvalidFreeCapacityObservation))
    else if !s.Live() then Step(s, Failed(StorageOwnerUnavailable))
    else
      var found := ActiveRecord(s, operation, write);
      if found.None? then Step(s, Failed(WriteAdmissionUnavailable))
      else
        var refusal := WriteRefusal(s, found.value, after);
        if refusal.Some? then FailActive(s, found.value, refusal.value)
        else
          var delta := InventoryDelta(s.limits, s.inventory.value, after).value;
          Step(CommitWrite(s, found.value, delta, after, free), Ok(()))
  }

  /** Whether record `r` is a committed additive write that can still be counted as uncertain. */
  predicate WriteCompensable(s: Ledger, r: Record, delta: PerPurpose<Amount>)
    requires r.operation < |s.operations|
  {
    && r.state == Completed && r.replacement.None? && s.operations[r.operation].state == OpCompleted
    && s.activeWrite.None? && r.delta == Some(delta) && AllWithin(NOTHING, delta) && AllWithin(delta, s.observed)
  }

  /** Keep a completed write's full bound because its joint owner failed to publish it. */
  function CompensateWrite(s: Ledger, operation: nat, write: nat, delta: PerPurpose<Amount>): Step<()>
    requires RecordsOwned(s)
  {
    var found := FirstFrom(s.records, write, ANY_STATE, 0);
    if found.None? || s.records[found.value].operation != operation then Step(s, Failed(WriteAdmissionUnavailable))
    else
      var r := s.records[found.value];
      if r.state == Uncertain && r.delta == Some(delta) && s.operations[operation].state == OpUncertain then
        Step(s, Ok(()))
      else if !WriteCompensable(s, r, delta) then Step(s, Failed(WriteAdmissionUnavailable))
      else
        Step(s.(observed := Removed(s.observed, delta),
                uncertain := Added(s.uncertain, r.estimates),
                records := s.records[found.value := r.(state := Uncertain)],
                operations := WithOperation(s, operation, OpUncertain),
                invalid := true),
             Ok(()))
  }

  const ANY_STATE: set<RecordState> := {Reserved, Writing, Completed, Cancelled, RetainedAsUncertain, Uncertain}

  // ----- replacing a journal in place -----

  const REPLACEMENT_ESTIMATE: PerPurpose<Amount> := PerPurpose(Amount(JOURNAL_BYTES, 2), ZERO, ZERO, ZERO)

  const ZEROS: string := "00000000"

  const ZERO_DIGEST: string := ZEROS + ZEROS + ZEROS + ZEROS + ZEROS + ZEROS + ZEROS + ZEROS

  predicate IsDigest(digest: string) {
    |digest| == 64 && forall i :: 0 <= i < |digest| ==> '0' <= digest[i] <= '9' || 'a' <= digest[i] <= 'f'
  }

  function RowOf(files: Directory, name: string): Option<Row> {
    if name in files then Some(files[name]) else None
  }

  function SizeOf(row: Option<Row>): int { if row.Some? then row.value.size else 0 }

  /** The binding names this ledger, this operation and the inventory as it stands. */
  predicate BindingCurrent(s: Ledger, operation: nat, b: Binding, view: JournalView)
    requires s.inventory.Some?
  {
    && b.issued && b.admissionOwner == s.owner
    && operation < |s.operations| && s.operations[operation].id == b.operationId
    && (s.operations[operation].state == Open || s.operations[operation].state == JournalCompleted)
    && b.filename == b.operationId + ".json" && 0 <= b.previousRevision
    && view.rootMatches && (b.leased ==> view.leaseCurrent)
    && s.inventory.value == b.priorInventory
  }

  /** The binding's previous revision is what the ledger last committed for that file. */
  predicate TipMatches(s: Ledger, operation: nat, b: Binding)
    requires s.inventory.Some?
  {
    var row := RowOf(s.inventory.value.journal, b.filename);
    if b.previousRevision == 0 then
      && b.previousDigest == ZERO_DIGEST && b.previousFileIdentity.None? && b.previousNativeRow.None?
      && b.previousAcknowledgement.None? && row.None? && b.filename !in s.journalFiles
      && b.operationId !in s.journalWriters
    else
      && b.filename in s.journalFiles && b.operationId in s.journalWriters
      && (var f := s.journalFiles[b.filename];
          && f.operation == operation && f.writer == b.writer && f.schema == b.schema
          && f.revision == b.previousRevision && f.digest == b.previousDigest
          && Some(f.fileIdentity) == b.previousFileIdentity && Some(f.nativeRow) == b.previousNativeRow
          && Some(f.acknowledgement) == b.previousAcknowledgement)
      && s.journalWriters[b.operationId] == JournalWriter(operation, b.writer, b.schema)
      && row.Some? && row == b.previousNativeRow
  }

  ghost predicate ReplacementFits(s: Ledger, b: Binding)
    requires s.inventory.Some?
  {
    var oldSize := SizeOf(RowOf(s.inventory.value.journal, b.filename));
    var current := FileAmount(s.inventory.value.journal);
    && oldSize <= JOURNAL_BYTES && oldSize + JOURNAL_BYTES <= JOURNAL_LIVE_BYTES
    && current.bytes + JOURNAL_BYTES <= JOURNAL_LIVE_BYTES
    && current.bytes - oldSize + JOURNAL_BYTES + s.reserved.journal.bytes <= s.limits.journalBytes
    && current.entries + 2 + s.reserved.journal.entries <= s.limits.journalEntries
  }

  ghost function AdmitReplacement(s: Ledger, operation: nat, b: Binding, view: JournalView): Step<nat> {
    if !s.Live() then Step(s, Failed(StorageOwnerUnavailable))
    else if !BindingCurrent(s, operation, b, view) then Step(s, Failed(JournalBindingInvalid))
    else if s.activeWrite.Some? then Step(s, Failed(WriteAdmissionBusy))
    else if !IsDigest(b.previousDigest) then Step(s, Failed(JournalBindingInvalid))
    else if !TipMatches(s, operation, b) then Step(s, Failed(JournalRevisionConflict))
    else if !ReplacementFits(s, b) then Step(s, Failed(JournalCapacityExceeded))
    else if !FreeSpaceCovers(s, JOURNAL_BYTES) then Step(s, Failed(ObservedFreeCapacityInsufficient))
    else
      Step(s.(records := s.records
                         + [Record(operation, REPLACEMENT_ESTIMATE, Writing, Some(s.nextWrite), Some(b), None)],
              reserved := Added(s.reserved, REPLACEMENT_ESTIMATE),
              operations := WithOperation(s, operation, OpWriting),
              activeWrite := Some(s.nextWrite), nextWrite := s.nextWrite + 1),
           Ok(s.nextWrite))
  }

  predicate CompletionCurrent(s: Ledger, b: Binding, view: JournalView, c: Completion)
    requires s.inventory.Some?
  {
    && c.issued && c.binding == b && b.admissionOwner == s.owner
    && (b.leased ==> view.leaseCurrent) && s.inventory.value == b.priorInventory
  }

  predicate NewRowAcceptable(previous: Option<Row>, row: Option<Row>, c: Completion) {
    && row.Some? && row.value == c.nativeRow && 0 < row.value.size <= JOURNAL_BYTES
    && (previous.Some? ==>
          row.value.identity != previous.value.identity && row.value.acl == previous.value.acl)
  }

  predicate IdentityUnique(inventory: Inventory, filename: string, identity: Identity) {
    && (forall name :: name in inventory.journal && name != filename ==>
                         inventory.journal[name].identity != identity)
    && (forall name :: name in inventory.temporary ==> inventory.temporary[name].identity != identity)
    && (forall name :: name in inventory.retained ==> inventory.retained[name].identity != identity)
    && (forall name :: name in inventory.promoted ==> inventory.promoted[name].identity != identity)
  }

  /** The acknowledgement is the bound writer's live tip, exactly one revision on. */
  predicate AcknowledgesNext(b: Binding, view: JournalView, c: Completion) {
    var ack := c.acknowledgement;
    && ack.schema == b.schema && (ack.schema == MultiRequestSchema ==> view.tip == Some(ack.serial))
    && ack.operationId == b.operationId && view.operationId == b.operationId
    && ack.revision == b.previousRevision + 1 && ack.digest == view.digest
    && ack.fileIdentity == c.fileIdentity && view.revision == b.previousRevision + 1
    && view.fileIdentity == Some(c.fileIdentity)
  }

  /** Why this inventory and acknowledgement do not commit replacement `b`, if they do not. */
  ghost function ReplacementRefusal(s: Ledger, b: Binding, after: Inventory, view: JournalView, c: Completion): Option<Code>
    requires s.inventory.Some?
  {
    var before := s.inventory.value;
    var previous := RowOf(before.journal, b.filename);
    var row := RowOf(after.journal, b.filename);
    if !CompletionCurrent(s, b, view, c) then Some(JournalInventoryConflict)
    else if (if b.previousRevision == 0 then previous.Some? else previous != b.previousNativeRow) then
      Some(JournalRevisionConflict)
    else if !NewRowAcceptable(previous, row, c) then Some(JournalIdentityConflict)
    else if after != before.(journal := before.journal[b.filename := row.value]) then Some(JournalInventoryConflict)
    else if !IdentityUnique(after, b.filename, row.value.identity) then Some(JournalIdentityConflict)
    else if !AcknowledgesNext(b, view, c) then Some(JournalAckConflict)
    else if Bytes(after.journal) > s.limits.journalBytes then Some(JournalCapacityExceeded)
    else if previous.Some? && (s.observed.journal.bytes < previous.value.size || s.observed.journal.entries < 1) then
      Some(JournalAccountingConflict)
    else None
  }

  /** The previous size leaves the observed counters and the new one enters. */
  function ObservedAfter(seen: PerPurpose<Amount>, previous: Option<Row>, row: Row): PerPurpose<Amount> {
    var replaced := if previous.Some? then Amount(previous.value.size, 1) else ZERO;
    seen.(journal := seen.journal.Minus(replaced).Plus(Amount(row.size, 1)))
  }

  /** Commit replacement `b` of record `i`. */
  function CommitReplacement(s: Ledger, i: nat, b: Binding, row: Row, after: Inventory, free: int, c: Completion): Ledger
    requires i < |s.records| && s.records[i].operation < |s.operations| && s.inventory.Some?
  {
    var operation := s.records[i].operation;
    s.(reserved := Removed(s.reserved, s.records[i].estimates),
       observed := ObservedAfter(s.observed, RowOf(s.inventory.value.journal, b.filename), row),
       records := s.records[i := s.records[i].(state := Completed)],
       operations := WithOperation(s, operation, JournalCompleted),
       activeWrite := None, inventory := Some(after), freeBytes := free,
       journalFiles := s.journalFiles[b.filename :=
         JournalFile(operation, b.writer, b.schema, b.previousRevision + 1, c.acknowledgement.digest,
                     c.fileIdentity, row, c.acknowledgement)],
       journalWriters := s.journalWriters[b.operationId := JournalWriter(operation, b.writer, b.schema)])
  }

  ghost function CompleteReplacement(
    s: Ledger, operation: nat, write: nat, after: Inventory, free: int, view: JournalView, c: Completion): Step<()>
    requires RecordsOwned(s)
  {
    if !ValidFreeBytes(free) then Step(s, Failed(InvalidFreeCapacityObservation))
    else if !s.Live() then Step(s, Failed(StorageOwnerUnavailable))
    else
      var found := ActiveRecord(s, operation, write);
      if found.None? then Step(s, Failed(WriteAdmissionUnavailable))
      else if s.records[found.value].replacement.None? then FailActive(s, found.value, JournalCommitInvalid)
      else
        var b := s.records[found.value].replacement.value;
        var refusal := ReplacementRefusal(s, b, after, view, c);
        if refusal.Some? then FailActive(s, found.value, refusal.value)
        else
          Step(CommitReplacement(s, found.value, b, after.journal[b.filename], after, free, c), Ok(()))
  }

  /** The committed replacement is still the only thing that changed since it was admitted. */
  predicate CompensationCurrent(s: Ledger, operation: nat, r: Record, b: Binding)
    requires s.inventory.Some? && operation < |s.operations|
  {
    var prior := b.priorInventory;
    var current := s.inventory.value;
    var row := RowOf(current.journal, b.filename);
    && b.issued && s.operations[operation].id == b.operationId && b.admissionOwner == s.owner
    && s.operations[operation].state == JournalCompleted && s.activeWrite.None?
    && RowOf(prior.journal, b.filename) == b.previousNativeRow
    && (b.previousRevision == 0 <==> b.previousNativeRow.None?)
    && prior.temporary == current.temporary && prior.retained == current.retained
    && prior.promoted == current.promoted
    && prior.journal - {b.filename} == current.journal - {b.filename}
    && row.Some? && 0 < row.value.size
    && b.filename in s.journalFiles && b.operationId in s.journalWriters
    && (var f := s.journalFiles[b.filename];
        && f.operation == operation && f.writer == b.writer && f.schema == b.schema
        && f.revision == b.previousRevision + 1 && f.nativeRow == row.value)
    && s.journalWriters[b.operationId] == JournalWriter(operation, b.writer, b.schema)
    && (b.previousNativeRow.Some? ==> 0 < b.previousNativeRow.value.size)
    && r.estimates.journal == Amount(JOURNAL_BYTES, 2)
    && row.value.size <= s.observed.journal.bytes && 1 <= s.observed.journal.entries
  }

  /** Count the previous journal again, and keep the replacement's full bound as uncertain. */
  function ReopenReplacement(s: Ledger, i: nat, b: Binding): Ledger
    requires i < |s.records| && s.records[i].operation < |s.operations|
    requires s.inventory.Some? && b.filename in s.inventory.value.journal
  {
    var current := Amount(s.inventory.value.journal[b.filename].size, 1);
    var prior := if b.previousNativeRow.Some? then Amount(b.previousNativeRow.value.size, 1) else ZERO;
    s.(observed := s.observed.(journal := s.observed.journal.Minus(current).Plus(prior)),
       uncertain := s.uncertain.(journal := s.uncertain.journal.Plus(s.records[i].estimates.journal)),
       records := s.records[i := s.records[i].(state := RetainedAsUncertain)],
       operations := WithOperation(s, s.records[i].operation, OpRetained),
       invalid := true)
  }

  function CompensateReplacement(s: Ledger, operation: nat, write: nat): Step<()>
    requires RecordsOwned(s)
  {
    var found := FirstFrom(s.records, write, {Completed}, 0);
    if found.None? || s.records[found.value].operation != operation
       || s.records[found.value].replacement.None? || s.inventory.None?
       || !CompensationCurrent(s, operation, s.records[found.value], s.records[found.value].replacement.value) then
      Step(s, Failed(JournalUncertainUnavailable))
    else Step(ReopenReplacement(s, found.value, s.records[found.value].replacement.value), Ok(()))
  }

  ghost function ObserveInventory(s: Ledger, inventory: Inventory, free: Option<int>): Step<()>
    requires RecordsOwned(s)
  {
    if free.Some? && !ValidFreeBytes(free.value) then Step(s, Failed(InvalidFreeCapacityObservation))
    else if !s.Live() then Step(s, Failed(StorageOwnerUnavailable))
    else if inventory != s.inventory.value then Step(Invalidate(s), Failed(StorageInventoryChanged))
    else Step(s.(freeBytes := if free.Some? then free.value else s.freeBytes), Ok(()))
  }
}
