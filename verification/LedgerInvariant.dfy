/** What every ledger state reachable from a captured inventory satisfies. Each part of the invariant names only
    the fields it speaks about. */
module LedgerInvariant {
  import opened CapacityTypes
  import opened LedgerSpec

  // ----- sums over the reservations ever issued -----

  /** What one record contributes: to reserved capacity, to retained uncertainty, or to the journal bytes by
      which an in-place replacement may pass the journal ceiling. */
  datatype Facet = HeldShare | RetainedShare | OverhangShare

  /** A replacement that is in progress or was cut off. */
  predicate Replacing(r: Record) {
    r.replacement.Some? && (r.state == Writing || r.state == RetainedAsUncertain)
  }

  function Weight(r: Record, f: Facet): PerPurpose<Amount> {
    match f
    case HeldShare => if r.Held() then r.estimates else NOTHING
    case RetainedShare => if r.state == RetainedAsUncertain || r.state == Uncertain then r.estimates else NOTHING
    case OverhangShare =>
      if Replacing(r) then NOTHING.(journal := Amount(SizeOf(r.replacement.value.previousNativeRow), 0)) else NOTHING
  }

  function Shares(records: seq<Record>, f: Facet): seq<PerPurpose<Amount>> {
    seq(|records|, i requires 0 <= i < |records| => Weight(records[i], f))
  }

  function SumTo(shares: seq<PerPurpose<Amount>>, n: nat): PerPurpose<Amount>
    requires n <= |shares|
  {
    if n == 0 then NOTHING else Added(SumTo(shares, n - 1), shares[n - 1])
  }

  function Sum(records: seq<Record>, f: Facet): PerPurpose<Amount> {
    SumTo(Shares(records, f), |Shares(records, f)|)
  }

  lemma {:induction false} SumToUpdate(shares: seq<PerPurpose<Amount>>, i: nat, a: PerPurpose<Amount>, n: nat)
    requires i < |shares| && n <= |shares|
    ensures SumTo(shares[i := a], n)
            == if i < n then Added(Removed(SumTo(shares, n), shares[i]), a) else SumTo(shares, n)
  {
    if n > 0 {
      SumToUpdate(shares, i, a, n - 1);
    }
  }

  lemma {:induction false} SumToExtend(shares: seq<PerPurpose<Amount>>, a: PerPurpose<Amount>, n: nat)
    requires n <= |shares|
    ensures SumTo(shares + [a], n) == SumTo(shares, n)
  {
    if n > 0 {
      SumToExtend(shares, a, n - 1);
    }
  }

  lemma {:induction false} SumToNatural(shares: seq<PerPurpose<Amount>>, n: nat)
    requires n <= |shares| && forall j :: 0 <= j < n ==> AllNatural(shares[j])
    ensures AllNatural(SumTo(shares, n))
  {
    if n > 0 {
      SumToNatural(shares, n - 1);
    }
  }

  lemma {:induction false} SumToZero(shares: seq<PerPurpose<Amount>>, n: nat)
    requires n <= |shares| && forall j :: 0 <= j < n ==> shares[j] == NOTHING
    ensures SumTo(shares, n) == NOTHING
  {
    if n > 0 {
      SumToZero(shares, n - 1);
    }
  }

  lemma SumAppend(records: seq<Record>, r: Record, f: Facet)
    ensures Sum(records + [r], f) == Added(Sum(records, f), Weight(r, f))
  {
    var shares := Shares(records, f);
    assert Shares(records + [r], f) == shares + [Weight(r, f)];
    SumToExtend(shares, Weight(r, f), |shares|);
  }

  lemma SumUpdate(records: seq<Record>, i: nat, r: Record, f: Facet)
    requires i < |records|
    ensures Sum(records[i := r], f) == Added(Removed(Sum(records, f), Weight(records[i], f)), Weight(r, f))
  {
    var shares := Shares(records, f);
    assert Shares(records[i := r], f) == shares[i := Weight(r, f)];
    SumToUpdate(shares, i, Weight(r, f), |shares|);
  }

  lemma SumZero(records: seq<Record>, f: Facet)
    requires forall i :: 0 <= i < |records| ==> Weight(records[i], f) == NOTHING
    ensures Sum(records, f) == NOTHING
  {
    SumToZero(Shares(records, f), |records|);
  }

  /** One record's share is at most the sum, when no share is negative. */
  lemma SumAtLeast(records: seq<Record>, i: nat, f: Facet)
    requires i < |records|
    requires forall j :: 0 <= j < |records| ==> AllNatural(Weight(records[j], f))
    ensures AllWithin(Weight(records[i], f), Sum(records, f))
  {
    var shares := Shares(records, f);
    SumToUpdate(shares, i, NOTHING, |shares|);
    SumToNatural(shares[i := NOTHING], |shares|);
  }

  /** And so are the shares of two records together. */
  lemma SumAtLeastTwo(records: seq<Record>, i: nat, j: nat, f: Facet)
    requires i < |records| && j < |records| && i != j
    requires forall k :: 0 <= k < |records| ==> AllNatural(Weight(records[k], f))
    ensures AllWithin(Added(Weight(records[i], f), Weight(records[j], f)), Sum(records, f))
  {
    var shares := Shares(records, f);
    SumToUpdate(shares, i, NOTHING, |shares|);
    var without := shares[i := NOTHING];
    SumToUpdate(without, j, NOTHING, |without|);
    SumToNatural(without[j := NOTHING], |without|);
  }

  // ----- the parts of the invariant -----

  /** Every record has its operation, write tokens are unique, and the active write names the one record that
      is writing. */
  ghost predicate Tokens(records: seq<Record>, operations: nat, activeWrite: Option<nat>, nextWrite: nat) {
    && (forall i {:trigger records[i]} :: 0 <= i < |records| ==>
          && records[i].operation < operations
          && (records[i].write.Some? ==> records[i].write.value < nextWrite)
          && (records[i].state == Reserved ==> records[i].write.None? && records[i].replacement.None?)
          && (records[i].state == Writing ==> records[i].write.Some? && activeWrite == records[i].write)
          && (records[i].replacement.Some? ==> records[i].estimates == REPLACEMENT_ESTIMATE))
    && (forall i, j :: 0 <= i < j < |records| && records[i].write.Some? ==> records[i].write != records[j].write)
    && (activeWrite.Some? ==> exists i :: 0 <= i < |records| && records[i].state == Writing)
  }

  /** The state of an operation while one of its records is unsettled. */
  function Shadow(state: RecordState): Option<OperationState> {
    match state
    case Reserved => Some(OpReserved)
    case Writing => Some(OpWriting)
    case RetainedAsUncertain => Some(OpRetained)
    case _ => None
  }

  predicate Busy(state: OperationState) { state == OpReserved || state == OpWriting || state == OpRetained }

  ghost predicate Unsettled(records: seq<Record>, operation: nat, i: nat) {
    i < |records| && records[i].operation == operation && Shadow(records[i].state).Some?
  }

  /** Operation states track record states, and no operation has two held records. */
  ghost predicate Tracked(records: seq<Record>, operations: seq<Operation>) {
    && (forall i :: 0 <= i < |records| && Shadow(records[i].state).Some? ==>
          && records[i].operation < |operations|
          && Some(operations[records[i].operation].state) == Shadow(records[i].state))
    && (forall i, j :: 0 <= i < j < |records| && records[i].Held() && records[j].Held() ==>
          records[i].operation != records[j].operation)
    && (forall k :: 0 <= k < |operations| && Busy(operations[k].state) ==> exists i :: Unsettled(records, k, i))
  }

  /** Conservation: reserved and uncertain capacity are exactly what the records account for, beside the base
      retained at capture. */
  ghost predicate Conserved(
    records: seq<Record>, reserved: PerPurpose<Amount>, uncertain: PerPurpose<Amount>, base: PerPurpose<Amount>)
  {
    && reserved == Sum(records, HeldShare)
    && uncertain == Added(base, Sum(records, RetainedShare))
  }

  /** Estimates are never negative, and every reservation asks for something. */
  ghost predicate Positive(records: seq<Record>) {
    forall i :: 0 <= i < |records| ==>
      AllNatural(records[i].estimates) && 0 < TotalEntries(records[i].estimates)
  }

  ghost predicate NewFilesObserved(now: Directory, initial: Directory, observed: Amount) {
    && Contains(now, initial)
    && observed == FileAmount(now - initial.Keys)
    && forall name :: name in now && name !in initial ==> 0 <= now[name].size
  }

  /** The observed counters are exactly the files that appeared since capture. */
  ghost predicate FilesObserved(inventory: Inventory, observed: PerPurpose<Amount>, initial: Inventory) {
    && NewFilesObserved(inventory.journal, initial.journal, observed.journal)
    && NewFilesObserved(inventory.temporary, initial.temporary, observed.temporary)
    && NewFilesObserved(inventory.retained, initial.retained, observed.retained)
    && NewFilesObserved(inventory.promoted, initial.promoted, observed.promoted)
  }

  /** The journals the ledger has committed are among the files that appeared since capture, as committed. */
  ghost predicate JournalsPresent(files: map<string, JournalFile>, now: Directory, initial: Directory) {
    forall name :: name in files ==>
      name in now && name !in initial && now[name] == files[name].nativeRow && 0 < now[name].size
  }

  /** A replacement in progress, or cut off by closing, is bound to the inventory as it stands. */
  ghost predicate BoundToInventory(records: seq<Record>, inventory: Inventory, files: map<string, JournalFile>) {
    forall i :: 0 <= i < |records| && Replacing(records[i]) ==>
      var b := records[i].replacement.value;
      && b.priorInventory == inventory
      && b.previousNativeRow == RowOf(inventory.journal, b.filename)
      && (b.previousNativeRow.Some? ==> b.filename in files)
      && 0 <= SizeOf(b.previousNativeRow) <= JOURNAL_BYTES
  }

  /** Each purpose is within its limits; the private journal may pass its byte ceiling by the overhang. */
  predicate Bounded(limits: Limits, used: PerPurpose<Amount>, overhang: int) {
    && used.temporary.Within(limits.For(TemporaryContainment))
    && used.retained.Within(limits.For(RetainedUncertain))
    && used.promoted.Within(limits.For(PromotedAssets))
    && used.journal.entries <= limits.journalEntries
    && used.journal.bytes <= limits.journalBytes + overhang
    && 0 <= overhang <= JOURNAL_BYTES
    && used.temporary.bytes + used.promoted.bytes <= limits.assetBytes
    && used.temporary.entries + used.promoted.entries <= limits.SharedEntryLimit()
  }

  /** A live ledger has retained nothing yet; a closed one holds nothing any more. */
  ghost predicate Phase(records: seq<Record>, closed: bool, invalid: bool) {
    && (!closed && !invalid ==>
          forall i :: 0 <= i < |records| ==> records[i].state != RetainedAsUncertain && records[i].state != Uncertain)
    && (closed ==> forall i :: 0 <= i < |records| ==> !records[i].Held())
  }

  function OverhangOf(records: seq<Record>): int { Sum(records, OverhangShare).journal.bytes }

  /** The inventory a ledger was opened on, with what it amounts to. */
  datatype Capture = Capture(files: Inventory, base: PerPurpose<Amount>)

  ghost predicate Measured(initial: Capture) { initial.base == InventoryAmount(initial.files) }

  /** The part that holds even between two retained records while a ledger is closing. */
  ghost predicate Core(s: Ledger, initial: Capture) {
    && s.limits.Valid() && s.inventory.Some? && AllNatural(initial.base)
    && Tokens(s.records, |s.operations|, s.activeWrite, s.nextWrite)
    && Tracked(s.records, s.operations)
    && Conserved(s.records, s.reserved, s.uncertain, initial.base)
    && Positive(s.records)
    && (!s.invalid ==> Clean(s, initial))
  }

  /** What holds while nothing has gone wrong. */
  ghost predicate Clean(s: Ledger, initial: Capture)
    requires s.inventory.Some?
  {
    && FilesObserved(s.inventory.value, s.observed, initial.files)
    && JournalsPresent(s.journalFiles, s.inventory.value.journal, initial.files.journal)
    && BoundToInventory(s.records, s.inventory.value, s.journalFiles)
    && Bounded(s.limits, s.Used(), OverhangOf(s.records))
  }

  ghost predicate Inv(s: Ledger, initial: Capture) {
    Core(s, initial) && Phase(s.records, s.closed, s.invalid)
  }

  // ----- structure: one record appended, or one record changed -----

  lemma AppendKeepsTokens(records: seq<Record>, operations: nat, active: Option<nat>, next: nat, r: Record)
    requires Tokens(records, operations, active, next) && r.operation < operations && r.Held()
    requires r.replacement.Some? ==> r.estimates == REPLACEMENT_ESTIMATE
    requires if r.state == Writing then r.write == Some(next) && active.None? else r.write.None? && r.replacement.None?
    ensures if r.state == Writing then Tokens(records + [r], operations, Some(next), next + 1)
            else Tokens(records + [r], operations, active, next)
  {
    var n := |records|;
    var after := records + [r];
    assert after[n] == r && forall i :: 0 <= i < n ==> after[i] == records[i];
    if active.Some? {
      var i :| 0 <= i < n && records[i].state == Writing;
      assert after[i].state == Writing;
    }
  }

  lemma AppendKeepsTracked(records: seq<Record>, operations: seq<Operation>, r: Record, opState: OperationState)
    requires Tracked(records, operations) && r.operation < |operations|
    requires operations[r.operation].state == Open || operations[r.operation].state == JournalCompleted
    requires Some(opState) == Shadow(r.state) && r.Held()
    ensures Tracked(records + [r], operations[r.operation := operations[r.operation].(state := opState)])
  {
    var n := |records|;
    var after := records + [r];
    var ops := operations[r.operation := operations[r.operation].(state := opState)];
    assert after[n] == r && forall i :: 0 <= i < n ==> after[i] == records[i];
    assert forall i :: 0 <= i < n && records[i].operation == r.operation ==> Shadow(records[i].state).None?;
    forall k | 0 <= k < |ops| && Busy(ops[k].state)
      ensures exists i :: Unsettled(after, k, i)
    {
      if k == r.operation {
        assert Unsettled(after, k, n);
      } else {
        var i :| Unsettled(records, k, i);
        assert Unsettled(after, k, i);
      }
    }
  }

  /** The moves a record may make, and the operation state that goes with each. */
  predicate Moves(before: Record, after: Record, opBefore: OperationState, opAfter: OperationState) {
    && after.operation == before.operation && after.estimates == before.estimates
    && after.replacement == before.replacement
    && (before.state == Reserved || after.write == before.write)
    && (match (before.state, after.state)
        case (Reserved, Writing) => opAfter == OpWriting && after.write.Some?
        case (Reserved, Cancelled) => opAfter == OpCancelled && after.write.None?
        case (Reserved, RetainedAsUncertain) => opAfter == OpRetained && after.write.None?
        case (Writing, Cancelled) => opAfter == OpCancelled
        case (Writing, Completed) => opAfter == OpCompleted || opAfter == JournalCompleted
        case (Writing, RetainedAsUncertain) => opAfter == OpRetained
        case (Completed, Uncertain) => opBefore == OpCompleted && opAfter == OpUncertain
        case (Completed, RetainedAsUncertain) => opBefore == JournalCompleted && opAfter == OpRetained
        case _ => false)
  }

  lemma ChangeKeepsTokens(
    records: seq<Record>, operations: nat, active: Option<nat>, next: nat, i: nat, r: Record,
    opBefore: OperationState, opAfter: OperationState)
    requires Tokens(records, operations, active, next) && i < |records|
    requires Moves(records[i], r, opBefore, opAfter)
    requires r.state == Writing ==> r.write == Some(next) && active.None?
    ensures if r.state == Writing then Tokens(records[i := r], operations, Some(next), next + 1)
            else Tokens(records[i := r], operations, if records[i].state == Writing then None else active, next)
  {
    var after := records[i := r];
    assert after[i] == r && forall j :: 0 <= j < |records| && j != i ==> after[j] == records[j];
    if r.state == Writing {
      assert after[i].state == Writing;
    } else if active.Some? {
      var j :| 0 <= j < |records| && records[j].state == Writing;
      assert after[j].state == Writing || j == i;
    }
  }

  lemma ChangeKeepsTracked(
    records: seq<Record>, operations: seq<Operation>, i: nat, r: Record, opAfter: OperationState)
    requires Tracked(records, operations) && i < |records| && r.operation < |operations|
    requires Moves(records[i], r, operations[r.operation].state, opAfter)
    ensures Tracked(records[i := r], operations[r.operation := operations[r.operation].(state := opAfter)])
  {
    var after := records[i := r];
    var ops := operations[r.operation := operations[r.operation].(state := opAfter)];
    assert after[i] == r && forall j :: 0 <= j < |records| && j != i ==> after[j] == records[j];
    forall j | 0 <= j < |records| && j != i && records[j].operation == r.operation
      ensures Shadow(records[j].state).None?
    {
      assert records[i].Held() ==> !records[j].Held();
    }
    forall k | 0 <= k < |ops| && Busy(ops[k].state)
      ensures exists j :: Unsettled(after, k, j)
    {
      if k == r.operation {
        assert Unsettled(after, k, i);
      } else {
        var j :| Unsettled(records, k, j);
        assert Unsettled(after, k, j);
      }
    }
  }

  // ----- conservation: the same two shapes -----

  lemma ChangeKeepsConserved(
    records: seq<Record>, reserved: PerPurpose<Amount>, uncertain: PerPurpose<Amount>, base: PerPurpose<Amount>,
    i: nat, r: Record)
    requires Conserved(records, reserved, uncertain, base) && i < |records|
    ensures Conserved(records[i := r],
                      Added(Removed(reserved, Weight(records[i], HeldShare)), Weight(r, HeldShare)),
                      Added(Removed(uncertain, Weight(records[i], RetainedShare)), Weight(r, RetainedShare)),
                      base)
  {
    SumUpdate(records, i, r, HeldShare);
    SumUpdate(records, i, r, RetainedShare);
  }

  lemma AppendKeepsConserved(
    records: seq<Record>, reserved: PerPurpose<Amount>, uncertain: PerPurpose<Amount>, base: PerPurpose<Amount>, r: Record)
    requires Conserved(records, reserved, uncertain, base) && r.Held()
    ensures Conserved(records + [r], Added(reserved, r.estimates), uncertain, base)
  {
    SumAppend(records, r, HeldShare);
    SumAppend(records, r, RetainedShare);
  }
}
