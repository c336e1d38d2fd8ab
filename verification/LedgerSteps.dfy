/** Each ledger operation keeps the invariant. */
module LedgerSteps {
  import opened CapacityTypes
  import opened LedgerSpec
  import opened LedgerInvariant

  // ----- estimates -----

  predicate Wanted(a: Amount) { a == ZERO || ValidEstimate(a) }

  function IndexOf(p: Purpose): (k: nat)
    ensures k < 4 && PURPOSES[k] == p
  {
    match p
    case PrivateJournal => 0
    case TemporaryContainment => 1
    case RetainedUncertain => 2
    case PromotedAssets => 3
  }

  lemma {:induction false} NormalizeFromMeans(estimates: map<Purpose, Amount>, i: nat, sofar: PerPurpose<Amount>)
    requires i <= 4
    requires forall k :: i <= k < 4 ==> sofar.At(PURPOSES[k]) == ZERO
    ensures
      var r := NormalizeFrom(estimates, i, sofar);
      r.Ok? ==>
        forall k :: 0 <= k < 4 ==>
          if k < i || PURPOSES[k] !in estimates then r.value.At(PURPOSES[k]) == sofar.At(PURPOSES[k])
          else r.value.At(PURPOSES[k]) == estimates[PURPOSES[k]] && ValidEstimate(estimates[PURPOSES[k]])
    decreases 4 - i
  {
    if i < 4 {
      if PURPOSES[i] !in estimates {
        NormalizeFromMeans(estimates, i + 1, sofar);
      } else {
        NormalizeFromMeans(estimates, i + 1, sofar.With(PURPOSES[i], estimates[PURPOSES[i]]));
      }
    }
  }

  predicate RequestAccepted(estimates: map<Purpose, Amount>, est: PerPurpose<Amount>) {
    && (forall p: Purpose :: est.At(p) == if p in estimates then estimates[p] else ZERO)
    && Wanted(est.journal) && Wanted(est.temporary) && Wanted(est.retained) && Wanted(est.promoted)
    && AllNatural(est) && 0 < TotalEntries(est)
  }

  /** An accepted request keeps each estimate as given, asks for something, and asks for nothing negative. */
  lemma NormalizeMeans(estimates: map<Purpose, Amount>)
    ensures Normalize(estimates).Ok? ==> RequestAccepted(estimates, Normalize(estimates).value)
  {
    NormalizeFromMeans(estimates, 0, NOTHING);
    var r := Normalize(estimates);
    if r.Ok? {
      forall p: Purpose
        ensures r.value.At(p) == if p in estimates then estimates[p] else ZERO
        ensures Wanted(r.value.At(p))
        ensures p in estimates ==> 0 < r.value.At(p).entries
      {
        assert PURPOSES[IndexOf(p)] == p;
      }
      assert Wanted(r.value.At(PrivateJournal)) && Wanted(r.value.At(TemporaryContainment))
          && Wanted(r.value.At(RetainedUncertain)) && Wanted(r.value.At(PromotedAssets));
      var p :| p in estimates;
      assert 0 < r.value.At(p).entries;
    }
  }

  predicate FitsAt(used: PerPurpose<Amount>, limits: Limits, est: PerPurpose<Amount>, p: Purpose) {
    est.At(p) != ZERO ==> used.At(p).Plus(est.At(p)).Within(limits.For(p))
  }

  lemma {:induction false} UnfitFromMeans(s: Ledger, est: PerPurpose<Amount>, i: nat)
    requires i <= 4 && UnfitFrom(s, est, i).None?
    ensures forall k :: i <= k < 4 ==> FitsAt(s.Used(), s.limits, est, PURPOSES[k])
    decreases 4 - i
  {
    if i < 4 {
      UnfitFromMeans(s, est, i + 1);
    }
  }

  // ----- what the invariant says of one record -----

  lemma RecordFacts(s: Ledger, initial: Capture)
    requires Core(s, initial)
    ensures RecordsOwned(s)
  {
    hide Clean, Conserved, Positive, Tracked;
  }

  lemma RecordFactsAt(s: Ledger, i: nat, initial: Capture)
    requires Core(s, initial) && i < |s.records|
    ensures
      var r := s.records[i];
      && RecordsOwned(s)
      && r.operation < |s.operations| && AllNatural(r.estimates) && 0 < TotalEntries(r.estimates)
      && (r.state == Reserved ==> r.write.None? && r.replacement.None?)
      && (r.state == Writing ==> r.write.Some? && s.activeWrite == r.write)
      && (r.replacement.Some? ==> r.estimates == REPLACEMENT_ESTIMATE)
      && (Shadow(r.state).Some? ==> Some(s.operations[r.operation].state) == Shadow(r.state))
  {
    hide Clean, Conserved;
  }

  // ----- begin, reserve, cancel, admit -----

  lemma BeginKeepsTokens(records: seq<Record>, operations: nat, active: Option<nat>, next: nat)
    requires Tokens(records, operations, active, next)
    ensures Tokens(records, operations + 1, active, next)
  {
  }

  lemma BeginKeepsTracked(records: seq<Record>, operations: seq<Operation>, id: string)
    requires Tracked(records, operations)
    ensures Tracked(records, operations + [Operation(id, Open)])
  {
    var ops := operations + [Operation(id, Open)];
    forall k | 0 <= k < |ops| && Busy(ops[k].state)
      ensures exists i :: Unsettled(records, k, i)
    {
      assert ops[k] == operations[k];
    }
  }

  lemma SameAccountsStayClean(s: Ledger, t: Ledger, initial: Capture)
    requires s.inventory.Some? && Clean(s, initial)
    requires t == s.(operations := t.operations, freeBytes := t.freeBytes)
    ensures Clean(t, initial)
  {
  }

  lemma BeginKeepsInv(s: Ledger, id: string, initial: Capture)
    requires Inv(s, initial)
    ensures Inv(BeginOperation(s, id).next, initial)
  {
    hide Tokens, Tracked, Conserved, Positive, Clean, Phase;
    BeginKeepsTracked(s.records, s.operations, id);
    BeginKeepsTokens(s.records, |s.operations|, s.activeWrite, s.nextWrite);
    if !s.invalid {
      SameAccountsStayClean(s, BeginOperation(s, id).next, initial);
    }
  }

  lemma ReserveKeepsBounded(limits: Limits, used: PerPurpose<Amount>, est: PerPurpose<Amount>, overhang: int)
    requires Bounded(limits, used, overhang)
    requires FitsAt(used, limits, est, PrivateJournal) && FitsAt(used, limits, est, TemporaryContainment)
    requires FitsAt(used, limits, est, RetainedUncertain) && FitsAt(used, limits, est, PromotedAssets)
    requires Added(used, est).temporary.bytes + Added(used, est).promoted.bytes <= limits.assetBytes
    requires Added(used, est).temporary.entries + Added(used, est).promoted.entries <= limits.SharedEntryLimit()
    ensures Bounded(limits, Added(used, est), overhang)
  {
  }

  lemma AppendReservedStaysBound(records: seq<Record>, r: Record, inventory: Inventory, files: map<string, JournalFile>)
    requires BoundToInventory(records, inventory, files) && r.state == Reserved
    ensures BoundToInventory(records + [r], inventory, files)
  {
    var after := records + [r];
    assert forall i :: 0 <= i < |records| ==> after[i] == records[i];
  }

  lemma AppendReservedKeepsOverhang(records: seq<Record>, r: Record)
    requires r.state == Reserved
    ensures OverhangOf(records + [r]) == OverhangOf(records)
  {
    SumAppend(records, r, OverhangShare);
  }

  lemma ReserveUsed(reserved: PerPurpose<Amount>, observed: PerPurpose<Amount>, uncertain: PerPurpose<Amount>,
                    est: PerPurpose<Amount>)
    ensures Added(Added(Added(reserved, est), observed), uncertain)
            == Added(Added(Added(reserved, observed), uncertain), est)
  {
  }

  lemma ReserveKeepsClean(s: Ledger, t: Ledger, r: Record, initial: Capture)
    requires s.inventory.Some? && Clean(s, initial) && r.state == Reserved
    requires UnfitFrom(s, r.estimates, 0).None?
    requires Added(s.Used(), r.estimates).temporary.bytes + Added(s.Used(), r.estimates).promoted.bytes
             <= s.limits.assetBytes
    requires Added(s.Used(), r.estimates).temporary.entries + Added(s.Used(), r.estimates).promoted.entries
             <= s.limits.SharedEntryLimit()
    requires t.records == s.records + [r] && t.reserved == Added(s.reserved, r.estimates)
    requires t.limits == s.limits && t.inventory == s.inventory && t.observed == s.observed
    requires t.uncertain == s.uncertain && t.journalFiles == s.journalFiles
    ensures Clean(t, initial)
  {
    UnfitFromMeans(s, r.estimates, 0);
    assert FitsAt(s.Used(), s.limits, r.estimates, PURPOSES[0]) && FitsAt(s.Used(), s.limits, r.estimates, PURPOSES[1])
        && FitsAt(s.Used(), s.limits, r.estimates, PURPOSES[2]) && FitsAt(s.Used(), s.limits, r.estimates, PURPOSES[3]);
    ReserveKeepsBounded(s.limits, s.Used(), r.estimates, OverhangOf(s.records));
    AppendReservedStaysBound(s.records, r, s.inventory.value, s.journalFiles);
    AppendReservedKeepsOverhang(s.records, r);
    ReserveUsed(s.reserved, s.observed, s.uncertain, r.estimates);
  }

  lemma AppendKeepsPositive(records: seq<Record>, r: Record)
    requires Positive(records) && AllNatural(r.estimates) && 0 < TotalEntries(r.estimates)
    ensures Positive(records + [r])
  {
  }

  lemma AppendKeepsPhase(records: seq<Record>, r: Record)
    requires Phase(records, false, false) && r.Held()
    ensures Phase(records + [r], false, false)
  {
  }

  lemma ReserveKeepsInv(s: Ledger, operation: nat, estimates: map<Purpose, Amount>, initial: Capture)
    requires Inv(s, initial)
    ensures Inv(Reserve(s, operation, estimates).next, initial)
    ensures Reserve(s, operation, estimates).outcome.Failed? ==> Reserve(s, operation, estimates).next == s
  {
    hide Tokens, Tracked, Conserved, Positive, Clean, Phase;
    RecordFacts(s, initial);
    var step := Reserve(s, operation, estimates);
    if step.outcome.Ok? {
      NormalizeMeans(estimates);
      var est := Normalize(estimates).value;
      var r := Record(operation, est, Reserved, None, None, None);
      AppendKeepsTokens(s.records, |s.operations|, s.activeWrite, s.nextWrite, r);
      AppendKeepsTracked(s.records, s.operations, r, OpReserved);
      AppendKeepsConserved(s.records, s.reserved, s.uncertain, initial.base, r);
      ReserveKeepsClean(s, step.next, r, initial);
      AppendKeepsPositive(s.records, r);
      AppendKeepsPhase(s.records, r);
    }
  }

  // ----- one record changes -----

  lemma CleanIsBounded(s: Ledger, initial: Capture)
    requires Core(s, initial)
    ensures !s.invalid ==> Clean(s, initial) && Bounded(s.limits, s.Used(), OverhangOf(s.records))
  {
    hide Tokens, Tracked, Conserved, Positive, FilesObserved, BoundToInventory, JournalsPresent, Bounded;
  }


  /** How a step that changes record `i` into `r` moves the accounts. */
  predicate Changes(s: Ledger, t: Ledger, i: nat, r: Record, opAfter: OperationState)
    requires i < |s.records| && r.operation < |s.operations|
  {
    && t.limits == s.limits && t.records == s.records[i := r] && t.operations == WithOperation(s, r.operation, opAfter)
    && t.inventory.Some? && (s.invalid ==> t.invalid)
    && t.reserved == Added(Removed(s.reserved, Weight(s.records[i], HeldShare)), Weight(r, HeldShare))
    && t.uncertain == Added(Removed(s.uncertain, Weight(s.records[i], RetainedShare)), Weight(r, RetainedShare))
    && (if r.state == Writing
        then s.activeWrite.None? && r.write == Some(s.nextWrite) && t.activeWrite == r.write && t.nextWrite == s.nextWrite + 1
        else t.activeWrite == (if s.records[i].state == Writing then None else s.activeWrite) && t.nextWrite == s.nextWrite)
  }

  lemma ChangeKeepsPositive(records: seq<Record>, i: nat, r: Record)
    requires Positive(records) && i < |records| && r.estimates == records[i].estimates
    ensures Positive(records[i := r])
  {
  }

  lemma ChangeKeepsCore(s: Ledger, t: Ledger, i: nat, r: Record, opAfter: OperationState, initial: Capture)
    requires Core(s, initial) && i < |s.records| && r.operation < |s.operations|
    requires Moves(s.records[i], r, s.operations[r.operation].state, opAfter)
    requires Changes(s, t, i, r, opAfter)
    requires !t.invalid ==> Clean(t, initial)
    ensures Core(t, initial)
  {
    hide Tokens, Tracked, Conserved, Positive, Clean, Phase;
    ChangeKeepsTokens(s.records, |s.operations|, s.activeWrite, s.nextWrite, i, r,
                      s.operations[r.operation].state, opAfter);
    ChangeKeepsTracked(s.records, s.operations, i, r, opAfter);
    ChangeKeepsConserved(s.records, s.reserved, s.uncertain, initial.base, i, r);
    ChangeKeepsPositive(s.records, i, r);
  }

  lemma Rearranged(a: PerPurpose<Amount>, b: PerPurpose<Amount>)
    ensures Added(Removed(a, b), NOTHING) == Removed(a, b)
    ensures Added(Removed(a, NOTHING), b) == Added(a, b)
    ensures Added(Removed(a, NOTHING), NOTHING) == a
    ensures Added(Removed(a, b), b) == a
  {
  }

  lemma ReleaseBounded(limits: Limits, reserved: PerPurpose<Amount>, observed: PerPurpose<Amount>,
                       uncertain: PerPurpose<Amount>, est: PerPurpose<Amount>, overhang: int)
    requires Bounded(limits, Added(Added(reserved, observed), uncertain), overhang) && AllNatural(est)
    ensures Bounded(limits, Added(Added(Removed(reserved, est), observed), uncertain), overhang)
  {
  }

  lemma ChangeStaysBound(records: seq<Record>, i: nat, r: Record, inventory: Inventory, files: map<string, JournalFile>)
    requires BoundToInventory(records, inventory, files) && i < |records|
    requires Replacing(r) ==> Replacing(records[i]) && r.replacement == records[i].replacement
    requires Weight(r, OverhangShare) == Weight(records[i], OverhangShare)
    ensures BoundToInventory(records[i := r], inventory, files)
    ensures OverhangOf(records[i := r]) == OverhangOf(records)
  {
    SumUpdate(records, i, r, OverhangShare);
    Rearranged(Sum(records, OverhangShare), Weight(r, OverhangShare));
  }

  /** A change that leaves the files and the overhang alone keeps a clean ledger clean, if its totals fit. */
  lemma SameFilesStayClean(s: Ledger, t: Ledger, i: nat, r: Record, initial: Capture)
    requires s.inventory.Some? && Clean(s, initial) && i < |s.records| && t.records == s.records[i := r]
    requires t.limits == s.limits && t.inventory == s.inventory && t.observed == s.observed
    requires t.journalFiles == s.journalFiles
    requires Replacing(r) ==> Replacing(s.records[i]) && r.replacement == s.records[i].replacement
    requires Weight(r, OverhangShare) == Weight(s.records[i], OverhangShare)
    requires Bounded(t.limits, t.Used(), OverhangOf(s.records))
    ensures Clean(t, initial)
  {
    ChangeStaysBound(s.records, i, r, s.inventory.value, s.journalFiles);
  }

  /** Releasing an additive reservation or write: the capacity comes back and nothing else moves. */
  lemma ReleaseKeepsCore(s: Ledger, i: nat, active: Option<nat>, initial: Capture)
    requires Core(s, initial) && i < |s.records| && s.records[i].Held() && s.records[i].replacement.None?
    requires active == if s.records[i].state == Writing then None else s.activeWrite
    ensures Core(Release(s, i).(activeWrite := active), initial)
  {
    hide Tokens, Tracked, Conserved, Positive, Clean, Phase;
    RecordFactsAt(s, i, initial);
    CleanIsBounded(s, initial);
    var t := Release(s, i).(activeWrite := active);
    var r := s.records[i].(state := Cancelled);
    Rearranged(s.reserved, s.records[i].estimates);
    Rearranged(s.uncertain, NOTHING);
    if !s.invalid {
      ReleaseBounded(s.limits, s.reserved, s.observed, s.uncertain, s.records[i].estimates, OverhangOf(s.records));
      SameFilesStayClean(s, t, i, r, initial);
    }
    ChangeKeepsCore(s, t, i, r, OpCancelled, initial);
  }

  lemma ChangeKeepsPhase(s: Ledger, t: Ledger, i: nat, r: Record)
    requires Phase(s.records, s.closed, s.invalid) && i < |s.records| && t.records == s.records[i := r]
    requires t.closed == s.closed && (s.invalid ==> t.invalid)
    requires t.invalid || (r.state != RetainedAsUncertain && r.state != Uncertain)
    requires s.closed ==> !r.Held()
    ensures Phase(t.records, t.closed, t.invalid)
  {
  }

  lemma CancelKeepsInv(s: Ledger, operation: nat, reservation: nat, initial: Capture)
    requires Inv(s, initial)
    ensures Inv(CancelBeforeWrite(s, operation, reservation).next, initial)
  {
    hide Tokens, Tracked, Conserved, Positive, Clean, Phase;
    RecordFacts(s, initial);
    if HoldsReservation(s, operation, reservation) {
      RecordFactsAt(s, reservation, initial);
      ReleaseKeepsCore(s, reservation, s.activeWrite, initial);
      var t := Release(s, reservation);
      ChangeKeepsPhase(s, t, reservation, s.records[reservation].(state := Cancelled));
      assert t == t.(activeWrite := s.activeWrite);
    }
  }

  lemma AdmitKeepsInv(s: Ledger, operation: nat, reservation: nat, initial: Capture)
    requires Inv(s, initial)
    ensures Inv(AdmitWrite(s, operation, reservation).next, initial)
  {
    hide Tokens, Tracked, Conserved, Positive, Clean, Phase;
    RecordFacts(s, initial);
    CleanIsBounded(s, initial);
    var step := AdmitWrite(s, operation, reservation);
    if step.outcome.Ok? {
      RecordFactsAt(s, reservation, initial);
      var t := step.next;
      var r := s.records[reservation].(state := Writing, write := Some(s.nextWrite));
      Rearranged(s.reserved, r.estimates);
      Rearranged(s.uncertain, NOTHING);
      SameFilesStayClean(s, t, reservation, r, initial);
      ChangeKeepsCore(s, t, reservation, r, OpWriting, initial);
      ChangeKeepsPhase(s, t, reservation, r);
    }
  }

  lemma RetainBounded(limits: Limits, reserved: PerPurpose<Amount>, observed: PerPurpose<Amount>,
                      uncertain: PerPurpose<Amount>, est: PerPurpose<Amount>)
    ensures Added(Added(Removed(reserved, est), observed), Added(uncertain, est))
            == Added(Added(reserved, observed), uncertain)
  {
  }

  lemma RetainKeepsCore(s: Ledger, i: nat, initial: Capture)
    requires Core(s, initial) && i < |s.records|
    ensures Core(Retain(s, i), initial)
  {
    hide Tokens, Tracked, Conserved, Positive, Clean, Phase;
    RecordFactsAt(s, i, initial);
    CleanIsBounded(s, initial);
    if s.records[i].Held() {
      var t := Retain(s, i);
      var r := s.records[i].(state := RetainedAsUncertain);
      Rearranged(s.reserved, r.estimates);
      Rearranged(s.uncertain, r.estimates);
      if !s.invalid {
        RetainBounded(s.limits, s.reserved, s.observed, s.uncertain, r.estimates);
        SameFilesStayClean(s, t, i, r, initial);
      }
      ChangeKeepsCore(s, t, i, r, OpRetained, initial);
    }
  }

  lemma FailActiveKeepsInv(s: Ledger, i: nat, initial: Capture)
    requires Inv(s, initial) && i < |s.records|
    ensures Inv(Retain(s, i).(invalid := true), initial)
  {
    RetainKeepsCore(s, i, initial);
    var t := Retain(s, i).(invalid := true);
    assert Phase(t.records, t.closed, t.invalid);
  }

  ghost predicate SameBesidesHolding(s: Ledger, t: Ledger) {
    && t.limits == s.limits && t.closed == s.closed && t.invalid == s.invalid && t.observed == s.observed
    && t.inventory == s.inventory && t.freeBytes == s.freeBytes && t.nextWrite == s.nextWrite
    && t.journalFiles == s.journalFiles && t.journalWriters == s.journalWriters && t.owner == s.owner
    && |t.records| == |s.records| && t.Used() == s.Used() && OverhangOf(t.records) == OverhangOf(s.records)
  }

  /** Retaining from record `i` on, when nothing before it is held, leaves nothing held. */
  lemma {:induction false} RetainFromKeepsCore(s: Ledger, i: nat, initial: Capture)
    requires Core(s, initial) && i <= |s.records|
    requires forall j :: 0 <= j < i ==> !s.records[j].Held()
    ensures Core(RetainFrom(s, i), initial) && SameBesidesHolding(s, RetainFrom(s, i))
    ensures forall j :: 0 <= j < |s.records| ==> !RetainFrom(s, i).records[j].Held()
    decreases |s.records| - i
  {
    hide Tokens, Tracked, Conserved, Positive, Clean, Phase;
    RecordFacts(s, initial);
    if i < |s.records| {
      RecordFactsAt(s, i, initial);
      var t := Retain(s, i);
      RetainKeepsCore(s, i, initial);
      RetainKeepsTotals(s, i);
      assert forall j :: 0 <= j <= i ==> !t.records[j].Held();
      RetainFromKeepsCore(t, i + 1, initial);
    }
  }

  lemma RetainKeepsTotals(s: Ledger, i: nat)
    requires i < |s.records| && s.records[i].operation < |s.operations|
    requires s.records[i].state == Reserved ==> s.records[i].replacement.None?
    ensures SameBesidesHolding(s, Retain(s, i))
  {
    if s.records[i].Held() {
      var r := s.records[i].(state := RetainedAsUncertain);
      RetainBounded(s.limits, s.reserved, s.observed, s.uncertain, r.estimates);
      SumUpdate(s.records, i, r, OverhangShare);
      assert Weight(r, OverhangShare) == Weight(s.records[i], OverhangShare);
      Rearranged(Sum(s.records, OverhangShare), Weight(r, OverhangShare));
    }
  }

  lemma CloseKeepsInv(s: Ledger, initial: Capture)
    requires Inv(s, initial)
    ensures Inv(Close(s), initial) && Close(s).closed
  {
    if !s.closed {
      RetainFromKeepsCore(s, 0, initial);
    }
  }
}
