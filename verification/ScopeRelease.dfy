/** When a closed owner may give its scope lease back. */
module ScopeRelease {
  import opened CapacityTypes
  import opened LedgerSpec
  import opened LedgerInvariant
  import opened LedgerSteps
  import opened LedgerWrites
  import opened LedgerRuns
  import opened LedgerTheorems
  import opened CapacityLedger

  datatype Retention = KeepUncertain | KeepForActiveHost | Settled

  /** What one host lifecycle reports about its worker integration, if it has one. */
  datatype Integration = Integration(uncertainLeases: bool, unresolved: bool, closedAndIdle: bool)

  datatype Host = Host(closed: bool, integration: Option<Integration>)

  predicate HostUncertain(h: Host) {
    h.integration.Some? && (h.integration.value.uncertainLeases || h.integration.value.unresolved)
  }

  predicate HostActive(h: Host) {
    !h.closed || (h.integration.Some? && !h.integration.value.closedAndIdle)
  }

  /** The ledger's own evidence of an unsettled write. */
  ghost predicate LedgerUncertain(s: Ledger) {
    || s.uncertain != NOTHING
    || s.activeWrite.Some?
    || exists k :: 0 <= k < |s.operations| && Busy(s.operations[k].state)
  }

  ghost function RetentionReason(s: Ledger, ownerInvalid: bool, hosts: seq<Host>): Retention {
    if LedgerUncertain(s) || ownerInvalid then KeepUncertain
    else if exists k :: 0 <= k < |hosts| && HostUncertain(hosts[k]) then KeepUncertain
    else if exists k :: 0 <= k < |hosts| && HostActive(hosts[k]) then KeepForActiveHost
    else Settled
  }

  method ScopeLeaseRetentionReason(ledger: CapacityLedger, ownerInvalid: bool, hosts: seq<Host>) returns (r: Retention)
    ensures r == RetentionReason(ledger.State(), ownerInvalid, hosts)
  {
    var busy := false;
    for i := 0 to |ledger.operations|
      invariant busy <==> exists k :: 0 <= k < i && Busy(ledger.operations[k].state)
    {
      busy := busy || Busy(ledger.operations[i].state);
    }
    if ledger.uncertain != NOTHING || ledger.activeWrite.Some? || busy || ownerInvalid {
      return KeepUncertain;
    }
    var activeHost := false;
    for i := 0 to |hosts|
      invariant forall k :: 0 <= k < i ==> !HostUncertain(hosts[k])
      invariant activeHost <==> exists k :: 0 <= k < i && HostActive(hosts[k])
    {
      if !hosts[i].closed {
        activeHost := true;
      }
      if hosts[i].integration.Some? {
        var integration := hosts[i].integration.value;
        if integration.uncertainLeases || integration.unresolved {
          return KeepUncertain;
        }
        if !integration.closedAndIdle {
          activeHost := true;
        }
      }
    }
    r := if activeHost then KeepForActiveHost else Settled;
  }

  ghost predicate NothingCaptured(initial: Inventory) {
    initial.journal == map[] && initial.temporary == map[] && initial.retained == map[] && initial.promoted == map[]
  }

  /** Every reservation ever issued is completed, or was cancelled before its file was created. */
  ghost predicate EverythingSettled(records: seq<Record>) {
    forall i :: 0 <= i < |records| ==> records[i].state == Completed || records[i].state == Cancelled
  }

  lemma NothingCapturedAmounts(initial: Inventory)
    ensures InventoryAmount(initial) == NOTHING <==> NothingCaptured(initial)
  {
    if InventoryAmount(initial) == NOTHING {
      assert |initial.journal| == 0 && |initial.temporary| == 0 && |initial.retained| == 0 && |initial.promoted| == 0;
    }
  }

  lemma SettledMeansNoRetainedShare(records: seq<Record>)
    requires Positive(records) && Sum(records, RetainedShare) == NOTHING
    ensures forall i :: 0 <= i < |records| ==> records[i].state != RetainedAsUncertain && records[i].state != Uncertain
  {
    forall i | 0 <= i < |records|
      ensures records[i].state != RetainedAsUncertain && records[i].state != Uncertain
    {
      ShareAtLeast(records, i, RetainedShare);
      assert 0 < TotalEntries(records[i].estimates);
    }
  }

  lemma AmountsAddToZero(a: Amount, b: Amount)
    requires a.Natural() && b.Natural() && a.Plus(b) == ZERO
    ensures a == ZERO && b == ZERO
  {
  }

  lemma NaturalsAddToNothing(a: PerPurpose<Amount>, b: PerPurpose<Amount>)
    requires AllNatural(a) && AllNatural(b) && Added(a, b) == NOTHING
    ensures a == NOTHING && b == NOTHING
  {
    AmountsAddToZero(a.journal, b.journal);
    AmountsAddToZero(a.temporary, b.temporary);
    AmountsAddToZero(a.retained, b.retained);
    AmountsAddToZero(a.promoted, b.promoted);
  }

  lemma HeldMeansBusy(s: Ledger, initial: Capture)
    requires Core(s, initial) && forall k :: 0 <= k < |s.operations| ==> !Busy(s.operations[k].state)
    ensures forall i :: 0 <= i < |s.records| ==> !s.records[i].Held()
  {
    hide Clean, Conserved, Positive, Tokens;
  }

  lemma ZeroUncertainMeansNothingRetained(s: Ledger, initial: Capture)
    requires Core(s, initial) && s.uncertain == NOTHING
    ensures initial.base == NOTHING
    ensures forall i :: 0 <= i < |s.records| ==> s.records[i].state != RetainedAsUncertain && s.records[i].state != Uncertain
  {
    hide Clean, Tokens, Tracked, Positive, Sum, Added, AllNatural;
    SharesNatural(s.records, RetainedShare);
    NaturalsAddToNothing(initial.base, Sum(s.records, RetainedShare));
    SettledMeansNoRetainedShare(s.records);
  }

  lemma NoUncertaintyMeansSettled(s: Ledger, initial: Capture)
    requires Inv(s, initial) && Measured(initial) && !LedgerUncertain(s)
    ensures NothingCaptured(initial.files) && EverythingSettled(s.records)
  {
    hide Core, Phase, NothingCaptured, InventoryAmount;
    NothingCapturedAmounts(initial.files);
    ZeroUncertainMeansNothingRetained(s, initial);
    HeldMeansBusy(s, initial);
  }

  lemma SettledMeansIdle(s: Ledger, initial: Capture)
    requires Core(s, initial) && EverythingSettled(s.records)
    ensures s.activeWrite.None? && forall k :: 0 <= k < |s.operations| ==> !Busy(s.operations[k].state)
  {
    hide Clean, Conserved, Positive;
    assert forall k: nat, i: nat :: !Unsettled(s.records, k, i);
  }

  lemma SettledMeansZero(s: Ledger, initial: Capture)
    requires Core(s, initial) && EverythingSettled(s.records) && initial.base == NOTHING
    ensures s.uncertain == NOTHING
  {
    hide Clean, Tokens, Tracked, Positive;
    SumZero(s.records, RetainedShare);
  }

  lemma SettledMeansNoUncertainty(s: Ledger, initial: Capture)
    requires Inv(s, initial) && Measured(initial)
    requires NothingCaptured(initial.files) && EverythingSettled(s.records)
    ensures !LedgerUncertain(s)
  {
    hide Core, Phase, NothingCaptured, InventoryAmount, EverythingSettled;
    NothingCapturedAmounts(initial.files);
    SettledMeansIdle(s, initial);
    SettledMeansZero(s, initial);
  }

  /** In every reachable state the ledger shows no uncertainty exactly when no file was there at capture and every
      reservation is completed or was cancelled before create. */
  lemma SettledExactly(s: Ledger, initial: Inventory)
    requires Reached(s, initial)
    ensures !LedgerUncertain(s) <==> NothingCaptured(initial) && EverythingSettled(s.records)
  {
    hide Inv, Measured, LedgerUncertain, NothingCaptured, EverythingSettled, Reached;
    ReachedHolds(s, initial);
    if !LedgerUncertain(s) {
      NoUncertaintyMeansSettled(s, Captured(initial));
    } else if NothingCaptured(initial) && EverythingSettled(s.records) {
      SettledMeansNoUncertainty(s, Captured(initial));
    }
  }

  /** So a lease is never released as settled, nor kept only for a host, while any write is unaccounted for. */
  lemma ReleaseIsHonest(s: Ledger, initial: Inventory, ownerInvalid: bool, hosts: seq<Host>)
    requires Reached(s, initial) && RetentionReason(s, ownerInvalid, hosts) != KeepUncertain
    ensures NothingCaptured(initial) && EverythingSettled(s.records)
    ensures s.reserved == NOTHING && s.uncertain == NOTHING && !ownerInvalid
    ensures forall k :: 0 <= k < |hosts| ==> !HostUncertain(hosts[k])
  {
    hide Inv, Measured, NothingCaptured, Reached, Sum;
    SettledExactly(s, initial);
    LedgerConserved(s, initial);
    SumZero(s.records, HeldShare);
  }
}
