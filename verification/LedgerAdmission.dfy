/** When capacity is granted, in plain arithmetic over the request, the counters and the last free-space observation. */
module LedgerAdmission {
  import opened CapacityTypes
  import opened LedgerSpec
  import opened LedgerInvariant
  import opened LedgerRuns
  import opened LedgerTheorems

  // ----- the request -----

  function Asked(estimates: map<Purpose, Amount>, p: Purpose): Amount { if p in estimates then estimates[p] else ZERO }

  function AskedBytes(estimates: map<Purpose, Amount>): int {
    Asked(estimates, PrivateJournal).bytes + Asked(estimates, TemporaryContainment).bytes
    + Asked(estimates, RetainedUncertain).bytes + Asked(estimates, PromotedAssets).bytes
  }

  function AskedEntries(estimates: map<Purpose, Amount>): int {
    Asked(estimates, PrivateJournal).entries + Asked(estimates, TemporaryContainment).entries
    + Asked(estimates, RetainedUncertain).entries + Asked(estimates, PromotedAssets).entries
  }

  /** A request names some purpose, asks for something of each it names, and is within the caps of one operation. */
  predicate Askable(estimates: map<Purpose, Amount>) {
    && estimates != map[]
    && (forall p :: p in estimates ==> 0 < estimates[p].bytes && 0 < estimates[p].entries)
    && AskedBytes(estimates) <= MAX_OPERATION_BYTES && AskedEntries(estimates) <= MAX_OPERATION_ENTRIES
  }

  function AskedOf(estimates: map<Purpose, Amount>): PerPurpose<Amount> {
    PerPurpose(Asked(estimates, PrivateJournal), Asked(estimates, TemporaryContainment),
               Asked(estimates, RetainedUncertain), Asked(estimates, PromotedAssets))
  }

  lemma AskableIsNormal(estimates: map<Purpose, Amount>)
    ensures Normalize(estimates).Ok? <==> Askable(estimates)
    ensures Normalize(estimates).Ok? ==> Normalize(estimates).value == AskedOf(estimates)
  {
    if estimates != map[] {
      var j := NOTHING.(journal := Asked(estimates, PrivateJournal));
      var t := j.(temporary := Asked(estimates, TemporaryContainment));
      var r := t.(retained := Asked(estimates, RetainedUncertain));
      NormalizeStep(estimates, 0, NOTHING);
      NormalizeStep(estimates, 1, j);
      NormalizeStep(estimates, 2, t);
      NormalizeStep(estimates, 3, r);
      assert NormalizeFrom(estimates, 4, AskedOf(estimates)) == Ok(AskedOf(estimates));
      AskableByPurpose(estimates);
      hide NormalizeFrom, Asked, Askable;
      assert NOTHING.With(PURPOSES[0], Asked(estimates, PURPOSES[0])) == j;
      assert j.With(PURPOSES[1], Asked(estimates, PURPOSES[1])) == t;
      assert t.With(PURPOSES[2], Asked(estimates, PURPOSES[2])) == r;
      assert r.With(PURPOSES[3], Asked(estimates, PURPOSES[3])) == AskedOf(estimates);
    }
  }

  /** The caps, taken purpose by purpose as the totals grow. */
  lemma AskableByPurpose(estimates: map<Purpose, Amount>)
    requires estimates != map[]
    ensures
      var j := NOTHING.(journal := Asked(estimates, PrivateJournal));
      var t := j.(temporary := Asked(estimates, TemporaryContainment));
      var r := t.(retained := Asked(estimates, RetainedUncertain));
      Askable(estimates) <==>
        && StepFits(estimates, PURPOSES[0], NOTHING) && StepFits(estimates, PURPOSES[1], j)
        && StepFits(estimates, PURPOSES[2], t) && StepFits(estimates, PURPOSES[3], r)
  {
    assert forall p :: p in estimates ==> p == PURPOSES[0] || p == PURPOSES[1] || p == PURPOSES[2] || p == PURPOSES[3];
  }

  predicate StepFits(estimates: map<Purpose, Amount>, p: Purpose, sofar: PerPurpose<Amount>) {
    var a := Asked(estimates, p);
    p in estimates ==>
      && ValidEstimate(a) && TotalBytes(sofar) + a.bytes <= MAX_OPERATION_BYTES
      && TotalEntries(sofar) + a.entries <= MAX_OPERATION_ENTRIES
  }

  /** One purpose of the request. */
  lemma NormalizeStep(estimates: map<Purpose, Amount>, i: nat, sofar: PerPurpose<Amount>)
    requires i < 4 && sofar.At(PURPOSES[i]) == ZERO
    ensures
      var p := PURPOSES[i];
      var all := NormalizeFrom(estimates, i, sofar);
      if StepFits(estimates, p, sofar) then all == NormalizeFrom(estimates, i + 1, sofar.With(p, Asked(estimates, p)))
      else all.Failed?
  {
    if PURPOSES[i] !in estimates {
      assert sofar.With(PURPOSES[i], ZERO) == sofar;
    }
  }

  // ----- room for it -----

  /** What a purpose may hold in all: its own limits, and for both asset roots the entries of either policy. */
  function Ceiling(limits: Limits, p: Purpose): Amount {
    var assets := Amount(limits.assetBytes, if limits.dualCustody then MAX_ASSET_ENTRIES else limits.assetEntries);
    match p
    case PrivateJournal => Amount(limits.journalBytes, limits.journalEntries)
    case TemporaryContainment => assets
    case RetainedUncertain => Amount(limits.retainedBytes, limits.retainedEntries)
    case PromotedAssets => assets
  }

  /** A purpose's counters: reserved, observed and uncertain. */
  function Held(s: Ledger, p: Purpose): Amount {
    Amount(s.reserved.At(p).bytes + s.observed.At(p).bytes + s.uncertain.At(p).bytes,
           s.reserved.At(p).entries + s.observed.At(p).entries + s.uncertain.At(p).entries)
  }

  /** The two asset roots together keep within theirs. */
  predicate AssetRoom(s: Ledger, estimates: map<Purpose, Amount>) {
    && Held(s, TemporaryContainment).bytes + Asked(estimates, TemporaryContainment).bytes
       + Held(s, PromotedAssets).bytes + Asked(estimates, PromotedAssets).bytes <= s.limits.assetBytes
    && Held(s, TemporaryContainment).entries + Asked(estimates, TemporaryContainment).entries
       + Held(s, PromotedAssets).entries + Asked(estimates, PromotedAssets).entries
       <= (if s.limits.dualCustody then DUAL_CUSTODY_ENTRIES else s.limits.assetEntries)
  }

  predicate PurposeRoom(s: Ledger, estimates: map<Purpose, Amount>, p: Purpose) {
    p in estimates ==>
      && Held(s, p).bytes + estimates[p].bytes <= Ceiling(s.limits, p).bytes
      && Held(s, p).entries + estimates[p].entries <= Ceiling(s.limits, p).entries
  }

  /** Every purpose that is named keeps within its ceiling. */
  predicate RoomFor(s: Ledger, estimates: map<Purpose, Amount>) {
    AssetRoom(s, estimates) && forall p :: PurposeRoom(s, estimates, p)
  }

  function AllBytes(a: PerPurpose<Amount>): int { a.journal.bytes + a.temporary.bytes + a.retained.bytes + a.promoted.bytes }

  /** The last free-space observation covers what is reserved, what is uncertain and what is asked for. */
  predicate Covered(s: Ledger, bytes: int) { AllBytes(s.reserved) + AllBytes(s.uncertain) + bytes <= s.freeBytes }

  lemma CoveredExactly(s: Ledger, bytes: int)
    requires AllNatural(s.reserved) && AllNatural(s.uncertain) && 0 <= bytes
    ensures FreeSpaceCovers(s, bytes) <==> Covered(s, bytes)
  {
  }

  lemma CountersNatural(s: Ledger, initial: Inventory)
    requires Reached(s, initial)
    ensures AllNatural(s.reserved) && AllNatural(s.uncertain)
  {
    hide Reached, Inv, Measured, RecordsOwned;
    ReachedHolds(s, initial);
    InvCountersNatural(s, Captured(initial));
  }

  lemma InvCountersNatural(s: Ledger, initial: Capture)
    requires Inv(s, initial)
    ensures AllNatural(s.reserved) && AllNatural(s.uncertain)
  {
    hide Clean, Tokens, Tracked, Phase;
    SumToNatural(Shares(s.records, HeldShare), |s.records|);
    SumToNatural(Shares(s.records, RetainedShare), |s.records|);
  }

  lemma UnfitStep(s: Ledger, estimates: map<Purpose, Amount>, i: nat)
    requires i < 4 && (PURPOSES[i] in estimates ==> 0 < estimates[PURPOSES[i]].bytes && 0 < estimates[PURPOSES[i]].entries)
    ensures
      var p := PURPOSES[i];
      UnfitFrom(s, AskedOf(estimates), i).None?
      <==> PurposeRoom(s, estimates, p) && UnfitFrom(s, AskedOf(estimates), i + 1).None?
  {
    assert AskedOf(estimates).At(PURPOSES[i]) == Asked(estimates, PURPOSES[i]);
  }

  lemma RoomExactly(s: Ledger, estimates: map<Purpose, Amount>)
    requires Askable(estimates)
    ensures
      var est := AskedOf(estimates);
      var assets := Added(s.Used(), est).temporary.Plus(Added(s.Used(), est).promoted);
      RoomFor(s, estimates) <==>
        && UnfitFrom(s, est, 0).None?
        && assets.bytes <= s.limits.assetBytes && assets.entries <= s.limits.SharedEntryLimit()
  {
    UnfitStep(s, estimates, 0);
    UnfitStep(s, estimates, 1);
    UnfitStep(s, estimates, 2);
    UnfitStep(s, estimates, 3);
    assert UnfitFrom(s, AskedOf(estimates), 4).None?;
    AssetsExactly(s, estimates);
    hide UnfitFrom, AskedOf, AssetRoom, AskedBytes, AskedEntries, Added, Asked, PurposeRoom;
    EveryPurpose(s, estimates);
  }

  lemma EveryPurpose(s: Ledger, estimates: map<Purpose, Amount>)
    ensures (forall p :: PurposeRoom(s, estimates, p)) <==> forall i :: 0 <= i < 4 ==> PurposeRoom(s, estimates, PURPOSES[i])
  {
    hide PurposeRoom;
    if forall i :: 0 <= i < 4 ==> PurposeRoom(s, estimates, PURPOSES[i]) {
      forall p: Purpose
        ensures PurposeRoom(s, estimates, p)
      {
        match p
        case PrivateJournal => assert PURPOSES[0] == p;
        case TemporaryContainment => assert PURPOSES[1] == p;
        case RetainedUncertain => assert PURPOSES[2] == p;
        case PromotedAssets => assert PURPOSES[3] == p;
      }
    }
  }

  lemma AssetsExactly(s: Ledger, estimates: map<Purpose, Amount>)
    ensures
      var est := AskedOf(estimates);
      var assets := Added(s.Used(), est).temporary.Plus(Added(s.Used(), est).promoted);
      AssetRoom(s, estimates) <==> assets.bytes <= s.limits.assetBytes && assets.entries <= s.limits.SharedEntryLimit()
  {
  }

  /** A reservation is granted if and only if the request is in order, the ledger is live, the operation is open, every
      purpose and both asset roots have room, and the last free-space observation covers it; and then the counters hold
      exactly what was asked for, and nothing else changes. */
  lemma ReserveExactly(s: Ledger, initial: Inventory, operation: nat, estimates: map<Purpose, Amount>)
    requires Reached(s, initial)
    ensures Reserve(s, operation, estimates).outcome.Ok? <==>
              && Askable(estimates) && !s.closed && !s.invalid
              && operation < |s.operations| && s.operations[operation].state == Open
              && RoomFor(s, estimates) && Covered(s, AskedBytes(estimates))
    ensures Reserve(s, operation, estimates).outcome.Ok? ==> Grants(s, operation, estimates)
  {
    hide Reached, Inv, Measured;
    ReachedHolds(s, initial);
    InvHasInventory(s, Captured(initial));
    CountersNatural(s, initial);
    AskableIsNormal(estimates);
    if Askable(estimates) {
      RoomExactly(s, estimates);
      CoveredExactly(s, AskedBytes(estimates));
      AskedTotal(estimates);
    }
    if Reserve(s, operation, estimates).outcome.Ok? {
      ReservedMeans(s, operation, estimates);
    }
    hide Askable, RoomFor, UnfitFrom, FreeSpaceCovers, Covered, Normalize, AskedBytes, Grants, AskedOf, Added, TotalBytes;
  }

  lemma AskedTotal(estimates: map<Purpose, Amount>)
    ensures TotalBytes(AskedOf(estimates)) == AskedBytes(estimates)
    ensures Askable(estimates) ==> 0 <= AskedBytes(estimates)
  {
  }

  /** The counters hold exactly what was asked for, and nothing else changes. */
  predicate Grants(s: Ledger, operation: nat, estimates: map<Purpose, Amount>) {
    var t := Reserve(s, operation, estimates).next;
    && Reserve(s, operation, estimates).outcome == Ok(|s.records|)
    && t.records == s.records + [Record(operation, AskedOf(estimates), Reserved, None, None, None)]
    && (forall p :: Held(t, p).bytes == Held(s, p).bytes + Asked(estimates, p).bytes
                    && Held(t, p).entries == Held(s, p).entries + Asked(estimates, p).entries)
    && t.observed == s.observed && t.uncertain == s.uncertain && t.freeBytes == s.freeBytes
  }

  lemma ReservedMeans(s: Ledger, operation: nat, estimates: map<Purpose, Amount>)
    requires Reserve(s, operation, estimates).outcome.Ok?
    ensures Grants(s, operation, estimates)
  {
    AskableIsNormal(estimates);
    hide Normalize, UnfitFrom, FreeSpaceCovers, Asked, Askable;
    var t := Reserve(s, operation, estimates).next;
    assert t.reserved == Added(s.reserved, AskedOf(estimates));
    hide Reserve;
    forall p: Purpose
      ensures Held(t, p).bytes == Held(s, p).bytes + Asked(estimates, p).bytes
      ensures Held(t, p).entries == Held(s, p).entries + Asked(estimates, p).entries
    {
      assert AskedOf(estimates).At(p) == Asked(estimates, p);
    }
  }

  // ----- the last free-space observation -----

  /** Action `i` of the run was accepted and brought this observation of free bytes. */
  ghost predicate ObservedFree(states: seq<Ledger>, actions: seq<Action>, i: nat, free: int) {
    && i < |actions| && i < |states| && RecordsOwned(states[i])
    && match actions[i]
       case Complete(op, write, after, f) => f == Some(free) && CompleteWrite(states[i], op, write, after, f).outcome.Ok?
       case CompleteJournal(op, write, after, f, view, c) =>
         f == free && CompleteReplacement(states[i], op, write, after, f, view, c).outcome.Ok?
       case Observe(inventory, f) => f == Some(free) && ObserveInventory(states[i], inventory, f).outcome.Ok?
       case _ => false
  }

  lemma {:induction false} RetainFromKeepsFree(s: Ledger, i: nat)
    requires RecordsOwned(s) && i <= |s.records|
    ensures RetainFrom(s, i).freeBytes == s.freeBytes
    decreases |s.records| - i
  {
    if i < |s.records| {
      RetainFromKeepsFree(Retain(s, i), i + 1);
    }
  }

  lemma SettlingKeepsFree(s: Ledger, operation: nat, write: nat, delta: PerPurpose<Amount>)
    requires RecordsOwned(s)
    ensures RetainUncertain(s, operation, write).next.freeBytes == s.freeBytes
    ensures CancelWriteBeforeCreate(s, operation, write).next.freeBytes == s.freeBytes
    ensures CompensateWrite(s, operation, write, delta).next.freeBytes == s.freeBytes
    ensures CompensateReplacement(s, operation, write).next.freeBytes == s.freeBytes
  {
    hide CompensationCurrent, WriteCompensable;
  }

  lemma CompletionFree(s: Ledger, operation: nat, write: nat, after: Inventory, free: Option<int>)
    requires RecordsOwned(s)
    ensures
      var step := CompleteWrite(s, operation, write, after, free);
      step.next.freeBytes == if step.outcome.Ok? && free.Some? then free.value else s.freeBytes
  {
    hide InventoryDelta;
  }

  lemma ReplacementFree(s: Ledger, operation: nat, write: nat, after: Inventory, free: int, view: JournalView, c: Completion)
    requires RecordsOwned(s)
    ensures
      var step := CompleteReplacement(s, operation, write, after, free, view, c);
      step.next.freeBytes == if step.outcome.Ok? then free else s.freeBytes
  {
    hide CompletionCurrent, NewRowAcceptable, IdentityUnique, AcknowledgesNext, Bytes;
  }

  lemma ObservationFree(s: Ledger, inventory: Inventory, free: Option<int>)
    requires RecordsOwned(s)
    ensures
      var step := ObserveInventory(s, inventory, free);
      step.next.freeBytes == if step.outcome.Ok? && free.Some? then free.value else s.freeBytes
    ensures Close(s).freeBytes == s.freeBytes
  {
    RetainFromKeepsFree(s, 0);
  }

  lemma GrantKeepsFree(s: Ledger, operation: nat, estimates: map<Purpose, Amount>, b: Binding, view: JournalView)
    ensures Reserve(s, operation, estimates).next.freeBytes == s.freeBytes
    ensures AdmitReplacement(s, operation, b, view).next.freeBytes == s.freeBytes
  {
    hide Normalize, UnfitFrom, FreeSpaceCovers, BindingCurrent, TipMatches, ReplacementFits;
  }

  lemma ActFree(states: seq<Ledger>, actions: seq<Action>, i: nat)
    requires Run(states, actions) && i < |actions|
    ensures forall free :: ObservedFree(states, actions, i, free) ==> states[i + 1].freeBytes == free
    ensures (forall free :: !ObservedFree(states, actions, i, free)) ==> states[i + 1].freeBytes == states[i].freeBytes
  {
    hide CompleteWrite, CompleteReplacement, CompensateWrite, CompensateReplacement, Close, ObserveInventory,
      AdmitReplacement, Reserve, RetainUncertain, CancelWriteBeforeCreate, RecordsOwned;
    var s := states[i];
    var a := actions[i];
    assert RecordsOwned(s) && states[i + 1] == Act(s, a);
    match a
    case Request(op, estimates) =>
      GrantKeepsFree(s, op, estimates, Binding(false, 0, 0, LegacySchema, "", "", 0, "", None, None, None,
                                               PerPurpose(map[], map[], map[], map[]), false),
                     JournalView(false, false, None, "", 0, "", None));
    case AdmitJournal(op, b, view) => GrantKeepsFree(s, op, map[], b, view);
    case Complete(op, write, after, free) =>
      CompletionFree(s, op, write, after, free);
      var accepted := CompleteWrite(s, op, write, after, free).outcome.Ok?;
      assert forall x :: ObservedFree(states, actions, i, x) <==> free == Some(x) && accepted;
      assert free.Some? && accepted ==> ObservedFree(states, actions, i, free.value);
    case CompleteJournal(op, write, after, free, view, c) =>
      ReplacementFree(s, op, write, after, free, view, c);
      if CompleteReplacement(s, op, write, after, free, view, c).outcome.Ok? {
        assert ObservedFree(states, actions, i, free);
      }
    case Observe(inventory, free) =>
      ObservationFree(s, inventory, free);
      if free.Some? && ObserveInventory(s, inventory, free).outcome.Ok? {
        assert ObservedFree(states, actions, i, free.value);
      }
    case AbandonUncertain(op, write) => SettlingKeepsFree(s, op, write, NOTHING);
    case CancelWrite(op, write) => SettlingKeepsFree(s, op, write, NOTHING);
    case CompensateAdditive(op, write, delta) => SettlingKeepsFree(s, op, write, delta);
    case CompensateJournal(op, write) => SettlingKeepsFree(s, op, write, NOTHING);
    case CloseLedger => ObservationFree(s, PerPurpose(map[], map[], map[], map[]), None);
    case Begin(id) => OpeningKeepsFree(s, id, 0, 0);
    case Cancel(op, reservation) => OpeningKeepsFree(s, "", op, reservation);
    case Admit(op, reservation) => OpeningKeepsFree(s, "", op, reservation);
  }

  lemma OpeningKeepsFree(s: Ledger, id: string, operation: nat, reservation: nat)
    requires RecordsOwned(s)
    ensures BeginOperation(s, id).next.freeBytes == s.freeBytes
    ensures CancelBeforeWrite(s, operation, reservation).next.freeBytes == s.freeBytes
    ensures AdmitWrite(s, operation, reservation).next.freeBytes == s.freeBytes
  {
  }

  /** The free bytes a ledger reckons with are the last observation that the run accepted, or what the ledger was opened
      with. */
  lemma {:induction false} FreeBytesAreTheLastObserved(states: seq<Ledger>, actions: seq<Action>, k: nat)
    requires Run(states, actions) && k < |states|
    ensures forall i: nat, free ::
              (i < k && ObservedFree(states, actions, i, free)
               && forall j: nat, other :: i < j < k ==> !ObservedFree(states, actions, j, other)) ==>
                states[k].freeBytes == free
    ensures (forall i: nat, free :: i < k ==> !ObservedFree(states, actions, i, free)) ==>
              states[k].freeBytes == states[0].freeBytes
  {
    hide ObservedFree, Act;
    if k > 0 {
      FreeBytesAreTheLastObserved(states, actions, k - 1);
      ActFree(states, actions, k - 1);
    }
  }

  /** A ledger opens with the free bytes it was given, or with the sum of its byte limits. */
  lemma OpeningFreeBytes(
    s: Ledger, initial: Inventory, limits: Limits, owner: nat, uncertain: PerPurpose<Amount>, free: Option<int>)
    requires OpenedFrom(s, initial, limits, owner, uncertain, free)
    ensures s.freeBytes == (if free.Some? then free.value else limits.journalBytes + limits.assetBytes + limits.retainedBytes)
    ensures 0 <= s.freeBytes <= MAX_FREE_BYTES && s.limits == limits && s.owner == owner
  {
    hide FileAmount;
    CountInitialMeans(Fresh(limits, owner).(uncertain := uncertain), initial, 0);
  }
}
