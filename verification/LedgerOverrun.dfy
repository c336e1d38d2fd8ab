/** A run that ends with a closed ledger over its private-journal ceiling: a journal is committed, its replacement is
    admitted, and the ledger is closed. */
module LedgerOverrun {
  import opened CapacityTypes
  import opened LedgerSpec
  import opened LedgerInvariant
  import opened LedgerSteps
  import opened LedgerRuns
  import opened LedgerTheorems

  const LIMITS := Limits(JOURNAL_BYTES, ASSET_BYTES, ASSET_BYTES, MAX_JOURNAL_ENTRIES, MAX_ASSET_ENTRIES, 1, false)

  const EMPTY: Inventory := PerPurpose(map[], map[], map[], map[])

  const FILE := "op" + ".json"

  const FIRST := Row((1, 1), 10, 0)

  const COMMITTED: Inventory := EMPTY.(journal := map[FILE := FIRST])

  const EIGHT: string := "1234abcd"

  /** The first revision's digest. */
  const DIGEST: string := EIGHT + EIGHT + EIGHT + EIGHT + EIGHT + EIGHT + EIGHT + EIGHT

  const ACK := Acknowledgement(0, MultiRequestSchema, "op", 1, DIGEST, (1, 1))

  const CREATION := Binding(true, 0, 0, MultiRequestSchema, "op", FILE, 0, ZERO_DIGEST, None, None, None, EMPTY, false)

  const REPLACEMENT :=
    Binding(true, 0, 0, MultiRequestSchema, "op", FILE, 1, DIGEST, Some((1, 1)), Some(FIRST), Some(ACK),
            COMMITTED, false)

  const VIEW := JournalView(true, true, Some(0), "op", 1, DIGEST, Some((1, 1)))

  const COMPLETION := Completion(true, CREATION, ACK, (1, 1), FIRST)

  const FREE := 4 * JOURNAL_BYTES

  function Opening(): Ledger { Fresh(LIMITS, 0).(inventory := Some(EMPTY), freeBytes := FREE) }

  function Begun(): Ledger { Opening().(operations := [Operation("op", Open)]) }

  function Creating(): Ledger {
    Begun().(operations := [Operation("op", OpWriting)],
             records := [Record(0, REPLACEMENT_ESTIMATE, Writing, Some(0), Some(CREATION), None)],
             reserved := REPLACEMENT_ESTIMATE, activeWrite := Some(0), nextWrite := 1)
  }

  function Created(): Ledger {
    Creating().(operations := [Operation("op", JournalCompleted)],
                records := [Record(0, REPLACEMENT_ESTIMATE, Completed, Some(0), Some(CREATION), None)],
                reserved := NOTHING, observed := NOTHING.(journal := Amount(10, 1)), activeWrite := None,
                inventory := Some(COMMITTED),
                journalFiles := map[FILE := JournalFile(0, 0, MultiRequestSchema, 1, DIGEST, (1, 1), FIRST, ACK)],
                journalWriters := map["op" := JournalWriter(0, 0, MultiRequestSchema)])
  }

  function BeingReplaced(): Ledger {
    Created().(operations := WithOperation(Created(), 0, OpWriting),
               records := Created().records + [Record(0, REPLACEMENT_ESTIMATE, Writing, Some(1), Some(REPLACEMENT), None)],
               reserved := Added(Created().reserved, REPLACEMENT_ESTIMATE), activeWrite := Some(1), nextWrite := 2)
  }

  lemma NoFiles()
    ensures FileAmount(map[]) == ZERO && Bytes(map[]) == 0
  {
  }

  lemma OneFile()
    ensures Bytes(COMMITTED.journal) == 10 && FileAmount(COMMITTED.journal) == Amount(10, 1)
  {
    NoFiles();
    BytesAdd(map[], FILE, FIRST);
    assert map[][FILE := FIRST] == COMMITTED.journal;
  }

  lemma BothAreDigests()
    ensures IsDigest(ZERO_DIGEST) && IsDigest(DIGEST) && DIGEST != ZERO_DIGEST
  {
    assert DIGEST[0] == '1' && ZERO_DIGEST[0] == '0';
  }

  lemma OpeningIsOpened()
    ensures Opened(Opening(), EMPTY)
  {
    NoFiles();
    hide FileAmount;
    var s := Fresh(LIMITS, 0).(uncertain := NOTHING);
    assert CountInitialFrom(s, EMPTY, 4) == Step(s, Ok(()));
    assert CountInitialFrom(s, EMPTY, 3) == Step(s, Ok(()));
    assert CountInitialFrom(s, EMPTY, 2) == Step(s, Ok(()));
    assert CountInitialFrom(s, EMPTY, 1) == Step(s, Ok(()));
    assert CountInitialFrom(s, EMPTY, 0) == Step(s, Ok(()));
    assert OpenedFrom(Opening(), EMPTY, LIMITS, 0, NOTHING, Some(FREE));
  }

  lemma OpenedIsReached(s: Ledger, initial: Inventory)
    requires Opened(s, initial)
    ensures Reached(s, initial)
  {
    hide Opened;
    assert Leads([s], [], s, initial);
  }

  lemma ReachNext(s: Ledger, initial: Inventory, a: Action)
    requires Reached(s, initial)
    ensures RecordsOwned(s) && Reached(Act(s, a), initial)
  {
    hide Act, RecordsOwned, Opened, Inv, Measured;
    ReachedHolds(s, initial);
    var states, actions :| Leads(states, actions, s, initial);
    var longer, more := states + [Act(s, a)], actions + [a];
    forall k | 0 <= k < |more|
      ensures RecordsOwned(longer[k]) && longer[k + 1] == Act(longer[k], more[k])
    {
      if k < |actions| {
        assert more[k] == actions[k] && longer[k] == states[k] && longer[k + 1] == states[k + 1];
      }
    }
    assert Leads(longer, more, Act(s, a), initial);
  }

  lemma BeginStep()
    ensures BeginOperation(Opening(), "op").next == Begun()
  {
  }

  lemma AdmissionNext(s: Ledger, operation: nat, b: Binding, view: JournalView)
    requires s.Live() && s.activeWrite.None? && BindingCurrent(s, operation, b, view) && TipMatches(s, operation, b)
    requires IsDigest(b.previousDigest) && ReplacementFits(s, b) && FreeSpaceCovers(s, JOURNAL_BYTES)
    ensures operation < |s.operations|
    ensures AdmitReplacement(s, operation, b, view).next
            == s.(records := s.records
                             + [Record(operation, REPLACEMENT_ESTIMATE, Writing, Some(s.nextWrite), Some(b), None)],
                  reserved := Added(s.reserved, REPLACEMENT_ESTIMATE),
                  operations := WithOperation(s, operation, OpWriting),
                  activeWrite := Some(s.nextWrite), nextWrite := s.nextWrite + 1)
  {
    hide IsDigest, TipMatches, ReplacementFits, FreeSpaceCovers;
  }

  lemma CreationIsBound()
    ensures BindingCurrent(Begun(), 0, CREATION, VIEW) && TipMatches(Begun(), 0, CREATION)
  {
  }

  lemma CreationFits()
    ensures ReplacementFits(Begun(), CREATION) && FreeSpaceCovers(Begun(), JOURNAL_BYTES)
  {
    NoFiles();
    hide FileAmount;
  }

  lemma CreateStep()
    ensures AdmitReplacement(Begun(), 0, CREATION, VIEW).next == Creating()
  {
    hide IsDigest, BindingCurrent, TipMatches, ReplacementFits, FreeSpaceCovers, AdmitReplacement;
    CreationIsBound();
    CreationFits();
    BothAreDigests();
    AdmissionNext(Begun(), 0, CREATION, VIEW);
    assert WithOperation(Begun(), 0, OpWriting) == Creating().operations;
    assert Begun().records + Creating().records == Creating().records;
  }

  lemma CommitStep()
    ensures RecordsOwned(Creating())
    ensures CompleteReplacement(Creating(), 0, 0, COMMITTED, FREE, VIEW, COMPLETION).next == Created()
  {
    OneFile();
    hide FileAmount, Bytes;
    assert EMPTY.journal[FILE := FIRST] == COMMITTED.journal;
  }

  lemma ReplacementIsBound()
    ensures BindingCurrent(Created(), 0, REPLACEMENT, VIEW) && TipMatches(Created(), 0, REPLACEMENT)
  {
  }

  lemma ReplacementIsRoomy()
    ensures ReplacementFits(Created(), REPLACEMENT) && FreeSpaceCovers(Created(), JOURNAL_BYTES)
  {
    OneFile();
    hide FileAmount, Bytes;
  }

  lemma CreatedTokens()
    ensures Created().nextWrite == 1 && |Created().records| == 1
  {
  }

  lemma ReplaceStep()
    ensures AdmitReplacement(Created(), 0, REPLACEMENT, VIEW).next == BeingReplaced()
  {
    hide IsDigest, BindingCurrent, TipMatches, ReplacementFits, FreeSpaceCovers, AdmitReplacement;
    ReplacementIsBound();
    ReplacementIsRoomy();
    BothAreDigests();
    AdmissionNext(Created(), 0, REPLACEMENT, VIEW);
    CreatedTokens();
    hide Created;
  }

  /** A live ledger that a run reaches and in which a nonempty journal is being replaced. */
  lemma OverrunIsReached()
    ensures Reached(BeingReplaced(), EMPTY) && BeingReplaced().Live() && Overrunning(BeingReplaced().records[1])
  {
    hide Reached, AdmitReplacement, CompleteReplacement, BeginOperation, RecordsOwned, Opened;
    OpeningIsOpened();
    OpenedIsReached(Opening(), EMPTY);
    ReachNext(Opening(), EMPTY, Begin("op"));
    BeginStep();
    ReachNext(Begun(), EMPTY, AdmitJournal(0, CREATION, VIEW));
    CreateStep();
    ReachNext(Creating(), EMPTY, CompleteJournal(0, 0, COMMITTED, FREE, VIEW, COMPLETION));
    CommitStep();
    ReachNext(Created(), EMPTY, AdmitJournal(0, REPLACEMENT, VIEW));
    ReplaceStep();
  }

  /** Closing it leaves a closed ledger, not invalid and with no active write, over its private-journal ceiling. */
  lemma OverrunAfterClosing() returns (t: Ledger)
    ensures Reached(t, EMPTY) && t.closed && !t.invalid && t.activeWrite.None?
    ensures t.Used().journal.bytes > t.limits.journalBytes
  {
    hide Reached, Close, RecordsOwned;
    OverrunIsReached();
    ReachNext(BeingReplaced(), EMPTY, CloseLedger);
    ClosingCanLeaveAnOverrun(BeingReplaced(), EMPTY, 1);
    t := Close(BeingReplaced());
  }
}
