/** The live writer of one operation's journal, and the settlements issued for its current tip. */
module JournalWriter {
  import opened CapacityTypes
  import opened JournalEvents
  import opened JournalChain
  import opened JournalSizes

  const MAX_LIVE_BYTES := 2 * MAX_FILE_BYTES

  /** An acknowledgement names the exact tip it was given for; `owner` is the writer that gave it. */
  datatype Acknowledgement = Acknowledgement(
    operationId: string, revision: nat, digest: Digest, fileIdentity: nat, owner: nat)

  /** What the separate host validator reports about one request. */
  datatype Facts = Facts(
    operationId: string, jobId: string, claimId: string, manifestIdentity: string, processIdentity: string,
    sessionIdentity: string, index: int, requestId: string, illustrationId: string, runIndex: int,
    workflowIdentity: string, disposition: Disposition, promptId: Option<string>, observationId: string,
    tipRevision: int, tipDigest: Digest)

  /** A settlement issued in memory for one tip of one writer. */
  datatype Observation = Observation(facts: Facts, tip: Acknowledgement, owner: nat)

  /** What the file protocol does with one snapshot. A refused lock changes nothing; past the lock every failure
      leaves evidence behind. */
  datatype Disk = LockRefused | Interrupted | Written(identity: nat)

  predicate SameRequest(op: Operation, request: Request, facts: Facts) {
    && facts.operationId == op.operationId && facts.jobId == op.jobId && facts.claimId == op.claimId
    && facts.manifestIdentity == op.manifestIdentity && facts.processIdentity == op.processIdentity
    && facts.sessionIdentity == op.sessionIdentity && facts.requestId == request.requestId
    && facts.illustrationId == request.illustrationId && facts.runIndex == request.runIndex
    && facts.workflowIdentity == request.workflowIdentity
  }

  function Settlement(facts: Facts, revision: int, digest: Digest): Event {
    RequestSettlement(facts.index, facts.requestId, facts.disposition, facts.promptId, facts.observationId,
                      revision, digest)
  }

  /** Why the host's facts do not settle the tip (`events`, `digest`). */
  function IssueRefusal(op: Operation, events: seq<Event>, digest: Digest, facts: Facts): (refusal: Option<Code>)
    requires ValidOperation(op) && Grammar(op, events)
    ensures refusal.None? ==> AtState(op, events, AwaitingHostSettlement)
  {
    AcceptedLength(op, events);
    var sequence := Sequence(op, events).value;
    if sequence.state != AwaitingHostSettlement || facts.index != sequence.nextIndex then Some(SettlementNotExpected)
    else
      AwaitingSettlesLast(op, events);
      if !SameRequest(op, op.requests[facts.index], facts) || facts.tipRevision != |events| || facts.tipDigest != digest
      then Some(SettlementIdentityConflicting)
      else if EventRefusal(op, Settlement(facts, |events|, digest)).Some? then
        EventRefusal(op, Settlement(facts, |events|, digest))
      else
        var last := events[|events| - 1];
        if !Settles(last.outcome, last.promptId, Settlement(facts, |events|, digest)) then Some(SettlementOutcomeMismatch)
        else None
  }

  /** The host's facts settle this tip: they name this operation and the request whose outcome is the last event, they
      are about this very tip, and they agree with that outcome. */
  predicate HostSettles(op: Operation, events: seq<Event>, digest: Digest, facts: Facts) {
    && |events| % 3 == 2 && |events| / 3 < |op.requests|
    && (var request := op.requests[|events| / 3];
        facts == Facts(op.operationId, op.jobId, op.claimId, op.manifestIdentity, op.processIdentity, op.sessionIdentity,
                       |events| / 3, request.requestId, request.illustrationId, request.runIndex, request.workflowIdentity,
                       facts.disposition, facts.promptId, facts.observationId, |events|, digest))
    && ValidId(facts.observationId)
    && events[|events| - 1].SubmissionOutcome? && HostAgrees(events[|events| - 1], facts.disposition, facts.promptId)
  }

  /** A settlement is issued for exactly the facts that settle the tip. */
  lemma IssueExactly(op: Operation, events: seq<Event>, digest: Digest, facts: Facts)
    requires ValidOperation(op) && Grammar(op, events)
    ensures IssueRefusal(op, events, digest, facts).None? <==> HostSettles(op, events, digest, facts)
  {
    GrammarIsAcceptance(op, events);
    AcceptedExactly(op, events);
    hide Sequence, Grammar, ValidId;
    if |events| % 3 == 2 && |events| / 3 < |op.requests| {
      PlacedFollows(op, events, |events| - 1);
      var e := Settlement(facts, |events|, digest);
      BelongsFollows(op, e);
      FollowsBelongs(op, |events| / 3, |events|, events[|events| - 1], e);
    }
    hide ValidOperation, Follows, EventRefusal;
  }

  lemma SettlesAsIssued(op: Operation, events: seq<Event>, digest: Digest, facts: Facts)
    requires HostSettles(op, events, digest, facts)
    ensures SettlementOf(op, |events| / 3, |events|, events[|events| - 1], Settlement(facts, |events|, digest))
  {
    hide ValidId, HostAgrees;
  }

  function OutcomeFor(op: Operation, index: nat, kind: OutcomeKind, promptId: Option<string>): Event
    requires index < |op.requests|
  {
    SubmissionOutcome(index, op.requests[index].requestId, kind, promptId)
  }

  // ----- what the machine accepts next -----

  predicate AtState(op: Operation, events: seq<Event>, state: JournalState) {
    Sequence(op, events).Ok? && Sequence(op, events).value.state == state
  }

  lemma AwaitingSettlesLast(op: Operation, events: seq<Event>)
    requires ValidOperation(op) && Grammar(op, events)
    requires AtState(op, events, AwaitingHostSettlement)
    ensures |events| % 3 == 2 && events[|events| - 1].SubmissionOutcome?
    ensures Sequence(op, events).value.nextIndex == |events| / 3 < |op.requests|
  {
    GrammarIsAcceptance(op, events);
    assert Place(op, events, |events| - 1);
  }

  /** The outcome event for the request whose intent is open. */
  function OutcomeEvent(op: Operation, events: seq<Event>, kind: OutcomeKind, promptId: Option<string>): Event
    requires ValidOperation(op) && Grammar(op, events) && AtState(op, events, IntentOutcomeUnknown)
  {
    OutcomeHasRequest(op, events);
    var index := Sequence(op, events).value.nextIndex;
    SubmissionOutcome(index, op.requests[index].requestId, kind, promptId)
  }

  /** The event accepted next is decided by the last place alone. */
  lemma NextIsPlace(op: Operation, events: seq<Event>, e: Event)
    requires Grammar(op, events)
    ensures Grammar(op, events + [e]) <==>
              var next := events + [e];
              Place(op, next, |events|) && (|events| > 0 ==> Place(op, next, |events| - 1))
  {
    hide Place, Grammar;
    var next := events + [e];
    assert next[..|events| + 1] == next && next[..|events|] == events;
    GrammarExtends(op, next, |events|);
  }

  lemma IntentIsAccepted(op: Operation, events: seq<Event>, index: int)
    requires ValidOperation(op) && Grammar(op, events)
    requires AtState(op, events, ReadyForRequest) && index == Sequence(op, events).value.nextIndex
    ensures 0 <= index < |op.requests| && Grammar(op, events + [IntentOf(op, index)])
  {
    GrammarIsAcceptance(op, events);
    if events != [] {
      assert Place(op, events, |events| - 1);
    }
    assert |events| % 3 == 0 && index == |events| / 3 < |op.requests|;
    NextIsPlace(op, events, IntentOf(op, index));
  }

  lemma OutcomeIsAccepted(op: Operation, events: seq<Event>, e: Event)
    requires ValidOperation(op) && Grammar(op, events) && Belongs(op, e) && e.SubmissionOutcome?
    requires AtState(op, events, IntentOutcomeUnknown)
    requires e.index == Sequence(op, events).value.nextIndex
    ensures Grammar(op, events + [e])
  {
    GrammarIsAcceptance(op, events);
    assert Place(op, events, |events| - 1);
    NextIsPlace(op, events, e);
  }

  lemma SettlementIsAccepted(op: Operation, events: seq<Event>, digest: Digest, facts: Facts)
    requires ValidOperation(op) && Grammar(op, events) && IssueRefusal(op, events, digest, facts).None?
    ensures Grammar(op, events + [Settlement(facts, |events|, digest)])
  {
    AwaitingSettlesLast(op, events);
    GrammarIsAcceptance(op, events);
    assert Place(op, events, |events| - 1);
    NextIsPlace(op, events, Settlement(facts, |events|, digest));
  }

  /** While a settlement is owed nothing but a settlement is accepted. */
  lemma OnlyASettlementFollows(op: Operation, events: seq<Event>, e: Event)
    requires ValidOperation(op) && Grammar(op, events) && Grammar(op, events + [e])
    requires AtState(op, events, AwaitingHostSettlement)
    ensures e.RequestSettlement?
  {
    AwaitingSettlesLast(op, events);
    assert Place(op, events + [e], |events|);
  }

  /** An issued settlement fits the history it was issued for and no other: appended to any journal of the operation
      it gives a journal that reopens exactly when that journal is the one it was issued for. */
  lemma SettlementFitsOnlyItsHistory(op: Operation, entries: seq<Entry>, facts: Facts, others: seq<Entry>)
    requires ValidOperation(op) && ValidJournal(op, entries)
    requires IssueRefusal(op, Events(entries), Tip(entries), facts).None?
    requires others == [] || ValidJournal(op, others)
    ensures var e := Settlement(facts, |entries|, Tip(entries));
            ValidJournal(op, others + [Signed(op, |others| + 1, Tip(others), e)]) <==> others == entries
  {
    var e := Settlement(facts, |entries|, Tip(entries));
    var next := others + [Signed(op, |others| + 1, Tip(others), e)];
    if others == entries {
      SettlementIsAccepted(op, Events(entries), Tip(entries), facts);
      AcceptedLength(op, Events(entries) + [e]);
      AppendKeepsValid(op, entries, e);
    } else if ValidJournal(op, next) {
      assert EntryRefusal(op, next, |others|).None?;
      assert next[..|others|] == others;
      TipBindsHistory(op, entries, op, others);
    }
  }

  class MultiRequestJournalWriter {
    const root: Root
    const operation: Operation
    const owner: nat
    const maximumCumulativeBytes: nat
    var revision: nat
    var digest: Digest
    var fileIdentity: Option<nat>
    var entries: seq<Entry>
    var events: seq<Event>
    var tip: Option<Acknowledgement>
    var issued: Option<Observation>
    var uncertain: bool
    var closed: bool

    predicate TipCurrent()
      reads this
    {
      && (tip.Some? <==> revision > 0) && (tip.Some? <==> fileIdentity.Some?)
      && (tip.Some? ==> tip.value
                        == Acknowledgement(operation.operationId, revision, digest, fileIdentity.value, owner))
    }

    ghost predicate HistoryValid()
      reads this
    {
      && revision == |entries| && digest == Tip(entries) && events == Events(entries)
      && (entries == [] || ValidJournal(operation, entries))
      && Grammar(operation, events)
      && (entries != [] ==> Legible(operation))
    }

    /** An issued settlement is for the current tip, and the tip still owes exactly it. */
    ghost predicate IssuedCurrent()
      requires ValidOperation(operation) && HistoryValid()
      reads this
    {
      issued.Some? ==>
        && tip == Some(issued.value.tip) && issued.value.owner == owner
        && IssueRefusal(operation, events, digest, issued.value.facts).None?
    }

    ghost predicate Valid()
      reads this
    {
      && ValidOperation(operation) && Printable(operation) && Approved(root)
      && maximumCumulativeBytes <= MAX_CUMULATIVE_BYTES
      && TipCurrent() && HistoryValid() && IssuedCurrent()
    }

    /** A writer is made once the preflight has answered. */
    constructor (root: Root, operation: Operation, owner: nat, workload: (nat, nat))
      requires Approved(root) && ValidOperation(operation) && Printable(operation)
      requires workload.1 == CumulativeBytes(HeaderBytes(root, operation), operation, 3 * |operation.requests|)
      ensures Valid() && entries == [] && tip.None? && issued.None? && !uncertain && !closed
      ensures this.operation == operation && this.owner == owner && this.root == root
    {
      hide HeaderBytes, CumulativeBytes;
      SnapshotFits(root, operation, 3 * |operation.requests|);
      this.root, this.operation, this.owner := root, operation, owner;
      maximumCumulativeBytes := workload.1;
      revision, digest, fileIdentity, entries, events := 0, ZeroDigest, None, [], [];
      tip, issued, uncertain, closed := None, None, false, false;
    }

    /** Everything an append changes when it succeeds. */
    twostate predicate Appended(e: Event, identity: nat)
      reads this
    {
      && entries == old(entries) + [Signed(operation, old(revision) + 1, old(digest), e)]
      && events == old(events) + [e] && fileIdentity == Some(identity)
      && issued == (if e.RequestSettlement? then None else old(issued))
      && uncertain == old(uncertain) && closed == old(closed)
    }

    /** A failed append changes at most the uncertainty mark. */
    twostate predicate Kept()
      reads this
    {
      && entries == old(entries) && events == old(events) && revision == old(revision) && digest == old(digest)
      && fileIdentity == old(fileIdentity) && tip == old(tip) && issued == old(issued) && closed == old(closed)
    }

    function WriteRefusal(expectedTip: Option<Acknowledgement>): Option<Code>
      reads this
    {
      if closed then Some(WriterClosed)
      else if uncertain then Some(WriterUncertain)
      else if expectedTip != tip then Some(AcknowledgedTipConflict)
      else None
    }

    /** Reopening what the writer's appends left behind gives back exactly the writer's own history and state. */
    method ReopenOwn() returns (r: Outcome<Reopened>)
      requires Valid() && revision > 0
      ensures Sequence(operation, events).Ok?
      ensures r == Ok(Reopened(operation, events, revision, digest, fileIdentity.value,
                               Sequence(operation, events).value))
    {
      hide Grammar, ValidJournal, FileBytes, IssueRefusal, ValidOperation, EventRefusal, Sequence, Tip;
      r := Reopen(root, operation.operationId + ".json", Content(root, operation, entries), fileIdentity.value,
                  None, None);
    }

    /** What decides an append the machine accepts: the disk takes the snapshot, and what it took reads back. */
    predicate Lands(disk: Disk) { disk.Written? && Legible(operation) }

    /** An append the machine accepts fails past the lock, or at it, or not at all; no size ever refuses it. */
    twostate predicate Refused(disk: Disk, r: Outcome<Acknowledgement>)
      reads this
    {
      r == Failed(AppendInterrupted) && Kept() && (uncertain <==> !disk.LockRefused?)
    }

    /** The file protocol on one encoded snapshot. */
    method Append(e: Event, disk: Disk) returns (r: Outcome<Acknowledgement>)
      requires Valid() && !closed && !uncertain
      requires e.RequestSettlement? ==> e.tipRevision == revision && e.tipDigest == digest
      modifies this
      ensures Valid()
      ensures r.Ok? <==> Grammar(operation, old(events) + [e]) && Lands(disk)
      ensures r.Ok? ==> Appended(e, disk.identity) && tip == Some(r.value)
      ensures Grammar(operation, old(events) + [e]) && r.Failed? ==> Refused(disk, r)
      ensures !Grammar(operation, old(events) + [e]) ==> Kept() && !uncertain && r.code != AppendInterrupted
    {
      hide Grammar, ValidJournal, FileBytes, HeaderBytes, IssueRefusal, ValidOperation, Digits, EventRefusal, Signed,
        Sequence, Tip, Printable, Legible, Approved;
      if revision >= MAX_REVISIONS {
        FullJournalTakesNoMore(operation, events, e);
        return Failed(RevisionLimitExceeded);
      }
      var refusal := EventRefusal(operation, e);
      var next := events + [e];
      var sequence := CheckSequence(operation, next);
      if refusal.Some? || sequence.Failed? {
        RefusedEventBreaksGrammar(operation, events, e);
        RefusalIsNotALimit(operation, e);
        SequenceNeverInterrupts(operation, next);
        return Failed(if refusal.Some? then refusal.value else sequence.code);
      }
      EveryJournalFits(root, operation, next);
      EveryJournalFits(root, operation, events);
      var header := HeaderBytes(root, operation);
      if FileBytes(header, next) > MAX_FILE_BYTES {
        return Failed(JournalTooLarge);
      }
      if maximumCumulativeBytes > MAX_CUMULATIVE_BYTES {
        return Failed(WriteBudgetExceeded);
      }
      if disk.LockRefused? {
        return Failed(AppendInterrupted);
      }
      if FileBytes(header, next) + (if revision > 0 then FileBytes(header, events) else 0) > MAX_LIVE_BYTES
         || disk.Interrupted? {
        uncertain := true;
        return Failed(AppendInterrupted);
      }
      if revision > 0 {
        var prior := ReopenOwn();
        assert prior.Ok? && prior.value.revision == revision && prior.value.digest == digest
               && Some(prior.value.fileIdentity) == fileIdentity && prior.value.operation == operation;
      }
      r := Acknowledge(e, disk.identity);
    }

    /** Reopen what was written, then publish the new tip: the bytes just written read back, and as exactly what was
        written, unless an integer in them is too long to be read at all. */
    method Acknowledge(e: Event, identity: nat) returns (r: Outcome<Acknowledgement>)
      requires Valid() && !closed && !uncertain && revision < MAX_REVISIONS
      requires Grammar(operation, events + [e])
      requires e.RequestSettlement? ==> e.tipRevision == revision && e.tipDigest == digest
      modifies this
      ensures Valid() && (r.Ok? <==> Legible(operation))
      ensures r.Ok? ==> Appended(e, identity) && tip == Some(r.value) && !uncertain
      ensures r.Failed? ==> r.code == AppendInterrupted && Kept() && uncertain
    {
      hide Grammar, ValidJournal, FileBytes, IssueRefusal, ValidOperation, Digits, EventRefusal, Sequence, Legible,
        Printable, Approved, Tip, Signed, CumulativeBytes, Events;
      AppendKeepsValid(operation, entries, e);
      IssuedMeansSettlement(e);
      var written := entries + [Signed(operation, revision + 1, digest, e)];
      var observed := Reopen(root, operation.operationId + ".json", Content(root, operation, written), identity,
                             None, None);
      if observed.Failed? || observed.value.revision != revision + 1 || observed.value.digest != Tip(written) {
        uncertain := true;
        return Failed(AppendInterrupted);
      }
      entries, events := written, events + [e];
      revision, digest, fileIdentity := observed.value.revision, observed.value.digest, Some(identity);
      var ack := Acknowledgement(operation.operationId, revision, digest, identity, owner);
      tip := Some(ack);
      if e.RequestSettlement? {
        issued := None;
      }
      r := Ok(ack);
    }

    lemma IssuedMeansSettlement(e: Event)
      requires Valid() && Grammar(operation, events + [e])
      ensures issued.Some? ==> e.RequestSettlement?
    {
      hide Grammar, ValidJournal, FileBytes;
      if issued.Some? {
        OnlyASettlementFollows(operation, events, e);
      }
    }

    method AppendIntent(expectedTip: Option<Acknowledgement>, index: int, disk: Disk)
      returns (r: Outcome<Acknowledgement>)
      requires Valid()
      modifies this
      ensures Valid()
      ensures old(WriteRefusal(expectedTip)).Some? ==>
                r == Failed(old(WriteRefusal(expectedTip)).value) && Kept() && uncertain == old(uncertain)
      ensures old(WriteRefusal(expectedTip)).None?
              && old(Sequence(operation, events)) != Ok(SequenceState(index, ReadyForRequest))
              ==> r == Failed(InvalidRequestOrder) && Kept() && uncertain == old(uncertain)
      ensures old(WriteRefusal(expectedTip)).None?
              && old(Sequence(operation, events)) == Ok(SequenceState(index, ReadyForRequest)) ==>
                && 0 <= index < |operation.requests|
                && (r.Ok? <==> Lands(disk))
                && (r.Ok? ==> Appended(IntentOf(operation, index), disk.identity) && tip == Some(r.value))
                && (r.Failed? ==> Refused(disk, r))
      ensures r.Ok? <==>
                && !old(closed) && !old(uncertain) && expectedTip == old(tip) && |old(events)| % 3 == 0
                && index == |old(events)| / 3 < |operation.requests| && Lands(disk)
    {
      hide Grammar, ValidJournal, FileBytes, IssueRefusal, ValidOperation, Sequence, Digits;
      var refusal := WriteRefusal(expectedTip);
      if refusal.Some? {
        return Failed(refusal.value);
      }
      var sequence := CheckSequence(operation, events);
      if sequence.value.state != ReadyForRequest || index != sequence.value.nextIndex {
        return Failed(InvalidRequestOrder);
      }
      IntentIsAccepted(operation, events, index);
      hide IntentOf;
      r := Append(IntentOf(operation, index), disk);
    }

    method AppendOutcome(expectedTip: Option<Acknowledgement>, kind: OutcomeKind, promptId: Option<string>, disk: Disk)
      returns (r: Outcome<Acknowledgement>)
      requires Valid()
      modifies this
      ensures Valid()
      ensures old(WriteRefusal(expectedTip)).Some? ==>
                r == Failed(old(WriteRefusal(expectedTip)).value) && Kept() && uncertain == old(uncertain)
      ensures r.Ok? <==>
                && old(WriteRefusal(expectedTip)).None? && old(AtState(operation, events, IntentOutcomeUnknown))
                && Belongs(operation, old(OutcomeEvent(operation, events, kind, promptId))) && Lands(disk)
      ensures r.Ok? ==> Appended(old(OutcomeEvent(operation, events, kind, promptId)), disk.identity)
                        && tip == Some(r.value)
      ensures r.Ok? <==>
                && !old(closed) && !old(uncertain) && expectedTip == old(tip)
                && |old(events)| % 3 == 1 && |old(events)| / 3 < |operation.requests|
                && var e := OutcomeFor(operation, |old(events)| / 3, kind, promptId);
                OutcomeOf(operation, |old(events)| / 3, e) && Lands(disk)
      ensures r.Ok? ==> events == old(events) + [OutcomeFor(operation, |old(events)| / 3, kind, promptId)]
      ensures r.Failed? ==> Kept() && r.code !in {RevisionLimitExceeded, JournalTooLarge, WriteBudgetExceeded}
      ensures r.Failed? ==> (uncertain <==> old(uncertain) || (r.code == AppendInterrupted && !disk.LockRefused?))
    {
      hide Grammar, ValidJournal, FileBytes, IssueRefusal, Sequence, Digits, Legible, Printable, Approved;
      var refusal := WriteRefusal(expectedTip);
      if refusal.Some? {
        return Failed(refusal.value);
      }
      var sequence := CheckSequence(operation, events);
      if sequence.value.state != IntentOutcomeUnknown {
        return Failed(SubmissionOutcomeNotExpected);
      }
      OutcomeHasRequest(operation, events);
      var index := sequence.value.nextIndex;
      var e := SubmissionOutcome(index, operation.requests[index].requestId, kind, promptId);
      assert e == OutcomeEvent(operation, events, kind, promptId);
      var invalid := EventRefusal(operation, e);
      if invalid.Some? {
        RefusalIsNotALimit(operation, e);
        return Failed(invalid.value);
      }
      OutcomeIsAccepted(operation, events, e);
      r := Append(e, disk);
    }

    /** Bind the host's facts to the current tip. */
    method IssueSettlement(expectedTip: Option<Acknowledgement>, index: int, facts: Facts)
      returns (r: Outcome<Observation>)
      requires Valid()
      modifies this`issued
      ensures Valid()
      ensures r.Ok? <==>
                && 0 <= index < |operation.requests| && expectedTip == tip && old(issued).None? && !closed && !uncertain
                && HostSettles(operation, events, digest, facts)
      ensures r.Ok? ==> tip.Some? && r.value == Observation(facts, tip.value, owner) && issued == Some(r.value)
      ensures r.Failed? ==> issued == old(issued)
    {
      hide Grammar, ValidJournal, FileBytes, IssueRefusal, ValidOperation, Digits, HostSettles;
      IssueExactly(operation, events, digest, facts);
      if !(0 <= index < |operation.requests|) || expectedTip != tip {
        return Failed(SettlementNotExpected);
      }
      if issued.Some? {
        return Failed(SettlementAlreadyIssued);
      }
      var refusal := WriteRefusal(expectedTip);
      if refusal.Some? {
        return Failed(refusal.value);
      }
      refusal := IssueRefusal(operation, events, digest, facts);
      if refusal.Some? {
        return Failed(refusal.value);
      }
      IssuableHasTip(operation, events, digest, facts);
      issued := Some(Observation(facts, tip.value, owner));
      r := Ok(issued.value);
    }

    /** A settlement issued for the current tip always passes the machine: only a closed or uncertain writer or the disk
        can refuse it. Success consumes it. */
    method AppendSettlement(expectedTip: Option<Acknowledgement>, settlement: Observation, disk: Disk)
      returns (r: Outcome<Acknowledgement>)
      requires Valid()
      modifies this
      ensures Valid()
      ensures r.Ok? <==>
                && !old(closed) && !old(uncertain) && expectedTip == old(tip) && old(issued) == Some(settlement)
                && Lands(disk)
      ensures r.Ok? ==>
                && Appended(Settlement(settlement.facts, old(revision), old(digest)), disk.identity)
                && issued.None? && tip == Some(r.value)
                && HostSettles(operation, old(events), old(digest), settlement.facts)
      ensures r.Ok? ==>
                && SettlementOf(operation, |old(events)| / 3, |old(events)|, old(events)[|old(events)| - 1],
                                events[|old(events)|])
                && events[|old(events)|].tipDigest == old(digest)
      ensures r.Failed? ==> Kept() && r.code in {WriterClosed, WriterUncertain, AcknowledgedTipConflict,
                                                 HostSettlementRequired, AppendInterrupted}
      ensures r.Failed? ==> (uncertain <==> old(uncertain) || (r.code == AppendInterrupted && !disk.LockRefused?))
    {
      hide Grammar, ValidJournal, FileBytes, ValidOperation, Sequence, Digits, Legible, Printable, Approved;
      var refusal := WriteRefusal(expectedTip);
      if refusal.Some? {
        return Failed(refusal.value);
      }
      if issued != Some(settlement) || settlement.owner != owner || Some(settlement.tip) != expectedTip {
        return Failed(HostSettlementRequired);
      }
      var sequence := CheckSequence(operation, events);
      if sequence.value.state != AwaitingHostSettlement || settlement.facts.index != sequence.value.nextIndex {
        return Failed(SettlementNotExpected);
      }
      AwaitingSettlesLast(operation, events);
      if !SameRequest(operation, operation.requests[settlement.facts.index], settlement.facts) {
        return Failed(SettlementIdentityConflicting);
      }
      SettlementIsAccepted(operation, events, digest, settlement.facts);
      IssueExactly(operation, events, digest, settlement.facts);
      SettlesAsIssued(operation, events, digest, settlement.facts);
      hide HostSettles, SettlementOf;
      r := Append(Settlement(settlement.facts, revision, digest), disk);
    }

    method Close()
      requires Valid()
      modifies this`closed
      ensures Valid() && closed
    {
      closed := true;
    }
  }

  lemma FullJournalTakesNoMore(op: Operation, events: seq<Event>, e: Event)
    requires ValidOperation(op) && |events| >= MAX_REVISIONS
    ensures !Grammar(op, events + [e])
  {
    if Grammar(op, events + [e]) {
      AcceptedLength(op, events + [e]);
    }
  }

  lemma RefusedEventBreaksGrammar(op: Operation, events: seq<Event>, e: Event)
    ensures EventRefusal(op, e).Some? ==> !Grammar(op, events + [e])
  {
    if Grammar(op, events + [e]) {
      assert Place(op, events + [e], |events|);
    }
  }

  lemma RefusalIsNotALimit(op: Operation, e: Event)
    ensures EventRefusal(op, e) != Some(RevisionLimitExceeded) && EventRefusal(op, e) != Some(WriteBudgetExceeded)
    ensures EventRefusal(op, e) != Some(AppendInterrupted) && EventRefusal(op, e) != Some(JournalTooLarge)
  {
  }

  lemma {:induction false} SequenceNeverInterrupts(op: Operation, events: seq<Event>)
    ensures Sequence(op, events) != Failed(AppendInterrupted)
  {
    FoldNeverInterrupts(op, events, |events|);
  }

  lemma {:induction false} FoldNeverInterrupts(op: Operation, events: seq<Event>, n: nat)
    requires n <= |events|
    ensures Fold(op, events, n) != Failed(AppendInterrupted)
  {
    hide EventRefusal;
    if n > 0 {
      FoldNeverInterrupts(op, events, n - 1);
      RefusalIsNotALimit(op, events[n - 1]);
    }
  }

  lemma OutcomeHasRequest(op: Operation, events: seq<Event>)
    requires ValidOperation(op) && Grammar(op, events) && AtState(op, events, IntentOutcomeUnknown)
    ensures 0 <= Sequence(op, events).value.nextIndex < |op.requests|
  {
    GrammarIsAcceptance(op, events);
    assert Place(op, events, |events| - 1);
  }

  lemma IssuableHasTip(op: Operation, events: seq<Event>, digest: Digest, facts: Facts)
    requires ValidOperation(op) && Grammar(op, events) && IssueRefusal(op, events, digest, facts).None?
    ensures |events| > 0
  {
    AwaitingSettlesLast(op, events);
  }
}
