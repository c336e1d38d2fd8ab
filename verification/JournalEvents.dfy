/** The multi-request journal's events and the state machine that accepts them. */
module JournalEvents {
  import opened CapacityTypes

  const MAX_REQUESTS := 100
  const MAX_REVISIONS := 3 * MAX_REQUESTS

  datatype Request = Request(requestId: string, illustrationId: string, runIndex: int, workflowIdentity: string)

  /** A device number and a file number, as `stat` gives them. */
  datatype StatIdentity = StatIdentity(device: nat, file: nat)

  datatype Project = Project(
    rootKey: string, rootPath: string, rootIdentity: StatIdentity, relativePath: string, fileIdentity: StatIdentity,
    sourceDigest: string, reviewDigest: string)

  /** A frozen operation; a request's index is its position. */
  datatype Operation = Operation(
    operationId: string, jobId: string, claimId: string, manifestIdentity: string,
    processIdentity: string, sessionIdentity: string, project: Project, requests: seq<Request>)

  /** Digests as terms: a digest names exactly what was hashed. */
  datatype Digest = ZeroDigest | Link(operation: Operation, revision: int, previous: Digest, event: Event)

  datatype OutcomeKind = Accepted | PreSendRejected | UnknownOutcome | OtherOutcome(text: string)

  datatype Disposition = ExecutionCompleted | ExecutionFailed | RejectedBeforeSend | OtherDisposition(text: string)

  datatype Event =
    | SubmissionIntent(index: int, requestId: string, illustrationId: string, runIndex: int, workflowIdentity: string)
    | SubmissionOutcome(index: int, requestId: string, outcome: OutcomeKind, promptId: Option<string>)
    | RequestSettlement(index: int, requestId: string, disposition: Disposition, promptId: Option<string>,
                        observationId: string, tipRevision: int, tipDigest: Digest)

  datatype Code =
    | InvalidRequestOrder | RequestIdentityConflicting | InvalidIdentifier | InvalidSubmissionOutcome
    | InvalidSettlement | ConflictingSubmissionOutcome | SettlementNotExpected | SettlementTipMismatch
    | SettlementOutcomeMismatch | InvalidRevision | ConflictingRevision | DigestMismatch
    | OperationIdentityMismatch | StaleRevision | RevisionLimitExceeded | JournalTooLarge | WriteBudgetExceeded
    | WriterClosed | WriterUncertain | AcknowledgedTipConflict | SubmissionOutcomeNotExpected
    | HostSettlementRequired | SettlementAlreadyIssued | SettlementIdentityConflicting | AppendInterrupted
    | UnprintableInteger | UnreadableInteger

  datatype Outcome<+T> = Ok(value: T) | Failed(code: Code)

  predicate IdCharacter(c: char) {
    'A' <= c <= 'Z' || 'a' <= c <= 'z' || '0' <= c <= '9' || c == '_' || c == ':' || c == '.' || c == '-'
  }

  predicate ValidId(id: string) {
    1 <= |id| <= 160 && forall i :: 0 <= i < |id| ==> IdCharacter(id[i])
  }

  predicate ValidOperationId(id: string) {
    1 <= |id| <= 128 && forall i :: 0 <= i < |id| ==> IdCharacter(id[i]) && id[i] != ':' && id[i] != '.'
  }

  predicate ValidDigest(text: string) {
    |text| == 64 && forall i :: 0 <= i < |text| ==> '0' <= text[i] <= '9' || 'a' <= text[i] <= 'f'
  }

  /** Every component of `part + path` between slashes names something. */
  predicate NamedParts(part: string, path: string)
    decreases path
  {
    if path == "" then part != "" && part != "." && part != ".."
    else if path[0] == '/' then part != "" && part != "." && part != ".." && NamedParts("", path[1..])
    else NamedParts(part + [path[0]], path[1..])
  }

  predicate ValidRelative(path: string) {
    && |path| <= 256 && NamedParts("", path)
    && forall i :: 0 <= i < |path| ==> path[i] != '\\' && path[i] != ':' && path[i] != '\0'
  }

  predicate ValidObservedPath(path: string) {
    1 <= |path| <= 1024 && forall i :: 0 <= i < |path| ==> path[i] != '\0'
  }

  predicate ValidProject(p: Project) {
    && ValidId(p.rootKey) && ValidDigest(p.sourceDigest) && ValidDigest(p.reviewDigest)
    && ValidRelative(p.relativePath) && ValidObservedPath(p.rootPath)
  }

  predicate ValidOperation(op: Operation) {
    && ValidOperationId(op.operationId) && ValidId(op.jobId) && ValidId(op.claimId) && ValidId(op.manifestIdentity)
    && ValidId(op.processIdentity) && ValidId(op.sessionIdentity) && ValidProject(op.project)
    && 1 <= |op.requests| <= MAX_REQUESTS
    && (forall i :: 0 <= i < |op.requests| ==>
          && ValidId(op.requests[i].requestId) && ValidId(op.requests[i].illustrationId)
          && ValidId(op.requests[i].workflowIdentity) && 1 <= op.requests[i].runIndex <= 5)
    && (forall i, j :: 0 <= i < j < |op.requests| ==> op.requests[i].requestId != op.requests[j].requestId)
  }

  function Digits(n: int): (d: nat)
    decreases if n < 0 then 1 - n else n
  {
    if n < 0 then 1 + Digits(-n) else if n < 10 then 1 else 1 + Digits(n / 10)
  }

  predicate AtMostDigits(i: StatIdentity, digits: nat) { Digits(i.device) <= digits && Digits(i.file) <= digits }

  /** CPython writes out no integer of more than 4300 digits. */
  predicate Printable(op: Operation) {
    AtMostDigits(op.project.rootIdentity, 4300) && AtMostDigits(op.project.fileIdentity, 4300)
  }

  /** No integer of more than 64 digits is read back. */
  predicate Legible(op: Operation) {
    AtMostDigits(op.project.rootIdentity, 64) && AtMostDigits(op.project.fileIdentity, 64)
  }

  predicate ValidPrompt(promptId: Option<string>) { promptId.None? || ValidId(promptId.value) }

  /** Why one event does not belong to this operation, whatever came before it. */
  function EventRefusal(op: Operation, e: Event): Option<Code> {
    if !(0 <= e.index < |op.requests|) || e.index >= MAX_REQUESTS then Some(InvalidRequestOrder)
    else
      var request := op.requests[e.index];
      if e.requestId != request.requestId then Some(RequestIdentityConflicting)
      else
        match e
        case SubmissionIntent(_, id, illustration, run, workflow) =>
          if illustration != request.illustrationId || run != request.runIndex || workflow != request.workflowIdentity then
            Some(RequestIdentityConflicting)
          else if !ValidId(id) || !ValidId(illustration) || !ValidId(workflow) then Some(InvalidIdentifier)
          else None
        case SubmissionOutcome(_, _, outcome, prompt) =>
          if outcome.OtherOutcome? then Some(InvalidSubmissionOutcome)
          else if !ValidPrompt(prompt) then Some(InvalidIdentifier)
          else if (outcome.Accepted? && prompt.None?) || (outcome.PreSendRejected? && prompt.Some?) then
            Some(InvalidSubmissionOutcome)
          else None
        case RequestSettlement(_, _, disposition, prompt, observation, tipRevision, _) =>
          if disposition.OtherDisposition? || tipRevision < 1 then Some(InvalidSettlement)
          else if !ValidId(observation) || !ValidPrompt(prompt) then Some(InvalidIdentifier)
          else None
  }

  predicate Belongs(op: Operation, e: Event) { EventRefusal(op, e).None? }

  datatype Phase = Ready | AwaitingOutcome | AwaitingSettlement | BlockedUnknown

  /** The variables of the sequence loop. */
  datatype Machine = Machine(nextIndex: int, phase: Phase, current: int, outcome: OutcomeKind, promptId: Option<string>)

  const START := Machine(0, Ready, -1, UnknownOutcome, None)

  /** A settlement agrees with the outcome it settles. */
  predicate Settles(outcome: OutcomeKind, promptId: Option<string>, e: Event)
    requires e.RequestSettlement?
  {
    match outcome
    case Accepted =>
      (e.disposition == ExecutionCompleted || e.disposition == ExecutionFailed) && e.promptId == promptId && e.promptId.Some?
    case PreSendRejected => e.disposition == RejectedBeforeSend && e.promptId.None?
    case _ => false
  }

  function Advance(op: Operation, m: Machine, position: nat, e: Event): Outcome<Machine> {
    if EventRefusal(op, e).Some? then Failed(EventRefusal(op, e).value)
    else
      match e
      case SubmissionIntent(index, _, _, _, _) =>
        if m.phase != Ready || index != m.nextIndex then Failed(InvalidRequestOrder)
        else Ok(m.(phase := AwaitingOutcome, current := index, outcome := UnknownOutcome, promptId := None))
      case SubmissionOutcome(index, _, outcome, prompt) =>
        if m.phase != AwaitingOutcome || index != m.current then Failed(ConflictingSubmissionOutcome)
        else Ok(m.(phase := if outcome.UnknownOutcome? then BlockedUnknown else AwaitingSettlement,
                   outcome := outcome, promptId := prompt))
      case RequestSettlement(index, _, _, _, _, tipRevision, _) =>
        if m.phase != AwaitingSettlement || index != m.current then Failed(SettlementNotExpected)
        else if tipRevision != position then Failed(SettlementTipMismatch)
        else if !Settles(m.outcome, m.promptId, e) then Failed(SettlementOutcomeMismatch)
        else Ok(Machine(index + 1, Ready, -1, UnknownOutcome, None))
  }

  /** The machine after the first `n` events, or the first refusal. */
  function Fold(op: Operation, events: seq<Event>, n: nat): Outcome<Machine>
    requires n <= |events|
  {
    if n == 0 then Ok(START)
    else
      var before := Fold(op, events, n - 1);
      if before.Failed? then before else Advance(op, before.value, n - 1, events[n - 1])
  }

  datatype JournalState = AllSettled | ReadyForRequest | IntentOutcomeUnknown | AwaitingHostSettlement | OutcomeUnknown

  function StateOf(op: Operation, m: Machine): JournalState {
    match m.phase
    case Ready => if m.nextIndex == |op.requests| then AllSettled else ReadyForRequest
    case AwaitingOutcome => IntentOutcomeUnknown
    case AwaitingSettlement => AwaitingHostSettlement
    case BlockedUnknown => OutcomeUnknown
  }

  datatype SequenceState = SequenceState(nextIndex: int, state: JournalState)

  function Sequence(op: Operation, events: seq<Event>): Outcome<SequenceState> {
    var m := Fold(op, events, |events|);
    if m.Failed? then Failed(m.code) else Ok(SequenceState(m.value.nextIndex, StateOf(op, m.value)))
  }

  /** Run the events through the machine, one by one. */
  method CheckSequence(op: Operation, events: seq<Event>) returns (r: Outcome<SequenceState>)
    ensures r == Sequence(op, events)
    ensures r.Ok? <==> Grammar(op, events)
    ensures ValidOperation(op) ==> (r.Ok? <==> Follows(op, events)) && (r.Ok? ==> r.value == Told(op, events))
  {
    GrammarIsAcceptance(op, events);
    if ValidOperation(op) {
      AcceptedExactly(op, events);
    }
    hide Follows, Grammar, ValidOperation;
    var nextIndex, phase, current := 0, Ready, -1;
    var outcome, promptId := UnknownOutcome, None;
    for i := 0 to |events|
      invariant Fold(op, events, i) == Ok(Machine(nextIndex, phase, current, outcome, promptId))
    {
      var e := events[i];
      var refusal := EventRefusal(op, e);
      if refusal.Some? {
        FailureStays(op, events, i + 1);
        return Failed(refusal.value);
      }
      match e {
        case SubmissionIntent(index, _, _, _, _) =>
          if phase != Ready || index != nextIndex {
            FailureStays(op, events, i + 1);
            return Failed(InvalidRequestOrder);
          }
          phase, current, outcome, promptId := AwaitingOutcome, index, UnknownOutcome, None;
        case SubmissionOutcome(index, _, kind, prompt) =>
          if phase != AwaitingOutcome || index != current {
            FailureStays(op, events, i + 1);
            return Failed(ConflictingSubmissionOutcome);
          }
          phase, outcome, promptId := AwaitingSettlement, kind, prompt;
          if kind.UnknownOutcome? {
            phase := BlockedUnknown;
          }
        case RequestSettlement(index, _, _, _, _, tipRevision, _) =>
          if phase != AwaitingSettlement || index != current {
            FailureStays(op, events, i + 1);
            return Failed(SettlementNotExpected);
          }
          if tipRevision != i {
            FailureStays(op, events, i + 1);
            return Failed(SettlementTipMismatch);
          }
          if !Settles(outcome, promptId, e) {
            FailureStays(op, events, i + 1);
            return Failed(SettlementOutcomeMismatch);
          }
          nextIndex := index + 1;
          current, phase, outcome, promptId := -1, Ready, UnknownOutcome, None;
      }
    }
    r := Ok(SequenceState(nextIndex, StateOf(op, Machine(nextIndex, phase, current, outcome, promptId))));
  }

  lemma {:induction false} FailureStays(op: Operation, events: seq<Event>, n: nat)
    requires n <= |events| && Fold(op, events, n).Failed?
    ensures Fold(op, events, |events|) == Fold(op, events, n)
    decreases |events| - n
  {
    if n < |events| {
      FailureStays(op, events, n + 1);
    }
  }

  // ----- the language the machine accepts -----

  /** What position `k` of an accepted journal holds: request `k / 3`, in the order intent, outcome, settlement. */
  predicate Place(op: Operation, events: seq<Event>, k: nat)
    requires k < |events|
  {
    && Belongs(op, events[k]) && events[k].index == k / 3
    && (if k % 3 == 0 then events[k].SubmissionIntent?
        else if k % 3 == 1 then
          events[k].SubmissionOutcome? && (events[k].outcome.UnknownOutcome? ==> k == |events| - 1)
        else
          && events[k].RequestSettlement? && events[k].tipRevision == k
          && events[k - 1].SubmissionOutcome? && Settles(events[k - 1].outcome, events[k - 1].promptId, events[k]))
  }

  predicate Grammar(op: Operation, events: seq<Event>) {
    forall k :: 0 <= k < |events| ==> Place(op, events, k)
  }

  /** The machine's variables after `n` accepted events. */
  function MachineAt(events: seq<Event>, n: nat): Machine
    requires n <= |events|
  {
    if n % 3 == 0 then Machine(n / 3, Ready, -1, UnknownOutcome, None)
    else if n % 3 == 1 then Machine(n / 3, AwaitingOutcome, n / 3, UnknownOutcome, None)
    else if events[n - 1].SubmissionOutcome? then
      Machine(n / 3, if events[n - 1].outcome.UnknownOutcome? then BlockedUnknown else AwaitingSettlement, n / 3,
              events[n - 1].outcome, events[n - 1].promptId)
    else START
  }

  lemma AdvanceIsPlace(op: Operation, events: seq<Event>, n: nat)
    requires n < |events|
    requires n > 0 ==> Place(op, events[..n], n - 1)
    ensures Advance(op, MachineAt(events, n), n, events[n]).Ok?
            <==> Place(op, events[..n + 1], n) && (n > 0 ==> Place(op, events[..n + 1], n - 1))
    ensures Advance(op, MachineAt(events, n), n, events[n]).Ok? ==>
              Advance(op, MachineAt(events, n), n, events[n]).value == MachineAt(events, n + 1)
  {
    var head := events[..n + 1];
    assert head[n] == events[n];
    if n > 0 {
      assert head[n - 1] == events[n - 1] == events[..n][n - 1];
    }
    if n > 1 {
      assert head[n - 2] == events[n - 2] == events[..n][n - 2];
    }
  }

  lemma GrammarExtends(op: Operation, events: seq<Event>, n: nat)
    requires n < |events|
    ensures Grammar(op, events[..n + 1]) <==>
              Grammar(op, events[..n]) && Place(op, events[..n + 1], n) && (n > 0 ==> Place(op, events[..n + 1], n - 1))
  {
    var head, next := events[..n], events[..n + 1];
    assert forall k :: 0 <= k < n ==> head[k] == next[k];
    assert forall k :: 0 <= k < n - 1 ==> (Place(op, head, k) && !(k % 3 == 1 && head[k].outcome.UnknownOutcome?)
                                          <==> Place(op, next, k));
    if Grammar(op, head) && n > 0 && Place(op, next, n - 1) {
      forall k | 0 <= k < n - 1
        ensures Place(op, next, k)
      {
        assert Place(op, head, k);
      }
    }
    if Grammar(op, next) {
      forall k | 0 <= k < n
        ensures Place(op, head, k)
      {
        assert Place(op, next, k);
      }
    }
  }

  lemma {:induction false} FoldIsGrammar(op: Operation, events: seq<Event>, n: nat)
    requires n <= |events|
    ensures Fold(op, events, n).Ok? <==> Grammar(op, events[..n])
    ensures Fold(op, events, n).Ok? ==> Fold(op, events, n).value == MachineAt(events, n)
  {
    if n > 0 {
      FoldIsGrammar(op, events, n - 1);
      GrammarExtends(op, events, n - 1);
      if Fold(op, events, n - 1).Ok? {
        if n > 1 {
          assert Place(op, events[..n - 1], n - 2);
        }
        AdvanceIsPlace(op, events, n - 1);
      }
    }
  }

  /** An event list is accepted exactly when it follows the grammar, and then its length alone gives the state. */
  lemma GrammarIsAcceptance(op: Operation, events: seq<Event>)
    ensures Sequence(op, events).Ok? <==> Grammar(op, events)
    ensures Grammar(op, events) ==> Sequence(op, events).value
                                    == SequenceState(|events| / 3, StateOf(op, MachineAt(events, |events|)))
  {
    FoldIsGrammar(op, events, |events|);
    assert events[..|events|] == events;
  }

  /** Acceptance is closed under prefixes, and every proper prefix of an accepted list can go on. */
  lemma AcceptanceIsPrefixClosed(op: Operation, events: seq<Event>, n: nat)
    requires Grammar(op, events) && n <= |events|
    ensures Grammar(op, events[..n])
    ensures n < |events| && n % 3 == 2 ==> events[n - 1].SubmissionOutcome? && !events[n - 1].outcome.UnknownOutcome?
  {
    assert n < |events| && n % 3 == 2 ==> Place(op, events, n - 1);
    forall k | 0 <= k < n
      ensures Place(op, events[..n], k)
    {
      assert Place(op, events, k);
    }
  }

  /** An accepted list has at most three events for each request; while not all requests are settled there is room. */
  lemma AcceptedLength(op: Operation, events: seq<Event>)
    requires Grammar(op, events) && ValidOperation(op)
    ensures |events| <= 3 * |op.requests| <= MAX_REVISIONS
    ensures Sequence(op, events).Ok?
    ensures Sequence(op, events).value.state != AllSettled ==> |events| < 3 * |op.requests|
  {
    GrammarIsAcceptance(op, events);
    if events != [] {
      assert Place(op, events, |events| - 1);
    }
  }

  // ----- the same language, read off the operation -----

  /** The intent of request `index`. */
  function IntentOf(op: Operation, index: nat): Event
    requires index < |op.requests|
  {
    var request := op.requests[index];
    SubmissionIntent(index, request.requestId, request.illustrationId, request.runIndex, request.workflowIdentity)
  }

  /** An outcome of request `index`: accepted with a prompt id, rejected without one, or unknown. */
  predicate OutcomeOf(op: Operation, index: nat, e: Event)
    requires index < |op.requests|
  {
    && e.SubmissionOutcome? && e == SubmissionOutcome(index, op.requests[index].requestId, e.outcome, e.promptId)
    && (|| (e.outcome == Accepted && e.promptId.Some?) || (e.outcome == PreSendRejected && e.promptId.None?)
        || e.outcome == UnknownOutcome)
    && (e.promptId.Some? ==> ValidId(e.promptId.value))
  }

  /** What the host may say of an outcome: that the accepted prompt, this very one, was executed or failed, or that the
      request was rejected before it was sent. */
  predicate HostAgrees(outcome: Event, disposition: Disposition, promptId: Option<string>)
    requires outcome.SubmissionOutcome?
  {
    || (outcome.outcome == Accepted && disposition in {ExecutionCompleted, ExecutionFailed}
        && promptId.Some? && promptId == outcome.promptId)
    || (outcome.outcome == PreSendRejected && disposition == RejectedBeforeSend && promptId.None?)
  }

  /** A settlement of request `index` at the tip of `k` entries, whose last is `outcome`. */
  predicate SettlementOf(op: Operation, index: nat, k: nat, outcome: Event, e: Event)
    requires index < |op.requests|
  {
    && e.RequestSettlement? && outcome.SubmissionOutcome?
    && e == RequestSettlement(index, op.requests[index].requestId, e.disposition, e.promptId, e.observationId, k, e.tipDigest)
    && HostAgrees(outcome, e.disposition, e.promptId) && ValidId(e.observationId)
  }

  /** Event by event: each request in order has its intent, its outcome, and a settlement that agrees with that outcome;
      nothing follows an unknown outcome. */
  predicate Follows(op: Operation, events: seq<Event>) {
    && |events| <= 3 * |op.requests|
    && forall k: nat :: k < |events| ==> FollowsAt(op, events, k)
  }

  /** What a list that is read so far says of the run: how many requests are settled, and what is open. */
  function Told(op: Operation, events: seq<Event>): SequenceState {
    SequenceState(
      |events| / 3,
      if |events| == 3 * |op.requests| then AllSettled
      else if |events| % 3 == 0 then ReadyForRequest
      else if |events| % 3 == 1 then IntentOutcomeUnknown
      else if events[|events| - 1].SubmissionOutcome? && events[|events| - 1].outcome == UnknownOutcome then OutcomeUnknown
      else AwaitingHostSettlement)
  }

  /** What position `k` reads. */
  predicate FollowsAt(op: Operation, events: seq<Event>, k: nat)
    requires k < |events| && k / 3 < |op.requests|
  {
    if k % 3 == 0 then events[k] == IntentOf(op, k / 3)
    else if k % 3 == 1 then
      OutcomeOf(op, k / 3, events[k]) && (events[k].outcome == UnknownOutcome ==> k == |events| - 1)
    else SettlementOf(op, k / 3, k, events[k - 1], events[k])
  }

  lemma BelongsFollows(op: Operation, e: Event)
    requires ValidOperation(op)
    ensures Belongs(op, e) ==> 0 <= e.index < |op.requests| && e.requestId == op.requests[e.index].requestId
    ensures Belongs(op, e) && e.SubmissionIntent? ==> e == IntentOf(op, e.index)
    ensures Belongs(op, e) && e.SubmissionOutcome? ==> OutcomeOf(op, e.index, e)
    ensures Belongs(op, e) && e.RequestSettlement? ==>
              ValidId(e.observationId) && (e.promptId.Some? ==> ValidId(e.promptId.value))
  {
    hide ValidId;
  }

  lemma FollowsBelongs(op: Operation, index: nat, k: nat, outcome: Event, e: Event)
    requires ValidOperation(op) && index < |op.requests|
    ensures e == IntentOf(op, index) ==> Belongs(op, e)
    ensures OutcomeOf(op, index, e) ==> Belongs(op, e)
    ensures OutcomeOf(op, index, outcome) && SettlementOf(op, index, k, outcome, e) && k > 0 ==> Belongs(op, e)
  {
    hide ValidId;
  }

  /** One place of the grammar, read off the operation. */
  lemma PlaceFollows(op: Operation, events: seq<Event>, k: nat)
    requires ValidOperation(op) && k < |events|
    requires k % 3 == 2 && k / 3 < |op.requests| ==> OutcomeOf(op, k / 3, events[k - 1])
    ensures Place(op, events, k) <==> k / 3 < |op.requests| && FollowsAt(op, events, k)
  {
    BelongsFollows(op, events[k]);
    if k / 3 < |op.requests| {
      FollowsBelongs(op, k / 3, k, if k > 0 then events[k - 1] else events[k], events[k]);
    }
    hide Belongs, ValidOperation, ValidId;
  }

  /** An event list is accepted exactly when it reads so. */
  lemma AcceptedExactly(op: Operation, events: seq<Event>)
    requires ValidOperation(op)
    ensures Sequence(op, events).Ok? <==> Follows(op, events)
    ensures Follows(op, events) ==> Sequence(op, events) == Ok(Told(op, events))
  {
    GrammarIsAcceptance(op, events);
    GrammarFollows(op, events);
    if Grammar(op, events) && events != [] {
      assert Place(op, events, |events| - 1);
    }
  }

  lemma GrammarFollows(op: Operation, events: seq<Event>)
    requires ValidOperation(op)
    ensures Grammar(op, events) <==> Follows(op, events)
  {
    hide ValidOperation, Place, FollowsAt;
    if Grammar(op, events) {
      forall k: nat | k < |events|
        ensures k / 3 < |op.requests| && FollowsAt(op, events, k)
      {
        PlacedFollows(op, events, k);
      }
      AllFollow(op, events);
    }
    if Follows(op, events) {
      forall k: nat | k < |events|
        ensures Place(op, events, k)
      {
        FollowsPlaced(op, events, k);
      }
    }
  }

  lemma PlacedFollows(op: Operation, events: seq<Event>, k: nat)
    requires ValidOperation(op) && Grammar(op, events) && k < |events|
    ensures k / 3 < |op.requests| && FollowsAt(op, events, k)
  {
    hide ValidOperation, Place;
    if k % 3 == 2 {
      PlaceFollows(op, events, k - 1);
    }
    PlaceFollows(op, events, k);
  }

  lemma FollowsPlaced(op: Operation, events: seq<Event>, k: nat)
    requires ValidOperation(op) && Follows(op, events) && k < |events|
    ensures Place(op, events, k)
  {
    hide ValidOperation, Place;
    if k % 3 == 2 {
      assert FollowsAt(op, events, k - 1);
    }
    PlaceFollows(op, events, k);
  }

  lemma AllFollow(op: Operation, events: seq<Event>)
    requires forall k: nat :: k < |events| ==> k / 3 < |op.requests| && FollowsAt(op, events, k)
    ensures Follows(op, events)
  {
    if events != [] {
      assert (|events| - 1) / 3 < |op.requests|;
    }
  }

  /** No request is submitted twice. */
  lemma NoRequestTwice(op: Operation, events: seq<Event>, i: nat, j: nat)
    requires ValidOperation(op) && Sequence(op, events).Ok? && i < j < |events|
    requires events[i].SubmissionIntent? && events[j].SubmissionIntent?
    ensures events[i].requestId != events[j].requestId
  {
    AcceptedExactly(op, events);
    assert FollowsAt(op, events, i) && FollowsAt(op, events, j);
  }
}
