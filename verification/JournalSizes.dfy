/** Encoded sizes, and the worst-case preflight that is meant to rule out a later size failure. */
module JournalSizes {
  import opened CapacityTypes
  import opened JournalEvents
  import opened JournalChain

  const MAX_FILE_BYTES := 1024 * 1024
  const MAX_CUMULATIVE_BYTES := 128 * 1024 * 1024

  // Bytes of the canonical JSON around the variable parts: object keys, punctuation and the 64-digit digests.
  const INTENT_BYTES := 118
  const OUTCOME_BYTES := 88
  const SETTLEMENT_BYTES := 223
  const ENTRY_BYTES := 183
  const NULL_BYTES := 4

  function PromptBytes(promptId: Option<string>): nat {
    if promptId.None? then NULL_BYTES else |promptId.value| + 2
  }

  function OutcomeBytes(outcome: OutcomeKind): nat {
    match outcome
    case Accepted => 8
    case PreSendRejected => 17
    case UnknownOutcome => 7
    case OtherOutcome(text) => |text|
  }

  function DispositionBytes(disposition: Disposition): nat {
    match disposition
    case ExecutionCompleted => 19
    case ExecutionFailed => 16
    case RejectedBeforeSend => 17
    case OtherDisposition(text) => |text|
  }

  function EventBytes(e: Event): nat {
    match e
    case SubmissionIntent(index, id, illustration, run, workflow) =>
      INTENT_BYTES + |illustration| + |id| + Digits(index) + Digits(run) + |workflow|
    case SubmissionOutcome(index, id, outcome, prompt) =>
      OUTCOME_BYTES + OutcomeBytes(outcome) + PromptBytes(prompt) + |id| + Digits(index)
    case RequestSettlement(index, id, disposition, prompt, observation, tipRevision, _) =>
      SETTLEMENT_BYTES + DispositionBytes(disposition) + PromptBytes(prompt) + |id| + Digits(index)
      + |observation| + Digits(tipRevision)
  }

  function EntryBytes(e: Event, revision: int): nat { ENTRY_BYTES + EventBytes(e) + Digits(revision) }

  /** Bytes of the first `n` entries with the commas between them. */
  function ListBytes(events: seq<Event>, n: nat): nat
    requires n <= |events|
  {
    if n == 0 then 0 else ListBytes(events, n - 1) + (if n == 1 then 0 else 1) + EntryBytes(events[n - 1], n)
  }

  /** Bytes of a journal file; `header` counts everything outside the list of revisions. */
  function FileBytes(header: nat, events: seq<Event>): nat { header + ListBytes(events, |events|) }

  /** An identifier of the greatest legal length. */
  function LongestId(c: char): string { seq(160, _ => c) }

  /** The event the preflight measures at position `k`. */
  function SampleEvent(op: Operation, k: nat): Event
    requires k < 3 * |op.requests|
  {
    var request := op.requests[k / 3];
    if k % 3 == 0 then
      SubmissionIntent(k / 3, request.requestId, request.illustrationId, request.runIndex, request.workflowIdentity)
    else if k % 3 == 1 then SubmissionOutcome(k / 3, request.requestId, Accepted, Some(LongestId('p')))
    else
      RequestSettlement(k / 3, request.requestId, ExecutionFailed, Some(LongestId('p')), LongestId('h'), k, ZeroDigest)
  }

  function Sample(op: Operation, n: nat): seq<Event>
    requires n <= 3 * |op.requests|
  {
    seq(n, k requires 0 <= k < n => SampleEvent(op, k))
  }

  /** Bytes written in all when every snapshot of the first `n` revisions is written out in full. */
  function CumulativeBytes(header: nat, op: Operation, n: nat): nat
    requires n <= 3 * |op.requests|
  {
    if n == 0 then 0 else CumulativeBytes(header, op, n - 1) + FileBytes(header, Sample(op, n))
  }

  lemma RejectionIsShorter(op: Operation, k: nat)
    requires k < 3 * |op.requests| && k % 3 == 1
    ensures EventBytes(SubmissionOutcome(k / 3, op.requests[k / 3].requestId, PreSendRejected, None))
            <= EventBytes(SampleEvent(op, k))
  {
  }

  lemma {:induction false} ListBytesPrefix(events: seq<Event>, longer: seq<Event>, n: nat)
    requires n <= |events| <= |longer| && forall k :: 0 <= k < n ==> events[k] == longer[k]
    ensures ListBytes(events, n) == ListBytes(longer, n)
  {
    if n > 0 {
      ListBytesPrefix(events, longer, n - 1);
    }
  }

  lemma {:induction false} SampleGrows(header: nat, op: Operation, n: nat, m: nat)
    requires n <= m <= 3 * |op.requests|
    ensures FileBytes(header, Sample(op, n)) <= FileBytes(header, Sample(op, m))
    ensures CumulativeBytes(header, op, n) <= CumulativeBytes(header, op, m)
    decreases m - n
  {
    hide EntryBytes, SampleEvent;
    if n < m {
      SampleGrows(header, op, n, m - 1);
      ListBytesPrefix(Sample(op, m - 1), Sample(op, m), m - 1);
    }
  }

  // ----- what the preflight is worth -----

  /** Settlements among the first `n` positions. */
  function Settlements(n: nat): nat { n / 3 }

  /** At each position an accepted event is at most as long as the sample, save three bytes for a settlement. */
  lemma EventWithinSample(op: Operation, events: seq<Event>, k: nat)
    requires ValidOperation(op) && Grammar(op, events) && k < |events| && k < 3 * |op.requests|
    ensures EventBytes(events[k]) <= EventBytes(SampleEvent(op, k)) + (if k % 3 == 2 then 3 else 0)
  {
    assert Place(op, events, k);
  }

  lemma {:induction false} ListWithinSample(op: Operation, events: seq<Event>, n: nat)
    requires ValidOperation(op) && Grammar(op, events) && n <= |events| <= 3 * |op.requests|
    ensures ListBytes(events, n) <= ListBytes(Sample(op, |events|), n) + 3 * Settlements(n)
  {
    hide EventBytes, SampleEvent, Grammar;
    if n > 0 {
      ListWithinSample(op, events, n - 1);
      EventWithinSample(op, events, n - 1);
    }
  }

  /** Every accepted journal of `n` revisions is at most the preflight's size at `n` plus three bytes for each
      settled request. */
  lemma FileWithinSample(header: nat, op: Operation, events: seq<Event>)
    requires ValidOperation(op) && Grammar(op, events)
    ensures |events| <= 3 * |op.requests|
    ensures FileBytes(header, events) <= FileBytes(header, Sample(op, |events|)) + 3 * Settlements(|events|)
  {
    AcceptedLength(op, events);
    ListWithinSample(op, events, |events|);
  }

  /** The longest run: every request accepted, with identifiers of full length, and completed. */
  function LongestEvent(op: Operation, k: nat, tip: Digest): Event
    requires k < 3 * |op.requests|
  {
    if k % 3 == 2 then
      RequestSettlement(k / 3, op.requests[k / 3].requestId, ExecutionCompleted, Some(LongestId('p')),
                        LongestId('h'), k, tip)
    else SampleEvent(op, k)
  }

  function Longest(op: Operation, n: nat): (entries: seq<Entry>)
    requires n <= 3 * |op.requests|
    ensures |entries| == n
  {
    if n == 0 then []
    else
      var before := Longest(op, n - 1);
      before + [Signed(op, n, Tip(before), LongestEvent(op, n - 1, Tip(before)))]
  }

  lemma {:induction false} LongestAt(op: Operation, n: nat, k: nat)
    requires k < n <= 3 * |op.requests|
    ensures Events(Longest(op, n))[k] == LongestEvent(op, k, Tip(Longest(op, k)))
  {
    if k < n - 1 {
      LongestAt(op, n - 1, k);
    }
  }

  lemma LongestPlace(op: Operation, n: nat, k: nat)
    requires ValidOperation(op) && k < n <= 3 * |op.requests|
    ensures Place(op, Events(Longest(op, n)), k)
  {
    LongestAt(op, n, k);
    if k % 3 == 2 {
      LongestAt(op, n, k - 1);
    }
  }

  lemma {:induction false} LongestIsValid(op: Operation, n: nat)
    requires ValidOperation(op) && 0 < n <= 3 * |op.requests|
    ensures ValidJournal(op, Longest(op, n))
  {
    var before := Longest(op, n - 1);
    var e := LongestEvent(op, n - 1, Tip(before));
    if n > 1 {
      LongestIsValid(op, n - 1);
    }
    forall k | 0 <= k < n
      ensures Place(op, Events(before) + [e], k)
    {
      LongestPlace(op, n, k);
      assert Events(Longest(op, n)) == Events(before) + [e];
    }
    AppendKeepsValid(op, before, e);
  }

  lemma LongestEventBytes(op: Operation, k: nat, tip: Digest)
    requires k < 3 * |op.requests|
    ensures EventBytes(LongestEvent(op, k, tip)) == EventBytes(SampleEvent(op, k)) + (if k % 3 == 2 then 3 else 0)
  {
  }

  lemma {:induction false} LongestBytes(op: Operation, n: nat, m: nat)
    requires m <= n <= 3 * |op.requests|
    ensures ListBytes(Events(Longest(op, n)), m) == ListBytes(Sample(op, n), m) + 3 * Settlements(m)
  {
    hide EventBytes, SampleEvent, LongestEvent, Longest;
    if m > 0 {
      LongestBytes(op, n, m - 1);
      LongestAt(op, n, m - 1);
      LongestEventBytes(op, m - 1, Tip(Longest(op, m - 1)));
    }
  }

  lemma {:induction false} SampleFits(header: nat, op: Operation, n: nat, m: nat)
    requires n <= m <= 3 * |op.requests|
    ensures FileBytes(header, Sample(op, n)) + 3 * Settlements(n) <= FileBytes(header, Sample(op, m)) + 3 * Settlements(m)
  {
    SampleGrows(header, op, n, m);
  }

  lemma ValidMeansGrammar(op: Operation, entries: seq<Entry>)
    requires ValidJournal(op, entries)
    ensures Grammar(op, Events(entries))
  {
  }

  /** The preflight does not by itself rule out a later size failure: no append of any run is refused for its size
      exactly when the preflight leaves three bytes for each request. */
  lemma NoLaterSizeFailureExactly(header: nat, op: Operation)
    requires ValidOperation(op)
    ensures (forall entries :: ValidJournal(op, entries) ==> FileBytes(header, Events(entries)) <= MAX_FILE_BYTES)
            <==> FileBytes(header, Sample(op, 3 * |op.requests|)) + 3 * |op.requests| <= MAX_FILE_BYTES
  {
    hide ListBytes, Longest, ValidJournal, Digits;
    var n := 3 * |op.requests|;
    LongestIsValid(op, n);
    LongestBytes(op, n, n);
    if FileBytes(header, Sample(op, n)) + 3 * |op.requests| <= MAX_FILE_BYTES {
      forall entries | ValidJournal(op, entries)
        ensures FileBytes(header, Events(entries)) <= MAX_FILE_BYTES
      {
        ValidMeansGrammar(op, entries);
        FileWithinSample(header, op, Events(entries));
        SampleFits(header, op, |entries|, n);
      }
    } else {
      assert |Events(Longest(op, n))| == n == |Sample(op, n)|;
      assert FileBytes(header, Events(Longest(op, n))) > MAX_FILE_BYTES;
    }
  }

  // ----- room for every journal -----

  // Bytes of the canonical JSON outside the list of revisions and of one request, around their variable parts.
  const HEADER_BYTES := 554
  const REQUEST_BYTES := 91

  /** One character of a JSON text that keeps to ASCII. */
  function CharBytes(c: char): nat {
    if c == '\"' || c == '\\' || c == '\n' || c == '\r' || c == '\t' || c == '\U{08}' || c == '\U{0C}' then 2
    else if ' ' <= c <= '~' then 1
    else if c <= '\U{FFFF}' then 6
    else 12
  }

  function TextBytes(text: string): nat { if text == "" then 0 else CharBytes(text[0]) + TextBytes(text[1..]) }

  /** UTF-16 code units, in which the operating system measures a path. */
  function Units(text: string): nat {
    if text == "" then 0 else (if text[0] <= '\U{FFFF}' then 1 else 2) + Units(text[1..])
  }

  const MAX_PATH_UNITS := 32767

  /** What the host's check of a root on disk leaves possible: a path the system can name, and the 64-bit device and
      128-bit file numbers that `stat` reports. */
  predicate Approved(root: Root) { Units(root.path) <= MAX_PATH_UNITS && AtMostDigits(root.identity, 39) }

  function IdentityBytes(i: StatIdentity): nat { Digits(i.device) + Digits(i.file) }

  function ProjectBytes(p: Project): nat {
    |p.rootKey| + TextBytes(p.rootPath) + IdentityBytes(p.rootIdentity) + TextBytes(p.relativePath)
    + IdentityBytes(p.fileIdentity)
  }

  function RequestBytes(request: Request, index: nat): nat {
    REQUEST_BYTES + |request.requestId| + |request.illustrationId| + |request.workflowIdentity| + Digits(index)
    + Digits(request.runIndex)
  }

  function RequestsBytes(requests: seq<Request>): nat {
    if requests == [] then 0
    else
      var n := |requests| - 1;
      RequestsBytes(requests[..n]) + (if n == 0 then 0 else 1) + RequestBytes(requests[n], n)
  }

  function OperationBytes(op: Operation): nat {
    |op.operationId| + |op.jobId| + |op.claimId| + |op.manifestIdentity| + |op.processIdentity| + |op.sessionIdentity|
    + ProjectBytes(op.project) + RequestsBytes(op.requests)
  }

  function HeaderBytes(root: Root, op: Operation): nat {
    HEADER_BYTES + TextBytes(root.path) + IdentityBytes(root.identity) + OperationBytes(op)
  }

  const MAX_HEADER_BYTES := 288500

  const MAX_ENTRY_BYTES := 920

  lemma {:induction false} TextWithin(text: string)
    ensures TextBytes(text) <= 6 * Units(text) && Units(text) <= 2 * |text|
  {
    if text != "" {
      TextWithin(text[1..]);
    }
  }

  lemma {:induction false} FewDigits(n: nat)
    ensures n < 10 ==> Digits(n) == 1
    ensures n < 1000 ==> Digits(n) <= 3
  {
    assert n < 1000 ==> n / 10 / 10 < 10;
    assert n >= 10 ==> Digits(n) == 1 + Digits(n / 10);
    assert n >= 100 ==> Digits(n / 10) == 1 + Digits(n / 10 / 10);
  }

  lemma {:induction false} RequestsWithin(requests: seq<Request>)
    requires |requests| <= MAX_REQUESTS
    requires forall i :: 0 <= i < |requests| ==>
               && ValidId(requests[i].requestId) && ValidId(requests[i].illustrationId)
               && ValidId(requests[i].workflowIdentity) && 1 <= requests[i].runIndex <= 5
    ensures RequestsBytes(requests) <= 576 * |requests|
  {
    hide Digits;
    if requests != [] {
      var n := |requests| - 1;
      RequestsWithin(requests[..n]);
      FewDigits(n);
      FewDigits(requests[n].runIndex);
    }
  }

  lemma ProjectWithin(op: Operation)
    requires ValidOperation(op) && Printable(op)
    ensures ProjectBytes(op.project) <= 160 + 12 * 1024 + 12 * 256 + 4 * 4300
  {
    hide Digits, TextBytes, Units, NamedParts;
    TextWithin(op.project.rootPath);
    TextWithin(op.project.relativePath);
  }

  lemma HeaderWithin(root: Root, op: Operation)
    requires Approved(root) && ValidOperation(op) && Printable(op)
    ensures HeaderBytes(root, op) <= MAX_HEADER_BYTES
  {
    hide Digits, TextBytes, Units, ProjectBytes, ValidProject, RequestsBytes, Printable;
    TextWithin(root.path);
    ProjectWithin(op);
    RequestsWithin(op.requests);
  }

  lemma EntryWithin(op: Operation, events: seq<Event>, k: nat)
    requires ValidOperation(op) && Grammar(op, events) && k < |events| <= MAX_REVISIONS
    ensures EntryBytes(events[k], k + 1) < MAX_ENTRY_BYTES
  {
    hide Digits, ValidProject, ValidOperationId;
    assert Place(op, events, k);
    FewDigits(op.requests[k / 3].runIndex);
    FewDigits(k);
    FewDigits(k + 1);
    FewDigits(k / 3);
  }

  lemma {:induction false} ListWithin(op: Operation, events: seq<Event>, n: nat)
    requires ValidOperation(op) && Grammar(op, events) && n <= |events| <= MAX_REVISIONS
    ensures ListBytes(events, n) <= MAX_ENTRY_BYTES * n
  {
    hide EntryBytes, Grammar, ValidOperation;
    if n > 0 {
      ListWithin(op, events, n - 1);
      EntryWithin(op, events, n - 1);
    }
  }

  /** Every journal of every operation that can be written out at all fits its file. */
  lemma EveryJournalFits(root: Root, op: Operation, events: seq<Event>)
    requires Approved(root) && ValidOperation(op) && Printable(op) && Grammar(op, events)
    ensures FileBytes(HeaderBytes(root, op), events) <= MAX_FILE_BYTES
  {
    hide Grammar, ValidOperation, Approved, Printable, HeaderBytes, ListBytes;
    HeaderWithin(root, op);
    AcceptedLength(op, events);
    ListWithin(op, events, |events|);
  }

  lemma SampleFollowsGrammar(op: Operation, n: nat)
    requires ValidOperation(op) && n <= 3 * |op.requests|
    ensures Grammar(op, Sample(op, n))
  {
    forall k | 0 <= k < n
      ensures Place(op, Sample(op, n), k)
    {
    }
  }

  lemma {:induction false} CumulativeWithin(root: Root, op: Operation, n: nat)
    requires Approved(root) && ValidOperation(op) && Printable(op) && n <= 3 * |op.requests|
    ensures 2 * CumulativeBytes(HeaderBytes(root, op), op, n)
            <= 2 * n * MAX_HEADER_BYTES + MAX_ENTRY_BYTES * (n * (n + 1))
  {
    hide Grammar, ValidOperation, Approved, Printable, HeaderBytes, ListBytes, SampleEvent;
    if n > 0 {
      HeaderWithin(root, op);
      SampleFollowsGrammar(op, n);
      RequestCount(op);
      ListWithin(op, Sample(op, n), n);
      CumulativeWithin(root, op, n - 1);
      assert n * (n + 1) == (n - 1) * n + 2 * n;
    }
  }

  lemma Triangle(n: nat)
    requires n <= MAX_REVISIONS
    ensures n * (n + 1) <= 90300
  {
    assert n * (n + 1) <= 300 * (n + 1);
  }

  lemma RequestCount(op: Operation)
    requires ValidOperation(op)
    ensures 1 <= |op.requests| <= MAX_REQUESTS
  {
  }

  /** The preflight's two ceilings refuse nothing. */
  lemma SnapshotFits(root: Root, op: Operation, n: nat)
    requires Approved(root) && ValidOperation(op) && Printable(op) && n <= 3 * |op.requests|
    ensures FileBytes(HeaderBytes(root, op), Sample(op, n)) <= MAX_FILE_BYTES
    ensures CumulativeBytes(HeaderBytes(root, op), op, n) <= MAX_CUMULATIVE_BYTES
  {
    hide Approved, Printable, HeaderBytes, FileBytes, CumulativeBytes, ValidOperation, Grammar, Sample;
    SampleFollowsGrammar(op, n);
    EveryJournalFits(root, op, Sample(op, n));
    CumulativeWithin(root, op, n);
    RequestCount(op);
    Triangle(n);
  }

  /** The worst-case preflight, snapshot by snapshot. Its two ceilings are never reached: it refuses exactly the
      operations whose integers cannot be written out at all. */
  method MaximumWorkload(root: Root, op: Operation) returns (r: Outcome<(nat, nat)>)
    requires Approved(root) && ValidOperation(op)
    ensures r.Ok? <==> Printable(op)
    ensures r.Ok? ==> r.value == (FileBytes(HeaderBytes(root, op), Sample(op, 3 * |op.requests|)),
                                  CumulativeBytes(HeaderBytes(root, op), op, 3 * |op.requests|))
    ensures r.Failed? ==> r.code == UnprintableInteger
  {
    hide EventBytes, EntryBytes, ListBytes, SampleEvent, HeaderBytes, Approved, ValidOperation;
    if !Printable(op) {
      return Failed(UnprintableInteger);
    }
    RequestCount(op);
    var header := HeaderBytes(root, op);
    var total := 3 * |op.requests|;
    var entries: seq<Event> := [];
    var maximum: nat, cumulative: nat := header, 0;
    for k := 0 to total
      invariant entries == Sample(op, k)
      invariant cumulative == CumulativeBytes(header, op, k)
      invariant k > 0 ==> maximum == FileBytes(header, entries)
    {
      var event := SampleEvent(op, k);
      if k % 3 == 1 {
        var rejected := SubmissionOutcome(k / 3, op.requests[k / 3].requestId, PreSendRejected, None);
        RejectionIsShorter(op, k);
        if EventBytes(rejected) > EventBytes(event) {
          event := rejected;
        }
      }
      entries := entries + [event];
      assert entries == Sample(op, k + 1);
      SnapshotFits(root, op, k + 1);
      var size := FileBytes(header, entries);
      if size > MAX_FILE_BYTES {
        return Failed(JournalTooLarge);
      }
      cumulative, maximum := cumulative + size, size;
      if cumulative > MAX_CUMULATIVE_BYTES {
        return Failed(WriteBudgetExceeded);
      }
    }
    r := Ok((maximum, cumulative));
  }
}
