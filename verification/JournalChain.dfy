/** The digest chain: journal entries, their validation, and what a tip digest says about the whole history. */
module JournalChain {
  import opened CapacityTypes
  import opened JournalEvents

  datatype Entry = Entry(revision: int, previous: Digest, event: Event, digest: Digest)

  function Tip(entries: seq<Entry>): Digest {
    if entries == [] then ZeroDigest else entries[|entries| - 1].digest
  }

  function Events(entries: seq<Entry>): seq<Event> {
    seq(|entries|, i requires 0 <= i < |entries| => entries[i].event)
  }

  function Signed(op: Operation, revision: int, previous: Digest, event: Event): Entry {
    Entry(revision, previous, event, Link(op, revision, previous, event))
  }

  /** Why entry `k` does not follow the entries before it. */
  function EntryRefusal(op: Operation, entries: seq<Entry>, k: nat): Option<Code>
    requires k < |entries|
  {
    var entry := entries[k];
    var previous := Tip(entries[..k]);
    if entry.revision != k + 1 || entry.previous != previous then Some(ConflictingRevision)
    else if EventRefusal(op, entry.event).Some? then EventRefusal(op, entry.event)
    else if entry.event.RequestSettlement? && (entry.event.tipRevision != k || entry.event.tipDigest != previous) then
      Some(SettlementTipMismatch)
    else if entry.digest != Link(op, k + 1, previous, entry.event) then Some(DigestMismatch)
    else None
  }

  predicate Chained(op: Operation, entries: seq<Entry>) {
    forall k :: 0 <= k < |entries| ==> EntryRefusal(op, entries, k).None?
  }

  /** The content a journal file may hold. */
  predicate ValidJournal(op: Operation, entries: seq<Entry>) {
    1 <= |entries| <= MAX_REVISIONS && Chained(op, entries) && Grammar(op, Events(entries))
  }

  /** The digest an entry must name: its predecessor's, or the zero digest. */
  function Before(entries: seq<Entry>, k: nat): Digest
    requires k < |entries|
  {
    if k == 0 then ZeroDigest else entries[k - 1].digest
  }

  /** A journal read off the operation: its events read as they must, every entry is numbered, names its predecessor's
      digest and carries its own, and a settlement names the digest it was issued at. */
  predicate JournalFollows(op: Operation, entries: seq<Entry>) {
    && entries != [] && Follows(op, Events(entries))
    && forall k: nat :: k < |entries| ==>
         && entries[k] == Entry(k + 1, Before(entries, k), entries[k].event,
                                Link(op, k + 1, Before(entries, k), entries[k].event))
         && (entries[k].event.RequestSettlement? ==> entries[k].event.tipDigest == Before(entries, k))
  }

  lemma TipBefore(entries: seq<Entry>, k: nat)
    requires k < |entries|
    ensures Tip(entries[..k]) == Before(entries, k)
  {
  }

  lemma ReadBelongs(op: Operation, events: seq<Event>, k: nat)
    requires ValidOperation(op) && Follows(op, events) && k < |events|
    ensures EventRefusal(op, events[k]).None? && (events[k].RequestSettlement? ==> events[k].tipRevision == k)
  {
    FollowsPlaced(op, events, k);
    hide ValidOperation, Follows, EventRefusal;
  }

  /** A journal is valid exactly if it reads so. */
  lemma ValidExactly(op: Operation, entries: seq<Entry>)
    requires ValidOperation(op)
    ensures ValidJournal(op, entries) <==> JournalFollows(op, entries)
  {
    GrammarFollows(op, Events(entries));
    if ValidJournal(op, entries) {
      AcceptedLength(op, Events(entries));
      hide ValidOperation, Grammar, Follows, EventRefusal;
      forall k: nat | k < |entries|
        ensures entries[k] == Entry(k + 1, Before(entries, k), entries[k].event,
                                    Link(op, k + 1, Before(entries, k), entries[k].event))
        ensures entries[k].event.RequestSettlement? ==> entries[k].event.tipDigest == Before(entries, k)
      {
        TipBefore(entries, k);
        assert EntryRefusal(op, entries, k).None?;
      }
    }
    if JournalFollows(op, entries) {
      ReadLength(op, Events(entries));
      hide ValidOperation, Grammar, Follows, EventRefusal;
      forall k: nat | k < |entries|
        ensures EntryRefusal(op, entries, k).None?
      {
        TipBefore(entries, k);
        ReadBelongs(op, Events(entries), k);
        assert Events(entries)[k] == entries[k].event;
      }
    }
  }

  lemma ReadLength(op: Operation, events: seq<Event>)
    requires ValidOperation(op) && Follows(op, events)
    ensures |events| <= MAX_REVISIONS
  {
    hide FollowsAt;
  }

  datatype Validated = Validated(events: seq<Event>, tip: Digest, sequence: SequenceState)

  /** Walk the entries, checking revision, chain, event and digest of each. */
  method ValidateEntries(op: Operation, entries: seq<Entry>) returns (r: Outcome<Validated>)
    ensures r.Ok? <==> ValidJournal(op, entries)
    ensures ValidOperation(op) ==> (r.Ok? <==> JournalFollows(op, entries))
    ensures r.Ok? ==> r.value.events == Events(entries) && r.value.tip == Tip(entries)
                      && Ok(r.value.sequence) == Sequence(op, Events(entries))
    ensures r.Failed? ==>
              || (!(1 <= |entries| <= MAX_REVISIONS) && r.code == InvalidRevision)
              || (exists k :: 0 <= k < |entries| && EntryRefusal(op, entries, k) == Some(r.code)
                              && forall j :: 0 <= j < k ==> EntryRefusal(op, entries, j).None?)
              || (Chained(op, entries) && Sequence(op, Events(entries)) == Failed(r.code))
  {
    if ValidOperation(op) {
      ValidExactly(op, entries);
    }
    hide JournalFollows, ValidOperation, Follows;
    if !(1 <= |entries| <= MAX_REVISIONS) {
      return Failed(InvalidRevision);
    }
    var previous := ZeroDigest;
    var events: seq<Event> := [];
    for i := 0 to |entries|
      invariant previous == Tip(entries[..i])
      invariant events == Events(entries[..i])
      invariant forall k :: 0 <= k < i ==> EntryRefusal(op, entries, k).None?
    {
      var entry := entries[i];
      ghost var here := EntryRefusal(op, entries, i);
      if entry.revision != i + 1 || entry.previous != previous {
        assert here == Some(ConflictingRevision);
        return Failed(ConflictingRevision);
      }
      var refusal := EventRefusal(op, entry.event);
      if refusal.Some? {
        return Failed(refusal.value);
      }
      if entry.event.RequestSettlement? && (entry.event.tipRevision != i || entry.event.tipDigest != previous) {
        return Failed(SettlementTipMismatch);
      }
      var expected := Link(op, i + 1, previous, entry.event);
      if entry.digest != expected {
        return Failed(DigestMismatch);
      }
      previous := expected;
      events := events + [entry.event];
      assert entries[..i + 1] == entries[..i] + [entry];
    }
    assert entries[..|entries|] == entries;
    var sequence := CheckSequence(op, events);
    if sequence.Failed? {
      return Failed(sequence.code);
    }
    r := Ok(Validated(events, previous, sequence.value));
  }

  lemma ChainedPrefix(op: Operation, entries: seq<Entry>, n: nat)
    requires Chained(op, entries) && n <= |entries|
    ensures Chained(op, entries[..n])
  {
    forall k | 0 <= k < n
      ensures EntryRefusal(op, entries[..n], k).None?
    {
      assert entries[..n][..k] == entries[..k];
      assert EntryRefusal(op, entries, k).None?;
    }
  }

  lemma TipEndsChain(op: Operation, entries: seq<Entry>)
    requires Chained(op, entries)
    ensures entries == [] <==> Tip(entries) == ZeroDigest
    ensures entries != [] ==>
              var i := |entries| - 1;
              && entries[i] == Signed(op, |entries|, Tip(entries[..i]), entries[i].event)
              && Tip(entries) == entries[i].digest
  {
    if entries != [] {
      assert EntryRefusal(op, entries, |entries| - 1).None?;
    }
  }

  /** The tip digest binds the operation and the whole history: no two different chains share one. */
  lemma {:induction false} TipBindsHistory(op: Operation, a: seq<Entry>, other: Operation, b: seq<Entry>)
    requires Chained(op, a) && Chained(other, b) && Tip(a) == Tip(b)
    ensures a == b && (a != [] ==> op == other)
    decreases |a|
  {
    TipEndsChain(op, a);
    TipEndsChain(other, b);
    if a != [] {
      var i, j := |a| - 1, |b| - 1;
      ChainedPrefix(op, a, i);
      ChainedPrefix(other, b, j);
      TipBindsHistory(op, a[..i], other, b[..j]);
      assert a == a[..i] + [a[i]] && b == b[..j] + [b[j]];
    }
  }

  /** Appending a signed event that the machine accepts, and that settles the current tip if it settles at all, keeps
      the journal valid. */
  lemma AppendKeepsValid(op: Operation, entries: seq<Entry>, e: Event)
    requires entries == [] || ValidJournal(op, entries)
    requires |entries| < MAX_REVISIONS && Grammar(op, Events(entries) + [e])
    requires e.RequestSettlement? ==> e.tipRevision == |entries| && e.tipDigest == Tip(entries)
    ensures ValidJournal(op, entries + [Signed(op, |entries| + 1, Tip(entries), e)])
    ensures Events(entries + [Signed(op, |entries| + 1, Tip(entries), e)]) == Events(entries) + [e]
  {
    var n := |entries|;
    var next := entries + [Signed(op, n + 1, Tip(entries), e)];
    assert Events(next) == Events(entries) + [e];
    assert Place(op, Events(next), n);
    forall k | 0 <= k <= n
      ensures EntryRefusal(op, next, k).None?
    {
      if k < n {
        assert next[..k] == entries[..k];
        assert EntryRefusal(op, entries, k).None?;
      } else {
        assert next[..n] == entries;
      }
    }
  }

  /** Every nonempty prefix of a valid journal is a valid journal. */
  lemma ValidPrefix(op: Operation, entries: seq<Entry>, n: nat)
    requires ValidJournal(op, entries) && 1 <= n <= |entries|
    ensures ValidJournal(op, entries[..n])
  {
    ChainedPrefix(op, entries, n);
    AcceptanceIsPrefixClosed(op, Events(entries), n);
    assert Events(entries[..n]) == Events(entries)[..n];
  }

  // ----- the file -----

  /** The directory a host approved for journals. */
  datatype Root = Root(path: string, identity: StatIdentity)

  /** A journal file's content, beside the root it was written under. */
  datatype Content = Content(root: Root, operation: Operation, entries: seq<Entry>)

  datatype Reopened = Reopened(
    operation: Operation, events: seq<Event>, revision: int, digest: Digest, fileIdentity: nat, sequence: SequenceState)

  /** Validate a file's content for inspection. */
  method Reopen(root: Root, filename: string, content: Content, identity: nat,
                expectedRevision: Option<int>, expectedDigest: Option<Digest>) returns (r: Outcome<Reopened>)
    ensures r.Ok? <==>
              && content.root == root && ValidOperation(content.operation) && Legible(content.operation)
              && filename == content.operation.operationId + ".json"
              && ValidJournal(content.operation, content.entries)
              && (expectedRevision.Some? ==> expectedRevision.value == |content.entries|)
              && (expectedDigest.Some? ==> expectedDigest.value == Tip(content.entries))
    ensures r.Ok? ==>
              && r.value.operation == content.operation && r.value.events == Events(content.entries)
              && r.value.revision == |content.entries| && r.value.digest == Tip(content.entries)
              && r.value.fileIdentity == identity
              && Ok(r.value.sequence) == Sequence(content.operation, Events(content.entries))
  {
    if !Legible(content.operation) {
      return Failed(UnreadableInteger);
    }
    if content.root != root || !ValidOperation(content.operation)
       || filename != content.operation.operationId + ".json" {
      return Failed(OperationIdentityMismatch);
    }
    var validated := ValidateEntries(content.operation, content.entries);
    if validated.Failed? {
      return Failed(validated.code);
    }
    if expectedRevision.Some? && expectedRevision.value != |content.entries| {
      return Failed(StaleRevision);
    }
    if expectedDigest.Some? && expectedDigest.value != validated.value.tip {
      return Failed(ConflictingRevision);
    }
    r := Ok(Reopened(content.operation, validated.value.events, |content.entries|, validated.value.tip, identity,
                     validated.value.sequence));
  }
}
