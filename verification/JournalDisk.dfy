/** Many writers of one operation's journal, one file step at a time, stopping anywhere. */
module JournalDisk {
  import opened CapacityTypes
  import opened JournalEvents
  import opened JournalChain
  import opened JournalSizes

  /** The two writers share one protocol. The multi-request writer looks for orphan temporaries, gives its lock back
      before it acknowledges, and keeps it after a failure; the version 1 writer acknowledges first and always gives
      its lock back. */
  datatype Protocol = MultiRequest | Legacy

  datatype Payload = Partial | Whole(entries: seq<Entry>)

  datatype File = File(identity: nat, payload: Payload)

  /** A lock file; `holder` is the writer that made it and no step reads it. */
  datatype Lock = Lock(identity: nat, holder: nat)

  datatype Stage =
    | Idle | Locking | Checking | Scanning | Creating | Writing | Inspecting | Rechecking | Replacing
    | Verifying | Acknowledging | Releasing | Stopped

  /** One writer: its acknowledged entries and their file, and the append it is in the middle of. `refused` counts the
      locks it found taken and no step reads it. */
  datatype Writer = Writer(
    stage: Stage, uncertain: bool, acked: seq<Entry>, identity: nat, pending: Event, lockIdentity: nat, temp: nat,
    refused: nat)

  /** The directory and the writers. Fresh identities name files; `author` is the writer that made the target and no
      step reads it. */
  datatype Disk = Disk(
    target: Option<File>, lock: Option<Lock>, temps: map<nat, Payload>, minted: nat, writers: seq<Writer>,
    author: Option<nat>)

  /** What may happen to a writer next: it starts an append, takes its next step, fails in it, fails between making its
      lock and entering the guarded part that would mark it uncertain, or dies. */
  datatype Action = Begin(event: Event) | Go | Fail | Strand | Die

  function Opening(writers: nat): Disk {
    Disk(None, None, map[], 0,
         seq(writers, _ => Writer(Idle, false, [], 0, SubmissionIntent(0, "", "", 0, ""), 0, 0, 0)), None)
  }

  /** The writer's own checks before it touches the disk. */
  predicate Appendable(op: Operation, acked: seq<Entry>, e: Event) {
    && |acked| < MAX_REVISIONS && Grammar(op, Events(acked) + [e])
    && (e.RequestSettlement? ==> e.tipRevision == |acked| && e.tipDigest == Tip(acked))
  }

  function Extended(op: Operation, acked: seq<Entry>, e: Event): (entries: seq<Entry>)
    ensures |entries| == |acked| + 1 && entries[..|acked|] == acked
  {
    acked + [Signed(op, |acked| + 1, Tip(acked), e)]
  }

  /** The target reopens. */
  predicate Reads(op: Operation, target: Option<File>) {
    && target.Some? && target.value.payload.Whole? && Legible(op) && ValidJournal(op, target.value.payload.entries)
  }

  /** The target is what this writer last acknowledged. */
  predicate PriorHolds(op: Operation, target: Option<File>, x: Writer) {
    if x.acked == [] then target.None?
    else
      && Reads(op, target)
      && |target.value.payload.entries| == |x.acked| && Tip(target.value.payload.entries) == Tip(x.acked)
      && target.value.identity == x.identity
  }

  /** The shorter check made again just before the replace. */
  predicate StillHolds(op: Operation, target: Option<File>, x: Writer) {
    if x.acked == [] then target.None?
    else
      && Reads(op, target)
      && Tip(target.value.payload.entries) == Tip(x.acked) && target.value.identity == x.identity
  }

  predicate Landed(op: Operation, target: Option<File>, x: Writer) {
    && Reads(op, target)
    && |target.value.payload.entries| == |x.acked| + 1
    && Tip(target.value.payload.entries) == Tip(Extended(op, x.acked, x.pending))
  }

  function Put(s: Disk, w: nat, x: Writer): Disk
    requires w < |s.writers|
  {
    s.(writers := s.writers[w := x])
  }

  function Failing(kind: Protocol, s: Disk, w: nat): Disk
    requires w < |s.writers|
  {
    Put(s, w, s.writers[w].(uncertain := true, stage := if kind.MultiRequest? then Stopped else Releasing))
  }

  function Guarded(kind: Protocol, s: Disk, w: nat, holds: bool, next: Stage): Disk
    requires w < |s.writers|
  {
    if holds then Put(s, w, s.writers[w].(stage := next)) else Failing(kind, s, w)
  }

  /** The next file step of writer `w`. */
  function Advance(kind: Protocol, op: Operation, s: Disk, w: nat): (t: Disk)
    requires w < |s.writers|
    ensures |t.writers| == |s.writers|
  {
    var x := s.writers[w];
    match x.stage
    case Idle => s
    case Stopped => s
    case Locking =>
      if s.lock.Some? then Put(s, w, x.(stage := Idle, refused := x.refused + 1))
      else Put(s.(lock := Some(Lock(s.minted, w)), minted := s.minted + 1), w, x.(stage := Checking, lockIdentity := s.minted))
    case Checking =>
      Guarded(kind, s, w, PriorHolds(op, s.target, x), if kind.MultiRequest? then Scanning else Creating)
    case Scanning => Guarded(kind, s, w, s.temps == map[], Creating)
    case Creating =>
      Put(s.(temps := s.temps[s.minted := Partial], minted := s.minted + 1), w, x.(stage := Writing, temp := s.minted))
    case Writing =>
      Put(s.(temps := s.temps[x.temp := Whole(Extended(op, x.acked, x.pending))]), w, x.(stage := Inspecting))
    case Inspecting =>
      Guarded(kind, s, w, x.temp in s.temps && (kind.MultiRequest? ==> HoldsLock(s, w)), Rechecking)
    case Rechecking => Guarded(kind, s, w, StillHolds(op, s.target, x), Replacing)
    case Replacing =>
      if x.temp !in s.temps then Failing(kind, s, w)
      else
        Put(s.(target := Some(File(x.temp, s.temps[x.temp])), temps := s.temps - {x.temp},
               author := if s.author.None? then Some(w) else s.author), w, x.(stage := Verifying))
    case Verifying =>
      Guarded(kind, s, w, Landed(op, s.target, x), if kind.MultiRequest? then Releasing else Acknowledging)
    case Acknowledging =>
      Put(s, w, x.(stage := if kind.MultiRequest? then Idle else Releasing,
                   acked := Extended(op, x.acked, x.pending), identity := x.temp))
    case Releasing =>
      if kind.MultiRequest? then
        if HoldsLock(s, w) then Put(s.(lock := None), w, x.(stage := Acknowledging)) else Failing(kind, s, w)
      else
        Put(if HoldsLock(s, w) then s.(lock := None) else s, w, x.(stage := if x.uncertain then Stopped else Idle))
  }

  /** The lock on disk is the very file this writer made. */
  predicate HoldsLock(s: Disk, w: nat)
    requires w < |s.writers|
  {
    s.lock.Some? && s.lock.value.identity == s.writers[w].lockIdentity
  }

  function Act(kind: Protocol, op: Operation, s: Disk, w: nat, a: Action): (t: Disk)
    requires w < |s.writers|
    ensures |t.writers| == |s.writers|
  {
    var x := s.writers[w];
    match a
    case Begin(e) =>
      if x.stage == Idle && Appendable(op, x.acked, e) then Put(s, w, x.(stage := Locking, pending := e)) else s
    case Go => Advance(kind, op, s, w)
    case Fail =>
      if x.stage == Idle || x.stage == Stopped then s
      else if x.stage == Locking then Put(s, w, x.(stage := Idle))
      else if kind.Legacy? && x.stage == Releasing then Put(s, w, x.(stage := if x.uncertain then Stopped else Idle))
      else Failing(kind, s, w)
    case Strand =>
      if x.stage == Locking && s.lock.None? then
        Put(s.(lock := Some(Lock(s.minted, w)), minted := s.minted + 1), w, x.(stage := Idle))
      else s
    case Die => Put(s, w, x.(stage := Stopped))
  }

  function Run(kind: Protocol, op: Operation, s: Disk, steps: seq<(nat, Action)>): Disk
    decreases |steps|
  {
    if steps == [] then s
    else
      var before := Run(kind, op, s, steps[..|steps| - 1]);
      var (w, a) := steps[|steps| - 1];
      if w < |before.writers| then Act(kind, op, before, w, a) else before
  }

  // ----- what every step keeps -----

  predicate Critical(kind: Protocol, stage: Stage) {
    stage in {Checking, Scanning, Creating, Writing, Inspecting, Rechecking, Replacing, Verifying, Releasing}
    || (kind.Legacy? && stage == Acknowledging)
  }

  /** The writer has checked the target and not yet replaced it. */
  predicate Checked(stage: Stage) {
    stage in {Scanning, Creating, Writing, Inspecting, Rechecking, Replacing}
  }

  /** The writer has replaced the target and not yet acknowledged it. */
  predicate Unacknowledged(kind: Protocol, stage: Stage) {
    stage == Verifying || stage == Acknowledging || (kind.MultiRequest? && stage == Releasing)
  }

  predicate Settled(x: Writer) { x.stage != Stopped && !x.uncertain }

  /** What writer `x` knows of the target, if the target is its own. */
  ghost predicate Knows(kind: Protocol, op: Operation, target: Option<File>, x: Writer, own: bool) {
    && (x.acked != [] ==> own)
    && (own ==> target.Some?)
    && (own && Settled(x) && !Unacknowledged(kind, x.stage) ==>
          x.acked != [] && target.value == File(x.identity, Whole(x.acked)))
    && (own && Settled(x) && Unacknowledged(kind, x.stage) ==>
          target.value == File(x.temp, Whole(Extended(op, x.acked, x.pending))))
    && (own && !Settled(x) ==>
          target.value.payload.Whole?
          && (target.value.payload.entries == x.acked
              || target.value.payload.entries == Extended(op, x.acked, x.pending)))
    && (Settled(x) && Unacknowledged(kind, x.stage) ==> own)
    && (Checked(x.stage) && x.acked == [] ==> target.None?)
  }

  ghost predicate Holds(kind: Protocol, s: Disk, w: nat)
    requires w < |s.writers|
  {
    var x := s.writers[w];
    && (Critical(kind, x.stage) ==> s.lock == Some(Lock(x.lockIdentity, w)))
    && (x.stage == Writing ==> x.temp in s.temps)
    && (x.stage in {Inspecting, Rechecking, Replacing} ==> x.temp in s.temps)
  }

  ghost predicate Written(op: Operation, s: Disk, w: nat)
    requires w < |s.writers|
  {
    var x := s.writers[w];
    && (x.stage in {Inspecting, Rechecking, Replacing} ==>
          x.temp in s.temps && s.temps[x.temp] == Whole(Extended(op, x.acked, x.pending)))
    && (x.acked == [] || ValidJournal(op, x.acked))
    && (x.stage == Locking || x.stage == Checking || Checked(x.stage) ==> Appendable(op, x.acked, x.pending))
  }

  /** Whoever acknowledged anything, or is about to, has seen the journal reopen. */
  ghost predicate ReadBack(kind: Protocol, op: Operation, x: Writer) {
    x.acked != [] || x.stage == Acknowledging || (kind.MultiRequest? && x.stage == Releasing) ==> Legible(op)
  }

  ghost predicate WriterInv(kind: Protocol, op: Operation, s: Disk, w: nat)
    requires w < |s.writers|
  {
    && Knows(kind, op, s.target, s.writers[w], s.author == Some(w))
    && Holds(kind, s, w) && Written(op, s, w) && ReadBack(kind, op, s.writers[w])
    && (s.writers[w].uncertain ==> s.writers[w].stage == Stopped || (kind.Legacy? && s.writers[w].stage == Releasing))
  }

  ghost predicate Inv(kind: Protocol, op: Operation, s: Disk) {
    && (s.target.Some? ==> s.target.value.payload.Whole? && ValidJournal(op, s.target.value.payload.entries))
    && (s.target.Some? <==> s.author.Some?) && (s.author.Some? ==> s.author.value < |s.writers|)
    && forall w :: 0 <= w < |s.writers| ==> WriterInv(kind, op, s, w)
  }

  lemma OpeningHolds(kind: Protocol, op: Operation, writers: nat)
    ensures Inv(kind, op, Opening(writers))
  {
  }

  /** What a step of `w` may touch. */
  lemma Footprint(kind: Protocol, op: Operation, s: Disk, w: nat, a: Action)
    requires w < |s.writers|
    ensures var t := Act(kind, op, s, w, a);
            && |t.writers| == |s.writers| && (forall v :: 0 <= v < |s.writers| && v != w ==> t.writers[v] == s.writers[v])
            && (!Critical(kind, s.writers[w].stage) ==> t.temps == s.temps && (s.lock.Some? ==> t.lock == s.lock))
            && (!(s.writers[w].stage == Replacing && a == Go) ==> t.target == s.target && t.author == s.author)
  {
    hide PriorHolds, StillHolds, Landed, Appendable, Extended, HoldsLock;
  }

  lemma OtherKeepsInv(kind: Protocol, op: Operation, s: Disk, w: nat, a: Action, v: nat)
    requires Inv(kind, op, s) && w < |s.writers| && v < |s.writers| && v != w
    ensures WriterInv(kind, op, Act(kind, op, s, w, a), v)
  {
    hide PriorHolds, StillHolds, Landed, Appendable, ValidJournal, Extended, Act;
    var t := Act(kind, op, s, w, a);
    Footprint(kind, op, s, w, a);
    assert WriterInv(kind, op, s, v) && WriterInv(kind, op, s, w);
    if s.writers[w].stage == Replacing && a == Go {
      ReplacerIsAuthor(kind, op, s, w);
    }
  }

  /** Whoever replaces the target is its author, or makes it. */
  lemma ReplacerIsAuthor(kind: Protocol, op: Operation, s: Disk, w: nat)
    requires Inv(kind, op, s) && w < |s.writers| && s.writers[w].stage == Replacing
    ensures s.author == Some(w) || (s.author.None? && s.writers[w].acked == [])
    ensures var t := Act(kind, op, s, w, Go);
            var x := s.writers[w];
            t.author == Some(w) && t.target == Some(File(x.temp, Whole(Extended(op, x.acked, x.pending))))
  {
    hide PriorHolds, StillHolds, Landed, Appendable, ValidJournal, Extended;
    assert WriterInv(kind, op, s, w);
  }

  lemma GoKnows(kind: Protocol, op: Operation, s: Disk, w: nat)
    requires Inv(kind, op, s) && w < |s.writers| && s.writers[w].stage != Replacing
    ensures var t := Advance(kind, op, s, w);
            Knows(kind, op, t.target, t.writers[w], t.author == Some(w))
  {
    hide Appendable, ValidJournal, Extended, Holds, Written, HoldsLock, StillHolds, Landed;
    assert WriterInv(kind, op, s, w);
  }

  lemma ReplaceKnows(kind: Protocol, op: Operation, s: Disk, w: nat)
    requires Inv(kind, op, s) && w < |s.writers| && s.writers[w].stage == Replacing
    ensures var t := Advance(kind, op, s, w);
            Knows(kind, op, t.target, t.writers[w], t.author == Some(w))
  {
    hide Appendable, ValidJournal, Extended, HoldsLock;
    assert WriterInv(kind, op, s, w);
    ReplacerIsAuthor(kind, op, s, w);
  }

  lemma SelfKnows(kind: Protocol, op: Operation, s: Disk, w: nat, a: Action)
    requires Inv(kind, op, s) && w < |s.writers|
    ensures var t := Act(kind, op, s, w, a);
            Knows(kind, op, t.target, t.writers[w], t.author == Some(w))
  {
    hide Appendable, ValidJournal, Extended, Advance, Holds, Written;
    assert WriterInv(kind, op, s, w);
    if a == Go {
      if s.writers[w].stage == Replacing {
        ReplaceKnows(kind, op, s, w);
      } else {
        GoKnows(kind, op, s, w);
      }
    }
  }

  lemma GoHolds(kind: Protocol, op: Operation, s: Disk, w: nat)
    requires w < |s.writers| && Holds(kind, s, w)
    ensures Holds(kind, Advance(kind, op, s, w), w)
  {
    hide Extended, PriorHolds, StillHolds, Landed;
  }

  lemma SelfHolds(kind: Protocol, op: Operation, s: Disk, w: nat, a: Action)
    requires Inv(kind, op, s) && w < |s.writers|
    ensures Holds(kind, Act(kind, op, s, w, a), w)
    ensures var x := Act(kind, op, s, w, a).writers[w];
            x.uncertain ==> x.stage == Stopped || (kind.Legacy? && x.stage == Releasing)
  {
    hide Appendable, Advance, Knows, Written;
    assert WriterInv(kind, op, s, w);
    if a == Go {
      GoHolds(kind, op, s, w);
      GoMarks(kind, op, s, w);
    }
  }

  lemma GoMarks(kind: Protocol, op: Operation, s: Disk, w: nat)
    requires Inv(kind, op, s) && w < |s.writers|
    ensures var x := Advance(kind, op, s, w).writers[w];
            x.uncertain ==> x.stage == Stopped || (kind.Legacy? && x.stage == Releasing)
  {
    hide Appendable, Extended, PriorHolds, StillHolds, Landed, Knows, Holds, Written, HoldsLock;
    assert WriterInv(kind, op, s, w);
  }

  lemma SelfReadBack(kind: Protocol, op: Operation, s: Disk, w: nat, a: Action)
    requires Inv(kind, op, s) && w < |s.writers|
    ensures ReadBack(kind, op, Act(kind, op, s, w, a).writers[w])
  {
    hide Appendable, ValidJournal, Extended, Holds, Knows, Written, Legible, PriorHolds, StillHolds, HoldsLock;
    assert WriterInv(kind, op, s, w);
  }

  lemma AckWritten(kind: Protocol, op: Operation, s: Disk, w: nat)
    requires Inv(kind, op, s) && w < |s.writers| && s.writers[w].stage == Acknowledging
    ensures Written(op, Advance(kind, op, s, w), w)
  {
    hide Appendable, ValidJournal, Extended, Holds, HoldsLock;
    assert WriterInv(kind, op, s, w);
  }

  lemma GoWritten(kind: Protocol, op: Operation, s: Disk, w: nat)
    requires w < |s.writers| && s.writers[w].stage != Acknowledging && Written(op, s, w) && Holds(kind, s, w)
    ensures Written(op, Advance(kind, op, s, w), w)
  {
    hide Appendable, ValidJournal, Extended, PriorHolds, StillHolds, Landed, HoldsLock;
  }

  lemma SelfWritten(kind: Protocol, op: Operation, s: Disk, w: nat, a: Action)
    requires Inv(kind, op, s) && w < |s.writers|
    ensures Written(op, Act(kind, op, s, w, a), w)
  {
    hide Appendable, ValidJournal, Extended, Advance, Holds, Knows;
    assert WriterInv(kind, op, s, w);
    if a == Go {
      if s.writers[w].stage == Acknowledging {
        AckWritten(kind, op, s, w);
      } else {
        GoWritten(kind, op, s, w);
      }
    }
  }

  /** The target stays absent or a valid journal; a replace adds exactly one signed entry. */
  lemma TargetGrows(kind: Protocol, op: Operation, s: Disk, w: nat, a: Action)
    requires Inv(kind, op, s) && w < |s.writers|
    ensures var t := Act(kind, op, s, w, a);
            && (t.target != s.target ==>
                  && t.target.Some? && t.target.value.payload.Whole?
                  && t.target.value.payload.entries == Extended(op, History(s.target), s.writers[w].pending))
            && (t.target.Some? ==> t.target.value.payload.Whole? && ValidJournal(op, t.target.value.payload.entries))
            && (t.target.Some? <==> t.author.Some?) && (t.author.Some? ==> t.author.value < |t.writers|)
  {
    hide Grammar, ValidJournal, PriorHolds, StillHolds, Landed, Holds, HoldsLock, Act;
    assert WriterInv(kind, op, s, w);
    Footprint(kind, op, s, w, a);
    if s.writers[w].stage == Replacing && a == Go {
      ReplacerIsAuthor(kind, op, s, w);
      AppendKeepsValid(op, s.writers[w].acked, s.writers[w].pending);
    }
  }

  /** The entries on disk. */
  function History(target: Option<File>): seq<Entry> {
    if target.Some? && target.value.payload.Whole? then target.value.payload.entries else []
  }

  /** Every file step of every writer keeps the invariant. */
  lemma StepKeepsInv(kind: Protocol, op: Operation, s: Disk, w: nat, a: Action)
    requires Inv(kind, op, s) && w < |s.writers|
    ensures Inv(kind, op, Act(kind, op, s, w, a))
  {
    hide Act, ValidJournal, Knows, Holds, Written, ReadBack;
    var t := Act(kind, op, s, w, a);
    TargetGrows(kind, op, s, w, a);
    forall v | 0 <= v < |t.writers|
      ensures WriterInv(kind, op, t, v)
    {
      if v == w {
        SelfKnows(kind, op, s, w, a);
        SelfHolds(kind, op, s, w, a);
        SelfWritten(kind, op, s, w, a);
        SelfReadBack(kind, op, s, w, a);
      } else {
        OtherKeepsInv(kind, op, s, w, a, v);
      }
    }
  }

  /** Any run, in any interleaving, with any writers stopping anywhere. */
  lemma {:induction false} RunKeepsInv(kind: Protocol, op: Operation, s: Disk, steps: seq<(nat, Action)>)
    requires Inv(kind, op, s)
    ensures Inv(kind, op, Run(kind, op, s, steps))
    ensures |Run(kind, op, s, steps).writers| == |s.writers|
    decreases |steps|
  {
    hide Act, Inv;
    if steps != [] {
      var n := |steps| - 1;
      RunKeepsInv(kind, op, s, steps[..n]);
      var before := Run(kind, op, s, steps[..n]);
      var (w, a) := steps[n];
      if w < |before.writers| {
        StepKeepsInv(kind, op, before, w, a);
      }
    }
  }

  // ----- what holds in every reachable state -----

  lemma InvIsLinear(kind: Protocol, op: Operation, s: Disk, w: nat)
    requires Inv(kind, op, s) && w < |s.writers|
    ensures s.writers[w].acked <= History(s.target)
    ensures s.writers[w].acked != [] ==> s.author == Some(w)
  {
    hide ValidJournal;
    assert WriterInv(kind, op, s, w);
  }

  /** The target is absent or a valid journal; every writer's acknowledged entries are a prefix of it; and at most one
      writer ever has any. */
  lemma HistoryIsLinear(kind: Protocol, op: Operation, writers: nat, steps: seq<(nat, Action)>, w: nat, v: nat)
    requires w < writers && v < writers
    ensures var s := Run(kind, op, Opening(writers), steps);
            && |s.writers| == writers
            && (s.target.None? || (s.target.value.payload.Whole? && ValidJournal(op, History(s.target))))
            && s.writers[w].acked <= History(s.target)
            && (w != v ==> s.writers[w].acked == [] || s.writers[v].acked == [])
  {
    hide ValidJournal, WriterInv, Run;
    OpeningHolds(kind, op, writers);
    RunKeepsInv(kind, op, Opening(writers), steps);
    var s := Run(kind, op, Opening(writers), steps);
    InvIsLinear(kind, op, s, w);
    InvIsLinear(kind, op, s, v);
  }

  /** Nothing is on disk beyond the first entry its maker acknowledged. */
  predicate OneAtMost(s: Disk) {
    s.author.None? || (
      s.author.value < |s.writers| &&
      var maker := s.writers[s.author.value];
      maker.acked == [] || (|maker.acked| == 1 && Tip(History(s.target)) == Tip(maker.acked)))
  }

  /** The disk is at most one entry ahead of every writer that has acknowledged anything. It is at most one entry ahead
      of another exactly while that writer made the journal itself, or its maker has acknowledged nothing, or only a
      first entry that is still the tip on disk: a writer that lost the race to create the journal is never told of the
      rest. */
  lemma DiskAheadExactly(kind: Protocol, op: Operation, writers: nat, steps: seq<(nat, Action)>, w: nat)
    requires w < writers
    ensures |Run(kind, op, Opening(writers), steps).writers| == writers
    ensures var s := Run(kind, op, Opening(writers), steps);
            && (s.writers[w].acked != [] ==> |History(s.target)| <= |s.writers[w].acked| + 1)
            && (|History(s.target)| <= |s.writers[w].acked| + 1 <==> s.author == Some(w) || OneAtMost(s))
  {
    hide Run, ValidJournal;
    OpeningHolds(kind, op, writers);
    RunKeepsInv(kind, op, Opening(writers), steps);
    var s := Run(kind, op, Opening(writers), steps);
    assert WriterInv(kind, op, s, w);
    if s.author.Some? {
      MakerAhead(kind, op, s, s.author.value);
    }
  }

  /** The maker's journal on disk is what the maker acknowledged or one entry more, and its tip tells which. */
  lemma MakerAhead(kind: Protocol, op: Operation, s: Disk, w: nat)
    requires Inv(kind, op, s) && w < |s.writers| && s.author == Some(w)
    ensures |s.writers[w].acked| <= |History(s.target)| <= |s.writers[w].acked| + 1 && History(s.target) != []
    ensures |History(s.target)| == |s.writers[w].acked| <==> Tip(History(s.target)) == Tip(s.writers[w].acked)
  {
    hide Grammar, Place;
    assert WriterInv(kind, op, s, w);
    TipEndsChain(op, History(s.target));
    if s.writers[w].acked != [] {
      TipEndsChain(op, s.writers[w].acked);
    }
  }

  /** What any run leaves on disk is a prefix of what every longer run leaves there. */
  lemma {:induction false} HistoryOnlyGrows(kind: Protocol, op: Operation, s: Disk, steps: seq<(nat, Action)>)
    requires Inv(kind, op, s)
    ensures History(s.target) <= History(Run(kind, op, s, steps).target)
    decreases |steps|
  {
    hide Act, Inv;
    if steps != [] {
      var n := |steps| - 1;
      HistoryOnlyGrows(kind, op, s, steps[..n]);
      RunKeepsInv(kind, op, s, steps[..n]);
      var before := Run(kind, op, s, steps[..n]);
      var (w, a) := steps[n];
      if w < |before.writers| {
        TargetGrows(kind, op, before, w, a);
      }
    }
  }

  /** Between writers that keep to the protocol the file checks never refuse a step, but for two: a lock that is taken,
      and a target that another writer made first. A multi-request writer may also find an orphan temporary, and no
      journal of an operation with an integer too long to be read back is ever acknowledged. */
  lemma OnlyTheLoserIsRefused(kind: Protocol, op: Operation, s: Disk, w: nat)
    requires Inv(kind, op, s) && w < |s.writers| && !s.writers[w].uncertain
    ensures Act(kind, op, s, w, Go).writers[w].uncertain
            <==> (s.writers[w].stage == Checking && s.writers[w].acked == [] && s.target.Some?)
                 || (s.writers[w].stage == Scanning && s.temps != map[])
                 || (s.writers[w].stage == Verifying && !Legible(op))
  {
    hide Appendable, ValidJournal, Extended, Legible;
    assert WriterInv(kind, op, s, w);
  }

  // ----- whatever else is in the directory -----

  /** The target is this writer's own: absent, or exactly the entries it acknowledged, in the very file it made. */
  predicate OwnTarget(op: Operation, target: Option<File>, x: Writer) {
    if x.acked == [] then target.None?
    else target == Some(File(x.identity, Whole(x.acked))) && Legible(op)
  }

  lemma TargetIsOwn(op: Operation, target: Option<File>, x: Writer)
    requires x.acked == [] || ValidJournal(op, x.acked)
    ensures PriorHolds(op, target, x) <==> OwnTarget(op, target, x)
    ensures StillHolds(op, target, x) <==> OwnTarget(op, target, x)
  {
    hide Grammar, Legible, EntryRefusal;
    if Reads(op, target) && x.acked != [] && Tip(target.value.payload.entries) == Tip(x.acked) {
      TipBindsHistory(op, target.value.payload.entries, op, x.acked);
    }
  }

  lemma LandedIsOwn(op: Operation, target: Option<File>, x: Writer)
    requires ValidJournal(op, Extended(op, x.acked, x.pending))
    ensures Landed(op, target, x)
            <==> target.Some? && target.value.payload == Whole(Extended(op, x.acked, x.pending)) && Legible(op)
  {
    hide Grammar, Legible, EntryRefusal;
    if Reads(op, target) && Tip(target.value.payload.entries) == Tip(Extended(op, x.acked, x.pending)) {
      TipBindsHistory(op, target.value.payload.entries, op, Extended(op, x.acked, x.pending));
    }
  }

  /** In any directory at all, whoever wrote in it: a writer goes past its two looks at the target exactly if the target
      is its own to the last entry, and past the look at what it wrote exactly if that is what lies there; and it goes on
      to a replace, and gives a lock back, only under the very lock it made. */
  lemma ConflictsAreSeen(kind: Protocol, op: Operation, s: Disk, w: nat)
    requires w < |s.writers| && !s.writers[w].uncertain
    requires s.writers[w].acked == [] || ValidJournal(op, s.writers[w].acked)
    requires Appendable(op, s.writers[w].acked, s.writers[w].pending)
    ensures
      var x := s.writers[w];
      var t := Act(kind, op, s, w, Go);
      && (x.stage == Checking || x.stage == Rechecking ==>
            (!t.writers[w].uncertain <==> OwnTarget(op, s.target, x)))
      && (x.stage == Verifying ==>
            (!t.writers[w].uncertain
             <==> s.target.Some? && s.target.value.payload == Whole(Extended(op, x.acked, x.pending)) && Legible(op)))
      && (x.stage == Inspecting && kind.MultiRequest? && !t.writers[w].uncertain ==>
            s.lock.Some? && s.lock.value.identity == x.lockIdentity)
      && (x.stage == Releasing && t.lock != s.lock ==>
            s.lock.Some? && s.lock.value.identity == x.lockIdentity && t.lock.None?)
      && (x.stage in {Checking, Rechecking, Verifying, Inspecting} ==>
            t.target == s.target && t.temps == s.temps && t.lock == s.lock)
  {
    var x := s.writers[w];
    TargetIsOwn(op, s.target, x);
    AppendKeepsValid(op, x.acked, x.pending);
    LandedIsOwn(op, s.target, x);
    hide PriorHolds, StillHolds, Landed, OwnTarget, ValidJournal, Appendable, Extended, Legible;
  }

  /** A failure cleans nothing up: the directory stays as it is, and the multi-request writer, from then on uncertain,
      never touches it again. */
  lemma FailureKeepsEvidence(kind: Protocol, op: Operation, s: Disk, w: nat, a: Action)
    requires Inv(kind, op, s) && w < |s.writers|
    ensures var t := Act(kind, op, s, w, Fail);
            && t.target == s.target && t.temps == s.temps && t.lock == s.lock
            && (s.writers[w].stage == Locking ==> t.writers[w] == s.writers[w].(stage := Idle))
            && (s.writers[w].stage !in {Idle, Locking, Stopped} && kind.MultiRequest? ==>
                  t.writers[w].uncertain && t.writers[w].stage == Stopped)
            && (s.writers[w].stage !in {Idle, Locking, Stopped, Releasing} ==> t.writers[w].uncertain)
    ensures s.writers[w].uncertain && kind.MultiRequest? ==> Act(kind, op, s, w, a) == s
  {
    hide Advance, Appendable, Knows, Written, Holds;
    assert WriterInv(kind, op, s, w);
    assert s.writers[w := s.writers[w]] == s.writers;
    if s.writers[w].stage == Stopped {
      StoppedRests(kind, op, s, w);
    }
  }

  lemma StoppedRests(kind: Protocol, op: Operation, s: Disk, w: nat)
    requires w < |s.writers| && s.writers[w].stage == Stopped
    ensures Advance(kind, op, s, w) == s
  {
  }

  /** A writer that dies under its lock, or fails between making it and guarding it, abandons it. */
  lemma DeathAbandons(kind: Protocol, op: Operation, s: Disk, w: nat)
    requires Inv(kind, op, s) && w < |s.writers|
    ensures Critical(kind, s.writers[w].stage) ==> Abandoned(kind, Act(kind, op, s, w, Die))
    ensures s.writers[w].stage == Locking && s.lock.None? ==> Abandoned(kind, Act(kind, op, s, w, Strand))
  {
    hide Advance, Appendable, Knows, Written;
    assert WriterInv(kind, op, s, w);
  }

  // ----- the lock comes back, and an append alone succeeds -----

  /** Steps that leave a lock behind: death, a failure before the lock is guarded, and for the version 1 writer a failure
      of the very removal. */
  predicate Abandons(kind: Protocol, s: Disk, w: nat, a: Action)
    requires w < |s.writers|
  {
    a == Strand || a == Die || (kind.Legacy? && a == Fail && s.writers[w].stage == Releasing)
  }

  /** A writer that is out of the guarded part, and has not failed there for good, has no lock on disk. */
  predicate GivenBack(kind: Protocol, s: Disk, w: nat)
    requires w < |s.writers|
  {
    !Critical(kind, s.writers[w].stage) && (kind.Legacy? || s.writers[w].stage != Stopped) ==>
      s.lock.None? || s.lock.value.holder != w
  }

  lemma StepGivesBack(kind: Protocol, op: Operation, s: Disk, w: nat, a: Action, v: nat)
    requires Inv(kind, op, s) && w < |s.writers| && v < |s.writers| && GivenBack(kind, s, v)
    requires w == v ==> !Abandons(kind, s, w, a)
    ensures GivenBack(kind, Act(kind, op, s, w, a), v)
  {
    hide Appendable, ValidJournal, Extended, PriorHolds, StillHolds, Landed, Knows, Written, ReadBack;
    assert WriterInv(kind, op, s, w);
    assert WriterInv(kind, op, s, v);
  }

  /** Over any run, a writer that neither dies nor abandons its lock gives it back: the version 1 writer whatever comes of
      its append, the other one whenever its append does not fail under the lock. */
  lemma {:induction false} LockGivenBack(kind: Protocol, op: Operation, s: Disk, steps: seq<(nat, Action)>, v: nat)
    requires Inv(kind, op, s) && v < |s.writers| && GivenBack(kind, s, v)
    requires forall k :: 0 <= k < |steps| && steps[k].0 == v ==>
               var before := Run(kind, op, s, steps[..k]);
               v < |before.writers| && !Abandons(kind, before, v, steps[k].1)
    ensures |Run(kind, op, s, steps).writers| == |s.writers| && GivenBack(kind, Run(kind, op, s, steps), v)
    decreases |steps|
  {
    hide Act, Inv, GivenBack, Abandons;
    if steps != [] {
      var n := |steps| - 1;
      assert forall k :: 0 <= k < n ==> steps[..n][k] == steps[k] && steps[..n][..k] == steps[..k];
      LockGivenBack(kind, op, s, steps[..n], v);
      RunKeepsInv(kind, op, s, steps[..n]);
      var before := Run(kind, op, s, steps[..n]);
      var (w, a) := steps[n];
      if w < |before.writers| {
        StepGivesBack(kind, op, before, w, a, v);
      }
    }
  }

  /** How many steps a writer is from the end of its append. */
  function Rank(kind: Protocol, stage: Stage): nat {
    match stage
    case Locking => 11
    case Checking => 10
    case Scanning => 9
    case Creating => 8
    case Writing => 7
    case Inspecting => 6
    case Rechecking => 5
    case Replacing => 4
    case Verifying => 3
    case Releasing => if kind.MultiRequest? then 2 else 1
    case Acknowledging => if kind.MultiRequest? then 1 else 2
    case _ => 0
  }

  /** Writer `w` is appending `e` to `acked`, and nothing on disk stands in its way. */
  predicate Undisturbed(kind: Protocol, op: Operation, s: Disk, w: nat, acked: seq<Entry>, e: Event)
    requires w < |s.writers|
  {
    var x := s.writers[w];
    && !x.uncertain && x.pending == e && x.stage != Stopped
    && (x.stage == Locking || x.stage == Idle || (x.stage == Acknowledging && kind.MultiRequest?) ==> s.lock.None?)
    && (x.stage == Locking || x.stage == Checking ==> acked == [] ==> s.target.None?)
    && (x.stage == Scanning ==> kind.MultiRequest?)
    && (kind.MultiRequest? && Rank(kind, x.stage) >= 9 ==> s.temps == map[])
    && (if x.stage == Idle || (kind.Legacy? && x.stage == Releasing) then
          x.acked == Extended(op, acked, e) && History(s.target) == x.acked
        else x.acked == acked)
  }

  lemma UndisturbedGoesOn(kind: Protocol, op: Operation, s: Disk, w: nat, acked: seq<Entry>, e: Event)
    requires Inv(kind, op, s) && Legible(op) && w < |s.writers| && s.writers[w].stage != Idle
    requires Undisturbed(kind, op, s, w, acked, e)
    ensures var t := Act(kind, op, s, w, Go);
            && Undisturbed(kind, op, t, w, acked, e)
            && Rank(kind, t.writers[w].stage) < Rank(kind, s.writers[w].stage)
  {
    OnlyTheLoserIsRefused(kind, op, s, w);
    if s.writers[w].stage == Acknowledging {
      UndisturbedIsTold(kind, op, s, w, acked, e);
    } else if s.writers[w].stage == Releasing {
      UndisturbedReleases(kind, op, s, w, acked, e);
    } else {
      UndisturbedSteps(kind, op, s, w, acked, e);
    }
  }

  lemma UndisturbedIsTold(kind: Protocol, op: Operation, s: Disk, w: nat, acked: seq<Entry>, e: Event)
    requires Inv(kind, op, s) && w < |s.writers| && s.writers[w].stage == Acknowledging
    requires Undisturbed(kind, op, s, w, acked, e)
    ensures var t := Act(kind, op, s, w, Go);
            && Undisturbed(kind, op, t, w, acked, e)
            && Rank(kind, t.writers[w].stage) < Rank(kind, s.writers[w].stage)
  {
    hide Appendable, ValidJournal, Extended, PriorHolds, StillHolds, Landed, Written, ReadBack;
    assert WriterInv(kind, op, s, w);
  }

  lemma UndisturbedReleases(kind: Protocol, op: Operation, s: Disk, w: nat, acked: seq<Entry>, e: Event)
    requires Inv(kind, op, s) && w < |s.writers| && s.writers[w].stage == Releasing
    requires Undisturbed(kind, op, s, w, acked, e)
    ensures var t := Act(kind, op, s, w, Go);
            && Undisturbed(kind, op, t, w, acked, e)
            && Rank(kind, t.writers[w].stage) < Rank(kind, s.writers[w].stage)
  {
    hide Appendable, ValidJournal, Extended, PriorHolds, StillHolds, Landed, Written, ReadBack, Knows;
    assert WriterInv(kind, op, s, w);
  }

  lemma UndisturbedSteps(kind: Protocol, op: Operation, s: Disk, w: nat, acked: seq<Entry>, e: Event)
    requires Inv(kind, op, s) && w < |s.writers| && s.writers[w].stage !in {Idle, Acknowledging, Releasing}
    requires Undisturbed(kind, op, s, w, acked, e) && !Act(kind, op, s, w, Go).writers[w].uncertain
    ensures var t := Act(kind, op, s, w, Go);
            && Undisturbed(kind, op, t, w, acked, e)
            && Rank(kind, t.writers[w].stage) < Rank(kind, s.writers[w].stage)
  {
    hide Appendable, ValidJournal, Extended, PriorHolds, StillHolds, Landed, Written, ReadBack, Knows, Inv, HoldsLock;
  }

  lemma {:induction false} UndisturbedEnds(kind: Protocol, op: Operation, s: Disk, w: nat, acked: seq<Entry>, e: Event,
                                           before: Disk, steps: seq<(nat, Action)>)
    returns (more: seq<(nat, Action)>)
    requires Inv(kind, op, s) && Legible(op) && w < |s.writers| && Undisturbed(kind, op, s, w, acked, e)
    requires Run(kind, op, before, steps) == s
    ensures steps <= more && |Run(kind, op, before, more).writers| == |s.writers|
    ensures var t := Run(kind, op, before, more);
            Undisturbed(kind, op, t, w, acked, e) && t.writers[w].stage == Idle
    decreases Rank(kind, s.writers[w].stage)
  {
    hide Act, Inv, Legible;
    more := steps;
    if s.writers[w].stage != Idle {
      UndisturbedGoesOn(kind, op, s, w, acked, e);
      StepKeepsInv(kind, op, s, w, Go);
      var next := steps + [(w, Go)];
      assert next[..|next| - 1] == steps;
      more := UndisturbedEnds(kind, op, Act(kind, op, s, w, Go), w, acked, e, before, next);
    }
  }

  /** An append that nobody disturbs succeeds, under either protocol: from any reachable directory whose lock is free, a
      writer that has not lost the race adds its event, is told so, and leaves the lock free. */
  lemma AppendAloneSucceeds(kind: Protocol, op: Operation, s: Disk, w: nat, e: Event) returns (steps: seq<(nat, Action)>)
    requires Inv(kind, op, s) && Legible(op) && w < |s.writers| && s.writers[w].stage == Idle
    requires s.lock.None? && Appendable(op, s.writers[w].acked, e)
    requires s.writers[w].acked == [] ==> s.target.None?
    requires kind.MultiRequest? ==> s.temps == map[]
    ensures var t := Run(kind, op, s, steps);
            && |t.writers| == |s.writers| && t.writers[w].stage == Idle && !t.writers[w].uncertain && t.lock.None?
            && t.writers[w].acked == Extended(op, s.writers[w].acked, e) && History(t.target) == t.writers[w].acked
  {
    var first := [(w, Begin(e))];
    assert first[..0] == [];
    var s1 := Act(kind, op, s, w, Begin(e));
    assert Run(kind, op, s, []) == s && Run(kind, op, s, first) == s1;
    assert WriterInv(kind, op, s, w);
    StepKeepsInv(kind, op, s, w, Begin(e));
    assert Undisturbed(kind, op, s1, w, s.writers[w].acked, e);
    hide Run, Act, Inv, WriterInv, Appendable, Extended, Legible;
    steps := UndisturbedEnds(kind, op, s1, w, s.writers[w].acked, e, s, first);
  }

  /** The lock's holder will never give it back: it died, or it failed between making the lock and guarding it. */
  predicate Abandoned(kind: Protocol, s: Disk) {
    && s.lock.Some? && s.lock.value.holder < |s.writers|
    && !Critical(kind, s.writers[s.lock.value.holder].stage)
  }

  /** An abandoned lock: nothing ever changes the journal again, and no writer gets past the lock. */
  lemma {:induction false} DeadHolderFreezes(kind: Protocol, op: Operation, s: Disk, steps: seq<(nat, Action)>)
    requires Inv(kind, op, s) && Abandoned(kind, s)
    ensures var t := Run(kind, op, s, steps);
            && t.target == s.target && t.temps == s.temps && t.lock == s.lock && |t.writers| == |s.writers|
            && Abandoned(kind, t) && forall w :: 0 <= w < |t.writers| ==> !Critical(kind, t.writers[w].stage)
    decreases |steps|
  {
    hide Inv, Act, Critical;
    if steps == [] {
      NobodyIsCritical(kind, op, s);
    } else {
      var n := |steps| - 1;
      DeadHolderFreezes(kind, op, s, steps[..n]);
      RunKeepsInv(kind, op, s, steps[..n]);
      var before := Run(kind, op, s, steps[..n]);
      var (w, a) := steps[n];
      if w < |before.writers| {
        StepUnderDeadLock(kind, op, before, w, a);
        StepKeepsInv(kind, op, before, w, a);
        NobodyIsCritical(kind, op, Act(kind, op, before, w, a));
      }
    }
  }

  lemma NobodyIsCritical(kind: Protocol, op: Operation, s: Disk)
    requires Inv(kind, op, s) && Abandoned(kind, s)
    ensures forall w :: 0 <= w < |s.writers| ==> !Critical(kind, s.writers[w].stage)
  {
    hide ValidJournal, Knows, Written, ReadBack, Critical;
    forall w | 0 <= w < |s.writers|
      ensures !Critical(kind, s.writers[w].stage)
    {
      assert WriterInv(kind, op, s, w);
    }
  }

  lemma StepUnderDeadLock(kind: Protocol, op: Operation, s: Disk, w: nat, a: Action)
    requires Inv(kind, op, s) && w < |s.writers| && Abandoned(kind, s)
    ensures var t := Act(kind, op, s, w, a);
            t.target == s.target && t.temps == s.temps && t.lock == s.lock && Abandoned(kind, t)
  {
    hide ValidJournal, Knows, Written, ReadBack, PriorHolds, StillHolds, Landed, Extended, Appendable, HoldsLock;
    NobodyIsCritical(kind, op, s);
    Footprint(kind, op, s, w, a);
  }

  // ----- a writer left behind -----

  ghost predicate Reachable(kind: Protocol, op: Operation, writers: nat, s: Disk) {
    exists steps :: Run(kind, op, Opening(writers), steps) == s
  }

  lemma ReachStep(kind: Protocol, op: Operation, writers: nat, s: Disk, w: nat, a: Action)
    requires Reachable(kind, op, writers, s) && w < |s.writers|
    ensures Reachable(kind, op, writers, Act(kind, op, s, w, a))
  {
    hide Act;
    var steps :| Run(kind, op, Opening(writers), steps) == s;
    var longer := steps + [(w, a)];
    assert longer[..|longer| - 1] == steps;
    assert Run(kind, op, Opening(writers), longer) == Act(kind, op, s, w, a);
  }

  /** Writer 1 is live, has found the lock taken `tries` times, and was never told of anything. */
  predicate Loser(x: Writer, tries: nat) { x.stage == Idle && !x.uncertain && x.acked == [] && x.refused == tries }

  /** Between appends of writer 0, with nothing left lying about. */
  predicate Quiet(s: Disk, entries: seq<Entry>, tries: nat) {
    && |s.writers| == 2 && s.writers[0].stage == Idle && !s.writers[0].uncertain && s.writers[0].acked == entries
    && Loser(s.writers[1], tries) && s.lock.None? && s.temps == map[]
    && (if entries == [] then s.target.None? else s.target == Some(File(s.writers[0].identity, Whole(entries))))
  }

  /** The directory while writer 0 is between its lock and its replace. */
  function Midway(s: Disk, e: Event, stage: Stage, temps: map<nat, Payload>): Disk
    requires |s.writers| == 2
  {
    var x := s.writers[0].(stage := stage, pending := e, lockIdentity := s.minted);
    if stage == Checking || stage == Scanning || stage == Creating then
      Put(s.(lock := Some(Lock(s.minted, 0)), minted := s.minted + 1, temps := temps), 0, x)
    else
      Put(s.(lock := Some(Lock(s.minted, 0)), minted := s.minted + 2, temps := temps), 0, x.(temp := s.minted + 1))
  }

  lemma ReachCreating(op: Operation, s: Disk, entries: seq<Entry>, e: Event, tries: nat)
    requires Reachable(MultiRequest, op, 2, s) && Quiet(s, entries, tries) && Appendable(op, entries, e)
    requires Legible(op) && (entries == [] || ValidJournal(op, entries))
    ensures Reachable(MultiRequest, op, 2, Midway(s, e, Creating, map[]))
  {
    hide Reachable, Appendable, ValidJournal, Extended, Run;
    ReachStep(MultiRequest, op, 2, s, 0, Begin(e));
    var s1 := Act(MultiRequest, op, s, 0, Begin(e));
    ReachStep(MultiRequest, op, 2, s1, 0, Go);
    var s2 := Act(MultiRequest, op, s1, 0, Go);
    assert s2 == Midway(s, e, Checking, map[]);
    ReachStep(MultiRequest, op, 2, s2, 0, Go);
    assert Act(MultiRequest, op, s2, 0, Go) == Midway(s, e, Scanning, map[]);
    ReachStep(MultiRequest, op, 2, Midway(s, e, Scanning, map[]), 0, Go);
    assert Act(MultiRequest, op, Midway(s, e, Scanning, map[]), 0, Go) == Midway(s, e, Creating, map[]);
  }

  /** While writer 0 holds the lock writer 1 starts its first append, is refused, and is as live as before. */
  lemma LoserTries(op: Operation, s: Disk, entries: seq<Entry>, e: Event, first: Event, tries: nat) returns (t: Disk)
    requires Quiet(s, entries, tries) && Appendable(op, [], first)
    requires Reachable(MultiRequest, op, 2, Midway(s, e, Creating, map[]))
    ensures Quiet(t, entries, tries + 1) && Reachable(MultiRequest, op, 2, Midway(t, e, Creating, map[]))
  {
    hide Reachable, Appendable, ValidJournal, Extended, Run, Reads;
    var u := Midway(s, e, Creating, map[]);
    ReachStep(MultiRequest, op, 2, u, 1, Begin(first));
    var u1 := Act(MultiRequest, op, u, 1, Begin(first));
    ReachStep(MultiRequest, op, 2, u1, 1, Go);
    t := Put(s, 1, s.writers[1].(pending := first, refused := tries + 1));
    assert Act(MultiRequest, op, u1, 1, Go) == Midway(t, e, Creating, map[]);
  }

  lemma TempCreated(op: Operation, s: Disk, e: Event)
    requires |s.writers| == 2
    ensures Act(MultiRequest, op, Midway(s, e, Creating, map[]), 0, Go)
            == Midway(s, e, Writing, map[s.minted + 1 := Partial])
  {
    hide Appendable, PriorHolds, StillHolds, Landed, Extended;
  }

  lemma TempWritten(op: Operation, s: Disk, entries: seq<Entry>, e: Event)
    requires |s.writers| == 2 && s.writers[0].acked == entries
    ensures Act(MultiRequest, op, Midway(s, e, Writing, map[s.minted + 1 := Partial]), 0, Go)
            == Midway(s, e, Inspecting, map[s.minted + 1 := Whole(Extended(op, entries, e))])
  {
    hide Appendable, PriorHolds, StillHolds, Landed, Extended;
    var full := Whole(Extended(op, entries, e));
    assert map[s.minted + 1 := Partial][s.minted + 1 := full] == map[s.minted + 1 := full];
  }

  lemma TempChecked(op: Operation, s: Disk, entries: seq<Entry>, e: Event)
    requires |s.writers| == 2 && s.writers[0].acked == entries && !s.writers[0].uncertain
    requires StillHolds(op, s.target, s.writers[0])
    ensures var temps := map[s.minted + 1 := Whole(Extended(op, entries, e))];
            && Act(MultiRequest, op, Midway(s, e, Inspecting, temps), 0, Go) == Midway(s, e, Rechecking, temps)
            && Act(MultiRequest, op, Midway(s, e, Rechecking, temps), 0, Go) == Midway(s, e, Replacing, temps)
  {
    hide Appendable, PriorHolds, Landed, Extended, ValidJournal, Reads;
  }

  lemma ReachReplacing(op: Operation, s: Disk, entries: seq<Entry>, e: Event, tries: nat)
    requires Quiet(s, entries, tries) && Legible(op) && (entries == [] || ValidJournal(op, entries))
    requires Reachable(MultiRequest, op, 2, Midway(s, e, Creating, map[]))
    ensures Reachable(MultiRequest, op, 2, Midway(s, e, Replacing, map[s.minted + 1 := Whole(Extended(op, entries, e))]))
  {
    hide Reachable, ValidJournal, Extended, Run, Act;
    var begun, full := map[s.minted + 1 := Partial], map[s.minted + 1 := Whole(Extended(op, entries, e))];
    ReachStep(MultiRequest, op, 2, Midway(s, e, Creating, map[]), 0, Go);
    TempCreated(op, s, e);
    ReachStep(MultiRequest, op, 2, Midway(s, e, Writing, begun), 0, Go);
    TempWritten(op, s, entries, e);
    ReachStep(MultiRequest, op, 2, Midway(s, e, Inspecting, full), 0, Go);
    TempChecked(op, s, entries, e);
    ReachStep(MultiRequest, op, 2, Midway(s, e, Rechecking, full), 0, Go);
  }

  /** Writer 0 has replaced the target and owes the acknowledgement. */
  predicate Replaced(op: Operation, s: Disk, entries: seq<Entry>, e: Event, tries: nat) {
    && |s.writers| == 2 && s.writers[0].stage == Verifying && !s.writers[0].uncertain
    && s.writers[0].acked == entries && s.writers[0].pending == e && Loser(s.writers[1], tries)
    && s.lock == Some(Lock(s.writers[0].lockIdentity, 0)) && s.temps == map[]
    && s.target == Some(File(s.writers[0].temp, Whole(Extended(op, entries, e))))
  }

  lemma ReachReplaced(op: Operation, s: Disk, entries: seq<Entry>, e: Event, tries: nat) returns (t: Disk)
    requires Quiet(s, entries, tries)
    requires Reachable(MultiRequest, op, 2, Midway(s, e, Replacing, map[s.minted + 1 := Whole(Extended(op, entries, e))]))
    ensures Reachable(MultiRequest, op, 2, t) && Replaced(op, t, entries, e, tries)
  {
    hide Reachable, Appendable, ValidJournal, Run, Extended, PriorHolds, StillHolds, Landed;
    var u := Midway(s, e, Replacing, map[s.minted + 1 := Whole(Extended(op, entries, e))]);
    ReachStep(MultiRequest, op, 2, u, 0, Go);
    t := Act(MultiRequest, op, u, 0, Go);
  }

  lemma ReachQuiet(op: Operation, s: Disk, entries: seq<Entry>, e: Event, tries: nat) returns (t: Disk)
    requires Reachable(MultiRequest, op, 2, s) && Replaced(op, s, entries, e, tries)
    requires Legible(op) && ValidJournal(op, Extended(op, entries, e))
    ensures Reachable(MultiRequest, op, 2, t) && Quiet(t, Extended(op, entries, e), tries)
  {
    hide Reachable, Appendable, ValidJournal, Run, Extended, PriorHolds, StillHolds;
    ReachStep(MultiRequest, op, 2, s, 0, Go);
    t := Act(MultiRequest, op, s, 0, Go);
    assert t == Put(s, 0, s.writers[0].(stage := Releasing));
    ReachStep(MultiRequest, op, 2, t, 0, Go);
    t := Act(MultiRequest, op, t, 0, Go);
    assert t == Put(s.(lock := None), 0, s.writers[0].(stage := Acknowledging));
    ReachStep(MultiRequest, op, 2, t, 0, Go);
    t := Act(MultiRequest, op, t, 0, Go);
  }

  /** A writer that loses the race to create the journal can be any number of entries behind the disk and live: it is
      refused at the lock once for every entry, which marks nothing. */
  lemma {:induction false} LoserFallsArbitrarilyBehind(op: Operation, n: nat) returns (s: Disk)
    requires ValidOperation(op) && Legible(op) && n <= 3 * |op.requests|
    ensures Reachable(MultiRequest, op, 2, s) && Quiet(s, Longest(op, n), n)
    ensures |History(s.target)| == n && s.writers[1].acked == []
    ensures s.writers[1].refused == n && s.writers[1].stage == Idle && !s.writers[1].uncertain
  {
    hide ValidJournal, Appendable, Run, Reachable, Midway, Replaced, Extended, Act, Legible;
    if n == 0 {
      s := Opening(2);
      OpeningRuns(op);
    } else {
      s := LoserFallsArbitrarilyBehind(op, n - 1);
      var entries := Longest(op, n - 1);
      var e := LongestEvent(op, n - 1, Tip(entries));
      if n > 1 {
        LongestIsValid(op, n - 1);
      }
      LongestAppends(op, n);
      LongestAppends(op, 1);
      ReachCreating(op, s, entries, e, n - 1);
      s := LoserTries(op, s, entries, e, LongestEvent(op, 0, ZeroDigest), n - 1);
      ReachReplacing(op, s, entries, e, n);
      s := ReachReplaced(op, s, entries, e, n);
      LongestIsValid(op, n);
      s := ReachQuiet(op, s, entries, e, n);
    }
  }

  lemma OpeningRuns(op: Operation)
    ensures Reachable(MultiRequest, op, 2, Opening(2))
  {
    assert Run(MultiRequest, op, Opening(2), []) == Opening(2);
  }

  lemma LongestAppends(op: Operation, n: nat)
    requires ValidOperation(op) && 0 < n <= 3 * |op.requests|
    ensures Appendable(op, Longest(op, n - 1), LongestEvent(op, n - 1, Tip(Longest(op, n - 1))))
    ensures Longest(op, n)
            == Extended(op, Longest(op, n - 1), LongestEvent(op, n - 1, Tip(Longest(op, n - 1))))
  {
    hide Grammar, Digits;
    LongestIsValid(op, n);
    var before := Longest(op, n - 1);
    assert Events(Longest(op, n)) == Events(before) + [LongestEvent(op, n - 1, Tip(before))];
  }
}
