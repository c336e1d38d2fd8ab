/** At-most-once submission of frozen prompts over an untrusted wire. */
module PromptSubmission {
  import opened CapacityTypes

  const MAX_REMOTE_BYTES := 64 * 1024
  const MAX_ATTEMPTS := 100

  type Body = seq<int>

  /** What one read of the response gives; an empty read is the end of the body. */
  datatype Chunk = Bytes(bytes: Body) | NotBytes | Raises

  /** The clock just before and just after each read. */
  datatype Clock = Clock(before: nat -> int, after: nat -> int)

  datatype ReadOutcome = Complete(body: Body) | TimedOut | Malformed | TooLong

  // ----- the bounded read loop -----

  /** The first `n` reads, joined. */
  function Joined(read: nat -> Chunk, n: nat): Body {
    if n == 0 then [] else Joined(read, n - 1) + (if read(n - 1).Bytes? then read(n - 1).bytes else [])
  }

  /** The body ends at read `n`: every read before gave bytes, every look at the clock was in time, and the whole is
      within the limit. */
  predicate EndsAt(read: nat -> Chunk, clock: Clock, deadline: int, n: nat) {
    && (forall i :: 0 <= i < n ==> read(i).Bytes? && read(i).bytes != [])
    && read(n) == Bytes([])
    && (forall i :: 0 <= i <= n ==> clock.before(i) < deadline && clock.after(i) < deadline)
    && |Joined(read, n)| <= MAX_REMOTE_BYTES
  }

  /** A body is accepted exactly when it ends in time and within the limit, and then it is every byte read. */
  method ReadBody(read: nat -> Chunk, clock: Clock, deadline: int) returns (r: ReadOutcome)
    ensures r.Complete? <==> exists n: nat :: EndsAt(read, clock, deadline, n)
    ensures r.Complete? ==> |r.body| <= MAX_REMOTE_BYTES
                            && exists n: nat :: EndsAt(read, clock, deadline, n) && r.body == Joined(read, n)
  {
    var body: Body := [];
    var i := 0;
    while true
      invariant body == Joined(read, i) && i <= |body| <= MAX_REMOTE_BYTES
      invariant forall j :: 0 <= j < i ==> read(j).Bytes? && read(j).bytes != []
      invariant forall j :: 0 <= j < i ==> clock.before(j) < deadline && clock.after(j) < deadline
      decreases MAX_REMOTE_BYTES - |body|
    {
      if deadline - clock.before(i) <= 0 {
        NoEnd(read, clock, deadline, i);
        return TimedOut;
      }
      var chunk := read(i);
      if clock.after(i) >= deadline {
        NoEnd(read, clock, deadline, i);
        return TimedOut;
      }
      if !chunk.Bytes? {
        NoEnd(read, clock, deadline, i);
        return Malformed;
      }
      if |body| + |chunk.bytes| > MAX_REMOTE_BYTES {
        NoEnd(read, clock, deadline, i);
        return TooLong;
      }
      if chunk.bytes == [] {
        assert EndsAt(read, clock, deadline, i);
        return Complete(body);
      }
      body := body + chunk.bytes;
      i := i + 1;
    }
  }

  lemma {:induction false} JoinedGrows(read: nat -> Chunk, n: nat, m: nat)
    requires n <= m
    ensures |Joined(read, n)| <= |Joined(read, m)|
  {
    if n < m {
      JoinedGrows(read, n, m - 1);
    }
  }

  /** An end at or after read `i` passes every check the loop makes there. */
  lemma EndPasses(read: nat -> Chunk, clock: Clock, deadline: int, n: nat, i: nat)
    requires EndsAt(read, clock, deadline, n) && i <= n
    ensures clock.before(i) < deadline && clock.after(i) < deadline && read(i).Bytes?
    ensures |Joined(read, i)| + |read(i).bytes| <= MAX_REMOTE_BYTES
  {
    hide Joined;
    if i < n {
      JoinedNext(read, i);
      JoinedGrows(read, i + 1, n);
    } else {
      assert read(i) == Bytes([]);
    }
  }

  lemma JoinedNext(read: nat -> Chunk, n: nat)
    ensures read(n).Bytes? ==> |Joined(read, n + 1)| == |Joined(read, n)| + |read(n).bytes|
  {
  }

  /** What stops the loop at read `i` stops every end. */
  lemma NoEnd(read: nat -> Chunk, clock: Clock, deadline: int, i: nat)
    requires forall j :: 0 <= j < i ==> read(j).Bytes? && read(j).bytes != []
    requires
      || clock.before(i) >= deadline || clock.after(i) >= deadline || !read(i).Bytes?
      || |Joined(read, i)| + |read(i).bytes| > MAX_REMOTE_BYTES
    ensures forall n: nat :: !EndsAt(read, clock, deadline, n)
  {
    forall n: nat
      ensures !EndsAt(read, clock, deadline, n)
    {
      if i <= n && EndsAt(read, clock, deadline, n) {
        EndPasses(read, clock, deadline, n, i);
      }
    }
  }

  // ----- interleaved calls -----

  datatype Result = Rejected | Unknown | Accepted(promptId: string)

  /** Where a call stands. `sent` is set just before the wire is asked to post. */
  datatype Stage =
    | Fresh | Connecting | Reading | Registering(promptId: string) | Finishing(result: Result) | Done(result: Result)

  datatype Call = Call(requestId: string, stage: Stage, sent: bool)

  /** What the calls share: the reserved request ids, the accepted prompt ids, and every invocation of `post_prompt`. */
  datatype Shared = Shared(attempts: set<string>, prompts: set<string>, posted: seq<string>)

  /** What happens to a call next, with what its surroundings answer. */
  datatype Action =
    | Validate(holds: bool) | ConnectFails | Post(works: bool) | Read(promptId: Option<string>) | Register | Close(works: bool)

  const IDLE := Shared({}, {}, [])

  function Move(s: Shared, x: Call, a: Action): (Shared, Call) {
    match x.stage
    case Fresh =>
      if !a.Validate? then (s, x)
      else if !a.holds then (s, x.(stage := Done(Rejected)))
      else if x.requestId in s.attempts then (s, x.(stage := Done(Unknown)))
      else if |s.attempts| >= MAX_ATTEMPTS then (s, x.(stage := Done(Rejected)))
      else (s.(attempts := s.attempts + {x.requestId}), x.(stage := Connecting))
    case Connecting =>
      if a.ConnectFails? then (s, x.(stage := Finishing(Unknown)))
      else if a.Post? then
        (s.(posted := s.posted + [x.requestId]),
         x.(sent := true, stage := if a.works then Reading else Finishing(Unknown)))
      else (s, x)
    case Reading =>
      if !a.Read? then (s, x)
      else (s, x.(stage := if a.promptId.Some? then Registering(a.promptId.value) else Finishing(Unknown)))
    case Registering(promptId) =>
      if !a.Register? then (s, x)
      else if promptId in s.prompts then (s, x.(stage := Finishing(Unknown)))
      else (s.(prompts := s.prompts + {promptId}), x.(stage := Finishing(Accepted(promptId))))
    case Finishing(result) =>
      if !a.Close? then (s, x)
      else
        var settled := if x.sent then result else Rejected;
        (s, x.(stage := Done(if a.works then settled else Unknown)))
    case Done(_) => (s, x)
  }

  datatype System = System(shared: Shared, calls: seq<Call>)

  function Act(s: System, c: nat, a: Action): (t: System)
    requires c < |s.calls|
    ensures |t.calls| == |s.calls|
  {
    var (shared, call) := Move(s.shared, s.calls[c], a);
    System(shared, s.calls[c := call])
  }

  function Run(s: System, steps: seq<(nat, Action)>): System
    decreases |steps|
  {
    if steps == [] then s
    else
      var before := Run(s, steps[..|steps| - 1]);
      var (c, a) := steps[|steps| - 1];
      if c < |before.calls| then Act(before, c, a) else before
  }

  predicate Opening(s: System) {
    s.shared == IDLE && forall c :: 0 <= c < |s.calls| ==> s.calls[c].stage == Fresh && !s.calls[c].sent
  }

  /** The call reserved its request id. */
  predicate Reserved(x: Call) {
    x.sent || x.stage == Connecting || x.stage.Reading? || x.stage.Registering? || x.stage.Finishing?
  }

  /** The prompt id this call was granted, if any. */
  function Granted(x: Call): Option<string> {
    if x.stage.Finishing? && x.stage.result.Accepted? then Some(x.stage.result.promptId)
    else if x.stage.Done? && x.stage.result.Accepted? then Some(x.stage.result.promptId)
    else None
  }

  predicate CallInv(s: Shared, x: Call) {
    && (Reserved(x) ==> x.requestId in s.attempts)
    && (x.sent ==> x.requestId in s.posted)
    && (Granted(x).Some? ==> x.sent && Granted(x).value in s.prompts)
    && (x.stage == Fresh || x.stage == Connecting ==> !x.sent)
    && (x.stage.Reading? || x.stage.Registering? ==> x.sent)
    && (x.stage == Done(Rejected) ==> !x.sent)
    && (x.stage.Finishing? ==> x.stage.result != Rejected)
  }

  predicate Apart(x: Call, y: Call) {
    && (Reserved(x) && Reserved(y) ==> x.requestId != y.requestId)
    && (Granted(x).Some? && Granted(y).Some? ==> Granted(x) != Granted(y))
  }

  predicate SharedInv(s: Shared) {
    && |s.attempts| <= MAX_ATTEMPTS
    && (forall k :: 0 <= k < |s.posted| ==> s.posted[k] in s.attempts)
    && forall j, k :: 0 <= j < k < |s.posted| ==> s.posted[j] != s.posted[k]
  }

  ghost predicate Inv(s: System) {
    && SharedInv(s.shared)
    && (forall c :: 0 <= c < |s.calls| ==> CallInv(s.shared, s.calls[c]))
    && (forall c, d :: 0 <= c < d < |s.calls| ==> Apart(s.calls[c], s.calls[d]))
    && (forall k :: 0 <= k < |s.shared.posted| ==> Posted(s, s.shared.posted[k]))
  }

  /** Some call of this request id has posted. */
  predicate Posted(s: System, requestId: string) {
    exists c :: 0 <= c < |s.calls| && s.calls[c].requestId == requestId && s.calls[c].sent
  }

  lemma SelfStands(s: Shared, x: Call, a: Action)
    requires CallInv(s, x)
    ensures var (t, y) := Move(s, x, a);
            && CallInv(t, y) && y.requestId == x.requestId && (x.sent ==> y.sent)
            && s.attempts <= t.attempts && s.prompts <= t.prompts && s.posted <= t.posted
            && (Reserved(y) && !Reserved(x) ==> x.requestId !in s.attempts)
            && (Granted(y).Some? && Granted(y) != Granted(x) ==> Granted(y).value !in s.prompts)
            && (t.posted != s.posted ==> !x.sent && y.sent && Reserved(x) && t.posted == s.posted + [x.requestId])
            && (y.sent && !x.sent ==> t.posted == s.posted + [x.requestId])
  {
  }

  lemma OtherStands(s: Shared, t: Shared, z: Call)
    requires CallInv(s, z) && s.attempts <= t.attempts && s.prompts <= t.prompts && s.posted <= t.posted
    ensures CallInv(t, z)
  {
  }

  lemma StayApart(s: Shared, x: Call, y: Call, z: Call)
    requires Apart(x, z) && CallInv(s, z) && y.requestId == x.requestId
    requires Reserved(y) && !Reserved(x) ==> x.requestId !in s.attempts
    requires Granted(y).Some? && Granted(y) != Granted(x) ==> Granted(y).value !in s.prompts
    ensures Apart(y, z) && Apart(z, y)
  {
  }

  lemma MoveKeepsShared(s: Shared, x: Call, a: Action)
    requires SharedInv(s) && CallInv(s, x) && (Reserved(x) && !x.sent ==> x.requestId !in s.posted)
    ensures SharedInv(Move(s, x, a).0)
  {
  }

  lemma ActKeepsInv(s: System, c: nat, a: Action)
    requires Inv(s) && c < |s.calls|
    ensures Inv(Act(s, c, a))
  {
    hide Move, Reserved, Granted, SharedInv;
    var x, t := s.calls[c], Act(s, c, a);
    var y := t.calls[c];
    SelfStands(s.shared, x, a);
    NotPostedYet(s, c);
    MoveKeepsShared(s.shared, x, a);
    forall d | 0 <= d < |s.calls|
      ensures CallInv(t.shared, t.calls[d])
    {
      if d != c {
        OtherStands(s.shared, t.shared, s.calls[d]);
      }
    }
    forall d, e | 0 <= d < e < |s.calls|
      ensures Apart(t.calls[d], t.calls[e])
    {
      assert Apart(s.calls[d], s.calls[e]);
      ApartSymmetric(s.calls[d], s.calls[e]);
      if d == c {
        StayApart(s.shared, x, y, s.calls[e]);
      } else if e == c {
        StayApart(s.shared, x, y, s.calls[d]);
      }
    }
    forall k | 0 <= k < |t.shared.posted|
      ensures Posted(t, t.shared.posted[k])
    {
      if k < |s.shared.posted| {
        assert Posted(s, s.shared.posted[k]);
        var d :| 0 <= d < |s.calls| && s.calls[d].requestId == s.shared.posted[k] && s.calls[d].sent;
        assert t.calls[d].requestId == s.shared.posted[k] && t.calls[d].sent;
      } else {
        assert t.calls[c].sent && t.calls[c].requestId == x.requestId;
      }
    }
  }

  /** A call that has reserved its id and not posted: nobody else has posted it either. */
  lemma NotPostedYet(s: System, c: nat)
    requires Inv(s) && c < |s.calls|
    ensures Reserved(s.calls[c]) && !s.calls[c].sent ==> s.calls[c].requestId !in s.shared.posted
  {
    hide Reserved, Granted, CallInv, SharedInv;
    var x := s.calls[c];
    forall d | 0 <= d < |s.calls| && d != c && s.calls[d].sent && Reserved(x)
      ensures s.calls[d].requestId != x.requestId
    {
      SentIsReserved(s.calls[d]);
      assert if c < d then Apart(x, s.calls[d]) else Apart(s.calls[d], x);
    }
    assert forall k :: 0 <= k < |s.shared.posted| ==> Posted(s, s.shared.posted[k]);
  }

  lemma SentIsReserved(x: Call)
    requires x.sent
    ensures Reserved(x)
  {
  }

  lemma ApartSymmetric(x: Call, y: Call)
    requires Apart(x, y)
    ensures Apart(y, x)
  {
  }

  lemma OpeningHolds(s: System)
    requires Opening(s)
    ensures Inv(s)
  {
  }

  lemma {:induction false} RunKeepsInv(s: System, steps: seq<(nat, Action)>)
    requires Inv(s)
    ensures Inv(Run(s, steps)) && |Run(s, steps).calls| == |s.calls|
    decreases |steps|
  {
    hide Inv, Act;
    if steps != [] {
      var n := |steps| - 1;
      RunKeepsInv(s, steps[..n]);
      var (c, a) := steps[n];
      if c < |s.calls| {
        ActKeepsInv(Run(s, steps[..n]), c, a);
      }
    }
  }

  // ----- what every run shows -----

  lemma {:induction false} DistinctAreFew(ids: seq<string>, all: set<string>)
    requires (forall j, k :: 0 <= j < k < |ids| ==> ids[j] != ids[k]) && forall k :: 0 <= k < |ids| ==> ids[k] in all
    ensures |ids| <= |all|
  {
    if ids != [] {
      var n := |ids| - 1;
      DistinctAreFew(ids[..n], all - {ids[n]});
    }
  }

  /** Over all interleavings: no request id is posted twice, and at most a hundred are posted in all. */
  lemma PostedAtMostOnce(s: System, steps: seq<(nat, Action)>)
    requires Opening(s)
    ensures
      var posted := Run(s, steps).shared.posted;
      |posted| <= MAX_ATTEMPTS && forall j, k :: 0 <= j < k < |posted| ==> posted[j] != posted[k]
  {
    hide Run;
    OpeningHolds(s);
    RunKeepsInv(s, steps);
    DistinctAreFew(Run(s, steps).shared.posted, Run(s, steps).shared.attempts);
  }

  /** Accepted prompt ids are pairwise distinct, and belong to calls that posted. */
  lemma AcceptedIdsAreDistinct(s: System, steps: seq<(nat, Action)>, c: nat, d: nat)
    requires Opening(s) && c < |s.calls| && d < |s.calls|
    ensures |Run(s, steps).calls| == |s.calls|
    ensures
      var (x, y) := (Run(s, steps).calls[c], Run(s, steps).calls[d]);
      x.stage.Done? && x.stage.result.Accepted? ==>
        && x.sent && x.requestId in Run(s, steps).shared.posted
        && (c != d && y.stage.Done? && y.stage.result.Accepted? ==> x.stage.result.promptId != y.stage.result.promptId)
  {
    hide Run;
    OpeningHolds(s);
    RunKeepsInv(s, steps);
    var t := Run(s, steps);
    assert CallInv(t.shared, t.calls[c]);
    if c != d {
      assert if c < d then Apart(t.calls[c], t.calls[d]) else Apart(t.calls[d], t.calls[c]);
    }
  }

  /** Only a call that never asked the wire to post is answered `rejected_before_submission`. */
  lemma RejectedNeverPosted(s: System, steps: seq<(nat, Action)>, c: nat)
    requires Opening(s) && c < |s.calls|
    ensures |Run(s, steps).calls| == |s.calls|
    ensures Run(s, steps).calls[c].stage == Done(Rejected) ==> !Run(s, steps).calls[c].sent
  {
    hide Run;
    OpeningHolds(s);
    RunKeepsInv(s, steps);
    assert CallInv(Run(s, steps).shared, Run(s, steps).calls[c]);
  }

  /** Step `k` of the run is the first of a call that goes on: it reserves this request id. */
  predicate ReservedAt(s: System, steps: seq<(nat, Action)>, k: nat, requestId: string) {
    && k < |steps|
    && var before := Run(s, steps[..k]);
    var c := steps[k].0;
    && c < |before.calls| && before.calls[c].requestId == requestId && before.calls[c].stage == Fresh
    && Run(s, steps[..k + 1]).calls == before.calls[c := before.calls[c].(stage := Connecting)]
  }

  lemma RunNext(s: System, steps: seq<(nat, Action)>, k: nat)
    requires k < |steps|
    ensures var before := Run(s, steps[..k]);
            var (c, a) := steps[k];
            Run(s, steps[..k + 1]) == if c < |before.calls| then Act(before, c, a) else before
  {
    assert steps[..k + 1][..k] == steps[..k];
  }

  lemma MoveReserves(s: Shared, x: Call, a: Action)
    ensures var (t, y) := Move(s, x, a);
            if x.stage == Fresh && y.stage == Connecting then
              t.attempts == s.attempts + {x.requestId} && y == x.(stage := Connecting)
            else t.attempts == s.attempts
  {
  }

  /** The ids the transport holds as attempted are exactly those that some call of the run has reserved. */
  lemma {:induction false} AttemptedExactly(s: System, steps: seq<(nat, Action)>, n: nat, requestId: string)
    requires Opening(s) && n <= |steps|
    ensures requestId in Run(s, steps[..n]).shared.attempts
            <==> exists k: nat :: k < n && ReservedAt(s, steps, k, requestId)
  {
    hide Move, Opening, Run;
    if n == 0 {
      OpeningIsIdle(s, steps);
    } else {
      AttemptedExactly(s, steps, n - 1, requestId);
      RunNext(s, steps, n - 1);
      var before := Run(s, steps[..n - 1]);
      var (c, a) := steps[n - 1];
      if c < |before.calls| {
        MoveReserves(before.shared, before.calls[c], a);
        var after := Act(before, c, a);
        assert after.calls[c] == Move(before.shared, before.calls[c], a).1;
        assert ReservedAt(s, steps, n - 1, requestId) ==> after.calls[c] == before.calls[c].(stage := Connecting);
        assert ReservedAt(s, steps, n - 1, requestId)
          <==> before.calls[c].requestId == requestId && before.calls[c].stage == Fresh && after.calls[c].stage == Connecting;
      }
      assert requestId in Run(s, steps[..n]).shared.attempts
        <==> requestId in before.shared.attempts || ReservedAt(s, steps, n - 1, requestId);
    }
  }

  lemma OpeningIsIdle(s: System, steps: seq<(nat, Action)>)
    requires Opening(s)
    ensures Run(s, steps[..0]).shared.attempts == {}
  {
  }

  /** How a call starts, over all interleavings: a request that does not hold is rejected; one whose id was ever attempted
      is answered unknown; a new id goes on while fewer than a hundred were attempted, and is rejected otherwise. */
  lemma StartsExactly(s: System, steps: seq<(nat, Action)>, k: nat, c: nat, holds: bool)
    requires Opening(s) && k < |steps| && steps[k] == (c, Validate(holds))
    requires c < |Run(s, steps[..k]).calls| && Run(s, steps[..k]).calls[c].stage == Fresh
    ensures |Run(s, steps[..k + 1]).calls| == |Run(s, steps[..k]).calls|
    ensures
      var before := Run(s, steps[..k]);
      var attempted := exists j: nat :: j < k && ReservedAt(s, steps, j, before.calls[c].requestId);
      Run(s, steps[..k + 1]).calls[c].stage
      == if !holds then Done(Rejected)
         else if attempted then Done(Unknown)
         else if |before.shared.attempts| < 100 then Connecting
         else Done(Rejected)
  {
    AttemptedExactly(s, steps, k, Run(s, steps[..k]).calls[c].requestId);
    RunNext(s, steps, k);
    hide Opening, Run, ReservedAt;
  }

  // ----- one call on the transport -----

  /** What the frozen request, the wire and the decoder do in one call. */
  datatype Wire = Wire(
    requestHolds: bool, connects: bool, posts: bool, statusFits: bool, read: nat -> Chunk, clock: Clock, deadline: int,
    finishes: bool, decode: Body -> Option<string>, closes: bool)

  /** A call that nobody interrupts, as its own steps. */
  function Served(s: Shared, requestId: string, wire: Wire, promptId: Option<string>): (Shared, Call) {
    var (s1, x1) := Move(s, Call(requestId, Fresh, false), Validate(wire.requestHolds));
    var (s2, x2) := Move(s1, x1, if wire.connects then Post(wire.posts) else ConnectFails);
    var (s3, x3) := Move(s2, x2, Read(promptId));
    var (s4, x4) := Move(s3, x3, Register);
    Move(s4, x4, Close(wire.closes))
  }

  /** The prompt id the response carries: a complete body in time, framed and decoded. */
  ghost predicate Carries(wire: Wire, promptId: string) {
    && wire.statusFits && wire.finishes
    && exists n: nat :: EndsAt(wire.read, wire.clock, wire.deadline, n) && wire.decode(Joined(wire.read, n)) == Some(promptId)
  }

  class PromptHTTPSubmissionTransport {
    var attempts: set<string>
    var prompts: set<string>
    ghost var posted: seq<string>

    ghost function State(): Shared
      reads this
    {
      Shared(attempts, prompts, posted)
    }

    constructor ()
      ensures State() == IDLE
    {
      attempts, prompts, posted := {}, {}, [];
    }

    /** Read and decode the response; nothing of a refused body is kept. */
    method ReadPromptId(wire: Wire) returns (promptId: Option<string>)
      ensures promptId.Some? ==> Carries(wire, promptId.value)
      ensures forall p :: Carries(wire, p) ==> promptId == Some(p)
    {
      if !wire.statusFits {
        return None;
      }
      var outcome := ReadBody(wire.read, wire.clock, wire.deadline);
      if !outcome.Complete? || !wire.finishes {
        return None;
      }
      promptId := wire.decode(outcome.body);
      OneEnd(wire, outcome.body);
    }

    /** One submission: the request id is reserved before anything is sent, and the prompt id is registered before the
        result is accepted. */
    method Submit(requestId: string, wire: Wire) returns (r: Result, ghost sent: bool)
      requires SharedInv(State())
      modifies this
      ensures SharedInv(State())
      ensures exists promptId: Option<string> ::
                && (promptId.Some? ==> Carries(wire, promptId.value))
                && (promptId.None? ==> forall p :: !Carries(wire, p))
                && Served(old(State()), requestId, wire, promptId) == (State(), Call(requestId, Done(r), sent))
      ensures posted == old(posted) + (if sent then [requestId] else [])
      ensures sent <==> wire.requestHolds && requestId !in old(attempts) && |old(attempts)| < MAX_ATTEMPTS && wire.connects
      ensures r == Rejected ==> !sent
      ensures r == Rejected
              <==> !wire.requestHolds
                   || (requestId !in old(attempts)
                       && (|old(attempts)| >= MAX_ATTEMPTS || (!wire.connects && wire.closes)))
      ensures attempts == old(attempts)
                          + (if wire.requestHolds && |old(attempts)| < MAX_ATTEMPTS then {requestId} else {})
      ensures forall p :: p in prompts <==> p in old(prompts) || (sent && wire.posts && Carries(wire, p))
      ensures forall p :: r == Accepted(p) <==>
                sent && wire.posts && Carries(wire, p) && p !in old(prompts) && wire.closes && p in prompts
    {
      hide EndsAt, Joined, Carries, Served;
      ghost var before := State();
      sent := false;
      ghost var carried := Carried(wire);
      OneCarried(wire);
      if !wire.requestHolds {
        r := Rejected;
      } else if requestId in attempts {
        r := Unknown;
      } else if |attempts| >= MAX_ATTEMPTS {
        r := Rejected;
      } else {
        attempts := attempts + {requestId};
        r := Unknown;
        if wire.connects {
          sent, posted := true, posted + [requestId];
          if wire.posts {
            var promptId := ReadPromptId(wire);
            carried := promptId;
            if promptId.Some? && promptId.value !in prompts {
              prompts := prompts + {promptId.value};
              r := Accepted(promptId.value);
            }
          }
        } else {
          r := Rejected;
        }
        if !wire.closes {
          r := Unknown;
        }
      }
      ServedIs(before, requestId, wire, carried);
    }
  }

  /** A call that nobody interrupts, case by case. */
  lemma ServedIs(s: Shared, requestId: string, wire: Wire, promptId: Option<string>)
    ensures
      Served(s, requestId, wire, promptId)
      == if !wire.requestHolds then (s, Call(requestId, Done(Rejected), false))
         else if requestId in s.attempts then (s, Call(requestId, Done(Unknown), false))
         else if |s.attempts| >= MAX_ATTEMPTS then (s, Call(requestId, Done(Rejected), false))
         else
           var attempts := s.attempts + {requestId};
           var posted := if wire.connects then s.posted + [requestId] else s.posted;
           var registers := wire.connects && wire.posts && promptId.Some? && promptId.value !in s.prompts;
           (Shared(attempts, if registers then s.prompts + {promptId.value} else s.prompts, posted),
            Call(requestId,
                 Done(if !wire.closes then Unknown else if !wire.connects then Rejected
                      else if registers then Accepted(promptId.value) else Unknown),
                 wire.connects))
  {
  }

  lemma OneCarried(wire: Wire)
    ensures forall p, q :: Carries(wire, p) && Carries(wire, q) ==> p == q
  {
    forall p, q | Carries(wire, p) && Carries(wire, q)
      ensures p == q
    {
      var n: nat :| EndsAt(wire.read, wire.clock, wire.deadline, n) && wire.decode(Joined(wire.read, n)) == Some(p);
      OneEnd(wire, Joined(wire.read, n));
    }
  }

  lemma OneEnd(wire: Wire, body: Body)
    requires exists n: nat :: EndsAt(wire.read, wire.clock, wire.deadline, n) && body == Joined(wire.read, n)
    ensures forall n: nat :: EndsAt(wire.read, wire.clock, wire.deadline, n) ==> Joined(wire.read, n) == body
  {
    var m: nat :| EndsAt(wire.read, wire.clock, wire.deadline, m) && body == Joined(wire.read, m);
    forall n: nat | EndsAt(wire.read, wire.clock, wire.deadline, n)
      ensures n == m
    {
    }
  }

  /** What a response carries, as far as it carries anything. */
  ghost function Carried(wire: Wire): (promptId: Option<string>)
    ensures promptId.Some? ==> Carries(wire, promptId.value)
    ensures promptId.None? ==> forall p :: !Carries(wire, p)
  {
    if exists p :: Carries(wire, p) then
      var p :| Carries(wire, p);
      Some(p)
    else None
  }
}
