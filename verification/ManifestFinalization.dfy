/** The request loop of a generation manifest: all runs of all targets, or none. */
module ManifestFinalization {
  import opened CapacityTypes
  import opened SeedFinalization

  /** One planned request, with its own copy of the target's workflow. */
  datatype RequestPlan = RequestPlan(requestId: string, target: string, runIndex: int, workflow: seq<WorkflowNode>)

  datatype FinalizedRequest = FinalizedRequest(
    requestId: string, target: string, index: nat, runIndex: int, workflow: seq<WorkflowNode>, provenance: seq<Provenance>)

  datatype RequestRow = RequestRow(
    index: nat, target: string, runIndex: int, certified: bool, seeds: seq<nat>, blocker: Option<Code>)

  datatype Finalization = Finalization(manifest: Option<seq<FinalizedRequest>>, rows: seq<RequestRow>, failures: map<string, Code>)

  const MAX_PARAMETERS := 100

  /** Sizes of what is encoded, and how many parameter rows one node has, unless one is unsupported. */
  datatype Encoder = Encoder(
    workflowBytes: seq<WorkflowNode> -> nat, provenanceBytes: seq<Provenance> -> nat,
    parameters: WorkflowNode -> Option<nat>,
    payloadBytes: seq<FinalizedRequest> -> nat, projectionBytes: (seq<RequestRow>, map<string, Code>) -> nat)

  /** Sizes of the host's generation options and of the whole preflight. */
  datatype Host = Host(optionBytes: nat, preflightBytes: nat)

  /** Exceptions that are no blocker: they leave the whole call. */
  predicate Uncaught(code: Code) { code in {MissingInputs, MissingClass, BindingRaised} }

  function Runs(target: string, n: nat): seq<(string, int)> { if n == 0 then [] else Runs(target, n - 1) + [(target, n)] }

  /** Every target in order, and every run of it in order. */
  function Expected(targets: seq<string>, runs: nat): seq<(string, int)> {
    if targets == [] then [] else Expected(targets[..|targets| - 1], runs) + Runs(targets[|targets| - 1], runs)
  }

  predicate Distinct<T(==)>(s: seq<T>) { forall i, j :: 0 <= i < j < |s| ==> s[i] != s[j] }

  function RequestIds(requests: seq<RequestPlan>): seq<string> {
    seq(|requests|, i requires 0 <= i < |requests| => requests[i].requestId)
  }

  function Order(requests: seq<RequestPlan>): seq<(string, int)> {
    seq(|requests|, i requires 0 <= i < |requests| => (requests[i].target, requests[i].runIndex))
  }

  /** Why a plan is refused before any seed is drawn. */
  function PlanRefusal(requests: seq<RequestPlan>, targets: seq<string>, runCount: int): Option<Code> {
    if !(1 <= |requests| <= MAX_REQUESTS) || !(1 <= |targets| <= MAX_REQUESTS) || !(1 <= runCount <= 5)
       || !Distinct(targets) then Some(RequestLimit)
    else if Order(requests) != Expected(targets, runCount) then Some(IncompleteTargetCoverage)
    else if !Distinct(RequestIds(requests)) then Some(AmbiguousRequestIdentity)
    else None
  }

  lemma {:induction false} RunsAt(target: string, n: nat)
    ensures |Runs(target, n)| == n && forall i :: 0 <= i < n ==> Runs(target, n)[i] == (target, i + 1)
  {
    if n > 0 {
      RunsAt(target, n - 1);
    }
  }

  function Times(n: nat, runs: nat): nat { n * runs }

  lemma TimesNext(n: nat, runs: nat)
    ensures Times(0, runs) == 0 && Times(n + 1, runs) == Times(n, runs) + runs
  {
  }

  lemma {:induction false} TimesGrows(n: nat, m: nat, runs: nat)
    requires n <= m
    ensures Times(n, runs) <= Times(m, runs)
    decreases m
  {
    if n < m {
      TimesNext(m - 1, runs);
      TimesGrows(n, m - 1, runs);
    }
  }

  /** The runs of one target stand together, in order. */
  lemma {:induction false} ExpectedBlock(targets: seq<string>, runs: nat, i: nat, j: nat)
    ensures |Expected(targets, runs)| == Times(|targets|, runs)
    ensures i < |targets| && j < runs ==>
              && Times(i, runs) + j < |Expected(targets, runs)|
              && Expected(targets, runs)[Times(i, runs) + j] == (targets[i], j + 1)
  {
    hide Times;
    TimesNext(0, runs);
    if targets != [] {
      var n := |targets| - 1;
      ExpectedBlock(targets[..n], runs, i, j);
      RunsAt(targets[n], runs);
      TimesNext(n, runs);
      assert Expected(targets, runs) == Expected(targets[..n], runs) + Runs(targets[n], runs);
      if i < n {
        TimesNext(i, runs);
        TimesGrows(i + 1, n, runs);
      }
    }
  }

  /** Place `k` of the expected order is run `k % runs + 1` of target `k / runs`. */
  lemma ExpectedAt(targets: seq<string>, runs: nat, k: nat)
    requires runs > 0
    ensures |Expected(targets, runs)| == |targets| * runs
    ensures k < |targets| * runs ==> k / runs < |targets| && Expected(targets, runs)[k] == (targets[k / runs], k % runs + 1)
  {
    ExpectedBlock(targets, runs, k / runs, k % runs);
    assert k == Times(k / runs, runs) + k % runs;
    if |targets| <= k / runs {
      TimesGrows(|targets|, k / runs, runs);
    }
    hide Expected;
  }

  /** A plan is taken on exactly if it has at most a hundred requests, of at most a hundred targets, each once, and one to
      five runs: request `k` is run `k % runs + 1` of target `k / runs`, and no two requests share an id. */
  lemma PlanExactly(requests: seq<RequestPlan>, targets: seq<string>, runCount: int)
    ensures PlanRefusal(requests, targets, runCount).None? <==>
              && 1 <= |requests| <= 100 && 1 <= |targets| <= 100 && 1 <= runCount <= 5
              && |requests| == |targets| * runCount
              && (forall i, j :: 0 <= i < j < |targets| ==> targets[i] != targets[j])
              && (forall i, j :: 0 <= i < j < |requests| ==> requests[i].requestId != requests[j].requestId)
              && forall k :: 0 <= k < |requests| ==> PlannedAt(requests, targets, runCount, k)
  {
    if 1 <= runCount {
      ExpectedAt(targets, runCount, 0);
      forall k: nat | k < |requests| && |requests| == |targets| * runCount
        ensures PlannedAt(requests, targets, runCount, k) <==> Order(requests)[k] == Expected(targets, runCount)[k]
      {
        ExpectedAt(targets, runCount, k);
      }
      hide Expected, PlannedAt;
      IdsDistinct(requests);
      hide RequestIds;
      assert (forall k :: 0 <= k < |requests| ==> PlannedAt(requests, targets, runCount, k)) && |requests| == |targets| * runCount
        <==> Order(requests) == Expected(targets, runCount);
    }
  }

  predicate PlannedAt(requests: seq<RequestPlan>, targets: seq<string>, runCount: int, k: nat)
    requires k < |requests|
  {
    && 1 <= runCount && k / runCount < |targets|
    && requests[k].target == targets[k / runCount] && requests[k].runIndex == k % runCount + 1
  }

  lemma IdsDistinct(requests: seq<RequestPlan>)
    ensures Distinct(RequestIds(requests))
            <==> forall i, j :: 0 <= i < j < |requests| ==> requests[i].requestId != requests[j].requestId
  {
    var ids := RequestIds(requests);
    if Distinct(ids) {
      forall i, j | 0 <= i < j < |requests|
        ensures requests[i].requestId != requests[j].requestId
      {
        assert ids[i] != ids[j];
      }
    }
  }

  function Values(rows: seq<Provenance>): seq<nat> { seq(|rows|, i requires 0 <= i < |rows| => rows[i].value) }

  // ----- the parameters of a workflow -----

  /** The parameter rows of the first `n` nodes, or what stops counting them. */
  function ParametersTo(encoder: Encoder, nodes: seq<WorkflowNode>, n: nat): Outcome<nat>
    requires n <= |nodes|
  {
    if n == 0 then Ok(0)
    else
      var before := ParametersTo(encoder, nodes, n - 1);
      if before.Failed? then before
      else if nodes[n - 1].classType.None? then Failed(MissingClass)
      else
        match encoder.parameters(nodes[n - 1])
        case Some(rows) => if before.value + rows <= MAX_PARAMETERS then Ok(before.value + rows) else Failed(ParameterFailed)
        case None => Failed(ParameterFailed)
  }

  function Parameters(encoder: Encoder, nodes: seq<WorkflowNode>): Outcome<nat> { ParametersTo(encoder, nodes, |nodes|) }

  /** The parameter rows of the first `n` nodes, as far as they have any. */
  function RowsOf(encoder: Encoder, nodes: seq<WorkflowNode>, n: nat): nat
    requires n <= |nodes|
  {
    if n == 0 then 0
    else
      RowsOf(encoder, nodes, n - 1)
      + (if encoder.parameters(nodes[n - 1]).Some? then encoder.parameters(nodes[n - 1]).value else 0)
  }

  /** The first `n` nodes have their class names, and supported parameters, a hundred at most. */
  predicate InOrder(encoder: Encoder, nodes: seq<WorkflowNode>, n: nat)
    requires n <= |nodes|
  {
    && (forall i :: 0 <= i < n ==> nodes[i].classType.Some? && encoder.parameters(nodes[i]).Some?)
    && RowsOf(encoder, nodes, n) <= MAX_PARAMETERS
  }

  lemma {:induction false} InOrderExactly(encoder: Encoder, nodes: seq<WorkflowNode>, n: nat)
    requires n <= |nodes|
    ensures ParametersTo(encoder, nodes, n).Ok? <==> InOrder(encoder, nodes, n)
    ensures InOrder(encoder, nodes, n) ==> ParametersTo(encoder, nodes, n) == Ok(RowsOf(encoder, nodes, n))
  {
    if n > 0 {
      InOrderExactly(encoder, nodes, n - 1);
    }
  }

  /** Some node has no class name, and the nodes before it are in order. */
  ghost predicate ClassMissing(encoder: Encoder, nodes: seq<WorkflowNode>) {
    exists i :: 0 <= i < |nodes| && nodes[i].classType.None? && InOrder(encoder, nodes, i)
  }

  /** The nodes before some node are in order, it has a class name, and it has an unsupported parameter or one too many. */
  ghost predicate ParameterRefused(encoder: Encoder, nodes: seq<WorkflowNode>) {
    exists i :: 0 <= i < |nodes| && nodes[i].classType.Some? && InOrder(encoder, nodes, i) && !InOrder(encoder, nodes, i + 1)
  }

  lemma {:induction false} ParametersStop(encoder: Encoder, nodes: seq<WorkflowNode>, n: nat)
    requires n <= |nodes| && ParametersTo(encoder, nodes, n).Failed?
    ensures Parameters(encoder, nodes) == ParametersTo(encoder, nodes, n)
    decreases |nodes| - n
  {
    if n < |nodes| {
      ParametersStop(encoder, nodes, n + 1);
    }
  }

  lemma {:induction false} ParametersStopAt(encoder: Encoder, nodes: seq<WorkflowNode>, n: nat)
    requires n <= |nodes| && ParametersTo(encoder, nodes, n).Failed?
    ensures ParametersTo(encoder, nodes, n).code == MissingClass ==> ClassMissing(encoder, nodes)
    ensures ParametersTo(encoder, nodes, n).code != MissingClass ==>
              ParametersTo(encoder, nodes, n).code == ParameterFailed && ParameterRefused(encoder, nodes)
  {
    InOrderExactly(encoder, nodes, n - 1);
    InOrderExactly(encoder, nodes, n);
    hide InOrder;
    if ParametersTo(encoder, nodes, n - 1).Failed? {
      ParametersStopAt(encoder, nodes, n - 1);
    } else if nodes[n - 1].classType.None? {
      assert InOrder(encoder, nodes, n - 1);
    } else {
      assert InOrder(encoder, nodes, n - 1) && !InOrder(encoder, nodes, n - 1 + 1);
    }
  }

  /** Reading the parameters raises exactly at a node without a class name that it reaches, and is refused exactly at
      one whose parameters are. */
  lemma ParametersMean(encoder: Encoder, nodes: seq<WorkflowNode>)
    ensures Parameters(encoder, nodes) == Failed(MissingClass) <==> ClassMissing(encoder, nodes)
    ensures Parameters(encoder, nodes) == Failed(ParameterFailed) <==> ParameterRefused(encoder, nodes)
    ensures Parameters(encoder, nodes).Failed? ==> Parameters(encoder, nodes).code in {MissingClass, ParameterFailed}
  {
    MissingStops(encoder, nodes);
    RefusedStops(encoder, nodes);
    hide ClassMissing, ParameterRefused;
    if Parameters(encoder, nodes).Failed? {
      ParametersStopAt(encoder, nodes, |nodes|);
    }
  }

  lemma MissingStops(encoder: Encoder, nodes: seq<WorkflowNode>)
    ensures ClassMissing(encoder, nodes) ==> Parameters(encoder, nodes) == Failed(MissingClass)
  {
    hide ParametersTo, Parameters, InOrder;
    if ClassMissing(encoder, nodes) {
      var i :| 0 <= i < |nodes| && nodes[i].classType.None? && InOrder(encoder, nodes, i);
      StopsAt(encoder, nodes, i);
    }
  }

  lemma RefusedStops(encoder: Encoder, nodes: seq<WorkflowNode>)
    ensures ParameterRefused(encoder, nodes) ==> Parameters(encoder, nodes) == Failed(ParameterFailed)
  {
    hide ParametersTo, Parameters, InOrder;
    if ParameterRefused(encoder, nodes) {
      var i :| 0 <= i < |nodes| && nodes[i].classType.Some? && InOrder(encoder, nodes, i) && !InOrder(encoder, nodes, i + 1);
      StopsAt(encoder, nodes, i);
    }
  }

  lemma StopsAt(encoder: Encoder, nodes: seq<WorkflowNode>, i: nat)
    requires i < |nodes| && InOrder(encoder, nodes, i)
    ensures nodes[i].classType.None? ==> Parameters(encoder, nodes) == Failed(MissingClass)
    ensures nodes[i].classType.Some? && !InOrder(encoder, nodes, i + 1) ==> Parameters(encoder, nodes) == Failed(ParameterFailed)
  {
    InOrderExactly(encoder, nodes, i);
    InOrderExactly(encoder, nodes, i + 1);
    hide InOrder;
    if ParametersTo(encoder, nodes, i + 1).Failed? {
      ParametersStop(encoder, nodes, i + 1);
    }
  }

  /** Walk the nodes for their parameters. */
  method ReadParameters(encoder: Encoder, nodes: seq<WorkflowNode>) returns (r: Outcome<nat>)
    ensures r == Parameters(encoder, nodes)
    ensures r == Failed(MissingClass) <==> ClassMissing(encoder, nodes)
    ensures r == Failed(ParameterFailed) <==> ParameterRefused(encoder, nodes)
    ensures r.Ok? <==> InOrder(encoder, nodes, |nodes|)
  {
    ParametersMean(encoder, nodes);
    InOrderExactly(encoder, nodes, |nodes|);
    hide ClassMissing, ParameterRefused, InOrder;
    var rows := 0;
    for i := 0 to |nodes|
      invariant ParametersTo(encoder, nodes, i) == Ok(rows)
    {
      if nodes[i].classType.None? {
        ParametersStop(encoder, nodes, i + 1);
        return Failed(MissingClass);
      }
      var more := encoder.parameters(nodes[i]);
      if more.None? || rows + more.value > MAX_PARAMETERS {
        ParametersStop(encoder, nodes, i + 1);
        return Failed(ParameterFailed);
      }
      rows := rows + more.value;
    }
    r := Ok(rows);
  }

  // ----- what the loop over the requests computes -----

  /** The loop's variables: the seed pool, the bytes so far, the blocker of each failed target, and the exception that
      no handler caught, if there was one. */
  datatype Loop = Loop(used: set<nat>, drawn: nat, total: nat, failures: map<string, Code>, crashed: Option<Code>)

  /** The request's workflow with its seeds, from where the pool stands. */
  ghost function Seeded(plan: RequestPlan, policy: Policy, draw: nat -> Number, l: Loop): Progress {
    Finalized(plan.workflow, policy, draw, l.used, l.drawn)
  }

  /** Why the request fails here, if it does: the checks in their order. */
  ghost function Fate(plan: RequestPlan, policy: Policy, draw: nat -> Number, encoder: Encoder, l: Loop): Option<Code> {
    var p := Seeded(plan, policy, draw, l);
    var bytes, rows := encoder.workflowBytes(p.nodes), encoder.provenanceBytes(p.rows);
    if p.failed.Some? then p.failed
    else if Parameters(encoder, p.nodes).Failed? then Some(Parameters(encoder, p.nodes).code)
    else if bytes > MAX_MANIFEST_BYTES then Some(ManifestLimit)
    else if bytes > MAX_WORKFLOW_BYTES then Some(WorkflowLimit)
    else if rows > MAX_MANIFEST_BYTES then Some(ManifestLimit)
    else if l.total + bytes + rows > MAX_AGGREGATE_BYTES then Some(AggregateLimit)
    else None
  }

  /** One round of the loop. */
  ghost function Next(plan: RequestPlan, policy: Policy, draw: nat -> Number, encoder: Encoder, l: Loop): Loop {
    var p := Seeded(plan, policy, draw, l);
    var fate := Fate(plan, policy, draw, encoder, l);
    var counted := fate.None? || fate.value == AggregateLimit;
    var more := encoder.workflowBytes(p.nodes) + encoder.provenanceBytes(p.rows);
    if l.crashed.Some? || plan.target in l.failures then l
    else
      Loop(p.used, p.drawn, if counted then l.total + more else l.total,
           if fate.Some? && !Uncaught(fate.value) then l.failures[plan.target := fate.value] else l.failures,
           if fate.Some? && Uncaught(fate.value) then fate else None)
  }

  /** The loop before request `n`. */
  ghost function LoopAt(requests: seq<RequestPlan>, n: nat, policy: Policy, draw: nat -> Number, encoder: Encoder,
                        first: Loop): Loop
    requires n <= |requests|
  {
    if n == 0 then first
    else Next(requests[n - 1], policy, draw, encoder, LoopAt(requests, n - 1, policy, draw, encoder, first))
  }

  /** A request that is frozen: seeds that can be finalised at the draw the loop has come to, parameters and a workflow
      that fit, and room in the aggregate. */
  ghost predicate Admissible(plan: RequestPlan, policy: Policy, draw: nat -> Number, encoder: Encoder, l: Loop) {
    var p := Seeded(plan, policy, draw, l);
    var bytes, rows := encoder.workflowBytes(p.nodes), encoder.provenanceBytes(p.rows);
    && Finalizable(plan.workflow, policy, draw, l.drawn) && Parameters(encoder, p.nodes).Ok?
    && bytes <= MAX_WORKFLOW_BYTES && rows <= MAX_MANIFEST_BYTES && l.total + bytes + rows <= MAX_AGGREGATE_BYTES
  }

  /** The ground of each code, where the loop stood. */
  ghost predicate Grounds(plan: RequestPlan, policy: Policy, draw: nat -> Number, encoder: Encoder, l: Loop, code: Code) {
    var p := Seeded(plan, policy, draw, l);
    var bytes, rows := encoder.workflowBytes(p.nodes), encoder.provenanceBytes(p.rows);
    var seeded := Finalizable(plan.workflow, policy, draw, l.drawn);
    match code
    case ParameterFailed => seeded && ParameterRefused(encoder, p.nodes)
    case MissingClass => seeded && ClassMissing(encoder, p.nodes)
    case ManifestLimit =>
      seeded && Parameters(encoder, p.nodes).Ok? && (bytes > MAX_MANIFEST_BYTES || rows > MAX_MANIFEST_BYTES)
    case WorkflowLimit => seeded && Parameters(encoder, p.nodes).Ok? && MAX_WORKFLOW_BYTES < bytes <= MAX_MANIFEST_BYTES
    case AggregateLimit =>
      && seeded && Parameters(encoder, p.nodes).Ok? && bytes <= MAX_WORKFLOW_BYTES
      && l.total + bytes + rows > MAX_AGGREGATE_BYTES
    case _ => SeedGrounds(plan.workflow, policy, draw, l.drawn, code)
  }

  /** A request fails exactly when it is not admissible, and its code has its ground. */
  lemma FateMeans(plan: RequestPlan, policy: Policy, draw: nat -> Number, encoder: Encoder, l: Loop)
    requires |l.used| + MAX_SEEDS + 1 < SEEDS
    ensures Fate(plan, policy, draw, encoder, l).None? <==> Admissible(plan, policy, draw, encoder, l)
    ensures Fate(plan, policy, draw, encoder, l).Some? ==>
              Grounds(plan, policy, draw, encoder, l, Fate(plan, policy, draw, encoder, l).value)
  {
    hide Finalizable, Finalized, Done, Chosen, UsedBefore, ClassMissing, ParameterRefused, Parameters, SeedGrounds;
    FinalizedMeans(plan.workflow, policy, draw, l.used, l.drawn);
    SeedCodes(plan.workflow, policy, draw, l.drawn);
    ParametersMean(encoder, Seeded(plan, policy, draw, l).nodes);
  }

  /** The request raises here: it has a node without inputs after at most a hundred usable seeds, or its seeds can be
      finalised and it has a node without a class name after acceptable parameters. */
  ghost predicate RaisesAt(plan: RequestPlan, policy: Policy, draw: nat -> Number, encoder: Encoder, l: Loop) {
    || InputsMissing(plan.workflow, policy, draw, l.drawn)
    || (Finalizable(plan.workflow, policy, draw, l.drawn) && ClassMissing(encoder, Seeded(plan, policy, draw, l).nodes))
  }

  lemma FateRaises(plan: RequestPlan, policy: Policy, draw: nat -> Number, encoder: Encoder, l: Loop)
    requires |l.used| + MAX_SEEDS + 1 < SEEDS
    ensures (exists code :: Fate(plan, policy, draw, encoder, l) == Some(code) && Uncaught(code))
            <==> RaisesAt(plan, policy, draw, encoder, l)
  {
    hide Finalizable, Finalized, Done, Chosen, UsedBefore, ClassMissing, ParameterRefused, Parameters, SeedGrounds,
      InputsMissing;
    FinalizedMeans(plan.workflow, policy, draw, l.used, l.drawn);
    RaisesExactly(plan.workflow, policy, draw, l.used, l.drawn);
    SeedCodes(plan.workflow, policy, draw, l.drawn);
    ParametersMean(encoder, Seeded(plan, policy, draw, l).nodes);
  }

  lemma SeedCodes(nodes: seq<WorkflowNode>, policy: Policy, draw: nat -> Number, drawn: nat)
    ensures forall code :: SeedGrounds(nodes, policy, draw, drawn, code) ==>
              code in {UnsupportedSeedValue, SeedReviewLimit, SeedBindingMissing, MissingInputs}
  {
  }

  // ----- what a frozen request holds -----

  /** The seed values of the requests before `k`. */
  ghost function ValuesBefore(frozen: seq<FinalizedRequest>, k: nat): set<nat>
    requires k <= |frozen|
  {
    if k == 0 then {} else UsedBefore(ValuesBefore(frozen, k - 1), frozen[k - 1].provenance, |frozen[k - 1].provenance|)
  }

  /** How many seeds the requests before `k` have. */
  function SeedsBefore(frozen: seq<FinalizedRequest>, k: nat): nat
    requires k <= |frozen|
  {
    if k == 0 then 0 else SeedsBefore(frozen, k - 1) + |frozen[k - 1].provenance|
  }

  /** A frozen request carries its plan's identity and its plan's workflow with every seed finalised: the original under
      the one policy; under the other the first value, in cyclic order from the seed's own draw, that no earlier seed of
      the manifest holds, the draws being taken in order. */
  ghost predicate Freezes(plan: RequestPlan, k: nat, f: FinalizedRequest, policy: Policy, draw: nat -> Number,
                          used: set<nat>, drawn: nat)
  {
    && f.requestId == plan.requestId && f.target == plan.target && f.runIndex == plan.runIndex && f.index == k
    && Done(plan.workflow, f.workflow, Place(|plan.workflow|, 0), f.provenance) && 1 <= |f.provenance| <= MAX_SEEDS
    && Chosen(policy, draw, used, drawn, f.provenance)
    && forall j :: 0 <= j < |f.provenance| ==> f.provenance[j].value <= MAX_SEED
  }

  ghost predicate FreezesAt(requests: seq<RequestPlan>, k: nat, frozen: seq<FinalizedRequest>, policy: Policy,
                            draw: nat -> Number)
    requires k < |frozen| <= |requests|
  {
    if policy == RandomU64 then
      Freezes(requests[k], k, frozen[k], policy, draw, ValuesBefore(frozen, k), SeedsBefore(frozen, k))
    else Freezes(requests[k], k, frozen[k], policy, draw, {}, 0)
  }

  /** No seed value occurs twice, within a request or across requests. */
  ghost predicate SeedsDistinct(frozen: seq<FinalizedRequest>) {
    forall k, l, i, j :: 0 <= k < |frozen| && 0 <= l < |frozen| && 0 <= i < |frozen[k].provenance|
                         && 0 <= j < |frozen[l].provenance| && (k != l || i != j) ==>
      frozen[k].provenance[i].value != frozen[l].provenance[j].value
  }

  lemma ChosenInRange(before: seq<WorkflowNode>, after: seq<WorkflowNode>, policy: Policy, draw: nat -> Number,
                      used: set<nat>, drawn: nat, rows: seq<Provenance>)
    requires Done(before, after, Place(|before|, 0), rows) && Chosen(policy, draw, used, drawn, rows)
    ensures forall j :: 0 <= j < |rows| ==> rows[j].value <= MAX_SEED
  {
    hide UsedBefore, SameButSeeds, Places;
    forall j | 0 <= j < |rows|
      ensures rows[j].value <= MAX_SEED
    {
      assert ChosenAt(policy, draw, used, drawn, rows, j);
      assert Describes(before, after, AllPlaces(before)[j], rows[j]);
    }
  }

  lemma {:induction false} ValuesOfPrefix(frozen: seq<FinalizedRequest>, f: FinalizedRequest, k: nat)
    requires k <= |frozen|
    ensures ValuesBefore(frozen + [f], k) == ValuesBefore(frozen, k)
    ensures SeedsBefore(frozen + [f], k) == SeedsBefore(frozen, k)
  {
    hide UsedBefore;
    if k > 0 {
      ValuesOfPrefix(frozen, f, k - 1);
    }
  }

  /** Every value of an earlier request is among the values before a later one. */
  lemma {:induction false} EarlierValue(frozen: seq<FinalizedRequest>, k: nat, l: nat, i: nat)
    requires k < l <= |frozen| && i < |frozen[k].provenance|
    ensures frozen[k].provenance[i].value in ValuesBefore(frozen, l)
  {
    if k < l - 1 {
      EarlierValue(frozen, k, l - 1, i);
    }
  }

  lemma WholeIsDistinct(requests: seq<RequestPlan>, frozen: seq<FinalizedRequest>, draw: nat -> Number)
    requires |frozen| <= |requests|
    requires forall k :: 0 <= k < |frozen| ==> FreezesAt(requests, k, frozen, RandomU64, draw)
    ensures SeedsDistinct(frozen)
  {
    hide Done, Chosen, UsedBefore;
    forall k, l, i, j | 0 <= k <= l < |frozen| && 0 <= i < |frozen[k].provenance| && 0 <= j < |frozen[l].provenance|
                        && (k != l || i != j)
      ensures frozen[k].provenance[i].value != frozen[l].provenance[j].value
    {
      assert FreezesAt(requests, l, frozen, RandomU64, draw);
      ChosenAreDistinct(draw, ValuesBefore(frozen, l), SeedsBefore(frozen, l), frozen[l].provenance);
      if k < l {
        EarlierValue(frozen, k, l, i);
      } else {
        assert i < j || j < i;
      }
    }
  }

  /** One request of the loop. */
  method FinalizeRequest(plan: RequestPlan, k: nat, policy: Policy, draw: nat -> Number, pool: SeedPool, encoder: Encoder,
                         soFar: nat)
    returns (r: Outcome<FinalizedRequest>, total: nat)
    requires |pool.used| + MAX_SEEDS + 1 < SEEDS
    modifies pool
    ensures |pool.used| <= |old(pool.used)| + MAX_SEEDS + 1
    ensures var l := Loop(old(pool.used), old(pool.drawn), soFar, map[], None);
            && (r.Failed? <==> !Admissible(plan, policy, draw, encoder, l))
            && (r.Failed? ==> Fate(plan, policy, draw, encoder, l) == Some(r.code)
                              && Grounds(plan, policy, draw, encoder, l, r.code))
            && (r.Ok? ==> Freezes(plan, k, r.value, policy, draw, l.used, l.drawn))
            && (r.Ok? ==> pool.used == (if policy == RandomU64
                                        then UsedBefore(l.used, r.value.provenance, |r.value.provenance|) else l.used)
                          && pool.drawn == (if policy == RandomU64 then l.drawn + |r.value.provenance| else l.drawn))
            && Next(plan, policy, draw, encoder, l)
               == Loop(pool.used, pool.drawn, total,
                       if r.Failed? && !Uncaught(r.code) then map[plan.target := r.code] else map[],
                       if r.Failed? && Uncaught(r.code) then Some(r.code) else None)
  {
    hide Done, Chosen, UsedBefore, Finalizable, Finalized, SeedGrounds, Parameters, ClassMissing, ParameterRefused;
    ghost var l := Loop(pool.used, pool.drawn, soFar, map[], None);
    FateMeans(plan, policy, draw, encoder, l);
    FinalizedMeans(plan.workflow, policy, draw, pool.used, pool.drawn);
    total := soFar;
    var seeds, workflow := FinalizeSeeds(plan.workflow, policy, draw, pool);
    if seeds.Failed? {
      return Failed(seeds.code), total;
    }
    var parameters := ReadParameters(encoder, workflow);
    if parameters.Failed? {
      return Failed(parameters.code), total;
    }
    if encoder.workflowBytes(workflow) > MAX_MANIFEST_BYTES {
      return Failed(ManifestLimit), total;
    }
    if encoder.workflowBytes(workflow) > MAX_WORKFLOW_BYTES {
      return Failed(WorkflowLimit), total;
    }
    if encoder.provenanceBytes(seeds.value) > MAX_MANIFEST_BYTES {
      return Failed(ManifestLimit), total;
    }
    total := total + encoder.workflowBytes(workflow) + encoder.provenanceBytes(seeds.value);
    if total > MAX_AGGREGATE_BYTES {
      return Failed(AggregateLimit), total;
    }
    ChosenInRange(plan.workflow, workflow, policy, draw, l.used, l.drawn, seeds.value);
    r := Ok(FinalizedRequest(plan.requestId, plan.target, k, plan.runIndex, workflow, seeds.value));
  }

  /** The row of request `k` after the loop: certified, or its target has failed. */
  ghost predicate RowOf(plan: RequestPlan, k: nat, row: RequestRow, failures: map<string, Code>) {
    && row.index == k && row.target == plan.target && row.runIndex == plan.runIndex
    && (row.certified || plan.target in failures) && (row.blocker.Some? ==> plan.target in failures)
  }

  /** Nothing has failed so far, and every request is frozen in its place. */
  ghost predicate Whole(requests: seq<RequestPlan>, n: nat, frozen: seq<FinalizedRequest>, rows: seq<RequestRow>,
                        policy: Policy, draw: nat -> Number)
    requires n <= |requests|
  {
    && |frozen| == n == |rows|
    && forall k :: 0 <= k < n ==> FreezesAt(requests, k, frozen, policy, draw) && rows[k].seeds == Values(frozen[k].provenance)
  }

  /** Where the pool stands while every request is frozen. */
  ghost predicate PoolOf(frozen: seq<FinalizedRequest>, policy: Policy, l: Loop) {
    if policy == RandomU64 then l.used == ValuesBefore(frozen, |frozen|) && l.drawn == SeedsBefore(frozen, |frozen|)
    else l.used == {} && l.drawn == 0
  }

  /** What the review shows of request `k`: certified unless its target has failed, that target's blocker, and no seed
      once any target has failed. */
  ghost predicate Marked(plan: RequestPlan, k: nat, row: RequestRow, failures: map<string, Code>) {
    && row.index == k && row.target == plan.target && row.runIndex == plan.runIndex
    && (row.certified <==> row.target !in failures)
    && row.blocker == (if row.target in failures then Some(failures[row.target]) else None)
    && (failures != map[] ==> row.seeds == [])
  }

  /** Verifying some target's bindings raises what is no blocker. */
  ghost predicate BindingsRaise(targets: seq<string>, bindings: map<string, Code>) {
    exists t :: t in targets && t in bindings && bindings[t] == BindingRaised
  }

  /** Targets whose prompt bindings could not be verified fail before any request is looked at. */
  method CheckBindings(targets: seq<string>, bindings: map<string, Code>)
    returns (failures: map<string, Code>, raised: bool)
    ensures raised <==> BindingsRaise(targets, bindings)
    ensures !raised ==> forall t :: t in failures <==> t in targets && t in bindings
    ensures forall t :: t in failures ==> t in bindings && failures[t] == bindings[t]
  {
    failures, raised := map[], false;
    for i := 0 to |targets|
      invariant forall t :: t in failures <==> t in targets[..i] && t in bindings
      invariant forall t :: t in failures ==> failures[t] == bindings[t] != BindingRaised
    {
      assert targets[..i + 1] == targets[..i] + [targets[i]];
      if targets[i] in bindings {
        if bindings[targets[i]] == BindingRaised {
          return failures, true;
        }
        failures := failures[targets[i] := bindings[targets[i]]];
      }
    }
    assert targets[..|targets|] == targets;
  }

  /** If any run failed its whole target is uncertified, and nothing executable is kept for anyone. */
  method MarkRows(requests: seq<RequestPlan>, before: seq<RequestRow>, failures: map<string, Code>)
    returns (rows: seq<RequestRow>)
    requires |before| == |requests| && forall k :: 0 <= k < |requests| ==> RowOf(requests[k], k, before[k], failures)
    ensures |rows| == |requests| && forall k :: 0 <= k < |requests| ==> Marked(requests[k], k, rows[k], failures)
    ensures failures == map[] ==> rows == before
  {
    rows := before;
    for k := 0 to |rows|
      invariant |rows| == |requests|
      invariant forall i :: 0 <= i < k ==> Marked(requests[i], i, rows[i], failures)
      invariant forall i :: k <= i < |rows| ==> RowOf(requests[i], i, rows[i], failures)
      invariant failures == map[] ==> rows == before
    {
      var row := rows[k];
      if row.target in failures {
        row := row.(certified := false, blocker := Some(failures[row.target]));
      }
      if failures != map[] {
        row := row.(seeds := []);
      }
      rows := rows[k := row];
    }
  }

  lemma RefusalBoundsRequests(requests: seq<RequestPlan>, targets: seq<string>, runCount: int)
    ensures PlanRefusal(requests, targets, runCount).None? ==> |requests| <= MAX_REQUESTS
  {
  }

  lemma WholeGrows(requests: seq<RequestPlan>, n: nat, frozen: seq<FinalizedRequest>, rows: seq<RequestRow>, policy: Policy,
                   draw: nat -> Number, l: Loop, f: FinalizedRequest, row: RequestRow)
    requires n < |requests| && Whole(requests, n, frozen, rows, policy, draw) && PoolOf(frozen, policy, l)
    requires Freezes(requests[n], n, f, policy, draw, l.used, l.drawn) && row.seeds == Values(f.provenance)
    ensures Whole(requests, n + 1, frozen + [f], rows + [row], policy, draw)
  {
    hide Freezes, Values, UsedBefore;
    var more := frozen + [f];
    forall k | 0 <= k <= n
      ensures FreezesAt(requests, k, more, policy, draw)
    {
      ValuesOfPrefix(frozen, f, k);
      assert k < n ==> FreezesAt(requests, k, frozen, policy, draw);
    }
  }

  lemma PoolGrows(frozen: seq<FinalizedRequest>, f: FinalizedRequest, policy: Policy, l: Loop, m: Loop)
    requires PoolOf(frozen, policy, l)
    requires m.used == (if policy == RandomU64 then UsedBefore(l.used, f.provenance, |f.provenance|) else l.used)
    requires m.drawn == (if policy == RandomU64 then l.drawn + |f.provenance| else l.drawn)
    ensures PoolOf(frozen + [f], policy, m)
  {
    hide UsedBefore;
    ValuesOfPrefix(frozen, f, |frozen|);
  }

  /** After a crash the loop is over. */
  lemma {:induction false} CrashStays(requests: seq<RequestPlan>, n: nat, policy: Policy, draw: nat -> Number,
                                      encoder: Encoder, first: Loop)
    requires n <= |requests| && LoopAt(requests, n, policy, draw, encoder, first).crashed.Some?
    ensures LoopAt(requests, |requests|, policy, draw, encoder, first) == LoopAt(requests, n, policy, draw, encoder, first)
    decreases |requests| - n
  {
    hide Fate, Seeded;
    if n < |requests| {
      CrashStays(requests, n + 1, policy, draw, encoder, first);
    }
  }

  /** What a round does to other targets' blockers is nothing, so it may be taken with or without them. */
  lemma NextWithFailures(plan: RequestPlan, policy: Policy, draw: nat -> Number, encoder: Encoder, l: Loop)
    requires l.crashed.None? && plan.target !in l.failures
    ensures var alone := Next(plan, policy, draw, encoder, l.(failures := map[]));
            && Next(plan, policy, draw, encoder, l)
               == alone.(failures := if plan.target in alone.failures
                                     then l.failures[plan.target := alone.failures[plan.target]] else l.failures)
            && Fate(plan, policy, draw, encoder, l) == Fate(plan, policy, draw, encoder, l.(failures := map[]))
            && forall code :: Grounds(plan, policy, draw, encoder, l, code)
                              <==> Grounds(plan, policy, draw, encoder, l.(failures := map[]), code)
  {
    hide Finalized, Finalizable, SeedGrounds, Parameters, ClassMissing, ParameterRefused;
  }

  /** The failed targets and their grounds: a binding that could not be verified, or a request that failed with this very
      code where the loop stood. */
  ghost predicate FailedFor(requests: seq<RequestPlan>, n: nat, before: map<string, Code>, policy: Policy,
                            draw: nat -> Number, encoder: Encoder, hostBytes: nat, t: string, code: Code)
    requires n <= |requests|
  {
    || (t in before && before[t] == code)
    || exists k :: 0 <= k < n && FailedAt(requests, k, before, policy, draw, encoder, hostBytes, t, code)
  }

  ghost function Entry(requests: seq<RequestPlan>, k: nat, before: map<string, Code>, policy: Policy, draw: nat -> Number,
                       encoder: Encoder, hostBytes: nat): Loop
    requires k <= |requests|
  {
    LoopAt(requests, k, policy, draw, encoder, Loop({}, 0, hostBytes, before, None))
  }

  ghost predicate FailedAt(requests: seq<RequestPlan>, k: nat, before: map<string, Code>, policy: Policy,
                           draw: nat -> Number, encoder: Encoder, hostBytes: nat, t: string, code: Code)
    requires k < |requests|
  {
    var l := Entry(requests, k, before, policy, draw, encoder, hostBytes);
    && requests[k].target == t && t !in l.failures && l.crashed.None?
    && Fate(requests[k], policy, draw, encoder, l) == Some(code) && Grounds(requests[k], policy, draw, encoder, l, code)
  }

  /** The loop over the requests: a target that has failed is passed over, and a failure counts for its whole target. */
  method FinalizeRequests(requests: seq<RequestPlan>, before: map<string, Code>, policy: Policy, draw: nat -> Number,
                          pool: SeedPool, encoder: Encoder, hostBytes: nat)
    returns (frozen: seq<FinalizedRequest>, rows: seq<RequestRow>, failures: map<string, Code>, crashed: Option<Code>)
    requires |requests| <= MAX_REQUESTS && pool.used == {} && pool.drawn == 0
    modifies pool
    ensures var end := Entry(requests, |requests|, before, policy, draw, encoder, hostBytes);
            failures == end.failures && crashed == end.crashed
    ensures before.Keys <= failures.Keys
    ensures crashed.None? ==> |rows| == |requests| && forall k :: 0 <= k < |requests| ==> RowOf(requests[k], k, rows[k], failures)
    ensures forall t :: t in failures ==>
              FailedFor(requests, |requests|, before, policy, draw, encoder, hostBytes, t, failures[t])
    ensures failures == map[] && crashed.None? ==> Whole(requests, |requests|, frozen, rows, policy, draw)
  {
    hide Freezes, Whole, Values, FailedFor, FailedAt, PoolOf, Next, Fate, Grounds, Admissible, UsedBefore;
    FailedForStart(requests, before, policy, draw, encoder, hostBytes);
    frozen, rows, failures, crashed := [], [], before, None;
    var total := hostBytes;
    NothingFrozen(requests, policy, draw, hostBytes, before);
    for k := 0 to |requests|
      invariant |rows| == k && |pool.used| <= k * 101 && crashed.None? && before.Keys <= failures.Keys
      invariant Loop(pool.used, pool.drawn, total, failures, None)
                == Entry(requests, k, before, policy, draw, encoder, hostBytes)
      invariant forall t :: t in failures ==>
                  FailedFor(requests, k, before, policy, draw, encoder, hostBytes, t, failures[t])
      invariant forall j :: 0 <= j < k ==> RowOf(requests[j], j, rows[j], failures)
      invariant failures == map[] ==>
                  && Whole(requests, k, frozen, rows, policy, draw)
                  && PoolOf(frozen, policy, Loop(pool.used, pool.drawn, total, failures, None))
    {
      var plan := requests[k];
      var row := RequestRow(k, plan.target, plan.runIndex, false, [], None);
      ghost var l := Loop(pool.used, pool.drawn, total, failures, None);
      if plan.target !in failures {
        NextWithFailures(plan, policy, draw, encoder, l);
        var outcome, after := FinalizeRequest(plan, k, policy, draw, pool, encoder, total);
        total := after;
        if outcome.Ok? {
          row := row.(certified := true, seeds := Values(outcome.value.provenance));
          if failures == map[] {
            WholeGrows(requests, k, frozen, rows, policy, draw, l, outcome.value, row);
            PoolGrows(frozen, outcome.value, policy, l, Loop(pool.used, pool.drawn, total, failures, None));
          }
          frozen := frozen + [outcome.value];
        } else if Uncaught(outcome.code) {
          CrashStays(requests, k + 1, policy, draw, encoder, Loop({}, 0, hostBytes, before, None));
          FailedForGrows(requests, k, before, policy, draw, encoder, hostBytes, failures);
          return frozen, rows, failures, Some(outcome.code);
        } else {
          FailedHere(requests, k, before, policy, draw, encoder, hostBytes, outcome.code);
          failures := failures[plan.target := outcome.code];
        }
      } else {
        PassedOver(plan, policy, draw, encoder, l);
      }
      FailedForNext(requests, k, before, policy, draw, encoder, hostBytes, l.failures, failures);
      if plan.target in failures {
        row := row.(blocker := Some(failures[plan.target]));
      }
      rows := rows + [row];
    }
  }

  lemma PassedOver(plan: RequestPlan, policy: Policy, draw: nat -> Number, encoder: Encoder, l: Loop)
    requires plan.target in l.failures
    ensures Next(plan, policy, draw, encoder, l) == l
  {
  }

  lemma FailedHere(requests: seq<RequestPlan>, k: nat, before: map<string, Code>, policy: Policy, draw: nat -> Number,
                   encoder: Encoder, hostBytes: nat, code: Code)
    requires k < |requests|
    requires var l := Entry(requests, k, before, policy, draw, encoder, hostBytes);
             && requests[k].target !in l.failures && l.crashed.None?
             && Fate(requests[k], policy, draw, encoder, l) == Some(code)
             && Grounds(requests[k], policy, draw, encoder, l, code)
    ensures FailedAt(requests, k, before, policy, draw, encoder, hostBytes, requests[k].target, code)
  {
  }

  lemma FailedForStart(requests: seq<RequestPlan>, before: map<string, Code>, policy: Policy, draw: nat -> Number,
                       encoder: Encoder, hostBytes: nat)
    ensures forall t :: t in before ==> FailedFor(requests, 0, before, policy, draw, encoder, hostBytes, t, before[t])
  {
  }

  lemma FailedForNext(requests: seq<RequestPlan>, k: nat, before: map<string, Code>, policy: Policy, draw: nat -> Number,
                      encoder: Encoder, hostBytes: nat, failures: map<string, Code>, after: map<string, Code>)
    requires k < |requests|
    requires forall t :: t in failures ==> FailedFor(requests, k, before, policy, draw, encoder, hostBytes, t, failures[t])
    requires forall t :: t in after ==> (t in failures && after[t] == failures[t])
                                        || FailedAt(requests, k, before, policy, draw, encoder, hostBytes, t, after[t])
    ensures forall t :: t in after ==> FailedFor(requests, k + 1, before, policy, draw, encoder, hostBytes, t, after[t])
  {
    hide FailedAt;
  }

  lemma FailedForGrows(requests: seq<RequestPlan>, n: nat, before: map<string, Code>, policy: Policy, draw: nat -> Number,
                       encoder: Encoder, hostBytes: nat, failures: map<string, Code>)
    requires n <= |requests|
    requires forall t :: t in failures ==> FailedFor(requests, n, before, policy, draw, encoder, hostBytes, t, failures[t])
    ensures forall t :: t in failures ==>
              FailedFor(requests, |requests|, before, policy, draw, encoder, hostBytes, t, failures[t])
  {
    hide FailedAt;
  }

  lemma NothingFrozen(requests: seq<RequestPlan>, policy: Policy, draw: nat -> Number, total: nat, failures: map<string, Code>)
    ensures Whole(requests, 0, [], [], policy, draw) && PoolOf([], policy, Loop({}, 0, total, failures, None))
  {
  }

  // ----- when there is a manifest -----

  /** Every target's bindings could be verified, and every request is admissible where the loop stands. */
  ghost predicate Certifiable(requests: seq<RequestPlan>, targets: seq<string>, bindings: map<string, Code>, policy: Policy,
                              draw: nat -> Number, encoder: Encoder, hostBytes: nat)
  {
    && (forall t :: t in targets ==> t !in bindings)
    && forall k :: 0 <= k < |requests| ==>
         Admissible(requests[k], policy, draw, encoder, Entry(requests, k, map[], policy, draw, encoder, hostBytes))
  }

  lemma {:induction false} LoopBounded(requests: seq<RequestPlan>, n: nat, policy: Policy, draw: nat -> Number,
                                       encoder: Encoder, first: Loop)
    requires n <= |requests|
    ensures |LoopAt(requests, n, policy, draw, encoder, first).used| <= |first.used| + n * (MAX_SEEDS + 1)
  {
    hide Fate, SeedsTo;
    if n > 0 {
      LoopBounded(requests, n - 1, policy, draw, encoder, first);
      var l := LoopAt(requests, n - 1, policy, draw, encoder, first);
      SeedsToBound(requests[n - 1].workflow, policy, draw, l.used, l.drawn, Place(|requests[n - 1].workflow|, 0));
    }
  }

  /** Failures stay, and so does a crash. */
  lemma {:induction false} TroubleStays(requests: seq<RequestPlan>, n: nat, m: nat, policy: Policy, draw: nat -> Number,
                                        encoder: Encoder, first: Loop)
    requires n <= m <= |requests|
    ensures var a, b := LoopAt(requests, n, policy, draw, encoder, first), LoopAt(requests, m, policy, draw, encoder, first);
            (a.failures != map[] ==> b.failures != map[]) && (a.crashed.Some? ==> b.crashed.Some?)
    decreases m - n
  {
    hide Fate, Seeded;
    if n < m {
      TroubleStays(requests, n, m - 1, policy, draw, encoder, first);
    }
  }

  /** Nothing has gone wrong by request `n` exactly if every request before it is admissible. */
  lemma {:induction false} CleanExactly(requests: seq<RequestPlan>, n: nat, policy: Policy, draw: nat -> Number,
                                        encoder: Encoder, hostBytes: nat)
    requires n <= |requests| <= MAX_REQUESTS
    ensures var l := Entry(requests, n, map[], policy, draw, encoder, hostBytes);
            l.failures == map[] && l.crashed.None?
            <==> forall k :: 0 <= k < n ==>
                   Admissible(requests[k], policy, draw, encoder, Entry(requests, k, map[], policy, draw, encoder, hostBytes))
  {
    hide Admissible, Fate, Grounds, Next;
    if n > 0 {
      CleanExactly(requests, n - 1, policy, draw, encoder, hostBytes);
      var first := Loop({}, 0, hostBytes, map[], None);
      LoopBounded(requests, n - 1, policy, draw, encoder, first);
      var l := LoopAt(requests, n - 1, policy, draw, encoder, first);
      FateMeans(requests[n - 1], policy, draw, encoder, l);
      NextClean(requests[n - 1], policy, draw, encoder, l);
    }
  }

  lemma NextClean(plan: RequestPlan, policy: Policy, draw: nat -> Number, encoder: Encoder, l: Loop)
    ensures var m := Next(plan, policy, draw, encoder, l);
            m.failures == map[] && m.crashed.None?
            <==> l.failures == map[] && l.crashed.None? && Fate(plan, policy, draw, encoder, l).None?
  {
    hide Fate, Seeded;
    var m := Next(plan, policy, draw, encoder, l);
    if t :| t in l.failures {
      assert t in m.failures;
    } else if l.crashed.None? && Fate(plan, policy, draw, encoder, l).Some? && m.crashed.None? {
      assert plan.target in m.failures;
    }
  }

  /** While nothing has gone wrong, the draw a request starts at is the number of seeds before it, and the bytes counted
      are the host's and those of the requests before it. */
  lemma {:induction false} DrawsInOrder(requests: seq<RequestPlan>, n: nat, draw: nat -> Number, encoder: Encoder,
                                        hostBytes: nat)
    requires n < |requests| <= MAX_REQUESTS
    requires forall k :: 0 <= k <= n ==>
               Admissible(requests[k], RandomU64, draw, encoder, Entry(requests, k, map[], RandomU64, draw, encoder, hostBytes))
    ensures var l := Entry(requests, n, map[], RandomU64, draw, encoder, hostBytes);
            var m := Entry(requests, n + 1, map[], RandomU64, draw, encoder, hostBytes);
            && m.drawn == l.drawn + |AllPlaces(requests[n].workflow)|
            && m.total == l.total + encoder.workflowBytes(Seeded(requests[n], RandomU64, draw, l).nodes)
                          + encoder.provenanceBytes(Seeded(requests[n], RandomU64, draw, l).rows)
  {
    hide Finalized, Chosen, UsedBefore, Grounds, Places, SameButSeeds, Finalizable, Admissible;
    CleanExactly(requests, n, RandomU64, draw, encoder, hostBytes);
    var first := Loop({}, 0, hostBytes, map[], None);
    LoopBounded(requests, n, RandomU64, draw, encoder, first);
    var l := LoopAt(requests, n, RandomU64, draw, encoder, first);
    FateMeans(requests[n], RandomU64, draw, encoder, l);
    FinalizedMeans(requests[n].workflow, RandomU64, draw, l.used, l.drawn);
    AdmissibleIsFinalizable(requests[n], RandomU64, draw, encoder, l);
  }

  lemma AdmissibleIsFinalizable(plan: RequestPlan, policy: Policy, draw: nat -> Number, encoder: Encoder, l: Loop)
    requires Admissible(plan, policy, draw, encoder, l)
    ensures Finalizable(plan.workflow, policy, draw, l.drawn)
  {
  }

  /** Totals only grow, and a value that was taken stays taken. */
  lemma {:induction false} PoolAndTotalGrow(requests: seq<RequestPlan>, k: nat, j: nat, policy: Policy, draw: nat -> Number,
                                            encoder: Encoder, first: Loop)
    requires k <= j <= |requests|
    ensures var l, m := LoopAt(requests, k, policy, draw, encoder, first), LoopAt(requests, j, policy, draw, encoder, first);
            l.total <= m.total && l.used <= m.used
    decreases j - k
  {
    hide Next, Seeded;
    if k < j {
      PoolAndTotalGrow(requests, k, j - 1, policy, draw, encoder, first);
      var l := LoopAt(requests, j - 1, policy, draw, encoder, first);
      SeededKeeps(requests[j - 1], policy, draw, l);
      NextGrows(requests[j - 1], policy, draw, encoder, l);
    }
  }

  lemma NextGrows(plan: RequestPlan, policy: Policy, draw: nat -> Number, encoder: Encoder, l: Loop)
    requires l.used <= Seeded(plan, policy, draw, l).used
    ensures var m := Next(plan, policy, draw, encoder, l);
            l.total <= m.total && l.used <= m.used
    ensures l.crashed.None? && plan.target !in l.failures ==>
              var m := Next(plan, policy, draw, encoder, l);
              && m.used == Seeded(plan, policy, draw, l).used
              && (Fate(plan, policy, draw, encoder, l) == Some(AggregateLimit) ==>
                    m.total == l.total + encoder.workflowBytes(Seeded(plan, policy, draw, l).nodes)
                               + encoder.provenanceBytes(Seeded(plan, policy, draw, l).rows))
  {
    hide Fate, Seeded;
  }

  /** Once the aggregate is exceeded no later request is frozen: the bytes that exceeded it stay counted. */
  lemma AggregateFailsTheRest(requests: seq<RequestPlan>, k: nat, j: nat, before: map<string, Code>, policy: Policy,
                              draw: nat -> Number, encoder: Encoder, hostBytes: nat)
    requires k < j < |requests| <= MAX_REQUESTS
    requires var l := Entry(requests, k, before, policy, draw, encoder, hostBytes);
             && l.crashed.None? && requests[k].target !in l.failures
             && Fate(requests[k], policy, draw, encoder, l) == Some(AggregateLimit)
    ensures !Admissible(requests[j], policy, draw, encoder, Entry(requests, j, before, policy, draw, encoder, hostBytes))
  {
    hide Fate, Seeded, Finalizable, Next, Parameters, SeedGrounds;
    var first := Loop({}, 0, hostBytes, before, None);
    var l := LoopAt(requests, k, policy, draw, encoder, first);
    LoopBounded(requests, k, policy, draw, encoder, first);
    FateMeans(requests[k], policy, draw, encoder, l);
    assert LoopAt(requests, k + 1, policy, draw, encoder, first) == Next(requests[k], policy, draw, encoder, l);
    SeededKeeps(requests[k], policy, draw, l);
    NextGrows(requests[k], policy, draw, encoder, l);
    PoolAndTotalGrow(requests, k + 1, j, policy, draw, encoder, first);
    hide LoopAt;
  }

  lemma SeededKeeps(plan: RequestPlan, policy: Policy, draw: nat -> Number, l: Loop)
    ensures l.used <= Seeded(plan, policy, draw, l).used
    ensures policy == RandomU64 ==>
              forall i :: 0 <= i < |Seeded(plan, policy, draw, l).rows| ==>
                Seeded(plan, policy, draw, l).rows[i].value in Seeded(plan, policy, draw, l).used
  {
    TakenAreKept(plan.workflow, policy, draw, l.used, l.drawn, Place(|plan.workflow|, 0));
    hide SeedsTo;
  }

  /** A value that some request was given is never given to a later one, even if the earlier one failed. */
  lemma FailedSeedsAreNotReused(requests: seq<RequestPlan>, k: nat, j: nat, before: map<string, Code>, draw: nat -> Number,
                                encoder: Encoder, hostBytes: nat, i: nat)
    requires k < j < |requests| <= MAX_REQUESTS
    requires var l := Entry(requests, k, before, RandomU64, draw, encoder, hostBytes);
             && l.crashed.None? && requests[k].target !in l.failures && i < |Seeded(requests[k], RandomU64, draw, l).rows|
    ensures var l := Entry(requests, k, before, RandomU64, draw, encoder, hostBytes);
            var m := Entry(requests, j, before, RandomU64, draw, encoder, hostBytes);
            Finalizable(requests[j].workflow, RandomU64, draw, m.drawn) ==>
              forall n :: 0 <= n < |Seeded(requests[j], RandomU64, draw, m).rows| ==>
                Seeded(requests[j], RandomU64, draw, m).rows[n].value != Seeded(requests[k], RandomU64, draw, l).rows[i].value
  {
    hide Finalized, Finalizable, Next, Chosen, UsedBefore, Done, Fate;
    var first := Loop({}, 0, hostBytes, before, None);
    var l, m := LoopAt(requests, k, RandomU64, draw, encoder, first), LoopAt(requests, j, RandomU64, draw, encoder, first);
    assert LoopAt(requests, k + 1, RandomU64, draw, encoder, first) == Next(requests[k], RandomU64, draw, encoder, l);
    SeededKeeps(requests[k], RandomU64, draw, l);
    NextGrows(requests[k], RandomU64, draw, encoder, l);
    PoolAndTotalGrow(requests, k + 1, j, RandomU64, draw, encoder, first);
    LoopBounded(requests, j, RandomU64, draw, encoder, first);
    hide LoopAt;
    if Finalizable(requests[j].workflow, RandomU64, draw, m.drawn) {
      FinalizedMeans(requests[j].workflow, RandomU64, draw, m.used, m.drawn);
      ChosenAreDistinct(draw, m.used, m.drawn, Seeded(requests[j], RandomU64, draw, m).rows);
    }
  }

  // ----- when the call raises -----

  /** The first round to raise: a request of an unblocked target that raises where the loop stands. */
  ghost predicate FirstRaise(requests: seq<RequestPlan>, k: nat, before: map<string, Code>, policy: Policy,
                             draw: nat -> Number, encoder: Encoder, hostBytes: nat)
  {
    && k < |requests|
    && var l := Entry(requests, k, before, policy, draw, encoder, hostBytes);
    l.crashed.None? && requests[k].target !in l.failures && RaisesAt(requests[k], policy, draw, encoder, l)
  }

  /** Something leaves the call that is no blocker: from a target's bindings, or from a request. */
  ghost predicate Raises(requests: seq<RequestPlan>, targets: seq<string>, bindings: map<string, Code>, policy: Policy,
                         draw: nat -> Number, encoder: Encoder, hostBytes: nat)
  {
    || BindingsRaise(targets, bindings)
    || exists k: nat :: FirstRaise(requests, k, Blocked(targets, bindings), policy, draw, encoder, hostBytes)
  }

  lemma NextRaises(plan: RequestPlan, policy: Policy, draw: nat -> Number, encoder: Encoder, l: Loop)
    requires |l.used| + MAX_SEEDS + 1 < SEEDS && l.crashed.None?
    ensures Next(plan, policy, draw, encoder, l).crashed.Some?
            <==> plan.target !in l.failures && RaisesAt(plan, policy, draw, encoder, l)
    ensures Next(plan, policy, draw, encoder, l).crashed.Some? ==> Uncaught(Next(plan, policy, draw, encoder, l).crashed.value)
  {
    hide Fate, Seeded, RaisesAt;
    FateRaises(plan, policy, draw, encoder, l);
  }

  lemma {:induction false} CrashExactly(requests: seq<RequestPlan>, n: nat, before: map<string, Code>, policy: Policy,
                                        draw: nat -> Number, encoder: Encoder, hostBytes: nat)
    requires n <= |requests| <= MAX_REQUESTS
    ensures var l := Entry(requests, n, before, policy, draw, encoder, hostBytes);
            && (l.crashed.Some? <==> exists k: nat :: k < n && FirstRaise(requests, k, before, policy, draw, encoder, hostBytes))
            && (l.crashed.Some? ==> Uncaught(l.crashed.value))
  {
    hide Next, RaisesAt;
    if n > 0 {
      CrashExactly(requests, n - 1, before, policy, draw, encoder, hostBytes);
      var first := Loop({}, 0, hostBytes, before, None);
      LoopBounded(requests, n - 1, policy, draw, encoder, first);
      var l := LoopAt(requests, n - 1, policy, draw, encoder, first);
      if l.crashed.None? {
        NextRaises(requests[n - 1], policy, draw, encoder, l);
        assert FirstRaise(requests, n - 1, before, policy, draw, encoder, hostBytes)
               <==> Next(requests[n - 1], policy, draw, encoder, l).crashed.Some?;
      } else {
        CrashedNext(requests[n - 1], policy, draw, encoder, l);
      }
    }
  }

  lemma CrashedNext(plan: RequestPlan, policy: Policy, draw: nat -> Number, encoder: Encoder, l: Loop)
    requires l.crashed.Some?
    ensures Next(plan, policy, draw, encoder, l) == l
  {
  }

  /** A workflow whose every node has a class name and inputs. */
  predicate WellFormed(nodes: seq<WorkflowNode>) {
    forall i :: 0 <= i < |nodes| ==> nodes[i].classType.Some? && nodes[i].inputs.Some?
  }

  /** The caller's guard: while every workflow is well formed and verifying bindings raises nothing but blockers, the
      call does not raise. */
  lemma WellFormedNeverRaises(requests: seq<RequestPlan>, targets: seq<string>, bindings: map<string, Code>,
                              policy: Policy, draw: nat -> Number, encoder: Encoder, hostBytes: nat)
    requires |requests| <= MAX_REQUESTS && forall k :: 0 <= k < |requests| ==> WellFormed(requests[k].workflow)
    requires forall t :: t in bindings ==> bindings[t] != BindingRaised
    ensures !Raises(requests, targets, bindings, policy, draw, encoder, hostBytes)
  {
    var before := Blocked(targets, bindings);
    forall k: nat
      ensures !FirstRaise(requests, k, before, policy, draw, encoder, hostBytes)
    {
      if k < |requests| {
        var first := Loop({}, 0, hostBytes, before, None);
        LoopBounded(requests, k, policy, draw, encoder, first);
        SeededIsWellFormed(requests[k], policy, draw, LoopAt(requests, k, policy, draw, encoder, first));
        hide LoopAt, Seeded;
      }
    }
  }

  lemma SeededIsWellFormed(plan: RequestPlan, policy: Policy, draw: nat -> Number, l: Loop)
    requires |l.used| + MAX_SEEDS + 1 < SEEDS && WellFormed(plan.workflow)
    ensures !InputsMissing(plan.workflow, policy, draw, l.drawn)
    ensures Finalizable(plan.workflow, policy, draw, l.drawn) ==> WellFormed(Seeded(plan, policy, draw, l).nodes)
  {
    FinalizedMeans(plan.workflow, policy, draw, l.used, l.drawn);
    hide Finalized, Finalizable, Chosen, UsedBefore, Places;
  }

  /** One target with one run, whose workflow is `first` and a sampler with a seed. */
  function Alone(first: WorkflowNode): seq<RequestPlan> {
    [RequestPlan("request", "target", 1, [first, WorkflowNode("2", Some("KSampler"), Some(map["seed" := Int(5)]))])]
  }

  /** An otherwise usable workflow raises out of the call for one node without a class name, and for one without
      inputs, whatever the host. */
  lemma OneNodeRaises(encoder: Encoder, draw: nat -> Number, hostBytes: nat)
    ensures var unnamed := Alone(WorkflowNode("1", None, Some(map[])));
            && PlanRefusal(unnamed, ["target"], 1).None?
            && Raises(unnamed, ["target"], map[], PreserveU64, draw, encoder, hostBytes)
    ensures var empty := Alone(WorkflowNode("1", Some("Note"), None));
            && PlanRefusal(empty, ["target"], 1).None?
            && Raises(empty, ["target"], map[], PreserveU64, draw, encoder, hostBytes)
  {
    var l := Loop({}, 0, hostBytes, map[], None);
    var unnamed := Alone(WorkflowNode("1", None, Some(map[])));
    var empty := Alone(WorkflowNode("1", Some("Note"), None));
    AloneIsPlanned(unnamed[0]);
    AloneIsPlanned(empty[0]);
    AloneIsSeeded(unnamed[0].workflow, draw);
    FinalizedMeans(unnamed[0].workflow, PreserveU64, draw, {}, 0);
    hide PlanRefusal, Finalizable, Finalized, SeedGrounds, Chosen, UsedBefore, Places;
    assert Blocked(["target"], map[]) == map[];
    assert ClassMissing(encoder, Seeded(unnamed[0], PreserveU64, draw, l).nodes) by {
      assert InOrder(encoder, Seeded(unnamed[0], PreserveU64, draw, l).nodes, 0);
    }
    assert FirstRaise(unnamed, 0, map[], PreserveU64, draw, encoder, hostBytes);
    assert InputsMissing(empty[0].workflow, PreserveU64, draw, 0) by {
      NoneBefore(empty[0].workflow);
    }
    assert FirstRaise(empty, 0, map[], PreserveU64, draw, encoder, hostBytes);
  }

  lemma NoneBefore(nodes: seq<WorkflowNode>)
    ensures Places(nodes, Place(0, 0)) == []
  {
  }

  lemma AloneIsPlanned(plan: RequestPlan)
    requires plan.target == "target" && plan.runIndex == 1
    ensures PlanRefusal([plan], ["target"], 1).None?
  {
    var targets := ["target"];
    assert targets[..0] == [] && Runs("target", 0) == [];
    assert Runs("target", 1) == [("target", 1)];
    assert Expected(targets, 1) == Expected([], 1) + [("target", 1)] == [("target", 1)];
    assert Order([plan]) == [("target", 1)];
  }

  lemma AloneIsSeeded(nodes: seq<WorkflowNode>, draw: nat -> Number)
    requires nodes == Alone(WorkflowNode("1", None, Some(map[])))[0].workflow
    ensures Finalizable(nodes, PreserveU64, draw, 0)
  {
    NoSeedFirst(nodes);
    OneSeedNext(nodes);
    hide Places;
    assert AllPlaces(nodes) == [Place(1, 0)];
  }

  lemma NoSeedFirst(nodes: seq<WorkflowNode>)
    requires |nodes| == 2 && nodes[0].inputs == Some(map[])
    ensures Places(nodes, Place(1, 0)) == []
  {
    assert Places(nodes, Place(0, 1)) == Places(nodes, Place(0, 0)) == [];
    assert Places(nodes, Place(0, 2)) == [];
  }

  lemma OneSeedNext(nodes: seq<WorkflowNode>)
    requires |nodes| == 2 && nodes[1].inputs == Some(map["seed" := Int(5)]) && Places(nodes, Place(1, 0)) == []
    ensures Places(nodes, Place(2, 0)) == [Place(1, 0)]
  {
    assert Places(nodes, Place(1, 1)) == [Place(1, 0)];
    assert |KeyName(1)| != |KeyName(0)|;
    assert Places(nodes, Place(1, 2)) == [Place(1, 0)];
  }

  // ----- the whole call -----

  /** A complete answer. A manifest exists exactly when every target's bindings were verified and every request is
      admissible: seeds that can be finalised at its own draws, parameters and bytes that fit. It holds every request in
      order, each seed the first value from its draw that no earlier seed of the manifest holds. Otherwise no row keeps a
      seed, every run of a failed target carries its blocker, and every blocker has its ground. */
  ghost predicate Answers(requests: seq<RequestPlan>, targets: seq<string>, bindings: map<string, Code>, policy: Policy,
                          draw: nat -> Number, encoder: Encoder, hostBytes: nat, f: Finalization)
  {
    && |f.rows| == |requests|
    && (forall t :: t in targets && t in bindings ==> t in f.failures)
    && (forall t :: t in f.failures ==>
          FailedFor(requests, |requests|, Blocked(targets, bindings), policy, draw, encoder, hostBytes, t, f.failures[t]))
    && (f.manifest.Some? <==> f.failures == map[])
    && (f.manifest.Some? <==> Certifiable(requests, targets, bindings, policy, draw, encoder, hostBytes))
    && (forall k :: 0 <= k < |requests| ==> Marked(requests[k], k, f.rows[k], f.failures))
    && (f.manifest.Some? ==>
          && Whole(requests, |requests|, f.manifest.value, f.rows, policy, draw)
          && (policy == RandomU64 ==> SeedsDistinct(f.manifest.value)))
  }

  /** What is encoded at the very end fits. */
  predicate EndFits(encoder: Encoder, f: Finalization) {
    && (f.manifest.Some? ==> encoder.payloadBytes(f.manifest.value) <= MAX_MANIFEST_BYTES)
    && encoder.projectionBytes(f.rows, f.failures) <= MAX_MANIFEST_BYTES
  }

  /** All or nothing: a refused plan, a host context too large to encode, an exception that is no blocker, an answer too
      large to encode, or the answer. */
  method FinalizeGenerationManifest(
    requests: seq<RequestPlan>, targets: seq<string>, runCount: int, bindings: map<string, Code>, policy: Policy,
    draw: nat -> Number, encoder: Encoder, host: Host)
    returns (r: Outcome<Finalization>)
    ensures PlanRefusal(requests, targets, runCount).Some? ==> r == Failed(PlanRefusal(requests, targets, runCount).value)
    ensures PlanRefusal(requests, targets, runCount).None?
            && (host.optionBytes > MAX_MANIFEST_BYTES || host.preflightBytes > MAX_MANIFEST_BYTES) ==>
              r == Failed(ManifestLimit)
    ensures PlanRefusal(requests, targets, runCount).None?
            && host.optionBytes <= MAX_MANIFEST_BYTES && host.preflightBytes <= MAX_MANIFEST_BYTES ==>
              && (r.Failed? && Uncaught(r.code)
                  <==> Raises(requests, targets, bindings, policy, draw, encoder, host.optionBytes))
              && (r.Failed? && !Uncaught(r.code) ==>
                    && r.code == ManifestLimit
                    && exists f :: Answers(requests, targets, bindings, policy, draw, encoder, host.optionBytes, f)
                                   && !EndFits(encoder, f))
              && (r.Ok? ==> Answers(requests, targets, bindings, policy, draw, encoder, host.optionBytes, r.value)
                            && EndFits(encoder, r.value))
  {
    var refusal := PlanRefusal(requests, targets, runCount);
    RefusalBoundsRequests(requests, targets, runCount);
    hide PlanRefusal;
    if refusal.Some? {
      RefusalIsCaught(requests, targets, runCount);
      return Failed(refusal.value);
    }
    if host.optionBytes > MAX_MANIFEST_BYTES || host.preflightBytes > MAX_MANIFEST_BYTES {
      return Failed(ManifestLimit);
    }
    hide FreezesAt, SeedsDistinct, Whole, FailedFor, FailedAt, Entry, Certifiable, Values, Marked, RowOf, Raises,
      BindingsRaise, Blocked, Answers;
    var failures, raised := CheckBindings(targets, bindings);
    BindingsRaiseRaises(requests, targets, bindings, policy, draw, encoder, host.optionBytes);
    if raised {
      return Failed(BindingRaised);
    }
    BlockedIs(targets, bindings, failures);
    CrashIsRaise(requests, targets, bindings, policy, draw, encoder, host.optionBytes);
    var pool := new SeedPool();
    var frozen, rows, crashed;
    frozen, rows, failures, crashed := FinalizeRequests(requests, failures, policy, draw, pool, encoder, host.optionBytes);
    if crashed.Some? {
      return Failed(crashed.value);
    }
    rows := MarkRows(requests, rows, failures);
    var f := Finalization(if failures == map[] then Some(frozen) else None, rows, failures);
    AnswersWhole(requests, targets, bindings, policy, draw, encoder, host.optionBytes, frozen, f);
    if f.manifest.Some? && encoder.payloadBytes(f.manifest.value) > MAX_MANIFEST_BYTES {
      return Failed(ManifestLimit);
    }
    if encoder.projectionBytes(f.rows, f.failures) > MAX_MANIFEST_BYTES {
      return Failed(ManifestLimit);
    }
    r := Ok(f);
  }

  lemma BindingsRaiseRaises(requests: seq<RequestPlan>, targets: seq<string>, bindings: map<string, Code>, policy: Policy,
                            draw: nat -> Number, encoder: Encoder, hostBytes: nat)
    ensures BindingsRaise(targets, bindings) ==> Raises(requests, targets, bindings, policy, draw, encoder, hostBytes)
  {
  }

  /** Past the bindings, the call raises exactly if the loop ends in a crash. */
  lemma CrashIsRaise(requests: seq<RequestPlan>, targets: seq<string>, bindings: map<string, Code>, policy: Policy,
                     draw: nat -> Number, encoder: Encoder, hostBytes: nat)
    requires |requests| <= MAX_REQUESTS && !BindingsRaise(targets, bindings)
    ensures var end := Entry(requests, |requests|, Blocked(targets, bindings), policy, draw, encoder, hostBytes);
            && (end.crashed.Some? <==> Raises(requests, targets, bindings, policy, draw, encoder, hostBytes))
            && (end.crashed.Some? ==> Uncaught(end.crashed.value))
  {
    hide BindingsRaise, Blocked, Entry, FirstRaise;
    var before := Blocked(targets, bindings);
    CrashExactly(requests, |requests|, before, policy, draw, encoder, hostBytes);
    RaiseInRange(requests, before, policy, draw, encoder, hostBytes);
  }

  /** What the loop leaves, marked, is an answer. */
  lemma AnswersWhole(requests: seq<RequestPlan>, targets: seq<string>, bindings: map<string, Code>, policy: Policy,
                     draw: nat -> Number, encoder: Encoder, hostBytes: nat, frozen: seq<FinalizedRequest>, f: Finalization)
    requires |requests| <= MAX_REQUESTS && |f.rows| == |requests|
    requires var end := Entry(requests, |requests|, Blocked(targets, bindings), policy, draw, encoder, hostBytes);
             f.failures == end.failures && end.crashed.None? && Blocked(targets, bindings).Keys <= f.failures.Keys
    requires forall t :: t in f.failures ==>
               FailedFor(requests, |requests|, Blocked(targets, bindings), policy, draw, encoder, hostBytes, t, f.failures[t])
    requires forall k :: 0 <= k < |requests| ==> Marked(requests[k], k, f.rows[k], f.failures)
    requires f.manifest == if f.failures == map[] then Some(frozen) else None
    requires f.failures == map[] ==> Whole(requests, |requests|, frozen, f.rows, policy, draw)
    ensures Answers(requests, targets, bindings, policy, draw, encoder, hostBytes, f)
  {
    hide FreezesAt, SeedsDistinct, Whole, FailedFor, FailedAt, Entry, Certifiable, Marked, Blocked;
    BlockedFail(targets, bindings);
    CertifiableIsClean(requests, targets, bindings, policy, draw, encoder, hostBytes);
    if f.failures == map[] && policy == RandomU64 {
      WholeManifestIsDistinct(requests, frozen, f.rows, draw);
    }
  }

  lemma RefusalIsCaught(requests: seq<RequestPlan>, targets: seq<string>, runCount: int)
    ensures PlanRefusal(requests, targets, runCount).Some? ==> !Uncaught(PlanRefusal(requests, targets, runCount).value)
  {
  }

  lemma RaiseInRange(requests: seq<RequestPlan>, before: map<string, Code>, policy: Policy, draw: nat -> Number,
                     encoder: Encoder, hostBytes: nat)
    ensures forall k: nat :: FirstRaise(requests, k, before, policy, draw, encoder, hostBytes) ==> k < |requests|
  {
    hide Entry, RaisesAt;
  }

  /** The targets that fail for their bindings, with their blockers. */
  function Blocked(targets: seq<string>, bindings: map<string, Code>): map<string, Code> {
    map t | t in targets && t in bindings :: bindings[t]
  }

  lemma BlockedIs(targets: seq<string>, bindings: map<string, Code>, failures: map<string, Code>)
    requires forall t :: t in failures <==> t in targets && t in bindings
    requires forall t :: t in failures ==> failures[t] == bindings[t]
    ensures failures == Blocked(targets, bindings)
  {
  }

  lemma BlockedFail(targets: seq<string>, bindings: map<string, Code>)
    ensures forall t :: t in targets && t in bindings ==> t in Blocked(targets, bindings)
  {
  }

  lemma WholeManifestIsDistinct(requests: seq<RequestPlan>, frozen: seq<FinalizedRequest>, rows: seq<RequestRow>,
                                draw: nat -> Number)
    requires Whole(requests, |requests|, frozen, rows, RandomU64, draw)
    ensures SeedsDistinct(frozen)
  {
    hide FreezesAt, SeedsDistinct, Values;
    WholeIsDistinct(requests, frozen, draw);
  }

  lemma CertifiableIsClean(requests: seq<RequestPlan>, targets: seq<string>, bindings: map<string, Code>, policy: Policy,
                           draw: nat -> Number, encoder: Encoder, hostBytes: nat)
    requires |requests| <= MAX_REQUESTS
    ensures var end := Entry(requests, |requests|, Blocked(targets, bindings), policy, draw, encoder, hostBytes);
            Certifiable(requests, targets, bindings, policy, draw, encoder, hostBytes)
            <==> end.failures == map[] && end.crashed.None?
  {
    hide LoopAt, Admissible;
    var first := Loop({}, 0, hostBytes, Blocked(targets, bindings), None);
    BlockedStays(requests, policy, draw, encoder, first);
    if Blocked(targets, bindings) == map[] {
      CleanExactly(requests, |requests|, policy, draw, encoder, hostBytes);
      forall t | t in targets
        ensures t !in bindings
      {
        assert t in bindings ==> t in Blocked(targets, bindings);
      }
    }
  }

  lemma BlockedStays(requests: seq<RequestPlan>, policy: Policy, draw: nat -> Number, encoder: Encoder, first: Loop)
    ensures first.failures != map[] ==> LoopAt(requests, |requests|, policy, draw, encoder, first).failures != map[]
  {
    TroubleStays(requests, 0, |requests|, policy, draw, encoder, first);
  }
}
