/** Final seed values of a generation manifest. */
module SeedFinalization {
  import opened CapacityTypes

  const SEEDS := 0x1_0000_0000_0000_0000
  const MAX_SEED := SEEDS - 1
  const MAX_SEEDS := 100
  const MAX_REQUESTS := 100
  const MAX_WORKFLOW_BYTES := 1_000_000
  const MAX_MANIFEST_BYTES := 8 * 1024 * 1024
  const MAX_AGGREGATE_BYTES := MAX_MANIFEST_BYTES

  /** A JSON value where a seed is looked for. */
  datatype Number = Int(value: int) | Float(number: real) | NonFinite | NotANumber

  datatype Code =
    | UnsupportedSeedValue | SeedReviewLimit | SeedBindingMissing | PromptBindingFailed | ParameterFailed
    | WorkflowLimit | ManifestLimit | AggregateLimit | MissingInputs | MissingClass | BindingRaised
    | RequestLimit | IncompleteTargetCoverage | AmbiguousRequestIdentity

  datatype Outcome<+T> = Ok(value: T) | Failed(code: Code)

  datatype Policy = PreserveU64 | RandomU64

  /** An integer, or a float that is one, in the range of 64 bits. */
  function Seed(v: Number): (seed: Option<nat>)
    ensures seed.Some? ==> seed.value <= MAX_SEED
  {
    if v.Int? && 0 <= v.value <= MAX_SEED then Some(v.value)
    else if v.Float? && v.number == v.number.Floor as real && 0 <= v.number.Floor <= MAX_SEED then Some(v.number.Floor)
    else None
  }

  /** A seed is an integer of 64 bits, or the float that equals one. */
  lemma SeedExactly(v: Number, n: nat)
    ensures Seed(v) == Some(n) <==> n < 0x1_0000_0000_0000_0000 && (v == Int(n) || v == Float(n as real))
  {
    if v.Float? && v.number == n as real {
      assert v.number.Floor == n;
    }
  }

  // ----- the wrap-around search -----

  /** `start + d` in 64 bits. */
  function Wrapped(start: nat, d: nat): (r: nat)
    requires start < SEEDS && d < SEEDS
    ensures r < SEEDS
  {
    if start + d < SEEDS then start + d else start + d - SEEDS
  }

  /** `value` is the first in cyclic order from `start` that is not used. */
  ghost predicate FirstUnused(start: nat, used: set<nat>, value: nat)
    requires start < SEEDS
  {
    && value !in used
    && exists d: nat :: d < SEEDS && value == Wrapped(start, d) && forall e: nat :: e < d ==> Wrapped(start, e) in used
  }

  /** Collision resolution; it ends because fewer than 2^64 values are used. */
  method NextUnused(start: nat, used: set<nat>) returns (value: nat)
    requires start < SEEDS && |used| < SEEDS
    ensures value < SEEDS && FirstUnused(start, used, value)
  {
    value := start;
    ghost var d: nat := 0;
    ghost var tried: set<nat> := {};
    while value in used
      invariant d <= |used| && |tried| == d && tried <= used
      invariant value == Wrapped(start, d)
      invariant forall e: nat :: e < d ==> Wrapped(start, e) in tried
      invariant forall x :: x in tried ==> exists e: nat :: e < d && x == Wrapped(start, e)
      decreases |used| - d
    {
      assert value !in tried;
      tried := tried + {value};
      SubsetSize(tried, used);
      assert Wrapped(start, d) == value;
      value := if value == MAX_SEED then 0 else value + 1;
      d := d + 1;
    }
  }

  lemma SubsetSize(a: set<nat>, b: set<nat>)
    requires a <= b
    ensures |a| <= |b|
  {
    if a != {} {
      var x :| x in a;
      SubsetSize(a - {x}, b - {x});
    }
  }

  /** The first unused value in cyclic order from `start`. */
  ghost function FirstFree(start: nat, used: set<nat>): nat
    requires start < SEEDS
  {
    if v: nat :| FirstUnused(start, used, v) then v else start
  }

  lemma FirstUnusedIsUnique(start: nat, used: set<nat>, a: nat, b: nat)
    requires start < SEEDS && FirstUnused(start, used, a) && FirstUnused(start, used, b)
    ensures a == b
  {
    var d: nat :| d < SEEDS && a == Wrapped(start, d) && forall e: nat :: e < d ==> Wrapped(start, e) in used;
    var c: nat :| c < SEEDS && b == Wrapped(start, c) && forall e: nat :: e < c ==> Wrapped(start, e) in used;
  }

  /** `n` consecutive used values are `n` values. */
  lemma {:induction false} UsedInARow(start: nat, used: set<nat>, n: nat)
    requires start < SEEDS && n <= SEEDS && forall d: nat :: d < n ==> Wrapped(start, d) in used
    ensures n <= |used|
  {
    if n > 0 {
      UsedInARow(start, used - {Wrapped(start, n - 1)}, n - 1);
    }
  }

  lemma {:induction false} SomeFirstUnused(start: nat, used: set<nat>, d: nat)
    requires start < SEEDS && d < SEEDS && Wrapped(start, d) !in used
    ensures exists v: nat :: FirstUnused(start, used, v)
  {
    if e: nat :| e < d && Wrapped(start, e) !in used {
      SomeFirstUnused(start, used, e);
    } else {
      assert FirstUnused(start, used, Wrapped(start, d));
    }
  }

  lemma FirstFreeIsFirstUnused(start: nat, used: set<nat>)
    requires start < SEEDS && |used| < SEEDS
    ensures FirstUnused(start, used, FirstFree(start, used))
  {
    if forall d: nat :: d < SEEDS ==> Wrapped(start, d) in used {
      UsedInARow(start, used, SEEDS);
    }
    var d: nat :| d < SEEDS && Wrapped(start, d) !in used;
    SomeFirstUnused(start, used, d);
  }

  // ----- the seeds of one workflow -----

  /** A workflow node; its class name, or its inputs, may be missing altogether. */
  datatype WorkflowNode = WorkflowNode(nodeId: string, classType: Option<string>, inputs: Option<map<string, Number>>)

  datatype Provenance = Provenance(nodeId: string, inputKey: string, original: nat, value: nat)

  /** Where a seed may stand: a node, and the first or the second of its two keys. */
  datatype Place = Place(node: nat, key: nat)

  function KeyName(key: nat): string { if key == 0 then "seed" else "noise_seed" }

  predicate Present(nodes: seq<WorkflowNode>, place: Place) {
    && place.node < |nodes| && place.key < 2 && nodes[place.node].inputs.Some?
    && KeyName(place.key) in nodes[place.node].inputs.value
  }

  function ValueAt(nodes: seq<WorkflowNode>, place: Place): Number
    requires Present(nodes, place)
  {
    nodes[place.node].inputs.value[KeyName(place.key)]
  }

  predicate Earlier(a: Place, b: Place) { a.node < b.node || (a.node == b.node && a.key < b.key) }

  /** The seeds before `end`, in the order they are looked at. */
  function Places(nodes: seq<WorkflowNode>, end: Place): (places: seq<Place>)
    requires end.node <= |nodes| && end.key <= 2
    ensures forall p :: p in places ==> Earlier(p, end) && Present(nodes, p)
    decreases end.node, end.key
  {
    if end.key > 0 then
      var last := Place(end.node, end.key - 1);
      Places(nodes, last) + (if Present(nodes, last) then [last] else [])
    else if end.node > 0 then Places(nodes, Place(end.node - 1, 2))
    else []
  }

  /** Some input of this name stands here. */
  predicate SeedNamed(nodes: seq<WorkflowNode>, p: Place) {
    && p.node < |nodes| && nodes[p.node].inputs.Some?
    && ((p.key == 0 && "seed" in nodes[p.node].inputs.value) || (p.key == 1 && "noise_seed" in nodes[p.node].inputs.value))
  }

  lemma SeedNamedIsPresent(nodes: seq<WorkflowNode>, p: Place)
    ensures SeedNamed(nodes, p) <==> Present(nodes, p)
  {
  }

  /** The seeds are exactly the inputs of these two names, node by node, "seed" before "noise_seed". */
  lemma {:induction false} PlacesExactly(nodes: seq<WorkflowNode>, end: Place)
    requires end.node <= |nodes| && end.key <= 2
    ensures forall p :: p in Places(nodes, end) <==> Earlier(p, end) && SeedNamed(nodes, p)
    ensures forall i, j :: 0 <= i < j < |Places(nodes, end)| ==> Earlier(Places(nodes, end)[i], Places(nodes, end)[j])
    decreases end.node, end.key
  {
    forall p
      ensures SeedNamed(nodes, p) <==> Present(nodes, p)
    {
      SeedNamedIsPresent(nodes, p);
    }
    hide SeedNamed;
    PresentHasKey(nodes);
    hide Present;
    if end.key > 0 {
      PlacesExactly(nodes, Place(end.node, end.key - 1));
    } else if end.node > 0 {
      PlacesExactly(nodes, Place(end.node - 1, 2));
    }
  }

  lemma PresentHasKey(nodes: seq<WorkflowNode>)
    ensures forall p :: Present(nodes, p) ==> p.key < 2
  {
  }

  function SetSeed(nodes: seq<WorkflowNode>, place: Place, value: nat): seq<WorkflowNode>
    requires Present(nodes, place)
  {
    var node := nodes[place.node];
    nodes[place.node := node.(inputs := Some(node.inputs.value[KeyName(place.key) := Int(value)]))]
  }

  /** The same workflow but for the seeds: same nodes, same inputs, other inputs unchanged. */
  ghost predicate SameButSeeds(before: seq<WorkflowNode>, after: seq<WorkflowNode>) {
    && |after| == |before|
    && forall i :: 0 <= i < |before| ==>
         && after[i].nodeId == before[i].nodeId && after[i].classType == before[i].classType
         && SameInputs(before[i].inputs, after[i].inputs)
  }

  predicate SameInputs(before: Option<map<string, Number>>, after: Option<map<string, Number>>) {
    if before.None? then after.None?
    else
      && after.Some? && after.value.Keys == before.value.Keys
      && forall k :: k in before.value && k != "seed" && k != "noise_seed" ==> after.value[k] == before.value[k]
  }

  /** The values used before row `j`: those of earlier workflows and of the rows above. */
  function UsedBefore(used: set<nat>, rows: seq<Provenance>, j: nat): set<nat>
    requires j <= |rows|
  {
    used + set i | 0 <= i < j :: rows[i].value
  }

  /** Row `j` is about the `j`-th place: its original is read off the workflow as it was, its value stands there now. */
  ghost predicate Describes(before: seq<WorkflowNode>, after: seq<WorkflowNode>, place: Place, row: Provenance) {
    && Present(before, place) && Present(after, place)
    && row.nodeId == before[place.node].nodeId && row.inputKey == KeyName(place.key)
    && Seed(ValueAt(before, place)) == Some(row.original) && ValueAt(after, place) == Int(row.value)
  }

  /** The places before `end` are done and the rest is untouched. */
  ghost predicate Done(before: seq<WorkflowNode>, after: seq<WorkflowNode>, end: Place, rows: seq<Provenance>) {
    && end.node <= |before| && end.key <= 2
    && SameButSeeds(before, after) && |rows| == |Places(before, end)|
    && (forall j :: 0 <= j < |rows| ==> Describes(before, after, Places(before, end)[j], rows[j]))
    && forall q :: !Earlier(q, end) && Present(before, q) ==> Present(after, q) && ValueAt(after, q) == ValueAt(before, q)
  }

  /** Under the random policy a value is the first unused one from its own draw; under the other it is the original. */
  ghost predicate ChosenAt(policy: Policy, draw: nat -> Number, used: set<nat>, drawn: nat, rows: seq<Provenance>, j: nat)
    requires j < |rows|
  {
    if policy == PreserveU64 then rows[j].value == rows[j].original
    else
      && Seed(draw(drawn + j)).Some?
      && FirstUnused(Seed(draw(drawn + j)).value, UsedBefore(used, rows, j), rows[j].value)
  }

  ghost predicate Chosen(policy: Policy, draw: nat -> Number, used: set<nat>, drawn: nat, rows: seq<Provenance>) {
    forall j :: 0 <= j < |rows| ==> ChosenAt(policy, draw, used, drawn, rows, j)
  }

  lemma {:induction false} ChosenAreDistinct(draw: nat -> Number, used: set<nat>, drawn: nat, rows: seq<Provenance>)
    requires Chosen(RandomU64, draw, used, drawn, rows)
    ensures forall i, j :: 0 <= i < j < |rows| ==> rows[i].value != rows[j].value
    ensures forall j :: 0 <= j < |rows| ==> rows[j].value !in used
  {
    forall i, j | 0 <= i < j < |rows|
      ensures rows[i].value != rows[j].value
    {
      assert rows[i].value in UsedBefore(used, rows, j);
      assert ChosenAt(RandomU64, draw, used, drawn, rows, j);
    }
    forall j | 0 <= j < |rows|
      ensures rows[j].value !in used
    {
      assert ChosenAt(RandomU64, draw, used, drawn, rows, j);
    }
  }

  /** The seeds used so far by a manifest, and how many values have been drawn. */
  class SeedPool {
    var used: set<nat>
    var drawn: nat

    constructor ()
      ensures used == {} && drawn == 0
    {
      used, drawn := {}, 0;
    }
  }

  // ----- what the loop over a workflow's seeds computes -----

  /** The loop's variables: the workflow so far, its rows, the pool, and the failure that ended it. */
  datatype Progress = Progress(
    nodes: seq<WorkflowNode>, rows: seq<Provenance>, used: set<nat>, drawn: nat, failed: Option<Code>)

  /** The seed at one place, if there is one. */
  ghost function SeedAt(p: Progress, place: Place, policy: Policy, draw: nat -> Number): (q: Progress)
    requires place.node < |p.nodes| && place.key < 2
    ensures |q.nodes| == |p.nodes|
  {
    if p.failed.Some? then p
    else if p.nodes[place.node].inputs.None? then p.(failed := Some(MissingInputs))
    else if !Present(p.nodes, place) then p
    else
      var original := Seed(ValueAt(p.nodes, place));
      var start := Seed(draw(p.drawn));
      if original.None? then p.(failed := Some(UnsupportedSeedValue))
      else if policy == RandomU64 && start.None? then p.(drawn := p.drawn + 1, failed := Some(UnsupportedSeedValue))
      else
        var value := if policy == RandomU64 then FirstFree(start.value, p.used) else original.value;
        var rows := p.rows + [Provenance(p.nodes[place.node].nodeId, KeyName(place.key), original.value, value)];
        Progress(SetSeed(p.nodes, place, value), rows, if policy == RandomU64 then p.used + {value} else p.used,
                 if policy == RandomU64 then p.drawn + 1 else p.drawn,
                 if |rows| > MAX_SEEDS then Some(SeedReviewLimit) else None)
  }

  /** The places before `end`, in order. */
  ghost function SeedsTo(nodes: seq<WorkflowNode>, policy: Policy, draw: nat -> Number, used: set<nat>, drawn: nat, end: Place)
    : (p: Progress)
    requires end.node <= |nodes| && end.key <= 2 && (end.key > 0 ==> end.node < |nodes|)
    ensures |p.nodes| == |nodes|
    decreases end.node, end.key
  {
    if end.key > 0 then
      var last := Place(end.node, end.key - 1);
      SeedAt(SeedsTo(nodes, policy, draw, used, drawn, last), last, policy, draw)
    else if end.node > 0 then SeedsTo(nodes, policy, draw, used, drawn, Place(end.node - 1, 2))
    else Progress(nodes, [], used, drawn, None)
  }

  /** A whole workflow; it must have a seed. */
  ghost function Finalized(nodes: seq<WorkflowNode>, policy: Policy, draw: nat -> Number, used: set<nat>, drawn: nat): Progress {
    var p := SeedsTo(nodes, policy, draw, used, drawn, Place(|nodes|, 0));
    if p.failed.None? && p.rows == [] then p.(failed := Some(SeedBindingMissing)) else p
  }

  /** Finalise the seed at one place that has one. */
  method FinalizePlace(nodes: seq<WorkflowNode>, place: Place, policy: Policy, draw: nat -> Number, pool: SeedPool,
                       rows: seq<Provenance>)
    returns (r: Outcome<()>, after: seq<WorkflowNode>, more: seq<Provenance>)
    requires Present(nodes, place) && |pool.used| < SEEDS && |rows| <= MAX_SEEDS
    modifies pool
    ensures Progress(after, more, pool.used, pool.drawn, if r.Failed? then Some(r.code) else None)
            == SeedAt(Progress(nodes, rows, old(pool.used), old(pool.drawn), None), place, policy, draw)
    ensures old(pool.used) <= pool.used && |pool.used| <= |old(pool.used)| + 1
    ensures |more| <= |rows| + 1 && (r.Ok? ==> |more| == |rows| + 1 && |more| <= MAX_SEEDS)
  {
    after, more := nodes, rows;
    hide FirstUnused, SetSeed;
    var original := Seed(ValueAt(nodes, place));
    if original.None? {
      return Failed(UnsupportedSeedValue), nodes, rows;
    }
    var value := original.value;
    if policy == RandomU64 {
      var start := Seed(draw(pool.drawn));
      pool.drawn := pool.drawn + 1;
      if start.None? {
        return Failed(UnsupportedSeedValue), nodes, rows;
      }
      value := NextUnused(start.value, pool.used);
      FirstFreeIsFirstUnused(start.value, pool.used);
      FirstUnusedIsUnique(start.value, pool.used, value, FirstFree(start.value, pool.used));
      pool.used := pool.used + {value};
    }
    more := rows + [Provenance(nodes[place.node].nodeId, KeyName(place.key), original.value, value)];
    after := SetSeed(nodes, place, value);
    if |more| > MAX_SEEDS {
      return Failed(SeedReviewLimit), after, more;
    }
    r := Ok(());
  }

  lemma ChosenGrows(policy: Policy, draw: nat -> Number, used: set<nat>, drawn: nat, rows: seq<Provenance>, row: Provenance)
    requires Chosen(policy, draw, used, drawn, rows)
    requires policy == PreserveU64 ==> row.value == row.original
    requires policy == RandomU64 ==>
               && Seed(draw(drawn + |rows|)).Some?
               && FirstUnused(Seed(draw(drawn + |rows|)).value, UsedBefore(used, rows, |rows|), row.value)
    ensures Chosen(policy, draw, used, drawn, rows + [row])
    ensures UsedBefore(used, rows + [row], |rows| + 1) == UsedBefore(used, rows, |rows|) + {row.value}
  {
    hide FirstUnused, Seed;
    var more := rows + [row];
    forall j | 0 <= j <= |rows|
      ensures UsedBefore(used, more, j) == UsedBefore(used, rows, j) && ChosenAt(policy, draw, used, drawn, more, j)
    {
      assert forall i :: 0 <= i < j ==> more[i] == rows[i];
      assert UsedBefore(used, more, j) == UsedBefore(used, rows, j);
      assert j < |rows| ==> ChosenAt(policy, draw, used, drawn, rows, j);
    }
    assert more[|rows|] == row;
  }

  /** A place not done yet is as it was. */
  lemma Untouched(before: seq<WorkflowNode>, nodes: seq<WorkflowNode>, place: Place, rows: seq<Provenance>)
    requires Done(before, nodes, place, rows) && Present(nodes, place)
    ensures Present(before, place) && ValueAt(before, place) == ValueAt(nodes, place)
    ensures nodes[place.node].nodeId == before[place.node].nodeId
  {
  }

  lemma SetSeedTouches(nodes: seq<WorkflowNode>, place: Place, value: nat)
    requires Present(nodes, place)
    ensures SameButSeeds(nodes, SetSeed(nodes, place, value))
    ensures Present(SetSeed(nodes, place, value), place) && ValueAt(SetSeed(nodes, place, value), place) == Int(value)
    ensures forall q :: q != place && Present(nodes, q) ==>
              Present(SetSeed(nodes, place, value), q) && ValueAt(SetSeed(nodes, place, value), q) == ValueAt(nodes, q)
  {
  }

  lemma SameButSeedsTrans(a: seq<WorkflowNode>, b: seq<WorkflowNode>, c: seq<WorkflowNode>)
    requires SameButSeeds(a, b) && SameButSeeds(b, c)
    ensures SameButSeeds(a, c)
  {
  }

  lemma OneMorePlace(before: seq<WorkflowNode>, nodes: seq<WorkflowNode>, place: Place, rows: seq<Provenance>)
    requires Done(before, nodes, place, rows) && Present(nodes, place)
    ensures Present(before, place) && place.key < 2 && place.node < |before|
    ensures Places(before, Place(place.node, place.key + 1)) == Places(before, place) + [place]
  {
    Untouched(before, nodes, place, rows);
    hide Done;
  }

  lemma PlaceDone(before: seq<WorkflowNode>, nodes: seq<WorkflowNode>, place: Place, rows: seq<Provenance>, row: Provenance)
    requires Done(before, nodes, place, rows) && Present(nodes, place)
    requires row.nodeId == nodes[place.node].nodeId && row.inputKey == KeyName(place.key)
    requires Seed(ValueAt(nodes, place)) == Some(row.original)
    ensures Done(before, SetSeed(nodes, place, row.value), Place(place.node, place.key + 1), rows + [row])
  {
    Untouched(before, nodes, place, rows);
    hide SetSeed, Seed, SameButSeeds;
    var after := SetSeed(nodes, place, row.value);
    SetSeedTouches(nodes, place, row.value);
    SameButSeedsTrans(before, nodes, after);
    var places := Places(before, place);
    OneMorePlace(before, nodes, place, rows);
    hide Places;
    forall j | 0 <= j < |rows|
      ensures Describes(before, after, places[j], rows[j])
    {
      assert Describes(before, nodes, places[j], rows[j]) && places[j] in places;
    }
  }

  // ----- one workflow -----

  /** Every seed of the workflow, node by node, the plain key first. */
  function AllPlaces(nodes: seq<WorkflowNode>): seq<Place> { Places(nodes, Place(|nodes|, 0)) }

  /** Between one and a hundred seeds, each a 64-bit integer, as many usable draws, and no node without inputs. */
  ghost predicate Finalizable(nodes: seq<WorkflowNode>, policy: Policy, draw: nat -> Number, drawn: nat) {
    && 1 <= |AllPlaces(nodes)| <= MAX_SEEDS && (forall i :: 0 <= i < |nodes| ==> nodes[i].inputs.Some?)
    && UsableTo(nodes, policy, draw, drawn, |AllPlaces(nodes)|)
  }

  ghost predicate Usable(nodes: seq<WorkflowNode>, place: Place, policy: Policy, draw: nat -> Number, at: nat) {
    Present(nodes, place) && Seed(ValueAt(nodes, place)).Some? && (policy == RandomU64 ==> Seed(draw(at)).Some?)
  }

  /** The first `n` seeds and their draws are usable. */
  ghost predicate UsableTo(nodes: seq<WorkflowNode>, policy: Policy, draw: nat -> Number, drawn: nat, n: nat) {
    n <= |AllPlaces(nodes)| && forall j :: 0 <= j < n ==> Usable(nodes, AllPlaces(nodes)[j], policy, draw, drawn + j)
  }

  /** Finalise the two seeds one node may have. */
  method FinalizeNode(ghost before: seq<WorkflowNode>, now: seq<WorkflowNode>, i: nat, policy: Policy, draw: nat -> Number,
                      pool: SeedPool, sofar: seq<Provenance>, ghost used: set<nat>, ghost drawn: nat)
    returns (failed: Option<Code>, nodes: seq<WorkflowNode>, rows: seq<Provenance>)
    requires i < |before| == |now| && |sofar| <= MAX_SEEDS && |pool.used| + 1 < SEEDS
    requires Progress(now, sofar, pool.used, pool.drawn, None) == SeedsTo(before, policy, draw, used, drawn, Place(i, 0))
    modifies pool
    ensures Progress(nodes, rows, pool.used, pool.drawn, failed) == SeedsTo(before, policy, draw, used, drawn, Place(i, 2))
    ensures old(pool.used) <= pool.used && |pool.used| + |sofar| <= |old(pool.used)| + MAX_SEEDS + 1
    ensures failed.None? ==> |pool.used| + |sofar| <= |old(pool.used)| + |rows|
    ensures |nodes| == |before| && |rows| <= MAX_SEEDS + 1 && (failed.None? ==> |rows| <= MAX_SEEDS)
  {
    hide Present, SeedAt, SetSeed, Seed, ValueAt, KeyName, FirstUnused, SeedsTo;
    nodes, rows, failed := now, sofar, None;
    for key := 0 to 2
      invariant |nodes| == |before| && |rows| <= MAX_SEEDS && failed.None?
      invariant Progress(nodes, rows, pool.used, pool.drawn, None) == SeedsTo(before, policy, draw, used, drawn, Place(i, key))
      invariant old(pool.used) <= pool.used && |pool.used| + |sofar| <= |old(pool.used)| + |rows|
      invariant |rows| <= |sofar| + key
    {
      var place := Place(i, key);
      SeedAtNothing(Progress(nodes, rows, pool.used, pool.drawn, None), place, policy, draw);
      SeedsToNext(before, policy, draw, used, drawn, i, key);
      if nodes[i].inputs.None? {
        FailedAtSecond(before, policy, draw, used, drawn, i, key);
        return Some(MissingInputs), nodes, rows;
      }
      if !Present(nodes, place) {
        continue;
      }
      var step;
      step, nodes, rows := FinalizePlace(nodes, place, policy, draw, pool, rows);
      if step.Failed? {
        FailedAtSecond(before, policy, draw, used, drawn, i, key);
        return Some(step.code), nodes, rows;
      }
    }
  }

  lemma FailedAtSecond(nodes: seq<WorkflowNode>, policy: Policy, draw: nat -> Number, used: set<nat>, drawn: nat,
                       i: nat, key: nat)
    requires i < |nodes| && key < 2 && SeedsTo(nodes, policy, draw, used, drawn, Place(i, key + 1)).failed.Some?
    ensures SeedsTo(nodes, policy, draw, used, drawn, Place(i, 2)) == SeedsTo(nodes, policy, draw, used, drawn, Place(i, key + 1))
  {
  }

  /** Finalise every seed of one workflow; a failure may come after some values were already taken. */
  method FinalizeSeeds(before: seq<WorkflowNode>, policy: Policy, draw: nat -> Number, pool: SeedPool)
    returns (r: Outcome<seq<Provenance>>, nodes: seq<WorkflowNode>)
    requires |pool.used| + MAX_SEEDS + 1 < SEEDS
    modifies pool
    ensures old(pool.used) <= pool.used && |pool.used| <= |old(pool.used)| + MAX_SEEDS + 1
    ensures var p := Finalized(before, policy, draw, old(pool.used), old(pool.drawn));
            && nodes == p.nodes && pool.used == p.used && pool.drawn == p.drawn
            && r == if p.failed.Some? then Failed(p.failed.value) else Ok(p.rows)
    ensures r.Ok? ==> Done(before, nodes, Place(|before|, 0), r.value) && 1 <= |r.value| <= MAX_SEEDS
    ensures r.Ok? ==> Chosen(policy, draw, old(pool.used), old(pool.drawn), r.value)
    ensures r.Ok? <==> Finalizable(before, policy, draw, old(pool.drawn))
    ensures r.Failed? ==> SeedGrounds(before, policy, draw, old(pool.drawn), r.code)
  {
    FinalizedMeans(before, policy, draw, pool.used, pool.drawn);
    FinalizedIs(before, policy, draw, pool.used, pool.drawn);
    hide Finalized, Done, Chosen, SeedAt, Finalizable, SeedGrounds, SeedsTo;
    SeedsToStart(before, policy, draw, pool.used, pool.drawn);
    nodes := before;
    var rows: seq<Provenance> := [];
    for i := 0 to |before|
      invariant |nodes| == |before| && |rows| <= MAX_SEEDS
      invariant Progress(nodes, rows, pool.used, pool.drawn, None)
                == SeedsTo(before, policy, draw, old(pool.used), old(pool.drawn), Place(i, 0))
      invariant old(pool.used) <= pool.used && |pool.used| <= |old(pool.used)| + |rows|
    {
      var failed;
      failed, nodes, rows := FinalizeNode(before, nodes, i, policy, draw, pool, rows, old(pool.used), old(pool.drawn));
      SeedsToNode(before, policy, draw, old(pool.used), old(pool.drawn), i);
      if failed.Some? {
        FailedStays(before, policy, draw, old(pool.used), old(pool.drawn), Place(i, 2));
        return Failed(failed.value), nodes;
      }
    }
    if rows == [] {
      return Failed(SeedBindingMissing), nodes;
    }
    r := Ok(rows);
  }

  /** The loop over places, place by place. */
  lemma SeedsToNext(nodes: seq<WorkflowNode>, policy: Policy, draw: nat -> Number, used: set<nat>, drawn: nat, i: nat, key: nat)
    requires i < |nodes| && key < 2
    ensures SeedsTo(nodes, policy, draw, used, drawn, Place(i, key + 1))
            == SeedAt(SeedsTo(nodes, policy, draw, used, drawn, Place(i, key)), Place(i, key), policy, draw)
  {
    hide SeedAt;
  }

  lemma SeedsToNode(nodes: seq<WorkflowNode>, policy: Policy, draw: nat -> Number, used: set<nat>, drawn: nat, i: nat)
    requires i < |nodes|
    ensures SeedsTo(nodes, policy, draw, used, drawn, Place(i + 1, 0))
            == SeedsTo(nodes, policy, draw, used, drawn, Place(i, 2))
  {
    hide SeedAt;
  }

  lemma SeedsToStart(nodes: seq<WorkflowNode>, policy: Policy, draw: nat -> Number, used: set<nat>, drawn: nat)
    ensures SeedsTo(nodes, policy, draw, used, drawn, Place(0, 0)) == Progress(nodes, [], used, drawn, None)
  {
  }

  /** Whatever comes of a workflow, the pool keeps every value its rows were given, and nothing else is added. */
  lemma {:induction false} TakenAreKept(nodes: seq<WorkflowNode>, policy: Policy, draw: nat -> Number, used: set<nat>,
                                        drawn: nat, end: Place)
    requires end.node <= |nodes| && end.key <= 2 && (end.key > 0 ==> end.node < |nodes|)
    ensures var p := SeedsTo(nodes, policy, draw, used, drawn, end);
            p.used == if policy == RandomU64 then UsedBefore(used, p.rows, |p.rows|) else used
    decreases end.node, end.key
  {
    if end.key > 0 {
      var last := Place(end.node, end.key - 1);
      TakenAreKept(nodes, policy, draw, used, drawn, last);
      TakenHere(SeedsTo(nodes, policy, draw, used, drawn, last), last, policy, draw, used);
    } else if end.node > 0 {
      TakenAreKept(nodes, policy, draw, used, drawn, Place(end.node - 1, 2));
    }
  }

  lemma TakenHere(p: Progress, place: Place, policy: Policy, draw: nat -> Number, used: set<nat>)
    requires place.node < |p.nodes| && place.key < 2
    requires p.used == if policy == RandomU64 then UsedBefore(used, p.rows, |p.rows|) else used
    ensures var q := SeedAt(p, place, policy, draw);
            q.used == if policy == RandomU64 then UsedBefore(used, q.rows, |q.rows|) else used
  {
    hide SetSeed, Seed, FirstFree, ValueAt;
    var q := SeedAt(p, place, policy, draw);
    if |q.rows| > |p.rows| {
      var row := q.rows[|p.rows|];
      assert q.rows == p.rows + [row];
      OneMoreTaken(used, p.rows, row);
    }
  }

  lemma OneMoreTaken(used: set<nat>, rows: seq<Provenance>, row: Provenance)
    ensures UsedBefore(used, rows + [row], |rows| + 1) == UsedBefore(used, rows, |rows|) + {row.value}
  {
    var longer := rows + [row];
    assert forall i :: 0 <= i < |rows| ==> longer[i] == rows[i];
    assert longer[|rows|] == row;
  }

  lemma FinalizedIs(nodes: seq<WorkflowNode>, policy: Policy, draw: nat -> Number, used: set<nat>, drawn: nat)
    ensures var p := SeedsTo(nodes, policy, draw, used, drawn, Place(|nodes|, 0));
            Finalized(nodes, policy, draw, used, drawn)
            == if p.failed.None? && p.rows == [] then p.(failed := Some(SeedBindingMissing)) else p
  {
  }

  /** A place without a seed, or with no inputs to look in. */
  lemma SeedAtNothing(p: Progress, place: Place, policy: Policy, draw: nat -> Number)
    requires place.node < |p.nodes| && place.key < 2 && p.failed.None?
    ensures p.nodes[place.node].inputs.None? ==> SeedAt(p, place, policy, draw) == p.(failed := Some(MissingInputs))
    ensures p.nodes[place.node].inputs.Some? && !Present(p.nodes, place) ==> SeedAt(p, place, policy, draw) == p
  {
  }

  lemma UsableIs(nodes: seq<WorkflowNode>, place: Place, policy: Policy, draw: nat -> Number, at: nat)
    requires Present(nodes, place)
    ensures Usable(nodes, place, policy, draw, at)
            <==> Seed(ValueAt(nodes, place)).Some? && (policy == RandomU64 ==> Seed(draw(at)).Some?)
  {
  }

  lemma {:induction false} FailedStays(nodes: seq<WorkflowNode>, policy: Policy, draw: nat -> Number, used: set<nat>,
                                       drawn: nat, place: Place)
    requires place.node < |nodes| && place.key <= 2
    requires SeedsTo(nodes, policy, draw, used, drawn, place).failed.Some?
    ensures SeedsTo(nodes, policy, draw, used, drawn, Place(|nodes|, 0)) == SeedsTo(nodes, policy, draw, used, drawn, place)
    decreases |nodes| - place.node, 2 - place.key
  {
    if place.key < 2 {
      FailedStays(nodes, policy, draw, used, drawn, Place(place.node, place.key + 1));
    } else if place.node + 1 < |nodes| {
      FailedStays(nodes, policy, draw, used, drawn, Place(place.node + 1, 0));
    }
  }

  /** Some node has no inputs, and the seeds before it are at most a hundred and usable. */
  ghost predicate InputsMissing(nodes: seq<WorkflowNode>, policy: Policy, draw: nat -> Number, drawn: nat) {
    exists i :: 0 <= i < |nodes| && nodes[i].inputs.None? && |Places(nodes, Place(i, 0))| <= MAX_SEEDS
                && UsableTo(nodes, policy, draw, drawn, |Places(nodes, Place(i, 0))|)
  }

  /** Why a workflow's seeds cannot be finalised, code by code: what the loop found, at the draw it had come to. */
  ghost predicate SeedGrounds(nodes: seq<WorkflowNode>, policy: Policy, draw: nat -> Number, drawn: nat, code: Code) {
    match code
    case UnsupportedSeedValue =>
      exists j: nat :: j < |AllPlaces(nodes)| && j <= MAX_SEEDS && UsableTo(nodes, policy, draw, drawn, j)
                       && !Usable(nodes, AllPlaces(nodes)[j], policy, draw, drawn + j)
    case SeedReviewLimit => UsableTo(nodes, policy, draw, drawn, MAX_SEEDS + 1)
    case SeedBindingMissing => AllPlaces(nodes) == []
    case MissingInputs => InputsMissing(nodes, policy, draw, drawn)
    case _ => false
  }

  /** The loop's variables while it has not failed. */
  ghost predicate Going(before: seq<WorkflowNode>, policy: Policy, draw: nat -> Number, used: set<nat>, drawn: nat,
                        end: Place, p: Progress)
    requires end.node <= |before| && (end.key > 0 ==> end.node < |before|)
  {
    && Done(before, p.nodes, end, p.rows) && Chosen(policy, draw, used, drawn, p.rows) && |p.rows| <= MAX_SEEDS
    && (forall i :: 0 <= i < end.node ==> before[i].inputs.Some?)
    && (end.key > 0 ==> before[end.node].inputs.Some?)
    && p.used == (if policy == RandomU64 then UsedBefore(used, p.rows, |p.rows|) else used)
    && p.drawn == (if policy == RandomU64 then drawn + |p.rows| else drawn)
  }

  lemma NothingDone(before: seq<WorkflowNode>, policy: Policy, draw: nat -> Number, used: set<nat>, drawn: nat)
    ensures Done(before, before, Place(0, 0), []) && Chosen(policy, draw, used, drawn, [])
    ensures UsedBefore(used, [], 0) == used
  {
  }

  lemma SameCount(before: seq<WorkflowNode>, nodes: seq<WorkflowNode>, end: Place, rows: seq<Provenance>)
    requires Done(before, nodes, end, rows)
    ensures |nodes| == |before| && end.node <= |before| && end.key <= 2 && |rows| == |Places(before, end)|
  {
  }

  lemma AbsentDone(before: seq<WorkflowNode>, nodes: seq<WorkflowNode>, place: Place, rows: seq<Provenance>)
    requires Done(before, nodes, place, rows) && !Present(nodes, place) && place.key < 2 && place.node < |before|
    ensures Done(before, nodes, Place(place.node, place.key + 1), rows)
  {
    assert Places(before, Place(place.node, place.key + 1)) == Places(before, place);
  }

  lemma NextNode(before: seq<WorkflowNode>, nodes: seq<WorkflowNode>, i: nat, rows: seq<Provenance>)
    requires Done(before, nodes, Place(i, 2), rows) && i < |before|
    ensures Done(before, nodes, Place(i + 1, 0), rows)
  {
    assert Places(before, Place(i + 1, 0)) == Places(before, Place(i, 2));
    assert forall q: Place :: q.key < 2 && !Earlier(q, Place(i + 1, 0)) ==> !Earlier(q, Place(i, 2));
  }

  lemma {:induction false} PlacesGrow(nodes: seq<WorkflowNode>, a: Place, b: Place)
    requires b.node <= |nodes| && a.key <= 2 && b.key <= 2 && (a == b || Earlier(a, b))
    ensures a.node <= |nodes| && Places(nodes, a) <= Places(nodes, b)
    decreases b.node, b.key
  {
    if a != b {
      if b.key > 0 {
        PlacesGrow(nodes, a, Place(b.node, b.key - 1));
      } else {
        PlacesGrow(nodes, a, Place(b.node - 1, 2));
      }
    }
  }

  /** A seed that is looked at has its place in the order. */
  lemma SomePlace(nodes: seq<WorkflowNode>, place: Place)
    requires Present(nodes, place)
    ensures
      var n := |Places(nodes, place)|;
      n < |AllPlaces(nodes)| && AllPlaces(nodes)[n] == place
  {
    PlacesGrow(nodes, Place(place.node, place.key + 1), Place(|nodes|, 0));
    assert Places(nodes, Place(place.node, place.key + 1)) == Places(nodes, place) + [place];
  }

  lemma DoneIsUsable(before: seq<WorkflowNode>, nodes: seq<WorkflowNode>, policy: Policy, draw: nat -> Number,
                     used: set<nat>, drawn: nat, end: Place, rows: seq<Provenance>)
    requires Done(before, nodes, end, rows) && Chosen(policy, draw, used, drawn, rows)
    ensures UsableTo(before, policy, draw, drawn, |rows|) && Places(before, end) <= AllPlaces(before)
  {
    hide Places, Seed, FirstUnused, UsedBefore, SameButSeeds;
    if end != Place(|before|, 0) && end.node < |before| {
      PlacesGrow(before, end, Place(|before|, 0));
    } else {
      NothingBeyond(before, end);
    }
    forall j | 0 <= j < |rows|
      ensures Usable(before, AllPlaces(before)[j], policy, draw, drawn + j)
    {
      assert Describes(before, nodes, Places(before, end)[j], rows[j]);
      assert ChosenAt(policy, draw, used, drawn, rows, j);
    }
  }

  lemma NothingBeyond(nodes: seq<WorkflowNode>, end: Place)
    requires end.node == |nodes| && end.key <= 2
    ensures Places(nodes, end) == AllPlaces(nodes)
  {
    assert end.key > 0 ==> Places(nodes, end) == Places(nodes, Place(end.node, end.key - 1));
  }

  lemma MissingHasGrounds(before: seq<WorkflowNode>, policy: Policy, draw: nat -> Number, used: set<nat>, drawn: nat,
                          place: Place, p: Progress)
    requires place.node < |before| && place.key < 2 && Going(before, policy, draw, used, drawn, place, p)
    requires |p.nodes| == |before| && p.nodes[place.node].inputs.None?
    ensures SeedGrounds(before, policy, draw, drawn, MissingInputs)
  {
    DoneIsUsable(before, p.nodes, policy, draw, used, drawn, place, p.rows);
    hide Places, UsableTo, Chosen;
    assert place == Place(place.node, 0);
  }

  lemma UnsupportedHasGrounds(before: seq<WorkflowNode>, policy: Policy, draw: nat -> Number, used: set<nat>, drawn: nat,
                              place: Place, p: Progress)
    requires place.node < |before| && place.key < 2 && Going(before, policy, draw, used, drawn, place, p)
    requires Present(p.nodes, place)
    requires Seed(ValueAt(p.nodes, place)).None? || (policy == RandomU64 && Seed(draw(p.drawn)).None?)
    ensures SeedGrounds(before, policy, draw, drawn, UnsupportedSeedValue)
  {
    hide Done, Chosen, UsableTo, Places, Present, Seed, AllPlaces, UsedBefore, Usable;
    DoneIsUsable(before, p.nodes, policy, draw, used, drawn, place, p.rows);
    Untouched(before, p.nodes, place, p.rows);
    SomePlace(before, place);
    SameCount(before, p.nodes, place, p.rows);
    UsableIs(before, place, policy, draw, drawn + |p.rows|);
    assert AllPlaces(before)[|p.rows|] == place;
  }

  lemma TakenGoesOn(before: seq<WorkflowNode>, policy: Policy, draw: nat -> Number, used: set<nat>, drawn: nat,
                    place: Place, p: Progress)
    requires place.node < |before| && place.key < 2 && Going(before, policy, draw, used, drawn, place, p)
    requires |p.nodes| == |before| && p.failed.None? && Present(p.nodes, place) && |p.used| < SEEDS
    requires Seed(ValueAt(p.nodes, place)).Some? && (policy == RandomU64 ==> Seed(draw(p.drawn)).Some?)
    ensures var q := SeedAt(p, place, policy, draw);
            && |q.rows| == |p.rows| + 1 && (q.failed.None? <==> |q.rows| <= MAX_SEEDS)
            && (q.failed.Some? ==> q.failed.value == SeedReviewLimit)
            && Done(before, q.nodes, Place(place.node, place.key + 1), q.rows)
            && Chosen(policy, draw, used, drawn, q.rows)
            && q.used == (if policy == RandomU64 then UsedBefore(used, q.rows, |q.rows|) else used)
            && q.drawn == (if policy == RandomU64 then drawn + |q.rows| else drawn)
  {
    hide Done, Chosen, UsedBefore, FirstUnused, SetSeed;
    var q := SeedAt(p, place, policy, draw);
    var row := q.rows[|p.rows|];
    assert q.rows == p.rows + [row];
    if policy == RandomU64 {
      FirstFreeIsFirstUnused(Seed(draw(p.drawn)).value, p.used);
    }
    PlaceDone(before, p.nodes, place, p.rows, row);
    ChosenGrows(policy, draw, used, drawn, p.rows, row);
  }

  lemma SeedAtMeans(before: seq<WorkflowNode>, policy: Policy, draw: nat -> Number, used: set<nat>, drawn: nat,
                    place: Place, p: Progress)
    requires place.node < |before| && place.key < 2 && |p.nodes| == |before|
    requires p.failed.None? && Going(before, policy, draw, used, drawn, place, p) && |p.used| < SEEDS
    ensures var q := SeedAt(p, place, policy, draw);
            if q.failed.None? then Going(before, policy, draw, used, drawn, Place(place.node, place.key + 1), q)
            else q.failed.value != SeedBindingMissing && SeedGrounds(before, policy, draw, drawn, q.failed.value)
  {
    hide Done, Chosen, UsedBefore, FirstUnused, SetSeed, SeedGrounds;
    InputsStay(before, p.nodes, place, p.rows);
    SeedAtNothing(p, place, policy, draw);
    if p.nodes[place.node].inputs.None? {
      MissingHasGrounds(before, policy, draw, used, drawn, place, p);
    } else if !Present(p.nodes, place) {
      AbsentDone(before, p.nodes, place, p.rows);
    } else if Seed(ValueAt(p.nodes, place)).None? || (policy == RandomU64 && Seed(draw(p.drawn)).None?) {
      UnsupportedHasGrounds(before, policy, draw, used, drawn, place, p);
    } else {
      TakenGoesOn(before, policy, draw, used, drawn, place, p);
      var q := SeedAt(p, place, policy, draw);
      hide SeedAt;
      if q.failed.Some? {
        DoneIsUsable(before, q.nodes, policy, draw, used, drawn, Place(place.node, place.key + 1), q.rows);
        LimitHasGrounds(before, policy, draw, drawn, |q.rows|);
      }
    }
  }

  lemma LimitHasGrounds(before: seq<WorkflowNode>, policy: Policy, draw: nat -> Number, drawn: nat, n: nat)
    requires UsableTo(before, policy, draw, drawn, n) && n > MAX_SEEDS
    ensures SeedGrounds(before, policy, draw, drawn, SeedReviewLimit)
  {
    hide Usable, Places;
  }

  lemma InputsStay(before: seq<WorkflowNode>, nodes: seq<WorkflowNode>, place: Place, rows: seq<Provenance>)
    requires Done(before, nodes, place, rows) && place.node < |before|
    ensures |nodes| == |before| && (nodes[place.node].inputs.None? <==> before[place.node].inputs.None?)
  {
  }

  lemma UsedCount(used: set<nat>, rows: seq<Provenance>, n: nat)
    requires n <= |rows|
    ensures |UsedBefore(used, rows, n)| <= |used| + n
  {
    if n > 0 {
      UsedCount(used, rows, n - 1);
      assert UsedBefore(used, rows, n) == UsedBefore(used, rows, n - 1) + {rows[n - 1].value};
    } else {
      assert UsedBefore(used, rows, 0) == used;
    }
  }

  /** What the loop has made of the places before `end`, or why it has stopped. */
  lemma {:induction false} SeedsToMeans(before: seq<WorkflowNode>, policy: Policy, draw: nat -> Number, used: set<nat>,
                                        drawn: nat, end: Place)
    requires |used| + MAX_SEEDS + 1 < SEEDS
    requires end.node <= |before| && end.key <= 2 && (end.key > 0 ==> end.node < |before|)
    ensures var p := SeedsTo(before, policy, draw, used, drawn, end);
            if p.failed.None? then Going(before, policy, draw, used, drawn, end, p)
            else p.failed.value != SeedBindingMissing && SeedGrounds(before, policy, draw, drawn, p.failed.value)
    decreases end.node, end.key
  {
    hide Done, Chosen, UsedBefore, SeedGrounds, SeedAt;
    if end.key > 0 {
      var last := Place(end.node, end.key - 1);
      SeedsToMeans(before, policy, draw, used, drawn, last);
      var p := SeedsTo(before, policy, draw, used, drawn, last);
      if p.failed.None? {
        UsedCount(used, p.rows, |p.rows|);
        SeedAtMeans(before, policy, draw, used, drawn, last, p);
      } else {
        SeedAtFailed(p, last, policy, draw);
      }
    } else if end.node > 0 {
      SeedsToMeans(before, policy, draw, used, drawn, Place(end.node - 1, 2));
      var p := SeedsTo(before, policy, draw, used, drawn, Place(end.node - 1, 2));
      if p.failed.None? {
        NextNode(before, p.nodes, end.node - 1, p.rows);
      }
    } else {
      NothingDone(before, policy, draw, used, drawn);
    }
  }

  lemma SeedAtFailed(p: Progress, place: Place, policy: Policy, draw: nat -> Number)
    requires place.node < |p.nodes| && place.key < 2 && p.failed.Some?
    ensures SeedAt(p, place, policy, draw) == p
  {
  }

  /** One workflow takes at most a hundred and one values from the pool. */
  lemma {:induction false} SeedsToBound(before: seq<WorkflowNode>, policy: Policy, draw: nat -> Number, used: set<nat>,
                                        drawn: nat, end: Place)
    requires end.node <= |before| && end.key <= 2 && (end.key > 0 ==> end.node < |before|)
    ensures var p := SeedsTo(before, policy, draw, used, drawn, end);
            && |p.used| <= |used| + |p.rows| && |p.rows| <= MAX_SEEDS + 1 && (p.failed.None? ==> |p.rows| <= MAX_SEEDS)
    decreases end.node, end.key
  {
    hide SetSeed, FirstFree, Seed;
    if end.key > 0 {
      SeedsToBound(before, policy, draw, used, drawn, Place(end.node, end.key - 1));
    } else if end.node > 0 {
      SeedsToBound(before, policy, draw, used, drawn, Place(end.node - 1, 2));
    }
  }

  lemma GroundsRefuse(nodes: seq<WorkflowNode>, policy: Policy, draw: nat -> Number, drawn: nat, code: Code)
    requires SeedGrounds(nodes, policy, draw, drawn, code)
    ensures !Finalizable(nodes, policy, draw, drawn)
  {
    hide Places, Usable;
  }

  /** What finalising one workflow means, from the pool it starts with: it succeeds exactly on a finalisable workflow, and
      then every seed is the original or the first unused one from its own draw, and the pool has moved on by exactly
      these; otherwise the code has its grounds. */
  lemma FinalizedMeans(before: seq<WorkflowNode>, policy: Policy, draw: nat -> Number, used: set<nat>, drawn: nat)
    requires |used| + MAX_SEEDS + 1 < SEEDS
    ensures var p := Finalized(before, policy, draw, used, drawn);
            && (p.failed.None? <==> Finalizable(before, policy, draw, drawn))
            && (p.failed.Some? ==> SeedGrounds(before, policy, draw, drawn, p.failed.value))
            && (p.failed.None? ==>
                  && Done(before, p.nodes, Place(|before|, 0), p.rows) && 1 <= |p.rows| <= MAX_SEEDS
                  && Chosen(policy, draw, used, drawn, p.rows)
                  && p.used == (if policy == RandomU64 then UsedBefore(used, p.rows, |p.rows|) else used)
                  && p.drawn == (if policy == RandomU64 then drawn + |p.rows| else drawn))
  {
    hide Done, Chosen, UsedBefore, SeedsTo, Places;
    var end := Place(|before|, 0);
    SeedsToMeans(before, policy, draw, used, drawn, end);
    var p := SeedsTo(before, policy, draw, used, drawn, end);
    if p.failed.None? {
      SameCount(before, p.nodes, end, p.rows);
      DoneIsUsable(before, p.nodes, policy, draw, used, drawn, end, p.rows);
    } else {
      GroundsRefuse(before, policy, draw, drawn, p.failed.value);
    }
  }

  lemma PlacesBefore(nodes: seq<WorkflowNode>, last: Place)
    requires last.node < |nodes| && last.key < 2
    ensures Places(nodes, last) <= Places(nodes, Place(last.node, last.key + 1)) <= AllPlaces(nodes)
    ensures Present(nodes, last) ==> Places(nodes, Place(last.node, last.key + 1)) == Places(nodes, last) + [last]
  {
    PlacesGrow(nodes, Place(last.node, last.key + 1), Place(|nodes|, 0));
  }

  /** At usable places, not too many of them, nothing but a node without inputs stops the loop. */
  lemma UsablePlacePasses(before: seq<WorkflowNode>, policy: Policy, draw: nat -> Number, used: set<nat>, drawn: nat,
                          last: Place, p: Progress)
    requires last.node < |before| && last.key < 2 && |p.nodes| == |before| && p.failed.None? && |p.used| < SEEDS
    requires Going(before, policy, draw, used, drawn, last, p)
    requires var n := |Places(before, Place(last.node, last.key + 1))|;
             n <= MAX_SEEDS && UsableTo(before, policy, draw, drawn, n)
    ensures SeedAt(p, last, policy, draw).failed in {None, Some(MissingInputs)}
  {
    hide Chosen, UsedBefore, FirstUnused, SetSeed, Places;
    PlacesBefore(before, last);
    SameCount(before, p.nodes, last, p.rows);
    SeedAtNothing(p, last, policy, draw);
    if Present(p.nodes, last) {
      Untouched(before, p.nodes, last, p.rows);
      assert AllPlaces(before)[|p.rows|] == last;
      assert Usable(before, AllPlaces(before)[|p.rows|], policy, draw, drawn + |p.rows|);
      hide Done;
      TakenGoesOn(before, policy, draw, used, drawn, last, p);
    }
  }

  lemma {:induction false} UsablePasses(before: seq<WorkflowNode>, policy: Policy, draw: nat -> Number, used: set<nat>,
                                        drawn: nat, end: Place)
    requires |used| + MAX_SEEDS + 1 < SEEDS
    requires end.node <= |before| && end.key <= 2 && (end.key > 0 ==> end.node < |before|)
    requires |Places(before, end)| <= MAX_SEEDS && UsableTo(before, policy, draw, drawn, |Places(before, end)|)
    ensures SeedsTo(before, policy, draw, used, drawn, end).failed in {None, Some(MissingInputs)}
    decreases end.node, end.key
  {
    hide Done, Chosen, UsedBefore, SeedGrounds, SeedAt, Usable;
    if end.key > 0 {
      var last := Place(end.node, end.key - 1);
      PlacesBefore(before, last);
      UsablePasses(before, policy, draw, used, drawn, last);
      SeedsToMeans(before, policy, draw, used, drawn, last);
      var p := SeedsTo(before, policy, draw, used, drawn, last);
      if p.failed.None? {
        UsedCount(used, p.rows, |p.rows|);
        UsablePlacePasses(before, policy, draw, used, drawn, last, p);
      } else {
        SeedAtFailed(p, last, policy, draw);
      }
    } else if end.node > 0 {
      UsablePasses(before, policy, draw, used, drawn, Place(end.node - 1, 2));
    }
  }

  /** The loop over the seeds raises, which no blocker does, exactly at a node without inputs that it reaches. */
  lemma RaisesExactly(before: seq<WorkflowNode>, policy: Policy, draw: nat -> Number, used: set<nat>, drawn: nat)
    requires |used| + MAX_SEEDS + 1 < SEEDS
    ensures Finalized(before, policy, draw, used, drawn).failed == Some(MissingInputs)
            <==> InputsMissing(before, policy, draw, drawn)
  {
    hide SeedAt, Done, Chosen, UsedBefore, SeedsTo, Usable, UsableTo, Places;
    FinalizedMeans(before, policy, draw, used, drawn);
    if i :| 0 <= i < |before| && before[i].inputs.None? && |Places(before, Place(i, 0))| <= MAX_SEEDS
            && UsableTo(before, policy, draw, drawn, |Places(before, Place(i, 0))|)
    {
      ReachedNodeRaises(before, policy, draw, used, drawn, i);
      FinalizedIs(before, policy, draw, used, drawn);
    }
  }

  lemma ReachedNodeRaises(before: seq<WorkflowNode>, policy: Policy, draw: nat -> Number, used: set<nat>, drawn: nat, i: nat)
    requires |used| + MAX_SEEDS + 1 < SEEDS && i < |before| && before[i].inputs.None?
    requires |Places(before, Place(i, 0))| <= MAX_SEEDS
    requires UsableTo(before, policy, draw, drawn, |Places(before, Place(i, 0))|)
    ensures SeedsTo(before, policy, draw, used, drawn, Place(|before|, 0)).failed == Some(MissingInputs)
  {
    hide SeedAt, Done, Chosen, UsedBefore, UsableTo, Places, SeedGrounds;
    UsablePasses(before, policy, draw, used, drawn, Place(i, 0));
    SeedsToMeans(before, policy, draw, used, drawn, Place(i, 0));
    var p := SeedsTo(before, policy, draw, used, drawn, Place(i, 0));
    if p.failed.None? {
      InputsStay(before, p.nodes, Place(i, 0), p.rows);
      SeedAtNothing(p, Place(i, 0), policy, draw);
      FailedStays(before, policy, draw, used, drawn, Place(i, 1));
    } else {
      FailedStays(before, policy, draw, used, drawn, Place(i, 0));
    }
  }
}
