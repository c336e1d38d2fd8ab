/** The bounded, undirected neighbourhood of a selection in a project graph. */
module Neighborhood {
  import opened CapacityTypes

  type Id = string

  /** Edges may name ids that are not nodes. */
  datatype Project = Project(nodes: set<Id>, edges: seq<(Id, Id)>)

  predicate Linked(edges: seq<(Id, Id)>, a: Id, b: Id) { (a, b) in edges || (b, a) in edges }

  function ValidSelection(project: Project, selected: seq<Id>): set<Id> {
    set id | id in selected && id in project.nodes
  }

  // ----- the reference definition: undirected paths -----

  predicate IsPath(edges: seq<(Id, Id)>, path: seq<Id>) {
    |path| > 0 && forall i :: 0 <= i < |path| - 1 ==> Linked(edges, path[i], path[i + 1])
  }

  predicate Joins(edges: seq<(Id, Id)>, seeds: set<Id>, path: seq<Id>, id: Id) {
    IsPath(edges, path) && path[0] in seeds && path[|path| - 1] == id
  }

  /** Some undirected path of at most `steps` edges leads from a seed to `id`. */
  ghost predicate Joined(edges: seq<(Id, Id)>, seeds: set<Id>, steps: nat, id: Id) {
    exists path :: Joins(edges, seeds, path, id) && |path| <= steps + 1
  }

  // ----- the same, level by level -----

  ghost predicate Within(edges: seq<(Id, Id)>, seeds: set<Id>, k: nat, id: Id) {
    if k == 0 then id in seeds
    else Within(edges, seeds, k - 1, id) || exists m :: Within(edges, seeds, k - 1, m) && Linked(edges, m, id)
  }

  lemma {:induction false} PathIsWithin(edges: seq<(Id, Id)>, seeds: set<Id>, path: seq<Id>, k: nat)
    requires IsPath(edges, path) && path[0] in seeds && |path| <= k + 1
    ensures Within(edges, seeds, k, path[|path| - 1])
  {
    if |path| == 1 {
      SeedsStay(edges, seeds, k, path[0]);
    } else {
      PathIsWithin(edges, seeds, path[..|path| - 1], k - 1);
      assert Linked(edges, path[|path| - 2], path[|path| - 1]);
    }
  }

  lemma {:induction false} SeedsStay(edges: seq<(Id, Id)>, seeds: set<Id>, k: nat, id: Id)
    requires id in seeds
    ensures Within(edges, seeds, k, id)
  {
    if k > 0 {
      SeedsStay(edges, seeds, k - 1, id);
    }
  }

  lemma {:induction false} WithinHasPath(edges: seq<(Id, Id)>, seeds: set<Id>, k: nat, id: Id) returns (path: seq<Id>)
    requires Within(edges, seeds, k, id)
    ensures Joins(edges, seeds, path, id) && |path| <= k + 1
  {
    if k == 0 {
      path := [id];
    } else if Within(edges, seeds, k - 1, id) {
      path := WithinHasPath(edges, seeds, k - 1, id);
    } else {
      var m :| Within(edges, seeds, k - 1, m) && Linked(edges, m, id);
      var shorter := WithinHasPath(edges, seeds, k - 1, m);
      path := shorter + [id];
      assert path[|shorter| - 1] == m;
    }
  }

  /** The two definitions agree. */
  lemma WithinIsJoined(edges: seq<(Id, Id)>, seeds: set<Id>, k: nat, id: Id)
    ensures Within(edges, seeds, k, id) <==> Joined(edges, seeds, k, id)
  {
    if Within(edges, seeds, k, id) {
      var path := WithinHasPath(edges, seeds, k, id);
    }
    if Joined(edges, seeds, k, id) {
      var path :| Joins(edges, seeds, path, id) && |path| <= k + 1;
      PathIsWithin(edges, seeds, path, k);
    }
  }

  /** An empty frontier loses nothing: once a level adds no id, no later level does. */
  lemma {:induction false} NothingFurther(edges: seq<(Id, Id)>, seeds: set<Id>, k: nat, n: nat, id: Id)
    requires k <= n
    requires forall x :: Within(edges, seeds, k + 1, x) ==> Within(edges, seeds, k, x)
    ensures Within(edges, seeds, n, id) <==> Within(edges, seeds, k, id)
    decreases n
  {
    if k < n {
      forall x
        ensures Within(edges, seeds, n - 1, x) <==> Within(edges, seeds, k, x)
      {
        NothingFurther(edges, seeds, k, n - 1, x);
      }
      if Within(edges, seeds, n, id) && !Within(edges, seeds, n - 1, id) {
        var m :| Within(edges, seeds, n - 1, m) && Linked(edges, m, id);
        assert Within(edges, seeds, k + 1, id);
      }
    }
  }

  /** A chain of edges, either way round, from a selected node of the project to `id`. */
  predicate Chain(project: Project, selected: seq<Id>, path: seq<Id>, id: Id) {
    && |path| > 0 && path[0] in selected && path[0] in project.nodes && path[|path| - 1] == id
    && forall i :: 0 <= i < |path| - 1 ==>
         (path[i], path[i + 1]) in project.edges || (path[i + 1], path[i]) in project.edges
  }

  ghost predicate Near(project: Project, selected: seq<Id>, steps: int, id: Id) {
    exists path :: Chain(project, selected, path, id) && (|path| == 1 || |path| <= steps + 1)
  }

  lemma NearIsJoined(project: Project, selected: seq<Id>, steps: int, id: Id)
    ensures Near(project, selected, steps, id)
            <==> Joined(project.edges, ValidSelection(project, selected), if steps < 0 then 0 else steps, id)
  {
    forall path
      ensures Chain(project, selected, path, id) <==> Joins(project.edges, ValidSelection(project, selected), path, id)
    {
    }
  }

  // ----- the traversal -----

  function Get(adjacency: map<Id, set<Id>>, id: Id): set<Id> { if id in adjacency then adjacency[id] else {} }

  method Adjacency(edges: seq<(Id, Id)>) returns (forward: map<Id, set<Id>>, backward: map<Id, set<Id>>)
    ensures forall a, b :: b in Get(forward, a) <==> (a, b) in edges
    ensures forall a, b :: b in Get(backward, a) <==> (b, a) in edges
  {
    forward, backward := map[], map[];
    for i := 0 to |edges|
      invariant forall a, b :: b in Get(forward, a) <==> (a, b) in edges[..i]
      invariant forall a, b :: b in Get(backward, a) <==> (b, a) in edges[..i]
    {
      var (source, target) := edges[i];
      forward := forward[source := Get(forward, source) + {target}];
      backward := backward[target := Get(backward, target) + {source}];
      assert edges[..i + 1] == edges[..i] + [(source, target)];
    }
    assert edges[..|edges|] == edges;
  }

  /** The ids one edge away from `frontier`. */
  method Spread(edges: seq<(Id, Id)>, forward: map<Id, set<Id>>, backward: map<Id, set<Id>>, frontier: set<Id>)
    returns (next: set<Id>)
    requires forall a, b :: b in Get(forward, a) <==> (a, b) in edges
    requires forall a, b :: b in Get(backward, a) <==> (b, a) in edges
    ensures forall id :: id in next <==> exists m :: m in frontier && Linked(edges, m, id)
  {
    next := {};
    var rest := frontier;
    while rest != {}
      invariant rest <= frontier
      invariant forall id :: id in next <==> exists m :: m in frontier - rest && Linked(edges, m, id)
      decreases |rest|
    {
      var nid :| nid in rest;
      ghost var before := next;
      next := next + Get(forward, nid) + Get(backward, nid);
      forall id
        ensures id in next <==> exists m :: m in frontier - (rest - {nid}) && Linked(edges, m, id)
      {
        assert id in Get(forward, nid) + Get(backward, nid) <==> Linked(edges, nid, id);
        assert forall m :: m in frontier - (rest - {nid}) <==> m in frontier - rest || m == nid;
      }
      rest := rest - {nid};
    }
  }

  /** Exactly the ids joined to a valid selected node by at most `steps` undirected edges; a negative count is none. */
  method GetNeighborhoodNodeIds(project: Option<Project>, selected: seq<Id>, steps: Option<int>)
    returns (r: Option<set<Id>>)
    ensures r.None? <==> project.None? || selected == [] || steps.None?
    ensures r.Some? && ValidSelection(project.value, selected) == {} ==> r.value == {}
    ensures r.Some? ==>
              forall id :: id in r.value <==>
                Joined(project.value.edges, ValidSelection(project.value, selected),
                       if steps.value < 0 then 0 else steps.value, id)
    ensures r.Some? ==> forall id :: id in r.value <==> Near(project.value, selected, steps.value, id)
  {
    hide Near;
    if project.None? || selected == [] || steps.None? {
      return None;
    }
    var edges := project.value.edges;
    var seeds := ValidSelection(project.value, selected);
    forall id
      ensures Near(project.value, selected, steps.value, id)
              <==> Joined(edges, seeds, if steps.value < 0 then 0 else steps.value, id)
    {
      NearIsJoined(project.value, selected, steps.value, id);
    }
    ghost var limit: nat := if steps.value < 0 then 0 else steps.value;
    if seeds == {} {
      forall id
        ensures !Joined(edges, seeds, limit, id)
      {
      }
      return Some({});
    }
    var forward, backward := Adjacency(edges);
    var result, frontier := seeds, seeds;
    var i := 0;
    while i < steps.value
      invariant 0 <= i <= limit
      invariant forall id :: id in result <==> Within(edges, seeds, i, id)
      invariant forall id :: id in frontier <==> id in result && (i == 0 || !Within(edges, seeds, i - 1, id))
      decreases steps.value - i
    {
      var next := Spread(edges, forward, backward, frontier);
      forall id
        ensures id in result + next <==> Within(edges, seeds, i + 1, id)
      {
        LevelFromFrontier(edges, seeds, i, result, frontier, id);
      }
      next := next - result;
      result, frontier := result + next, next;
      if frontier == {} {
        forall id
          ensures Within(edges, seeds, limit, id) <==> id in result
        {
          NothingFurther(edges, seeds, i, limit, id);
        }
        break;
      }
      i := i + 1;
    }
    forall id
      ensures id in result <==> Joined(edges, seeds, limit, id)
    {
      WithinIsJoined(edges, seeds, limit, id);
    }
    r := Some(result);
  }

  /** The next level is the old one and what lies beside the frontier: the rest was reached before. */
  lemma LevelFromFrontier(edges: seq<(Id, Id)>, seeds: set<Id>, i: nat, result: set<Id>, frontier: set<Id>, id: Id)
    requires forall x :: x in result <==> Within(edges, seeds, i, x)
    requires forall x :: x in frontier <==> x in result && (i == 0 || !Within(edges, seeds, i - 1, x))
    ensures Within(edges, seeds, i + 1, id)
            <==> id in result || exists m :: m in frontier && Linked(edges, m, id)
  {
    if exists m :: m in frontier && Linked(edges, m, id) {
      var m :| m in frontier && Linked(edges, m, id);
      assert Within(edges, seeds, i, m);
    }
    if Within(edges, seeds, i + 1, id) && id !in result {
      var m :| Within(edges, seeds, i, m) && Linked(edges, m, id);
      assert m in result;
      assert i == 0 || !Within(edges, seeds, i - 1, m);
    }
  }
}
