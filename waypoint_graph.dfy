/**
 * The route hook (src/app/waypoints/useWayPointGraph.ts): when to search,
 * the weight the search reads off an edge, the loop that turns the node path
 * the search returns into path steps, and the rule that picks the initial
 * source and destination.
 *
 * The search itself (the graph library's A*) is not modelled: the node ids
 * of the path it returns are a parameter, an empty sequence standing for
 * "no path found".  The graph is the one the edge builder makes from the
 * waypoint list.
 */
module WayPointGraph {
  import opened Wrappers
  import opened Numbers
  import opened WayPoints
  import opened Edges

  // ------------------------------------------------------------- the search

  /** The search runs only when source and destination are both set and have different ids. */
  function ShouldSearch(source: Option<WayPoint>, destination: Option<WayPoint>): (b: bool)
    ensures b ==> source.Some? && destination.Some? && source.value != destination.value
    ensures source.Some? && destination.Some? && source.value.data.id == destination.value.data.id ==> !b
  {
    source.Some? && destination.Some? && source.value.data.id != destination.value.data.id
  }

  /**
   * The weight callback: the stored weight when it is a number other than NaN, else 1.
   * `None` stands for a stored value that is not a number.
   */
  function SearchWeight(stored: Option<Num>): (w: Num)
    ensures !w.NaN?
    ensures stored.Some? && !stored.value.NaN? ==> w == stored.value
    ensures stored.None? || stored.value.NaN? ==> w == Fin(1)
  {
    match stored
    case Some(n) => if n.NaN? then Fin(1) else n
    case None => Fin(1)
  }

  /** The edges of the graph built from the waypoint list, in the order the builder added them. */
  function GraphEdges(wps: seq<WayPoint>): seq<Edge> {
    UptoAfter(wps, Weights(wps), |wps|).kept
  }

  /** Every edge of the built graph carries a non-negative integer weight, which the search uses unchanged. */
  lemma GraphSearchWeights(wps: seq<WayPoint>, e: Edge)
    requires e in GraphEdges(wps)
    ensures e.weight >= 0 && SearchWeight(Some(Fin(e.weight))) == Fin(e.weight)
  {
    var w := Weights(wps);
    UptoSound(wps, w, |wps|);
    var r, k :| 0 <= r < k < |wps| && Before(r, k, |wps|, |wps| + 1) && Admitted(w(r, k)) && e == PairEdge(wps, w, r, k);
  }

  // ------------------------------------------------------ edges between nodes

  /** The edge joins a and b, in either direction (the graph is undirected). */
  predicate Connects(e: Edge, a: string, b: string) {
    (e.source == a && e.target == b) || (e.source == b && e.target == a)
  }

  /** `a.edgesWith(b)`: the edges joining a and b, in graph order. */
  function EdgesWith(edges: seq<Edge>, a: string, b: string): (r: seq<Edge>)
    ensures forall e :: e in r <==> e in edges && Connects(e, a, b)
    ensures |r| <= |edges|
  {
    if |edges| == 0 then []
    else (if Connects(edges[0], a, b) then [edges[0]] else []) + EdgesWith(edges[1..], a, b)
  }

  /** The steps pushed for one hop a -> b: one per edge joining them. */
  function HopSteps(edges: seq<Edge>, a: string, b: string): seq<PathStep> {
    var joining := EdgesWith(edges, a, b);
    seq(|joining|, k requires 0 <= k < |joining| => PathStep(joining[k].id, a, b, joining[k].weight))
  }

  /** The steps along the node path, hop by hop in travel order; the distance is the edge's weight. */
  function StepsAlong(edges: seq<Edge>, path: seq<string>): seq<PathStep>
    decreases |path|
  {
    if |path| < 2 then []
    else StepsAlong(edges, path[..|path| - 1]) + HopSteps(edges, path[|path| - 2], path[|path| - 1])
  }

  /** The hop loop of the route hook. */
  method ExtractPathSteps(edges: seq<Edge>, path: seq<string>) returns (steps: seq<PathStep>)
    ensures steps == StepsAlong(edges, path)
  {
    steps := [];
    var i := 0;
    while i < |path| - 1
      invariant 0 <= i
      invariant i <= |path| - 1 || |path| == 0
      invariant |path| == 0 ==> steps == []
      invariant |path| > 0 ==> steps == StepsAlong(edges, path[..i + 1])
    {
      var fromNode := path[i];
      var toNode := path[i + 1];
      var joining := EdgesWith(edges, fromNode, toNode);
      ghost var before := steps;
      var k := 0;
      while k < |joining|
        invariant 0 <= k <= |joining|
        invariant steps == before + HopSteps(edges, fromNode, toNode)[..k]
      {
        steps := steps + [PathStep(joining[k].id, fromNode, toNode, joining[k].weight)];
        k := k + 1;
      }
      assert path[..i + 2][..i + 1] == path[..i + 1];
      i := i + 1;
    }
    if |path| > 0 {
      assert path[..i + 1] == path;
    }
  }

  /** A step of the hop a -> b records an edge joining a and b, and every such edge has its step. */
  lemma HopStepsMembers(edges: seq<Edge>, a: string, b: string, s: PathStep)
    ensures s in HopSteps(edges, a, b) <==> exists e :: e in edges && Connects(e, a, b) && s == PathStep(e.id, a, b, e.weight)
  {
    var joining := EdgesWith(edges, a, b);
    var hop := HopSteps(edges, a, b);
    if s in hop {
      var m :| 0 <= m < |hop| && hop[m] == s;
      assert joining[m] in joining;
    }
    if exists e :: e in edges && Connects(e, a, b) && s == PathStep(e.id, a, b, e.weight) {
      var e :| e in edges && Connects(e, a, b) && s == PathStep(e.id, a, b, e.weight);
      var m :| 0 <= m < |joining| && joining[m] == e;
      assert hop[m] == s;
    }
  }

  /** The hop k of the path: the step records an edge joining path[k] and path[k + 1]. */
  ghost predicate StepOfHop(edges: seq<Edge>, path: seq<string>, k: int, s: PathStep)
    requires 0 <= k < |path| - 1
  {
    exists e :: e in edges && Connects(e, path[k], path[k + 1]) && s == PathStep(e.id, path[k], path[k + 1], e.weight)
  }

  /** Hops before the last one are the same hops of the path without its last node. */
  lemma StepOfHopPrefix(edges: seq<Edge>, path: seq<string>, k: int, s: PathStep)
    requires 0 <= k < |path| - 2
    ensures StepOfHop(edges, path[..|path| - 1], k, s) <==> StepOfHop(edges, path, k, s)
  {
    var front := path[..|path| - 1];
    assert front[k] == path[k] && front[k + 1] == path[k + 1];
  }

  /** The list splits into the steps of the path without its last node and the steps of the last hop. */
  lemma StepsAlongLast(edges: seq<Edge>, path: seq<string>)
    requires |path| >= 2
    ensures StepsAlong(edges, path) == StepsAlong(edges, path[..|path| - 1]) + HopSteps(edges, path[|path| - 2], path[|path| - 1])
  {
  }

  /** Every step in the list records an edge of some hop. */
  lemma {:induction false} StepsAlongSound(edges: seq<Edge>, path: seq<string>, s: PathStep)
    requires s in StepsAlong(edges, path)
    ensures exists k :: 0 <= k < |path| - 1 && StepOfHop(edges, path, k, s)
    decreases |path|
  {
    var front := path[..|path| - 1];
    var last := |path| - 2;
    StepsAlongLast(edges, path);
    if s in StepsAlong(edges, front) {
      StepsAlongSound(edges, front, s);
      var k :| 0 <= k < |front| - 1 && StepOfHop(edges, front, k, s);
      StepOfHopPrefix(edges, path, k, s);
    } else {
      HopStepsMembers(edges, path[last], path[last + 1], s);
      assert StepOfHop(edges, path, last, s);
    }
  }

  /** Every edge of every hop has its step in the list. */
  lemma {:induction false} StepsAlongComplete(edges: seq<Edge>, path: seq<string>, k: int, s: PathStep)
    requires 0 <= k < |path| - 1 && StepOfHop(edges, path, k, s)
    ensures s in StepsAlong(edges, path)
    decreases |path|
  {
    var front := path[..|path| - 1];
    var last := |path| - 2;
    StepsAlongLast(edges, path);
    if k < last {
      StepOfHopPrefix(edges, path, k, s);
      StepsAlongComplete(edges, front, k, s);
    } else {
      HopStepsMembers(edges, path[last], path[last + 1], s);
    }
  }

  /**
   * A step is in the list exactly when it records, for some hop path[k] -> path[k + 1], an edge
   * joining the two nodes, with `from` the first node, `to` the second and the edge's id and weight.
   */
  lemma StepsAlongMembers(edges: seq<Edge>, path: seq<string>, s: PathStep)
    ensures s in StepsAlong(edges, path) <==> exists k :: 0 <= k < |path| - 1 && StepOfHop(edges, path, k, s)
  {
    if s in StepsAlong(edges, path) {
      StepsAlongSound(edges, path, s);
    }
    if exists k :: 0 <= k < |path| - 1 && StepOfHop(edges, path, k, s) {
      var k :| 0 <= k < |path| - 1 && StepOfHop(edges, path, k, s);
      StepsAlongComplete(edges, path, k, s);
    }
  }

  // ----------------------------------------------------- at most one per hop

  /** A list in which no two entries join a and b yields at most one edge between them. */
  lemma {:induction false} EdgesWithAtMostOne(edges: seq<Edge>, a: string, b: string)
    requires forall p, q :: 0 <= p < q < |edges| && Connects(edges[p], a, b) ==> !Connects(edges[q], a, b)
    ensures |EdgesWith(edges, a, b)| <= 1
    decreases |edges|
  {
    if |edges| > 0 {
      var rest := edges[1..];
      if Connects(edges[0], a, b) {
        forall e | e in rest ensures !Connects(e, a, b) {
          var q :| 0 <= q < |rest| && rest[q] == e;
          assert edges[q + 1] == e;
        }
        if |EdgesWith(rest, a, b)| > 0 {
          assert EdgesWith(rest, a, b)[0] in EdgesWith(rest, a, b);
        }
      } else {
        forall p, q | 0 <= p < q < |rest| && Connects(rest[p], a, b) ensures !Connects(rest[q], a, b) {
          assert rest[p] == edges[p + 1] && rest[q] == edges[q + 1];
        }
        EdgesWithAtMostOne(rest, a, b);
      }
    }
  }

  /** Every edge the builder keeps carries the canonical id of its two ends. */
  lemma GraphEdgeIds(wps: seq<WayPoint>, e: Edge)
    requires e in GraphEdges(wps)
    ensures e.id == EdgeId(e.source, e.target)
  {
    var w := Weights(wps);
    UptoSound(wps, w, |wps|);
    var r, k :| 0 <= r < k < |wps| && Before(r, k, |wps|, |wps| + 1) && Admitted(w(r, k)) && e == PairEdge(wps, w, r, k);
  }

  /** In the built graph at most one edge joins any two nodes, so a hop yields at most one step. */
  lemma SingleEdgePerHop(wps: seq<WayPoint>, a: string, b: string)
    ensures |EdgesWith(GraphEdges(wps), a, b)| <= 1
  {
    var es := GraphEdges(wps);
    UptoSound(wps, Weights(wps), |wps|);
    forall p, q | 0 <= p < q < |es| && Connects(es[p], a, b) ensures !Connects(es[q], a, b) {
      if Connects(es[q], a, b) {
        GraphEdgeIds(wps, es[p]);
        GraphEdgeIds(wps, es[q]);
        EdgeIdSymmetric(a, b);
        assert false;
      }
    }
    EdgesWithAtMostOne(es, a, b);
  }

  /** Along the built graph, a path of n nodes gives at most n - 1 steps. */
  lemma {:induction false} AtMostOneStepPerHop(wps: seq<WayPoint>, path: seq<string>)
    requires |path| >= 1
    ensures |StepsAlong(GraphEdges(wps), path)| <= |path| - 1
    decreases |path|
  {
    if |path| >= 2 {
      AtMostOneStepPerHop(wps, path[..|path| - 1]);
      SingleEdgePerHop(wps, path[|path| - 2], path[|path| - 1]);
    }
  }

  /** Every hop of the path is joined by exactly one edge (as in the built graph, once a hop is joined at all). */
  predicate OneEdgePerHop(edges: seq<Edge>, path: seq<string>) {
    forall k :: 0 <= k < |path| - 1 ==> |EdgesWith(edges, path[k], path[k + 1])| == 1
  }

  /** Along such a path there is one step per hop, step k going from path[k] to path[k + 1]. */
  lemma {:induction false} StepsOfSimplePath(edges: seq<Edge>, path: seq<string>)
    requires |path| >= 1 && OneEdgePerHop(edges, path)
    ensures |StepsAlong(edges, path)| == |path| - 1
    ensures forall k :: 0 <= k < |path| - 1 ==>
              StepsAlong(edges, path)[k].from == path[k] && StepsAlong(edges, path)[k].to == path[k + 1]
    decreases |path|
  {
    if |path| >= 2 {
      var front := path[..|path| - 1];
      forall k | 0 <= k < |front| - 1 ensures |EdgesWith(edges, front[k], front[k + 1])| == 1 {
        assert front[k] == path[k] && front[k + 1] == path[k + 1];
      }
      StepsOfSimplePath(edges, front);
      assert |HopSteps(edges, path[|path| - 2], path[|path| - 1])| == 1;
    }
  }

  // ------------------------------------------------ the recorded distance

  /** `weight || -1` on a numeric weight: 0 is falsy, so it becomes -1. */
  function RecordedDistanceAsWritten(weight: int): (d: int)
    ensures d != 0
  {
    if weight == 0 then -1 else weight
  }

  /** The distances of a step list passed through `weight || -1`. */
  function AsWrittenDistances(steps: seq<PathStep>): (r: seq<PathStep>)
    ensures |r| == |steps|
  {
    seq(|steps|, k requires 0 <= k < |steps| => steps[k].(distance := RecordedDistanceAsWritten(steps[k].distance)))
  }

  /** The step list exactly as the hook builds it: the distance goes through `weight || -1`. */
  function StepsAlongAsWritten(edges: seq<Edge>, path: seq<string>): (r: seq<PathStep>)
    ensures |r| == |StepsAlong(edges, path)|
    ensures forall k :: 0 <= k < |r| ==> r[k].distance != 0
  {
    AsWrittenDistances(StepsAlong(edges, path))
  }

  /**
   * The hook as written and the corrected hook agree on every step except a 0-weight hop (a
   * teleport pair), which the hook as written records as -1.
   */
  lemma AsWrittenDiffersOnTeleportHops(edges: seq<Edge>, path: seq<string>, k: nat)
    requires k < |StepsAlong(edges, path)|
    ensures StepsAlongAsWritten(edges, path)[k].id == StepsAlong(edges, path)[k].id
    ensures StepsAlongAsWritten(edges, path)[k].from == StepsAlong(edges, path)[k].from
    ensures StepsAlongAsWritten(edges, path)[k].to == StepsAlong(edges, path)[k].to
    ensures StepsAlong(edges, path)[k].distance != 0 ==>
              StepsAlongAsWritten(edges, path)[k].distance == StepsAlong(edges, path)[k].distance
    ensures StepsAlong(edges, path)[k].distance == 0 ==> StepsAlongAsWritten(edges, path)[k].distance == -1
  {
  }

  /** A teleport hop of weight 0 from a to b: the hook as written records distance -1, the corrected one 0. */
  lemma TeleportHopRecordedNegative(id: string, a: string, b: string)
    ensures StepsAlong([Edge(id, a, b, 0)], [a, b]) == [PathStep(id, a, b, 0)]
    ensures StepsAlongAsWritten([Edge(id, a, b, 0)], [a, b]) == [PathStep(id, a, b, -1)]
  {
    var edges := [Edge(id, a, b, 0)];
    assert EdgesWith(edges[1..], a, b) == [];
    assert EdgesWith(edges, a, b) == edges;
    assert StepsAlong(edges, [a, b][..1]) == [];
  }

  // ------------------------------------------------------------ page state

  /** The page state the hook reads and sets: the selection and the path steps shown in the table. */
  class RouteState {
    var sourceNode: Option<WayPoint>
    var destinationNode: Option<WayPoint>
    var pathSteps: seq<PathStep>

    constructor ()
      ensures sourceNode == None && destinationNode == None && pathSteps == []
    {
      sourceNode := None;
      destinationNode := None;
      pathSteps := [];
    }

    /**
     * The path effect.  Without a graph, or with no waypoints, nothing changes.  When the search
     * should not run the steps are cleared.  Otherwise `found` is the node path the search
     * returned: an empty one leaves the previous steps in place, any other replaces them.
     */
    method RefreshPath(hasGraph: bool, wps: seq<WayPoint>, found: seq<string>)
      modifies this
      ensures sourceNode == old(sourceNode) && destinationNode == old(destinationNode)
      ensures !hasGraph || |wps| == 0 ==> pathSteps == old(pathSteps)
      ensures hasGraph && |wps| > 0 && !ShouldSearch(sourceNode, destinationNode) ==> pathSteps == []
      ensures hasGraph && |wps| > 0 && ShouldSearch(sourceNode, destinationNode) && |found| == 0 ==>
                pathSteps == old(pathSteps)
      ensures hasGraph && |wps| > 0 && ShouldSearch(sourceNode, destinationNode) && |found| > 0 ==>
                pathSteps == StepsAlong(GraphEdges(wps), found)
    {
      if !hasGraph {
        return;
      }
      if |wps| == 0 {
        return;
      }
      if ShouldSearch(sourceNode, destinationNode) {
        if |found| > 0 {
          var steps := ExtractPathSteps(GraphEdges(wps), found);
          pathSteps := steps;
        }
      } else {
        pathSteps := [];
      }
    }

    /** The selection effect: an unset end becomes the first waypoint; an empty list clears both. */
    method InitSelection(wps: seq<WayPoint>)
      modifies this
      ensures pathSteps == old(pathSteps)
      ensures |wps| == 0 ==> sourceNode == None && destinationNode == None
      ensures |wps| > 0 ==> sourceNode == (if old(sourceNode).None? then Some(wps[0]) else old(sourceNode))
      ensures |wps| > 0 ==> destinationNode == (if old(destinationNode).None? then Some(wps[0]) else old(destinationNode))
    {
      if |wps| > 0 {
        if sourceNode.None? {
          sourceNode := Some(wps[0]);
        }
        if destinationNode.None? {
          destinationNode := Some(wps[0]);
        }
      } else {
        sourceNode := None;
        destinationNode := None;
      }
    }
  }
}
