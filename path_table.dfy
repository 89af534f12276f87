/**
 * The route table (src/app/waypoints/PathStepsTable.tsx): the "no path"
 * condition, one row per waypoint of the route, the total of the step
 * distances and the bird's-eye distance between source and destination.
 *
 * Step distances are integers (rounded edge weights), so rounding a row's
 * distance to one decimal leaves it unchanged and a row shows the step
 * distance itself.
 */
module PathTable {
  import opened Wrappers
  import opened Numbers
  import opened WayPoints
  import opened Edges
  import opened WayPointGraph

  /**
   * One table row: the waypoint and the distance shown beside it.  The row
   * displays the node's label; it is identified here by the node id, since
   * labels need not be unique.
   */
  datatype Row = Row(node: string, distance: int)

  datatype TableView =
    | NoPathMessage
    | Table(rows: seq<Row>, total: int, birdsEye: Num)

  /** The early return: no source, no destination, or no steps. */
  predicate NoPathToDisplay(source: Option<WayPoint>, destination: Option<WayPoint>, steps: seq<PathStep>) {
    source.None? || destination.None? || |steps| < 1
  }

  /** The rows as the table builds them: `steps[0].to` at 0, then each step's `from` with its distance. */
  function RowsAsWritten(steps: seq<PathStep>): (rows: seq<Row>)
    requires |steps| >= 1
    ensures |rows| == |steps| + 1
  {
    [Row(steps[0].to, 0)] + seq(|steps|, k requires 0 <= k < |steps| => Row(steps[k].from, steps[k].distance))
  }

  /** The intended rows: the start `steps[0].from` at 0, then each step's `to` with the distance to reach it. */
  function Rows(steps: seq<PathStep>): (rows: seq<Row>)
    requires |steps| >= 1
    ensures |rows| == |steps| + 1
  {
    [Row(steps[0].from, 0)] + seq(|steps|, k requires 0 <= k < |steps| => Row(steps[k].to, steps[k].distance))
  }

  /** The waypoints the rows name, in order. */
  function RowNodes(rows: seq<Row>): seq<string> {
    seq(|rows|, k requires 0 <= k < |rows| => rows[k].node)
  }

  /** `steps.reduce((acc, s) => acc + s.distance, 0)`: no steps total 0, and non-negative distances a non-negative total. */
  function Total(steps: seq<PathStep>): (t: int)
    ensures |steps| == 0 ==> t == 0
    ensures (forall k :: 0 <= k < |steps| ==> steps[k].distance >= 0) ==> t >= 0
  {
    if |steps| == 0 then 0 else Total(steps[..|steps| - 1]) + steps[|steps| - 1].distance
  }

  /** `Math.round(calculateDistance(source, destination))`: never negative, and 0 for a teleport pair. */
  function BirdsEye(source: WayPoint, destination: WayPoint): (d: Num)
    ensures !d.NegInf? && (d.Fin? ==> d.v >= 0)
    ensures Linked(source, destination) ==> d == Fin(0)
  {
    RoundLength(Distance(source, destination))
  }

  /** What the component renders. */
  function Render(source: Option<WayPoint>, destination: Option<WayPoint>, steps: seq<PathStep>): (v: TableView)
    ensures v.NoPathMessage? <==> NoPathToDisplay(source, destination, steps)
    ensures v.Table? ==> |v.rows| == |steps| + 1 && v.rows[0] == Row(steps[0].from, 0)
    ensures v.Table? ==> forall k :: 0 <= k < |steps| ==> v.rows[k + 1] == Row(steps[k].to, steps[k].distance)
    ensures v.Table? ==> v.total == Total(steps) && v.birdsEye == RoundLength(Distance(source.value, destination.value))
  {
    if NoPathToDisplay(source, destination, steps) then NoPathMessage
    else Table(Rows(steps), Total(steps), BirdsEye(source.value, destination.value))
  }

  // ------------------------------------------------------------- properties

  /** Along a path whose every hop is one edge, the table lists the route's waypoints in travel order. */
  lemma RowsFollowPath(edges: seq<Edge>, path: seq<string>)
    requires |path| >= 2 && OneEdgePerHop(edges, path)
    ensures |StepsAlong(edges, path)| >= 1
    ensures RowNodes(Rows(StepsAlong(edges, path))) == path
  {
    StepsOfSimplePath(edges, path);
  }

  /**
   * The rows as written show the second waypoint, then every waypoint but the last: on a route of
   * three or more waypoints that visits each once, the destination never appears.
   */
  lemma AsWrittenRowsOmitDestination(edges: seq<Edge>, path: seq<string>)
    requires |path| >= 3 && OneEdgePerHop(edges, path)
    requires forall p, q :: 0 <= p < q < |path| ==> path[p] != path[q]
    ensures |StepsAlong(edges, path)| >= 1
    ensures path[|path| - 1] !in RowNodes(RowsAsWritten(StepsAlong(edges, path)))
  {
    StepsOfSimplePath(edges, path);
    var steps := StepsAlong(edges, path);
    var nodes := RowNodes(RowsAsWritten(steps));
    forall m | 0 <= m < |nodes| ensures nodes[m] != path[|path| - 1] {
      if m == 0 {
        assert nodes[0] == path[1];
        assert 1 < |path| - 1;
      } else {
        assert nodes[m] == path[m - 1];
        assert m - 1 < |path| - 1;
      }
    }
  }

  /** A route a -> b -> c: the rows as written are b, a, b; the intended rows are a, b, c. */
  lemma AsWrittenRowsExample()
    ensures RowNodes(RowsAsWritten([PathStep("ab", "a", "b", 1), PathStep("bc", "b", "c", 2)])) == ["b", "a", "b"]
    ensures RowNodes(Rows([PathStep("ab", "a", "b", 1), PathStep("bc", "b", "c", 2)])) == ["a", "b", "c"]
  {
  }

  /** The total adds up the step distances, each counted once: it is additive over concatenation. */
  lemma {:induction false} TotalAppend(xs: seq<PathStep>, ys: seq<PathStep>)
    ensures Total(xs + ys) == Total(xs) + Total(ys)
    decreases |ys|
  {
    if |ys| > 0 {
      var init := ys[..|ys| - 1];
      TotalAppend(xs, init);
      assert (xs + ys)[..|xs + ys| - 1] == xs + init;
    } else {
      assert xs + ys == xs;
    }
  }

  /**
   * Along the built graph every step distance of the corrected steps is a non-negative edge
   * weight, so their total is non-negative (as written, a teleport hop makes it drop, see
   * `AsWrittenTotal`).
   */
  lemma GraphTotalNonNegative(wps: seq<WayPoint>, path: seq<string>)
    ensures Total(StepsAlong(GraphEdges(wps), path)) >= 0
  {
    var steps := StepsAlong(GraphEdges(wps), path);
    forall k | 0 <= k < |steps| ensures steps[k].distance >= 0 {
      assert steps[k] in steps;
      StepsAlongMembers(GraphEdges(wps), path, steps[k]);
      var h :| 0 <= h < |path| - 1 && StepOfHop(GraphEdges(wps), path, h, steps[k]);
      var e :| e in GraphEdges(wps) && Connects(e, path[h], path[h + 1]) &&
        steps[k] == PathStep(e.id, path[h], path[h + 1], e.weight);
      GraphSearchWeights(wps, e);
    }
  }

  /** The number of steps whose distance is 0. */
  function ZeroSteps(steps: seq<PathStep>): nat {
    if |steps| == 0 then 0
    else ZeroSteps(steps[..|steps| - 1]) + (if steps[|steps| - 1].distance == 0 then 1 else 0)
  }

  /** Under `weight || -1` each 0-distance step lowers the total by one. */
  lemma {:induction false} AsWrittenTotal(steps: seq<PathStep>)
    ensures Total(AsWrittenDistances(steps)) == Total(steps) - ZeroSteps(steps)
    decreases |steps|
  {
    if |steps| > 0 {
      var init := steps[..|steps| - 1];
      AsWrittenTotal(init);
      assert AsWrittenDistances(steps)[..|steps| - 1] == AsWrittenDistances(init);
    }
  }

  /** The bird's-eye figure depends only on source and destination, not on the steps. */
  lemma BirdsEyeIgnoresSteps(source: WayPoint, destination: WayPoint, steps: seq<PathStep>, steps': seq<PathStep>)
    requires |steps| >= 1 && |steps'| >= 1
    ensures Render(Some(source), Some(destination), steps).birdsEye == BirdsEye(source, destination)
    ensures Render(Some(source), Some(destination), steps').birdsEye == BirdsEye(source, destination)
  {
  }

  /** A teleport pair is 0 apart as the bird flies, whatever its coordinates. */
  lemma BirdsEyeOfTeleportPair(source: WayPoint, destination: WayPoint)
    requires Linked(source, destination)
    ensures BirdsEye(source, destination) == Fin(0)
  {
  }
}
