/**
 * The graph builder (src/app/waypoints/useWayPointEdges.ts): one node
 * element per waypoint, then one edge per unordered pair of waypoints whose
 * rounded distance is admitted, identified by the two ids sorted and joined
 * by '-', keeping only the first edge of each id.
 */
module Edges {
  import opened Wrappers
  import opened Numbers
  import opened Strings
  import opened WayPoints

  datatype Edge = Edge(id: string, source: string, target: string, weight: int)

  /** The element list handed to the graph library. */
  datatype Element = NodeElement(data: WayPointData, position: Position) | EdgeElement(edge: Edge)

  /** `[a, b].sort().join('-')`. */
  function EdgeId(a: string, b: string): string {
    if LexLe(a, b) then a + "-" + b else b + "-" + a
  }

  /** The canonical id does not depend on which end comes first. */
  lemma EdgeIdSymmetric(a: string, b: string)
    ensures EdgeId(a, b) == EdgeId(b, a)
  {
    LexLeTotal(a, b);
    if LexLe(a, b) && LexLe(b, a) {
      LexLeAntisymmetric(a, b);
    }
  }

  /** Two ids free of '-' joined by '-' split back into the two. */
  lemma SplitPair(x: string, y: string)
    requires '-' !in x && '-' !in y
    ensures Split(x + "-" + y, '-') == [x, y]
  {
    SplitAround(x, '-', y);
    SplitWithout(x, '-');
    SplitWithout(y, '-');
  }

  /** For ids without '-', the canonical id determines the unordered pair. */
  lemma EdgeIdInjective(a: string, b: string, c: string, d: string)
    requires '-' !in a && '-' !in b && '-' !in c && '-' !in d
    requires EdgeId(a, b) == EdgeId(c, d)
    ensures (a == c && b == d) || (a == d && b == c)
  {
    var x, y := if LexLe(a, b) then a else b, if LexLe(a, b) then b else a;
    var u, v := if LexLe(c, d) then c else d, if LexLe(c, d) then d else c;
    assert EdgeId(a, b) == x + "-" + y;
    assert EdgeId(c, d) == u + "-" + v;
    SplitPair(x, y);
    SplitPair(u, v);
    assert [x, y][0] == [u, v][0] && [x, y][1] == [u, v][1];
  }

  /** `Math.round(calculateDistance(...))` for the pair (i, j). */
  function Weight(wps: seq<WayPoint>, i: nat, j: nat): (w: Num)
    requires i < |wps| && j < |wps|
    ensures !w.NegInf?
  {
    RoundLength(Distance(wps[i], wps[j]))
  }

  /**
   * The rounded distance of a pair of indices.  The builder's steps below are
   * stated for any such function; the graph of a list is the instance with
   * `Weights(wps)`, so the properties of the loop do not depend on how
   * distances are computed.
   */
  type WeightFn = f: (nat, nat) -> Num | forall i: nat, j: nat :: !f(i, j).NegInf?
    witness (i: nat, j: nat) => NaN

  /** `Weight` as a function of the pair, NaN outside the list. */
  function Weights(wps: seq<WayPoint>): WeightFn {
    (i: nat, j: nat) => if i < |wps| && j < |wps| then Weight(wps, i, j) else NaN
  }

  /** The guard `weight !== Infinity && !isNaN(weight)`. */
  predicate Admitted(w: Num) {
    w != PosInf && w != NaN
  }

  /** The edge the builder makes for the pair i < j: source the earlier waypoint, target the later. */
  function PairEdge(wps: seq<WayPoint>, w: WeightFn, i: nat, j: nat): Edge
    requires i < j < |wps|
    requires Admitted(w(i, j))
  {
    Edge(EdgeId(wps[i].data.id, wps[j].data.id), wps[i].data.id, wps[j].data.id, w(i, j).v)
  }

  function EdgeIds(es: seq<Edge>): set<string> {
    set e | e in es :: e.id
  }

  function Nodes(wps: seq<WayPoint>): seq<Element> {
    seq(|wps|, i requires 0 <= i < |wps| => NodeElement(wps[i].data, wps[i].position))
  }

  function EdgeElements(es: seq<Edge>): seq<Element> {
    seq(|es|, i requires 0 <= i < |es| => EdgeElement(es[i]))
  }

  /** The builder's edges so far and the ids in its `addedEdges` set. */
  datatype Progress = Progress(kept: seq<Edge>, added: set<string>)

  /** One pass of the inner loop body, for the pair (i, j). */
  function Step(wps: seq<WayPoint>, w: WeightFn, i: nat, j: nat, p: Progress): Progress
    requires i < j < |wps|
  {
    if Admitted(w(i, j)) && PairEdge(wps, w, i, j).id !in p.added then
      Progress(p.kept + [PairEdge(wps, w, i, j)], p.added + {PairEdge(wps, w, i, j).id})
    else p
  }

  /** The progress after the pairs (i, k), i < k < j, starting from `start`. */
  function RowAfter(wps: seq<WayPoint>, w: WeightFn, i: nat, j: nat, start: Progress): Progress
    requires i < j <= |wps|
    decreases j
  {
    if j == i + 1 then start else Step(wps, w, i, j - 1, RowAfter(wps, w, i, j - 1, start))
  }

  /** The progress after every pair whose first index is below i. */
  function UptoAfter(wps: seq<WayPoint>, w: WeightFn, i: nat): Progress
    requires i <= |wps|
  {
    if i == 0 then Progress([], {}) else RowAfter(wps, w, i - 1, |wps|, UptoAfter(wps, w, i - 1))
  }

  /** The progress just before the pair (i, j) is considered. */
  function At(wps: seq<WayPoint>, w: WeightFn, i: nat, j: nat): Progress
    requires i < j <= |wps|
  {
    RowAfter(wps, w, i, j, UptoAfter(wps, w, i))
  }

  /** One more pair of the row: the progress before (i, j) after the step for (i, j - 1). */
  lemma RowUnfold(wps: seq<WayPoint>, w: WeightFn, i: nat, j: nat, start: Progress)
    requires i + 1 < j <= |wps|
    ensures RowAfter(wps, w, i, j, start) == Step(wps, w, i, j - 1, RowAfter(wps, w, i, j - 1, start))
  {
  }

  /** One more row: the progress after row i - 1 run from the progress after the rows before it. */
  lemma UptoUnfold(wps: seq<WayPoint>, w: WeightFn, i: nat)
    requires 0 < i <= |wps|
    ensures UptoAfter(wps, w, i) == RowAfter(wps, w, i - 1, |wps|, UptoAfter(wps, w, i - 1))
  {
  }

  /** RowUnfold, stated from the pair (i, j) forward, as the builder's loop advances. */
  lemma RowNext(wps: seq<WayPoint>, w: WeightFn, i: nat, j: nat, start: Progress)
    requires i < j < |wps|
    ensures RowAfter(wps, w, i, j + 1, start) == Step(wps, w, i, j, RowAfter(wps, w, i, j, start))
  {
  }

  /** UptoUnfold, stated from row i forward. */
  lemma UptoNext(wps: seq<WayPoint>, w: WeightFn, i: nat)
    requires i < |wps|
    ensures UptoAfter(wps, w, i + 1) == RowAfter(wps, w, i, |wps|, UptoAfter(wps, w, i))
  {
  }

  /** What the builder returns: the nodes, then the edges it kept. */
  function Elements(wps: seq<WayPoint>): seq<Element> {
    Nodes(wps) + EdgeElements(UptoAfter(wps, Weights(wps), |wps|).kept)
  }

  lemma EdgeElementsSnoc(es: seq<Edge>, e: Edge)
    ensures EdgeElements(es + [e]) == EdgeElements(es) + [EdgeElement(e)]
  {
  }

  /** The node elements, one per waypoint, in order. */
  method NodeElements(wps: seq<WayPoint>) returns (results: seq<Element>)
    ensures results == Nodes(wps)
  {
    results := [];
    var k := 0;
    while k < |wps|
      invariant 0 <= k <= |wps|
      invariant results == seq(k, i requires 0 <= i < k => NodeElement(wps[i].data, wps[i].position))
    {
      results := results + [NodeElement(wps[k].data, wps[k].position)];
      k := k + 1;
    }
  }

  /** The inner loop body for the pair (i, j): add its edge unless its weight is refused or its id was seen. */
  method VisitPair(wps: seq<WayPoint>, ghost w: WeightFn, i: nat, j: nat, ghost start: Progress,
                   ghost kept: seq<Edge>, addedEdges: set<string>, results: seq<Element>)
    returns (ghost kept': seq<Edge>, addedEdges': set<string>, results': seq<Element>)
    requires i < j < |wps|
    requires w(i, j) == Weight(wps, i, j)
    requires Progress(kept, addedEdges) == RowAfter(wps, w, i, j, start)
    requires results == Nodes(wps) + EdgeElements(kept)
    ensures Progress(kept', addedEdges') == RowAfter(wps, w, i, j + 1, start)
    ensures results' == Nodes(wps) + EdgeElements(kept')
  {
    RowNext(wps, w, i, j, start);
    kept', addedEdges', results' := kept, addedEdges, results;
    var weight := Weight(wps, i, j);
    if weight != PosInf && weight != NaN {
      var edgeId := EdgeId(wps[i].data.id, wps[j].data.id);
      var edge := Edge(edgeId, wps[i].data.id, wps[j].data.id, weight.v);
      assert edge == PairEdge(wps, w, i, j);
      if edgeId !in addedEdges {
        EdgeElementsSnoc(kept, edge);
        results' := results + [EdgeElement(edge)];
        addedEdges' := addedEdges + {edgeId};
        kept' := kept + [edge];
      }
    }
  }

  /** The inner loop for row i: the pairs (i, j) for every j after i, in order. */
  method VisitRow(wps: seq<WayPoint>, ghost w: WeightFn, i: nat, ghost kept: seq<Edge>, addedEdges: set<string>, results: seq<Element>)
    returns (ghost kept': seq<Edge>, addedEdges': set<string>, results': seq<Element>)
    requires i < |wps|
    requires forall j {:trigger Weight(wps, i, j)} :: i < j < |wps| ==> w(i, j) == Weight(wps, i, j)
    requires results == Nodes(wps) + EdgeElements(kept)
    ensures Progress(kept', addedEdges') == RowAfter(wps, w, i, |wps|, Progress(kept, addedEdges))
    ensures results' == Nodes(wps) + EdgeElements(kept')
  {
    kept', addedEdges', results' := kept, addedEdges, results;
    ghost var start := Progress(kept, addedEdges);
    var j := i + 1;
    while j < |wps|
      invariant i + 1 <= j <= |wps|
      invariant Progress(kept', addedEdges') == RowAfter(wps, w, i, j, start)
      invariant results' == Nodes(wps) + EdgeElements(kept')
    {
      kept', addedEdges', results' := VisitPair(wps, w, i, j, start, kept', addedEdges', results');
      j := j + 1;
    }
  }

  /** The builder: a loop over the waypoints for the nodes, then nested loops over the pairs i < j. */
  method BuildElements(wps: seq<WayPoint>) returns (results: seq<Element>)
    ensures results == Elements(wps)
  {
    results := NodeElements(wps);
    ghost var w := Weights(wps);
    var addedEdges: set<string> := {};
    ghost var kept: seq<Edge> := [];
    var i := 0;
    while i < |wps|
      invariant 0 <= i <= |wps|
      invariant Progress(kept, addedEdges) == UptoAfter(wps, w, i)
      invariant results == Nodes(wps) + EdgeElements(kept)
    {
      UptoNext(wps, w, i);
      kept, addedEdges, results := VisitRow(wps, w, i, kept, addedEdges, results);
      i := i + 1;
    }
  }

  // ------------------------------------------------------------- properties

  /** Pair (r, k) comes before pair (i, j) in the builder's loop order. */
  predicate Before(r: nat, k: nat, i: nat, j: nat) {
    r < i || (r == i && k < j)
  }

  predicate DistinctEdgeIds(es: seq<Edge>) {
    forall p, q :: 0 <= p < q < |es| ==> es[p].id != es[q].id
  }

  /**
   * What holds of the progress before the pair (i, j): every kept edge is the edge of an admitted
   * earlier pair, no two kept edges share an id, and `addedEdges` holds exactly their ids.
   */
  ghost predicate Sound(wps: seq<WayPoint>, w: WeightFn, i: nat, j: nat, p: Progress) {
    && (forall e :: e in p.kept ==>
          exists r, k :: 0 <= r < k < |wps| && Before(r, k, i, j) && Admitted(w(r, k)) && e == PairEdge(wps, w, r, k))
    && DistinctEdgeIds(p.kept)
    && EdgeIds(p.kept) == p.added
  }

  lemma EdgeIdsSnoc(es: seq<Edge>, e: Edge)
    ensures EdgeIds(es + [e]) == EdgeIds(es) + {e.id}
  {
    forall x | x in EdgeIds(es + [e]) ensures x in EdgeIds(es) + {e.id} {
      var d :| d in es + [e] && d.id == x;
      if d != e {
        assert d in es;
      }
    }
  }

  /** The loop body keeps the progress sound. */
  lemma StepSound(wps: seq<WayPoint>, w: WeightFn, i: nat, j: nat, p: Progress)
    requires i < j < |wps|
    requires Sound(wps, w, i, j, p)
    ensures Sound(wps, w, i, j + 1, Step(wps, w, i, j, p))
  {
    var q := Step(wps, w, i, j, p);
    forall x | x in q.kept
      ensures exists r, k :: 0 <= r < k < |wps| && Before(r, k, i, j + 1) && Admitted(w(r, k)) && x == PairEdge(wps, w, r, k)
    {
      if x in p.kept {
        var r, k :| 0 <= r < k < |wps| && Before(r, k, i, j) && Admitted(w(r, k)) && x == PairEdge(wps, w, r, k);
        assert Before(r, k, i, j + 1);
      } else {
        assert Before(i, j, i, j + 1);
      }
    }
    if q != p {
      var e := PairEdge(wps, w, i, j);
      EdgeIdsSnoc(p.kept, e);
      forall a, b | 0 <= a < b < |q.kept| ensures q.kept[a].id != q.kept[b].id {
        if b == |p.kept| {
          assert q.kept[a] in p.kept;
        } else {
          assert q.kept[a] == p.kept[a] && q.kept[b] == p.kept[b];
        }
      }
    }
  }

  /** The step for the pair (i, j - 1) keeps the row's progress sound. */
  lemma RowStepSound(wps: seq<WayPoint>, w: WeightFn, i: nat, j: nat, start: Progress)
    requires i + 1 < j <= |wps|
    requires Sound(wps, w, i, j - 1, RowAfter(wps, w, i, j - 1, start))
    ensures Sound(wps, w, i, j, RowAfter(wps, w, i, j, start))
  {
    StepSound(wps, w, i, j - 1, RowAfter(wps, w, i, j - 1, start));
    RowUnfold(wps, w, i, j, start);
  }

  /** The inner loop keeps the progress sound. */
  lemma {:induction false} RowSound(wps: seq<WayPoint>, w: WeightFn, i: nat, j: nat, start: Progress)
    requires i < j <= |wps|
    requires Sound(wps, w, i, i + 1, start)
    ensures Sound(wps, w, i, j, RowAfter(wps, w, i, j, start))
    decreases j
  {
    if j > i + 1 {
      RowSound(wps, w, i, j - 1, start);
      RowStepSound(wps, w, i, j, start);
    }
  }

  /** The end of row i is the start of row i + 1. */
  lemma NextRowSound(wps: seq<WayPoint>, w: WeightFn, i: nat, p: Progress)
    requires Sound(wps, w, i, |wps|, p)
    ensures Sound(wps, w, i + 1, i + 2, p)
  {
    forall x | x in p.kept
      ensures exists r, k :: 0 <= r < k < |wps| && Before(r, k, i + 1, i + 2) && Admitted(w(r, k)) && x == PairEdge(wps, w, r, k)
    {
      var r, k :| 0 <= r < k < |wps| && Before(r, k, i, |wps|) && Admitted(w(r, k)) && x == PairEdge(wps, w, r, k);
      assert Before(r, k, i + 1, i + 2);
    }
  }

  /** The outer loop keeps the progress sound. */
  lemma {:induction false} UptoSound(wps: seq<WayPoint>, w: WeightFn, i: nat)
    requires i <= |wps|
    ensures Sound(wps, w, i, i + 1, UptoAfter(wps, w, i))
  {
    if i > 0 {
      var r := i - 1;
      UptoSound(wps, w, r);
      RowSound(wps, w, r, |wps|, UptoAfter(wps, w, r));
      UptoUnfold(wps, w, i);
      NextRowSound(wps, w, r, UptoAfter(wps, w, i));
    } else {
      assert EdgeIds([]) == {};
    }
  }

  /** The edge comes from a pair i < j whose weight was admitted. */
  ghost predicate FromPair(wps: seq<WayPoint>, e: Edge) {
    exists i, j :: 0 <= i < j < |wps| && Admitted(Weight(wps, i, j)) && e == PairEdge(wps, Weights(wps), i, j)
  }

  /** An edge element after the nodes is one of the edges. */
  lemma EdgeElementMember(wps: seq<WayPoint>, es: seq<Edge>, e: Edge)
    requires EdgeElement(e) in Nodes(wps) + EdgeElements(es)
    ensures e in es
  {
    var els := Nodes(wps) + EdgeElements(es);
    var p :| 0 <= p < |els| && els[p] == EdgeElement(e);
    assert p >= |wps|;
    assert es[p - |wps|] == e;
  }

  /** The edge elements of the result are exactly the kept edges. */
  lemma EdgeElementOfResult(wps: seq<WayPoint>, e: Edge)
    requires EdgeElement(e) in Elements(wps)
    ensures e in UptoAfter(wps, Weights(wps), |wps|).kept
  {
    EdgeElementMember(wps, UptoAfter(wps, Weights(wps), |wps|).kept, e);
  }

  /** Every edge of the graph joins an earlier waypoint (source) to a later one (target), weighted by their rounded distance. */
  lemma EdgesJoinPairs(wps: seq<WayPoint>, e: Edge)
    requires EdgeElement(e) in Elements(wps)
    ensures FromPair(wps, e)
  {
    var w := Weights(wps);
    EdgeElementOfResult(wps, e);
    UptoSound(wps, w, |wps|);
    var r, k :| 0 <= r < k < |wps| && Before(r, k, |wps|, |wps| + 1) && Admitted(w(r, k)) && e == PairEdge(wps, w, r, k);
    assert w(r, k) == Weight(wps, r, k);
  }

  /** With distinct waypoint ids there is no self-loop. */
  lemma NoSelfLoops(wps: seq<WayPoint>, e: Edge)
    requires DistinctIds(wps)
    requires EdgeElement(e) in Elements(wps)
    ensures e.source != e.target
  {
    EdgesJoinPairs(wps, e);
    var i, j :| 0 <= i < j < |wps| && Admitted(Weight(wps, i, j)) && e == PairEdge(wps, Weights(wps), i, j);
  }

  /** No two edges of the graph share an id. */
  lemma EdgeIdsUnique(wps: seq<WayPoint>)
    ensures forall p, q :: |wps| <= p < q < |Elements(wps)| ==>
              Elements(wps)[p].EdgeElement? && Elements(wps)[q].EdgeElement? && Elements(wps)[p].edge.id != Elements(wps)[q].edge.id
  {
    var w := Weights(wps);
    UptoSound(wps, w, |wps|);
    var es := UptoAfter(wps, w, |wps|).kept;
    var els := Elements(wps);
    assert DistinctEdgeIds(es);
    assert |els| == |wps| + |es|;
    assert forall p :: |wps| <= p < |els| ==> els[p] == EdgeElement(es[p - |wps|]);
  }

  /** A teleport pair gets an edge candidate of weight 0. */
  lemma LinkedPairWeightZero(wps: seq<WayPoint>, i: nat, j: nat)
    requires i < j < |wps|
    requires Linked(wps[i], wps[j])
    ensures Admitted(Weight(wps, i, j)) && PairEdge(wps, Weights(wps), i, j).weight == 0
  {
  }

  predicate AllAdmitted(wps: seq<WayPoint>, w: WeightFn) {
    forall i, j :: 0 <= i < j < |wps| ==> Admitted(w(i, j))
  }

  /** The canonical id `[a, b].sort().join('-')` of the pair r < k. */
  function PairId(wps: seq<WayPoint>, r: nat, k: nat): string
    requires r < k < |wps|
  {
    EdgeId(wps[r].data.id, wps[k].data.id)
  }

  /** No two different pairs share a canonical id: the builder's `edgeIds.has` test never fires. */
  predicate NoCollision(wps: seq<WayPoint>) {
    forall r, k, i, j :: 0 <= r < k < |wps| && 0 <= i < j < |wps| && (r != i || k != j) ==>
      PairId(wps, r, k) != PairId(wps, i, j)
  }

  /** Distinct waypoint ids, none containing '-'. */
  predicate PlainIds(wps: seq<WayPoint>) {
    DistinctIds(wps) && forall m :: 0 <= m < |wps| ==> '-' !in wps[m].data.id
  }

  /** Distinct ids free of '-' never collide, since the canonical id then determines the pair. */
  lemma PlainIdsNoCollision(wps: seq<WayPoint>)
    requires PlainIds(wps)
    ensures NoCollision(wps)
  {
    forall r, k, i, j | 0 <= r < k < |wps| && 0 <= i < j < |wps| && (r != i || k != j)
      ensures PairId(wps, r, k) != PairId(wps, i, j)
    {
      if PairId(wps, r, k) == PairId(wps, i, j) {
        EdgeIdInjective(wps[r].data.id, wps[k].data.id, wps[i].data.id, wps[j].data.id);
      }
    }
  }

  /** For ids of one common length, the canonical id determines the unordered pair, '-' or not. */
  lemma EdgeIdSameLength(a: string, b: string, c: string, d: string)
    requires |a| == |b| == |c| == |d|
    requires EdgeId(a, b) == EdgeId(c, d)
    ensures (a == c && b == d) || (a == d && b == c)
  {
    var n := |a|;
    var x := EdgeId(a, b);
    if LexLe(a, b) {
      assert x[..n] == a && x[n + 1..] == b;
    } else {
      assert x[..n] == b && x[n + 1..] == a;
    }
    if LexLe(c, d) {
      assert x[..n] == c && x[n + 1..] == d;
    } else {
      assert x[..n] == d && x[n + 1..] == c;
    }
  }

  /**
   * Distinct ids of one common length never collide, even with '-' inside: ids the Add button
   * generates with equally long parts are of this kind.
   */
  lemma SameLengthIdsNoCollision(wps: seq<WayPoint>, len: nat)
    requires DistinctIds(wps)
    requires forall m :: 0 <= m < |wps| ==> |wps[m].data.id| == len
    ensures NoCollision(wps)
  {
    forall r, k, i, j | 0 <= r < k < |wps| && 0 <= i < j < |wps| && (r != i || k != j)
      ensures PairId(wps, r, k) != PairId(wps, i, j)
    {
      if PairId(wps, r, k) == PairId(wps, i, j) {
        EdgeIdSameLength(wps[r].data.id, wps[k].data.id, wps[i].data.id, wps[j].data.id);
      }
    }
  }

  /** Without collisions, no earlier pair has the id of the pair (i, j). */
  lemma NewPairId(wps: seq<WayPoint>, w: WeightFn, i: nat, j: nat, p: Progress)
    requires i < j < |wps| && Admitted(w(i, j))
    requires Sound(wps, w, i, j, p)
    requires NoCollision(wps)
    ensures PairEdge(wps, w, i, j).id !in p.added
  {
    assert PairEdge(wps, w, i, j).id == PairId(wps, i, j);
    forall e | e in p.kept ensures e.id != PairId(wps, i, j) {
      var r, k :| 0 <= r < k < |wps| && Before(r, k, i, j) && Admitted(w(r, k)) && e == PairEdge(wps, w, r, k);
      assert e.id == PairId(wps, r, k);
    }
  }

  /** The number of pairs (r, k), r < k < n, with r < i: row r holds n - r - 1 of them. */
  function PairsBefore(n: nat, i: nat): nat
    requires i <= n
  {
    if i == 0 then 0 else PairsBefore(n, i - 1) + (n - i)
  }

  /** All rows together hold n * (n - 1) / 2 pairs. */
  lemma {:induction false} PairsBeforeValue(n: nat, i: nat)
    requires i <= n
    ensures 2 * PairsBefore(n, i) == i * (2 * n - i - 1)
  {
    if i > 0 {
      PairsBeforeValue(n, i - 1);
      assert (i - 1) * (2 * n - i) + 2 * (n - i) == i * (2 * n - i - 1);
    }
  }

  /** The number of ordered pairs of n items is even. */
  lemma {:induction false} PairCountEven(n: nat)
    ensures (n * (n - 1)) % 2 == 0
  {
    if n > 0 {
      PairCountEven(n - 1);
      assert n * (n - 1) == (n - 1) * (n - 2) + 2 * (n - 1);
    }
  }

  /** The pairs of n items, counted row by row. */
  lemma AllPairs(n: nat)
    ensures PairsBefore(n, n) == n * (n - 1) / 2
  {
    PairsBeforeValue(n, n);
    PairCountEven(n);
  }

  /** The pair (i, m) of the row started from `start` adds an edge. */
  predicate Grows(wps: seq<WayPoint>, w: WeightFn, i: nat, m: nat, start: Progress)
    requires i < m < |wps|
  {
    |Step(wps, w, i, m, RowAfter(wps, w, i, m, start)).kept| == |RowAfter(wps, w, i, m, start).kept| + 1
  }

  /** A row in which every pair adds an edge keeps one edge per pair. */
  lemma {:induction false} RowCountGrows(wps: seq<WayPoint>, w: WeightFn, i: nat, j: nat, start: Progress)
    requires i < j <= |wps|
    requires forall m :: i < m < j ==> Grows(wps, w, i, m, start)
    ensures |RowAfter(wps, w, i, j, start).kept| == |start.kept| + (j - i - 1)
    decreases j
  {
    if j > i + 1 {
      RowCountGrows(wps, w, i, j - 1, start);
      assert Grows(wps, w, i, j - 1, start);
      RowUnfold(wps, w, i, j, start);
    }
  }

  /** Without collisions the inner loop keeps one edge per pair. */
  lemma RowCount(wps: seq<WayPoint>, w: WeightFn, i: nat, j: nat, start: Progress)
    requires i < j <= |wps|
    requires AllAdmitted(wps, w) && NoCollision(wps)
    requires Sound(wps, w, i, i + 1, start)
    ensures |RowAfter(wps, w, i, j, start).kept| == |start.kept| + (j - i - 1)
  {
    forall m | i < m < j ensures Grows(wps, w, i, m, start) {
      RowSound(wps, w, i, m, start);
      NewPairId(wps, w, i, m, RowAfter(wps, w, i, m, start));
    }
    RowCountGrows(wps, w, i, j, start);
  }

  /** Without collisions row i - 1 adds one edge per pair to the rows before it. */
  lemma RowCountAfterUpto(wps: seq<WayPoint>, w: WeightFn, i: nat)
    requires 0 < i <= |wps|
    requires AllAdmitted(wps, w) && NoCollision(wps)
    ensures |UptoAfter(wps, w, i).kept| == |UptoAfter(wps, w, i - 1).kept| + (|wps| - i)
  {
    var r := i - 1;
    var prev := UptoAfter(wps, w, r);
    UptoSound(wps, w, r);
    RowCount(wps, w, r, |wps|, prev);
    UptoUnfold(wps, w, i);
  }

  /** Without collisions the first i rows keep one edge per pair. */
  lemma {:induction false} UptoCount(wps: seq<WayPoint>, w: WeightFn, i: nat)
    requires i <= |wps|
    requires AllAdmitted(wps, w) && NoCollision(wps)
    ensures |UptoAfter(wps, w, i).kept| == PairsBefore(|wps|, i)
  {
    if i > 0 {
      UptoCount(wps, w, i - 1);
      RowCountAfterUpto(wps, w, i);
    }
  }

  /**
   * With every weight admitted and no two pairs sharing a canonical id, the graph is complete: one
   * node per waypoint and one edge per unordered pair.
   */
  lemma CompleteGraph(wps: seq<WayPoint>)
    requires forall i, j :: 0 <= i < j < |wps| ==> Admitted(Weight(wps, i, j))
    requires NoCollision(wps)
    ensures |Elements(wps)| == |wps| + |wps| * (|wps| - 1) / 2
  {
    var w := Weights(wps);
    assert AllAdmitted(wps, w);
    UptoCount(wps, w, |wps|);
    AllPairs(|wps|);
  }

  /** Two waypoints whose distance is undefined (a NaN coordinate, no teleport link) get no edge at all. */
  lemma UndefinedPairNoEdge(a: WayPoint, b: WayPoint)
    requires Distance(a, b).Undefined?
    ensures Elements([a, b]) == Nodes([a, b])
  {
    var wps := [a, b];
    var w := Weights(wps);
    var none := Progress([], {});
    assert !Admitted(w(0, 1));
    assert RowAfter(wps, w, 0, 1, none) == none;
    assert Step(wps, w, 0, 1, none) == none;
    assert UptoAfter(wps, w, 1) == none;
    assert RowAfter(wps, w, 1, 2, none) == none;
    assert UptoAfter(wps, w, 2) == none;
    assert EdgeElements([]) == [];
    assert Nodes(wps) + [] == Nodes(wps);
  }

  /** The canonical id of two different pairs can coincide when ids contain '-'. */
  lemma EdgeIdCollision()
    ensures EdgeId("x", "y-z") == EdgeId("x-y", "z") == "x-y-z"
  {
    assert LexLe("x", "y-z");
    assert LexLe("x-y", "z");
  }

  /** The inner loop only ever adds ids. */
  lemma {:induction false} RowAddedGrows(wps: seq<WayPoint>, w: WeightFn, i: nat, j: nat, j': nat, start: Progress)
    requires i < j <= j' <= |wps|
    ensures RowAfter(wps, w, i, j, start).added <= RowAfter(wps, w, i, j', start).added
    decreases j'
  {
    if j' > j {
      RowAddedGrows(wps, w, i, j, j' - 1, start);
      RowUnfold(wps, w, i, j', start);
    }
  }

  /** The outer loop only ever adds ids. */
  lemma {:induction false} UptoAddedGrows(wps: seq<WayPoint>, w: WeightFn, i: nat, i': nat)
    requires i <= i' <= |wps|
    ensures UptoAfter(wps, w, i).added <= UptoAfter(wps, w, i').added
    decreases i'
  {
    if i' > i {
      var r := i' - 1;
      var prev := UptoAfter(wps, w, r);
      UptoAddedGrows(wps, w, i, r);
      RowAddedGrows(wps, w, r, i', |wps|, prev);
      UptoUnfold(wps, w, i');
    }
  }

  /** The recorded ids only grow from the pair (i, j) to any pair (k, l) from (i, j) on. */
  lemma AddedGrows(wps: seq<WayPoint>, w: WeightFn, i: nat, j: nat, k: nat, l: nat)
    requires i < j <= |wps| && k < l <= |wps|
    requires i < k || (i == k && j <= l)
    ensures At(wps, w, i, j).added <= At(wps, w, k, l).added
  {
    if i == k {
      RowAddedGrows(wps, w, i, j, l, UptoAfter(wps, w, i));
    } else {
      RowAddedGrows(wps, w, i, j, |wps|, UptoAfter(wps, w, i));
      assert At(wps, w, i, |wps|) == UptoAfter(wps, w, i + 1);
      UptoAddedGrows(wps, w, i + 1, k);
      RowAddedGrows(wps, w, k, k + 1, l, UptoAfter(wps, w, k));
      assert At(wps, w, k, k + 1) == UptoAfter(wps, w, k);
    }
  }

  /** The inner loop only ever appends edges: what it kept earlier stays a prefix. */
  lemma {:induction false} RowKeptGrows(wps: seq<WayPoint>, w: WeightFn, i: nat, j: nat, j': nat, start: Progress)
    requires i < j <= j' <= |wps|
    ensures RowAfter(wps, w, i, j, start).kept <= RowAfter(wps, w, i, j', start).kept
    decreases j'
  {
    if j' > j {
      RowKeptGrows(wps, w, i, j, j' - 1, start);
      RowUnfold(wps, w, i, j', start);
      var a, b := RowAfter(wps, w, i, j, start).kept, RowAfter(wps, w, i, j' - 1, start).kept;
      var c := RowAfter(wps, w, i, j', start).kept;
      assert b <= c;
      assert a == b[..|a|] && b == c[..|b|];
      assert a == c[..|a|];
    }
  }

  /** The outer loop only ever appends edges. */
  lemma {:induction false} UptoKeptGrows(wps: seq<WayPoint>, w: WeightFn, i: nat, i': nat)
    requires i <= i' <= |wps|
    ensures UptoAfter(wps, w, i).kept <= UptoAfter(wps, w, i').kept
    decreases i'
  {
    if i' > i {
      var r := i' - 1;
      UptoKeptGrows(wps, w, i, r);
      RowKeptGrows(wps, w, r, r + 1, |wps|, UptoAfter(wps, w, r));
      UptoUnfold(wps, w, i');
      var a, b := UptoAfter(wps, w, i).kept, UptoAfter(wps, w, r).kept;
      var c := UptoAfter(wps, w, i').kept;
      assert b <= c;
      assert a == b[..|a|] && b == c[..|b|];
      assert a == c[..|a|];
    }
  }

  /** For any weights: without collisions, the step for an admitted pair appends its edge. */
  lemma AdmittedPairAppended(wps: seq<WayPoint>, w: WeightFn, i: nat, j: nat)
    requires i < j < |wps| && Admitted(w(i, j))
    requires NoCollision(wps)
    ensures PairEdge(wps, w, i, j) in At(wps, w, i, j + 1).kept
  {
    UptoSound(wps, w, i);
    RowSound(wps, w, i, j, UptoAfter(wps, w, i));
    NewPairId(wps, w, i, j, At(wps, w, i, j));
    RowNext(wps, w, i, j, UptoAfter(wps, w, i));
  }

  /** For any weights: an edge kept by the time the pair (i, j) is reached is kept to the end. */
  lemma KeptToEnd(wps: seq<WayPoint>, w: WeightFn, i: nat, j: nat, e: Edge)
    requires i < j <= |wps|
    requires e in At(wps, w, i, j).kept
    ensures e in UptoAfter(wps, w, |wps|).kept
  {
    RowKeptGrows(wps, w, i, j, |wps|, UptoAfter(wps, w, i));
    UptoNext(wps, w, i);
    UptoKeptGrows(wps, w, i + 1, |wps|);
    var a, b, c := At(wps, w, i, j).kept, UptoAfter(wps, w, i + 1).kept, UptoAfter(wps, w, |wps|).kept;
    var p :| 0 <= p < |a| && a[p] == e;
    assert a == b[..|a|] && b == c[..|b|];
    assert c[p] == e;
  }

  /** For any weights: an admitted pair's id is among the ids recorded when the loops end. */
  lemma PairIdRecorded(wps: seq<WayPoint>, w: WeightFn, i: nat, j: nat)
    requires i < j < |wps| && Admitted(w(i, j))
    ensures PairEdge(wps, w, i, j).id in UptoAfter(wps, w, |wps|).added
  {
    var n := |wps|;
    RowNext(wps, w, i, j, UptoAfter(wps, w, i));
    AddedGrows(wps, w, i, j + 1, n - 1, n);
    UptoNext(wps, w, n - 1);
  }

  /**
   * For any weights: without collisions, the kept edge carrying an admitted pair's id is that
   * pair's edge, since the recorded ids are those of the kept edges.
   */
  lemma RecordedPairKept(wps: seq<WayPoint>, w: WeightFn, i: nat, j: nat)
    requires i < j < |wps| && Admitted(w(i, j))
    requires NoCollision(wps)
    requires PairEdge(wps, w, i, j).id in UptoAfter(wps, w, |wps|).added
    ensures PairEdge(wps, w, i, j) in UptoAfter(wps, w, |wps|).kept
  {
    var n := |wps|;
    var last := UptoAfter(wps, w, n);
    UptoSound(wps, w, n);
    var e :| e in last.kept && e.id == PairEdge(wps, w, i, j).id;
    var r, k :| 0 <= r < k < n && Before(r, k, n, n + 1) && Admitted(w(r, k)) && e == PairEdge(wps, w, r, k);
    assert PairId(wps, r, k) == PairId(wps, i, j);
  }

  /** For any weights: without collisions, an admitted pair keeps its edge to the end. */
  lemma AdmittedPairKept(wps: seq<WayPoint>, w: WeightFn, i: nat, j: nat)
    requires i < j < |wps| && Admitted(w(i, j))
    requires NoCollision(wps)
    ensures PairEdge(wps, w, i, j) in UptoAfter(wps, w, |wps|).kept
  {
    PairIdRecorded(wps, w, i, j);
    RecordedPairKept(wps, w, i, j);
  }

  /**
   * The converse of `EdgesJoinPairs`: when no two pairs share a canonical id, every pair i < j
   * whose weight is admitted has its edge in the graph.
   */
  lemma AdmittedPairHasEdge(wps: seq<WayPoint>, i: nat, j: nat)
    requires i < j < |wps| && Admitted(Weight(wps, i, j))
    requires NoCollision(wps)
    ensures EdgeElement(PairEdge(wps, Weights(wps), i, j)) in Elements(wps)
  {
    var w := Weights(wps);
    assert w(i, j) == Weight(wps, i, j);
    AdmittedPairKept(wps, w, i, j);
    var es := UptoAfter(wps, w, |wps|).kept;
    var p :| 0 <= p < |es| && es[p] == PairEdge(wps, w, i, j);
    assert Elements(wps)[|wps| + p] == EdgeElement(es[p]);
  }

  /** Once a pair (i, j) is considered, its id stays recorded for every later pair (k, l). */
  lemma IdRecorded(wps: seq<WayPoint>, w: WeightFn, i: nat, j: nat, k: nat, l: nat)
    requires i < j < |wps| && k < l < |wps| && Before(i, j, k, l)
    requires Admitted(w(i, j))
    ensures PairEdge(wps, w, i, j).id in At(wps, w, k, l).added
  {
    assert At(wps, w, i, j + 1) == Step(wps, w, i, j, At(wps, w, i, j));
    AddedGrows(wps, w, i, j + 1, k, l);
  }

  /**
   * When a later pair (k, l) has the same canonical id as an earlier admitted pair (i, j), the
   * builder skips it: its edge is never added.
   */
  lemma CollisionSkipped(wps: seq<WayPoint>, w: WeightFn, i: nat, j: nat, k: nat, l: nat)
    requires i < j < |wps| && k < l < |wps| && Before(i, j, k, l)
    requires Admitted(w(i, j))
    requires EdgeId(wps[i].data.id, wps[j].data.id) == EdgeId(wps[k].data.id, wps[l].data.id)
    ensures Step(wps, w, k, l, At(wps, w, k, l)) == At(wps, w, k, l)
  {
    IdRecorded(wps, w, i, j, k, l);
  }

  /** The inner loop keeps at most one edge per pair. */
  lemma {:induction false} RowCountBound(wps: seq<WayPoint>, w: WeightFn, i: nat, j: nat, start: Progress)
    requires i < j <= |wps|
    ensures |RowAfter(wps, w, i, j, start).kept| <= |start.kept| + (j - i - 1)
    decreases j
  {
    if j > i + 1 {
      RowCountBound(wps, w, i, j - 1, start);
      RowUnfold(wps, w, i, j, start);
    }
  }

  /** A pair (i, m) the inner loop skips leaves it strictly below one edge per pair. */
  lemma {:induction false} RowCountStrict(wps: seq<WayPoint>, w: WeightFn, i: nat, m: nat, j: nat, start: Progress)
    requires i < m < j <= |wps|
    requires Step(wps, w, i, m, RowAfter(wps, w, i, m, start)) == RowAfter(wps, w, i, m, start)
    ensures |RowAfter(wps, w, i, j, start).kept| < |start.kept| + (j - i - 1)
    decreases j
  {
    RowUnfold(wps, w, i, j, start);
    if j == m + 1 {
      RowCountBound(wps, w, i, m, start);
    } else {
      RowCountStrict(wps, w, i, m, j - 1, start);
    }
  }

  /** The first i rows keep at most one edge per pair, and fewer if a pair (k, l), k < i, was skipped. */
  lemma {:induction false} UptoCountBound(wps: seq<WayPoint>, w: WeightFn, i: nat, k: nat, l: nat)
    requires i <= |wps| && k < l < |wps|
    ensures |UptoAfter(wps, w, i).kept| <= PairsBefore(|wps|, i)
    ensures k < i && Step(wps, w, k, l, At(wps, w, k, l)) == At(wps, w, k, l) ==>
              |UptoAfter(wps, w, i).kept| < PairsBefore(|wps|, i)
  {
    if i > 0 {
      var r := i - 1;
      var prev := UptoAfter(wps, w, r);
      UptoCountBound(wps, w, r, k, l);
      UptoUnfold(wps, w, i);
      RowCountBound(wps, w, r, |wps|, prev);
      if k == r && Step(wps, w, k, l, At(wps, w, k, l)) == At(wps, w, k, l) {
        RowCountStrict(wps, w, r, l, |wps|, prev);
      }
    }
  }

  /** For any weights: a collision leaves fewer kept edges than pairs. */
  lemma CollisionKeepsFewer(wps: seq<WayPoint>, w: WeightFn, i: nat, j: nat, k: nat, l: nat)
    requires i < j < |wps| && k < l < |wps| && Before(i, j, k, l)
    requires Admitted(w(i, j))
    requires EdgeId(wps[i].data.id, wps[j].data.id) == EdgeId(wps[k].data.id, wps[l].data.id)
    ensures |UptoAfter(wps, w, |wps|).kept| < PairsBefore(|wps|, |wps|)
  {
    CollisionSkipped(wps, w, i, j, k, l);
    UptoCountBound(wps, w, |wps|, k, l);
  }

  /**
   * Two admitted pairs whose canonical ids collide (possible once ids contain '-') leave the
   * graph with fewer edges than pairs.
   */
  lemma CollisionDropsEdge(wps: seq<WayPoint>, i: nat, j: nat, k: nat, l: nat)
    requires i < j < |wps| && k < l < |wps| && Before(i, j, k, l)
    requires Admitted(Weight(wps, i, j))
    requires EdgeId(wps[i].data.id, wps[j].data.id) == EdgeId(wps[k].data.id, wps[l].data.id)
    ensures |Elements(wps)| < |wps| + |wps| * (|wps| - 1) / 2
  {
    var w := Weights(wps);
    assert w(i, j) == Weight(wps, i, j);
    CollisionKeepsFewer(wps, w, i, j, k, l);
    AllPairs(|wps|);
  }
}
