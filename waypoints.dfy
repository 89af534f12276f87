/**
 * Waypoints and their portable JSON form (src/app/waypoints/utils.ts):
 * the record shapes, the distance rule, the two-pass import with duplicate
 * rejection and connection resolution, the export, and the two text
 * renderings of a waypoint.
 *
 * A waypoint's `connection` is the id of its teleport partner rather than an
 * object reference; the id is all the rest of the tool ever reads from it.
 */
module WayPoints {
  import opened Wrappers
  import opened Numbers
  import opened Strings

  /** Milliseconds since the epoch; `new Date()` is passed in as `now`. */
  type Time = int

  /** The only origin the schema admits. */
  datatype Origin = Browser

  datatype Position = Position(x: Num, y: Num)

  datatype WayPointData = WayPointData(
    id: string,
    name: string,  // the source's `label`, a reserved word in Dafny
    height: Num,
    createdTime: Time,
    modifiedTime: Time,
    origin: Origin,
    pinned: Option<bool>,
    color: Option<string>,
    icon: Option<string>)

  /** An in-memory waypoint; `connection` names the partner's id. */
  datatype WayPoint = WayPoint(data: WayPointData, position: Position, connection: Option<string>)

  /** One record of the waypoints file (already validated against its schema). */
  datatype WayPointJson = WayPointJson(data: WayPointData, position: Position, connection: Option<string>)

  /** The whole waypoints file. */
  datatype WayPointsJson = WayPointsJson(
    createdTime: Time,
    modifiedTime: Time,
    source: Option<string>,
    destination: Option<string>,
    waypoints: seq<WayPointJson>)

  /** One hop of a computed route; `from` and `to` are node (waypoint) ids. */
  datatype PathStep = PathStep(id: string, from: string, to: string, distance: int)

  // ---------------------------------------------------------------- distance

  /** The pair is a teleport pair: either side's connection names the other. */
  predicate Linked(a: WayPoint, b: WayPoint) {
    a.connection == Some(b.data.id) || b.connection == Some(a.data.id)
  }

  /** `calculateDistance`: 0 for a teleport pair, else the planar distance over position.x and position.y. */
  function Distance(source: WayPoint, destination: WayPoint): (d: Length)
    ensures Linked(source, destination) ==> d == Root(0)
  {
    if Linked(source, destination) then Root(0)
    else
      var dx := Sub(source.position.x, destination.position.x);
      var dz := Sub(source.position.y, destination.position.y);
      SqrtOfSumOfSquares(Square(dx), Square(dz))
  }

  /** Whatever the coordinates, a teleport pair is at distance 0, in either direction. */
  lemma LinkedPairIsFree(a: WayPoint, b: WayPoint)
    requires a.connection == Some(b.data.id)
    ensures Distance(a, b) == Root(0) && Distance(b, a) == Root(0)
  {
  }

  /** Distance does not depend on the order of its arguments. */
  lemma DistanceSymmetric(a: WayPoint, b: WayPoint)
    ensures Distance(a, b) == Distance(b, a)
  {
    if !Linked(a, b) {
      SquareOfDifferenceSymmetric(a.position.x, b.position.x);
      SquareOfDifferenceSymmetric(a.position.y, b.position.y);
    }
  }

  lemma SquareOfDifferenceSymmetric(p: Num, q: Num)
    ensures Square(Sub(p, q)) == Square(Sub(q, p))
  {
    if p.Fin? && q.Fin? {
      assert (p.v - q.v) * (p.v - q.v) == (q.v - p.v) * (q.v - p.v);
    }
  }

  /** Finite positions give the square root of dx*dx + dz*dz; height plays no part. */
  lemma DistanceOfFinitePositions(a: WayPoint, b: WayPoint)
    requires !Linked(a, b)
    requires a.position.x.Fin? && a.position.y.Fin? && b.position.x.Fin? && b.position.y.Fin?
    ensures Distance(a, b) == Root(
      (a.position.x.v - b.position.x.v) * (a.position.x.v - b.position.x.v) +
      (a.position.y.v - b.position.y.v) * (a.position.y.v - b.position.y.v))
  {
  }

  /** Only position.x, position.y and the ids and connections matter: height, label and times do not. */
  lemma DistanceIgnoresHeight(a: WayPoint, b: WayPoint, a': WayPoint, b': WayPoint)
    requires a'.position == a.position && b'.position == b.position
    requires a'.connection == a.connection && b'.connection == b.connection
    requires a'.data.id == a.data.id && b'.data.id == b.data.id
    ensures Distance(a', b') == Distance(a, b)
  {
  }

  /** Coinciding finite positions are at distance 0. */
  lemma CoincidentIsZero(a: WayPoint, b: WayPoint)
    requires a.position == b.position && a.position.x.Fin? && a.position.y.Fin?
    ensures Distance(a, b) == Root(0)
  {
  }

  /** Rounded distance is 0 exactly for a teleport pair or coinciding finite positions. */
  lemma RoundedDistanceZero(a: WayPoint, b: WayPoint)
    requires a.position.x.Fin? && a.position.y.Fin? && b.position.x.Fin? && b.position.y.Fin?
    ensures RoundLength(Distance(a, b)) == Fin(0) <==> Linked(a, b) || a.position == b.position
  {
    if !Linked(a, b) {
      var dx := a.position.x.v - b.position.x.v;
      var dz := a.position.y.v - b.position.y.v;
      DistanceOfFinitePositions(a, b);
      SumOfSquaresZero(dx, dz);
      SamePosition(a.position, b.position);
    }
  }

  lemma SamePosition(p: Position, q: Position)
    requires p.x.Fin? && p.y.Fin? && q.x.Fin? && q.y.Fin?
    ensures p == q <==> p.x.v - q.x.v == 0 && p.y.v - q.y.v == 0
  {
  }

  lemma SumOfSquaresZero(p: int, q: int)
    ensures p * p + q * q == 0 <==> p == 0 && q == 0
  {
    SquarePositive(p);
    SquarePositive(q);
  }

  lemma SquarePositive(p: int)
    ensures p * p >= 0
    ensures p != 0 ==> p * p > 0
  {
    if p < 0 {
      assert p * p == (-p) * (-p);
    }
  }

  // ------------------------------------------------------- deserialisation

  /** Some id occurs twice in the document. */
  predicate HasDuplicateIds(rows: seq<WayPointJson>) {
    exists i, j :: 0 <= i < j < |rows| && rows[i].data.id == rows[j].data.id
  }

  function RowIds(rows: seq<WayPointJson>): set<string> {
    set i | 0 <= i < |rows| :: rows[i].data.id
  }

  /** `x || dflt` on an optional string: absent and empty both give the default. */
  function OrDefault(s: Option<string>, dflt: string): (r: string)
    ensures s.Some? && s.value != "" ==> r == s.value
    ensures s.None? || s.value == "" ==> r == dflt
  {
    if s.None? || s.value == "" then dflt else s.value
  }

  /** The data copied into an imported waypoint: origin browser, display defaults filled in. */
  function ImportedData(d: WayPointData): WayPointData {
    d.(origin := Browser,
       pinned := Some(d.pinned.GetOr(false)),
       color := Some(OrDefault(d.color, "red")),
       icon := Some(OrDefault(d.icon, "circle")))
  }

  /** First pass: a row becomes a waypoint with no connection yet. */
  function FirstPass(row: WayPointJson): WayPoint {
    WayPoint(ImportedData(row.data), row.position, None)
  }

  /** A connection id survives the second pass only if it names a waypoint of the same document. */
  function ResolvedConnection(row: WayPointJson, ids: set<string>): (c: Option<string>)
    ensures c.Some? <==> row.connection.Some? && row.connection.value in ids
    ensures c.Some? ==> c == row.connection
  {
    if row.connection.Some? && row.connection.value in ids then row.connection else None
  }

  function Imported(row: WayPointJson, ids: set<string>): WayPoint {
    FirstPass(row).(connection := ResolvedConnection(row, ids))
  }

  /**
   * What `deserializeWayPoints` returns: nothing at all when an id repeats,
   * otherwise one waypoint per row, in order, and the set of ids.
   */
  function Deserialized(doc: WayPointsJson): (r: (seq<WayPoint>, set<string>))
    ensures HasDuplicateIds(doc.waypoints) ==> r.0 == [] && r.1 == {}
    ensures !HasDuplicateIds(doc.waypoints) ==> |r.0| == |doc.waypoints| && r.1 == RowIds(doc.waypoints)
    ensures !HasDuplicateIds(doc.waypoints) ==>
              forall i :: 0 <= i < |r.0| ==> r.0[i].data.id == doc.waypoints[i].data.id && r.0[i].position == doc.waypoints[i].position
  {
    var rows := doc.waypoints;
    if HasDuplicateIds(rows) then ([], {})
    else (seq(|rows|, i requires 0 <= i < |rows| => Imported(rows[i], RowIds(rows))), RowIds(rows))
  }

  /** `results.find(x => x.data.id === id)`: the first waypoint with that id. */
  function FindById(wps: seq<WayPoint>, id: string): (r: Option<nat>)
    ensures r.Some? ==> r.value < |wps| && wps[r.value].data.id == id
    ensures r.Some? ==> forall j :: 0 <= j < r.value ==> wps[j].data.id != id
    ensures r.None? ==> forall j :: 0 <= j < |wps| ==> wps[j].data.id != id
    decreases |wps|
  {
    if |wps| == 0 then None
    else if wps[0].data.id == id then Some(0)
    else
      var r := FindById(wps[1..], id);
      if r.Some? then Some(r.value + 1) else None
  }

  /** A new id extends a duplicate-free prefix without creating a duplicate. */
  lemma PrefixExtend(rows: seq<WayPointJson>, k: nat)
    requires k < |rows|
    requires !HasDuplicateIds(rows[..k])
    requires rows[k].data.id !in RowIds(rows[..k])
    ensures !HasDuplicateIds(rows[..k + 1])
    ensures RowIds(rows[..k + 1]) == RowIds(rows[..k]) + {rows[k].data.id}
  {
    var p, q := rows[..k], rows[..k + 1];
    assert q == p + [rows[k]];
    forall i, j | 0 <= i < j < k + 1 ensures q[i].data.id != q[j].data.id {
      if j == k {
        assert q[i] == p[i];
        assert p[i].data.id in RowIds(p);
      } else {
        assert q[i] == p[i] && q[j] == p[j];
      }
    }
    forall id | id in RowIds(q) ensures id in RowIds(p) + {rows[k].data.id} {
      var i :| 0 <= i < k + 1 && q[i].data.id == id;
      if i < k { assert q[i] == p[i]; }
    }
    forall id | id in RowIds(p) ensures id in RowIds(q) {
      var i :| 0 <= i < k && p[i].data.id == id;
      assert q[i] == p[i];
    }
  }

  /** An id already seen in the prefix is a duplicate of the whole document. */
  lemma RepeatIsDuplicate(rows: seq<WayPointJson>, k: nat)
    requires k < |rows|
    requires rows[k].data.id in RowIds(rows[..k])
    ensures HasDuplicateIds(rows)
  {
    var i :| 0 <= i < k && rows[..k][i].data.id == rows[k].data.id;
    assert rows[i].data.id == rows[k].data.id;
  }

  /** During the second pass, `find` by id lands on the row's own index, and finds a connection id exactly when the document has it. */
  lemma FindInImport(results: seq<WayPoint>, rows: seq<WayPointJson>, k: nat, cid: string)
    requires |results| == |rows| && k < |rows|
    requires forall i :: 0 <= i < |rows| ==> results[i].data.id == rows[i].data.id
    requires !HasDuplicateIds(rows)
    ensures FindById(results, rows[k].data.id) == Some(k)
    ensures FindById(results, cid).Some? <==> cid in RowIds(rows)
  {
    assert results[k].data.id == rows[k].data.id;
    if cid in RowIds(rows) {
      var c :| 0 <= c < |rows| && rows[c].data.id == cid;
      assert results[c].data.id == cid;
    }
  }

  /** The first pass: rows become waypoints without connections, and a repeated id stops the import. */
  method ImportRows(rows: seq<WayPointJson>) returns (results: seq<WayPoint>, ids: set<string>, duplicate: bool)
    ensures duplicate <==> HasDuplicateIds(rows)
    ensures !duplicate ==> ids == RowIds(rows)
    ensures !duplicate ==> results == seq(|rows|, i requires 0 <= i < |rows| => FirstPass(rows[i]))
  {
    results := [];
    ids := {};
    var k := 0;
    while k < |rows|
      invariant 0 <= k <= |rows|
      invariant ids == RowIds(rows[..k])
      invariant !HasDuplicateIds(rows[..k])
      invariant results == seq(k, i requires 0 <= i < k => FirstPass(rows[i]))
    {
      var id := rows[k].data.id;
      if id in ids {
        RepeatIsDuplicate(rows, k);
        return [], {}, true;
      }
      PrefixExtend(rows, k);
      ids := ids + {id};
      results := results + [FirstPass(rows[k])];
      k := k + 1;
    }
    assert rows[..k] == rows;
    duplicate := false;
  }

  /** The second pass: each row's connection id, when the document has it, is set on that row's waypoint. */
  method LinkConnections(rows: seq<WayPointJson>, firstPass: seq<WayPoint>) returns (results: seq<WayPoint>)
    requires !HasDuplicateIds(rows)
    requires firstPass == seq(|rows|, i requires 0 <= i < |rows| => FirstPass(rows[i]))
    ensures results == seq(|rows|, i requires 0 <= i < |rows| => Imported(rows[i], RowIds(rows)))
  {
    results := firstPass;
    ghost var ids := RowIds(rows);
    var k := 0;
    while k < |rows|
      invariant 0 <= k <= |rows|
      invariant |results| == |rows|
      invariant forall i :: 0 <= i < |rows| ==> results[i].data.id == rows[i].data.id
      invariant forall i :: 0 <= i < k ==> results[i] == Imported(rows[i], ids)
      invariant forall i :: k <= i < |rows| ==> results[i] == FirstPass(rows[i])
    {
      var connectionId := rows[k].connection;
      if connectionId.Some? {
        FindInImport(results, rows, k, connectionId.value);
        var source := FindById(results, rows[k].data.id);
        var connection := FindById(results, connectionId.value);
        if source.Some? && connection.Some? {
          assert source.value == k;
          results := results[source.value := results[source.value].(connection := Some(results[connection.value].data.id))];
        }
      }
      k := k + 1;
    }
  }

  /** `deserializeWayPoints`: the two passes, or nothing at all on a repeated id. */
  method DeserializeWayPoints(doc: WayPointsJson) returns (results: seq<WayPoint>, ids: set<string>)
    ensures (results, ids) == Deserialized(doc)
  {
    var firstPass, duplicate;
    firstPass, ids, duplicate := ImportRows(doc.waypoints);
    if duplicate {
      return [], {};
    }
    results := LinkConnections(doc.waypoints, firstPass);
  }

  // --------------------------------------------------------- serialisation

  /** One exported record: ids, label, height, origin, position and connection id copied; times are `now`. */
  function Exported(w: WayPoint, now: Time): WayPointJson {
    WayPointJson(
      WayPointData(w.data.id, w.data.name, w.data.height, now, now, w.data.origin, None, None, None),
      Position(w.position.x, w.position.y),
      w.connection)
  }

  function IdOf(w: Option<WayPoint>): Option<string> {
    if w.Some? then Some(w.value.data.id) else None
  }

  /** What `serializeWayPoints` returns for the given state. */
  function Serialized(createdTime: Option<Time>, modifiedTime: Option<Time>, wps: seq<WayPoint>,
                      sourceNode: Option<WayPoint>, destinationNode: Option<WayPoint>, now: Time): (doc: WayPointsJson)
    ensures |doc.waypoints| == |wps|
    ensures forall i :: 0 <= i < |wps| ==>
              doc.waypoints[i].data.id == wps[i].data.id && doc.waypoints[i].connection == wps[i].connection &&
              doc.waypoints[i].data.createdTime == now && doc.waypoints[i].data.modifiedTime == now
    ensures doc.createdTime == (if createdTime.Some? then createdTime.value else now)
    ensures doc.modifiedTime == (if modifiedTime.Some? then modifiedTime.value else now)
    ensures sourceNode.Some? <==> doc.source.Some?
    ensures destinationNode.Some? <==> doc.destination.Some?
  {
    WayPointsJson(
      createdTime.GetOr(now),
      modifiedTime.GetOr(now),
      IdOf(sourceNode),
      IdOf(destinationNode),
      seq(|wps|, i requires 0 <= i < |wps| => Exported(wps[i], now)))
  }

  /** `serializeWayPoints`: one record per waypoint, in order; source and destination by id; times kept or `now`. */
  method SerializeWayPoints(createdTime: Option<Time>, modifiedTime: Option<Time>, wps: seq<WayPoint>,
                            sourceNode: Option<WayPoint>, destinationNode: Option<WayPoint>, now: Time)
    returns (doc: WayPointsJson)
    ensures doc == Serialized(createdTime, modifiedTime, wps, sourceNode, destinationNode, now)
  {
    var newWaypoints: seq<WayPointJson> := [];
    var k := 0;
    while k < |wps|
      invariant 0 <= k <= |wps|
      invariant newWaypoints == seq(k, i requires 0 <= i < k => Exported(wps[i], now))
    {
      var row := wps[k];
      var newRow := WayPointJson(
        WayPointData(row.data.id, row.data.name, row.data.height, now, now, row.data.origin, None, None, None),
        Position(row.position.x, row.position.y),
        row.connection);
      newWaypoints := newWaypoints + [newRow];
      k := k + 1;
    }
    doc := WayPointsJson(
      if createdTime.Some? then createdTime.value else now,
      if modifiedTime.Some? then modifiedTime.value else now,
      if sourceNode.Some? then Some(sourceNode.value.data.id) else None,
      if destinationNode.Some? then Some(destinationNode.value.data.id) else None,
      newWaypoints);
  }

  // -------------------------------------------------------------- round trip

  function Ids(wps: seq<WayPoint>): set<string> {
    set i | 0 <= i < |wps| :: wps[i].data.id
  }

  predicate DistinctIds(wps: seq<WayPoint>) {
    forall i, j :: 0 <= i < j < |wps| ==> wps[i].data.id != wps[j].data.id
  }

  /** Every connection names a waypoint of the list. */
  predicate ConnectionsInside(wps: seq<WayPoint>) {
    forall i :: 0 <= i < |wps| && wps[i].connection.Some? ==> wps[i].connection.value in Ids(wps)
  }

  /** A waypoint as it comes back from export then import: times are `now`, display fields at their defaults. */
  function Reimported(w: WayPoint, now: Time): WayPoint {
    w.(data := w.data.(createdTime := now, modifiedTime := now, origin := Browser,
                       pinned := Some(false), color := Some("red"), icon := Some("circle")))
  }

  /**
   * Export then import gives back the same waypoints in the same order, with
   * the same ids, labels, heights, positions and connections, and the same id
   * set; only the times and the display defaults are renewed.
   */
  lemma RoundTrip(createdTime: Option<Time>, modifiedTime: Option<Time>, wps: seq<WayPoint>,
                  sourceNode: Option<WayPoint>, destinationNode: Option<WayPoint>, now: Time)
    requires DistinctIds(wps)
    requires ConnectionsInside(wps)
    ensures Deserialized(Serialized(createdTime, modifiedTime, wps, sourceNode, destinationNode, now)) ==
            (seq(|wps|, i requires 0 <= i < |wps| => Reimported(wps[i], now)), Ids(wps))
  {
    var doc := Serialized(createdTime, modifiedTime, wps, sourceNode, destinationNode, now);
    var rows := doc.waypoints;
    assert !HasDuplicateIds(rows) by {
      forall i, j | 0 <= i < j < |rows| ensures rows[i].data.id != rows[j].data.id {
        assert rows[i].data.id == wps[i].data.id && rows[j].data.id == wps[j].data.id;
      }
    }
    assert RowIds(rows) == Ids(wps) by {
      forall id | id in Ids(wps) ensures id in RowIds(rows) {
        var i :| 0 <= i < |wps| && wps[i].data.id == id;
        assert rows[i].data.id == id;
      }
    }
    forall i | 0 <= i < |wps| ensures Imported(rows[i], RowIds(rows)) == Reimported(wps[i], now) {
      ReimportOne(wps[i], now, Ids(wps));
    }
    assert Deserialized(doc).0 == seq(|wps|, i requires 0 <= i < |wps| => Reimported(wps[i], now));
  }

  lemma ReimportOne(w: WayPoint, now: Time, ids: set<string>)
    requires w.connection.Some? ==> w.connection.value in ids
    ensures Imported(Exported(w, now), ids) == Reimported(w, now)
  {
    var d := Imported(Exported(w, now), ids).data;
    assert d.origin == Browser == w.data.origin;
    assert d == Reimported(w, now).data;
  }

  /** The selection is exported by id, so an id-based import can find it again. */
  lemma SelectionExportedById(createdTime: Option<Time>, modifiedTime: Option<Time>, wps: seq<WayPoint>,
                              s: WayPoint, d: WayPoint, now: Time)
    ensures Serialized(createdTime, modifiedTime, wps, Some(s), Some(d), now).source == Some(s.data.id)
    ensures Serialized(createdTime, modifiedTime, wps, Some(s), Some(d), now).destination == Some(d.data.id)
  {
  }

  /** A document with a repeated id imports nothing: no partial import. */
  lemma DuplicateRejected(doc: WayPointsJson, i: nat, j: nat)
    requires i < j < |doc.waypoints|
    requires doc.waypoints[i].data.id == doc.waypoints[j].data.id
    ensures Deserialized(doc) == ([], {})
  {
  }

  /**
   * Without repeated ids, the import is one waypoint per row, in order; a
   * connection to an id of the document is kept, an unknown one dropped;
   * no back-link is added.
   */
  lemma ImportRowByRow(doc: WayPointsJson, i: nat)
    requires !HasDuplicateIds(doc.waypoints)
    requires i < |doc.waypoints|
    ensures |Deserialized(doc).0| == |doc.waypoints|
    ensures Deserialized(doc).1 == RowIds(doc.waypoints)
    ensures Deserialized(doc).0[i].data == ImportedData(doc.waypoints[i].data)
    ensures Deserialized(doc).0[i].position == doc.waypoints[i].position
    ensures Deserialized(doc).0[i].connection ==
            (if doc.waypoints[i].connection.Some? && doc.waypoints[i].connection.value in RowIds(doc.waypoints)
             then doc.waypoints[i].connection else None)
  {
  }

  // ------------------------------------------------------------------- text

  /** How a template literal renders a number. */
  function NumText(n: Num): (s: string)
    ensures ' ' !in s && ',' !in s
  {
    match n
    case Fin(v) => IntText(v)
    case PosInf => "Infinity"
    case NegInf => "-Infinity"
    case NaN => "NaN"
  }

  /** How a template literal renders an optional string: an absent one is "undefined". */
  function OptText(s: Option<string>): string {
    if s.Some? then s.value else "undefined"
  }

  /** `stringifyWayPoint`: `label (x, height, y)`. */
  function StringifyWayPoint(w: WayPoint): (s: string)
    ensures StartsWith(s, w.data.name)
  {
    w.data.name + " (" + NumText(w.position.x) + ", " + NumText(w.data.height) + ", " + NumText(w.position.y) + ")"
  }

  /** Three space-free words appended to a text, each after one space, are split off as three words. */
  lemma SplitThreeWords(text: string, a: string, b: string, c: string)
    requires ' ' !in a && ' ' !in b && ' ' !in c
    ensures Split(text + [' '] + (a + [' '] + (b + [' '] + c)), ' ') == Split(text, ' ') + [a, b, c]
  {
    SplitWithout(a, ' ');
    SplitWithout(b, ' ');
    SplitWithout(c, ' ');
    SplitAround(b, ' ', c);
    SplitAround(a, ' ', b + [' '] + c);
    SplitAround(text, ' ', a + [' '] + (b + [' '] + c));
  }

  /** The words of the rendering end with the three coordinates: x, then height, then position.y. */
  lemma StringifyWords(w: WayPoint)
    ensures Split(StringifyWayPoint(w), ' ') ==
            Split(w.data.name, ' ') +
            ["(" + NumText(w.position.x) + ",", NumText(w.data.height) + ",", NumText(w.position.y) + ")"]
  {
    var x, h, y := NumText(w.position.x), NumText(w.data.height), NumText(w.position.y);
    var a, b, c := "(" + x + ",", h + ",", y + ")";
    assert ' ' !in a && ' ' !in b && ' ' !in c;
    assert StringifyWayPoint(w) == w.data.name + [' '] + (a + [' '] + (b + [' '] + c));
    SplitThreeWords(w.data.name, a, b, c);
  }

  /** The words of `getWaypointCommand` before the label: position.y comes after the height. */
  function CommandWordsBeforeLabel(w: WayPoint): seq<string> {
    ["/waypoint", "addati", OptText(w.data.icon), NumText(w.position.x), NumText(w.data.height),
     NumText(w.position.y), if w.data.pinned == Some(true) then "true" else "false", OptText(w.data.color)]
  }

  /** `getWaypointCommand`: the in-game command that recreates the waypoint, its words separated by single spaces. */
  function WaypointCommand(w: WayPoint): (cmd: string)
    ensures StartsWith(cmd, "/waypoint") && EndsWith(cmd, " " + w.data.name)
  {
    var words := CommandWordsBeforeLabel(w);
    JoinStartsWithFirst(words + [w.data.name], " ");
    JoinSnoc(words, w.data.name, " ");
    var cmd := Join(words + [w.data.name], " ");
    assert cmd[|cmd| - |" " + w.data.name|..] == " " + w.data.name;
    cmd
  }

  /**
   * With an icon and a colour free of spaces, the command's words are the
   * fixed prefix, the icon, x, height, position.y (in that order), the
   * pinned flag and the colour, and the remaining words spell the label.
   */
  lemma CommandWords(w: WayPoint)
    requires ' ' !in OptText(w.data.icon) && ' ' !in OptText(w.data.color)
    ensures var words := Split(WaypointCommand(w), ' ');
            |words| >= 9 &&
            words[..8] == ["/waypoint", "addati", OptText(w.data.icon), NumText(w.position.x),
                           NumText(w.data.height), NumText(w.position.y),
                           if w.data.pinned == Some(true) then "true" else "false", OptText(w.data.color)] &&
            Join(words[8..], " ") == w.data.name
  {
    var tokens := CommandWordsBeforeLabel(w);
    forall i | 0 <= i < |tokens| ensures ' ' !in tokens[i] {
    }
    CommandSplit(tokens, w.data.name);
    JoinSplit(w.data.name, ' ');
    assert (tokens + Split(w.data.name, ' '))[..8] == tokens;
    assert (tokens + Split(w.data.name, ' '))[8..] == Split(w.data.name, ' ');
  }

  /** Splitting a join whose leading words have no spaces gives those words, then the last part's words. */
  lemma {:induction false} CommandSplit(tokens: seq<string>, rest: string)
    requires forall i :: 0 <= i < |tokens| ==> ' ' !in tokens[i]
    ensures Split(Join(tokens + [rest], " "), ' ') == tokens + Split(rest, ' ')
    decreases |tokens|
  {
    if |tokens| == 0 {
      assert tokens + [rest] == [rest];
    } else {
      var all := tokens + [rest];
      var tail := Join(all[1..], " ");
      CommandSplit(tokens[1..], rest);
      assert all[1..] == tokens[1..] + [rest];
      assert Join(all, " ") == tokens[0] + [' '] + tail;
      SplitAround(tokens[0], ' ', tail);
      SplitWithout(tokens[0], ' ');
      assert [tokens[0]] + (tokens[1..] + Split(rest, ' ')) == tokens + Split(rest, ' ');
    }
  }
}
