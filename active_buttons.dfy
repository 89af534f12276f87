/**
 * The waypoint action buttons (src/app/waypoints/WayPointActiveButtons.tsx):
 * "Add Waypoint" appends a fresh waypoint at the origin, and "Delete
 * WayPoints" empties the list.  Upload and download are the file hook's.
 *
 * The clock (`Date.now()`, `new Date()`) and the random id suffix are
 * parameters.
 */
module ActiveButtons {
  import opened Wrappers
  import opened Numbers
  import opened Strings
  import opened WayPoints

  /** `new-${Date.now()}-${waypoints.length}-${suffix}`: starts with "new-" and ends with the random suffix. */
  function NewId(now: Time, count: nat, suffix: string): (id: string)
    ensures StartsWith(id, "new-") && '-' in id
    ensures EndsWith(id, suffix)
  {
    var id := "new-" + IntText(now) + "-" + NatText(count) + "-" + suffix;
    assert id[..4] == "new-" && id[3] == '-';
    assert id[|id| - |suffix|..] == suffix;
    id
  }

  /**
   * The waypoint "Add Waypoint" creates when the list has `count` entries: label "Waypoint n+1",
   * height 0, at (0, 0), created and modified `now`, origin browser, no connection; its id starts
   * with "new-" and contains '-', so it is outside the ids for which the canonical edge id is
   * unambiguous.
   */
  function NewWayPoint(now: Time, count: nat, suffix: string): (w: WayPoint)
    ensures StartsWith(w.data.id, "new-") && '-' in w.data.id
    ensures w.data.name == "Waypoint " + NatText(count + 1)
    ensures w.data.height == Fin(0) && w.position == Position(Fin(0), Fin(0))
    ensures w.data.createdTime == now && w.data.modifiedTime == now && w.data.origin == Browser
    ensures w.connection.None?
  {
    WayPoint(
      WayPointData(NewId(now, count, suffix), "Waypoint " + NatText(count + 1), Fin(0), now, now, Browser, None, None, None),
      Position(Fin(0), Fin(0)),
      None)
  }

  /** Two adds at different list lengths give different labels. */
  lemma NewLabelsDiffer(now: Time, now': Time, count: nat, count': nat, suffix: string, suffix': string)
    requires count != count'
    ensures NewWayPoint(now, count, suffix).data.name != NewWayPoint(now', count', suffix').data.name
  {
    var p, a, b := "Waypoint ", NatText(count + 1), NatText(count' + 1);
    NatTextInjective(count + 1, count' + 1);
    assert (p + a)[|p|..] == a && (p + b)[|p|..] == b;
  }

  /** The new id is not checked against the list: if it is already taken, the list gets a repeated id. */
  lemma AddMayRepeatId(wps: seq<WayPoint>, now: Time, suffix: string)
    requires NewId(now, |wps|, suffix) in Ids(wps)
    ensures !DistinctIds(wps + [NewWayPoint(now, |wps|, suffix)])
  {
    var after := wps + [NewWayPoint(now, |wps|, suffix)];
    var k :| 0 <= k < |wps| && wps[k].data.id == NewId(now, |wps|, suffix);
    assert after[k].data.id == after[|wps|].data.id;
  }

  /** A fresh id keeps the ids of the list pairwise distinct. */
  lemma AddFreshKeepsDistinct(wps: seq<WayPoint>, now: Time, suffix: string)
    requires DistinctIds(wps)
    requires NewId(now, |wps|, suffix) !in Ids(wps)
    ensures DistinctIds(wps + [NewWayPoint(now, |wps|, suffix)])
  {
    var after := wps + [NewWayPoint(now, |wps|, suffix)];
    forall i, j | 0 <= i < j < |after| ensures after[i].data.id != after[j].data.id {
      if j == |wps| {
        assert after[i] == wps[i];
        assert wps[i].data.id in Ids(wps);
      } else {
        assert after[i] == wps[i] && after[j] == wps[j];
      }
    }
  }

  /** The page state the buttons change. */
  class WayPointList {
    var waypoints: seq<WayPoint>
    var sourceNode: Option<WayPoint>
    var destinationNode: Option<WayPoint>

    constructor (wps: seq<WayPoint>)
      ensures waypoints == wps && sourceNode == None && destinationNode == None
    {
      waypoints := wps;
      sourceNode := None;
      destinationNode := None;
    }

    /** "Add Waypoint": one new waypoint at the end; the others and the selection are untouched. */
    method AddWayPoint(now: Time, suffix: string)
      modifies this
      ensures waypoints == old(waypoints) + [NewWayPoint(now, |old(waypoints)|, suffix)]
      ensures sourceNode == old(sourceNode) && destinationNode == old(destinationNode)
    {
      var newId := "new-" + IntText(now) + "-" + NatText(|waypoints|) + "-" + suffix;
      var newRow := WayPoint(
        WayPointData(newId, "Waypoint " + NatText(|waypoints| + 1), Fin(0), now, now, Browser, None, None, None),
        Position(Fin(0), Fin(0)),
        None);
      waypoints := waypoints + [newRow];
    }

    /** "Delete WayPoints": the list becomes empty; the selection is left as it was. */
    method DeleteWayPoints()
      modifies this
      ensures waypoints == []
      ensures sourceNode == old(sourceNode) && destinationNode == old(destinationNode)
    {
      waypoints := [];
    }
  }
}
