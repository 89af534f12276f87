/**
 * The waypoint file hook (src/hooks/useVintageStoryToolData.ts): uploading
 * waypoint files into the current list and selection, and downloading the
 * current state as `waypoints.json`.
 *
 * Reading a file and parsing and validating its JSON are not modelled: each
 * file arrives as `Some(doc)` when it parsed and matched the schema and as
 * `None` otherwise.  The clock is the parameter `now`.
 */
module ToolData {
  import opened Wrappers
  import opened WayPoints

  /** The state the hook reads and sets. */
  datatype ToolState = ToolState(
    waypoints: seq<WayPoint>,
    sourceNode: Option<WayPoint>,
    destinationNode: Option<WayPoint>,
    createdTime: Option<Time>,
    modifiedTime: Option<Time>)

  /** The `setWaypoints` updater: reject the upload wholesale if any id is shared, else append it. */
  function MergeWayPoints(prev: seq<WayPoint>, uploaded: seq<WayPoint>, newIds: set<string>): (r: seq<WayPoint>)
    ensures |prev| <= |r|
    ensures (exists k :: 0 <= k < |prev| && prev[k].data.id in newIds) ==> r == prev
    ensures (forall k :: 0 <= k < |prev| ==> prev[k].data.id !in newIds) ==> r[..|prev|] == prev && r[|prev|..] == uploaded
  {
    SharedIdIsListed(prev, newIds);
    if newIds * Ids(prev) != {} then prev else prev + uploaded
  }

  /** An id of the upload is shared with the list exactly when some listed waypoint has it. */
  lemma SharedIdIsListed(prev: seq<WayPoint>, newIds: set<string>)
    ensures newIds * Ids(prev) != {} <==> exists k :: 0 <= k < |prev| && prev[k].data.id in newIds
  {
    if newIds * Ids(prev) != {} {
      var id :| id in newIds * Ids(prev);
      var k :| 0 <= k < |prev| && prev[k].data.id == id;
    }
    if exists k :: 0 <= k < |prev| && prev[k].data.id in newIds {
      var k :| 0 <= k < |prev| && prev[k].data.id in newIds;
      assert prev[k].data.id in newIds * Ids(prev);
    }
  }

  /**
   * A selection named by the file: a non-empty id that matches an uploaded waypoint selects the
   * first such waypoint; otherwise the selection is unchanged.
   */
  function ResolveSelection(current: Option<WayPoint>, wanted: Option<string>, uploaded: seq<WayPoint>): (r: Option<WayPoint>)
    ensures r != current ==> wanted.Some? && r.Some? && r.value in uploaded && r.value.data.id == wanted.value
    ensures wanted.Some? && wanted.value != "" && (exists k :: 0 <= k < |uploaded| && uploaded[k].data.id == wanted.value) ==>
              r.Some? && r.value in uploaded && r.value.data.id == wanted.value
    ensures wanted.None? || wanted.value == "" || (forall k :: 0 <= k < |uploaded| ==> uploaded[k].data.id != wanted.value) ==>
              r == current
  {
    if wanted.Some? && wanted.value != "" then
      match FindById(uploaded, wanted.value)
      case Some(k) => Some(uploaded[k])
      case None => current
    else current
  }

  /** One file, with the timestamps adopted from the document. */
  function UploadFile(s: ToolState, file: Option<WayPointsJson>): ToolState {
    match file
    case None => s
    case Some(doc) =>
      var (uploaded, newIds) := Deserialized(doc);
      ToolState(
        MergeWayPoints(s.waypoints, uploaded, newIds),
        ResolveSelection(s.sourceNode, doc.source, uploaded),
        ResolveSelection(s.destinationNode, doc.destination, uploaded),
        Some(doc.createdTime),
        Some(doc.modifiedTime))
  }

  /** The files, one after the other; a file that failed to parse is skipped and the rest still processed. */
  function UploadAll(s: ToolState, files: seq<Option<WayPointsJson>>): ToolState
    decreases |files|
  {
    if |files| == 0 then s else UploadFile(UploadAll(s, files[..|files| - 1]), files[|files| - 1])
  }

  // ---------------------------------------------------------- timestamps

  /**
   * The timestamp guard as written: the document's time is adopted only when the hook's own
   * time, as captured when the upload began, is already set.
   */
  function AdoptedTimeAsWritten(captured: Option<Time>, current: Option<Time>, incoming: Time): Option<Time> {
    if captured.Some? then Some(incoming) else current
  }

  /** One file as the hook is written: the same as `UploadFile` except for the timestamp guard. */
  function UploadFileAsWritten(s: ToolState, capturedCreated: Option<Time>, capturedModified: Option<Time>,
                               file: Option<WayPointsJson>): (r: ToolState)
    ensures r.waypoints == UploadFile(s, file).waypoints
    ensures r.sourceNode == UploadFile(s, file).sourceNode && r.destinationNode == UploadFile(s, file).destinationNode
  {
    match file
    case None => s
    case Some(doc) =>
      UploadFile(s, file).(
        createdTime := AdoptedTimeAsWritten(capturedCreated, s.createdTime, doc.createdTime),
        modifiedTime := AdoptedTimeAsWritten(capturedModified, s.modifiedTime, doc.modifiedTime))
  }

  function UploadAllAsWritten(s: ToolState, capturedCreated: Option<Time>, capturedModified: Option<Time>,
                              files: seq<Option<WayPointsJson>>): ToolState
    decreases |files|
  {
    if |files| == 0 then s
    else UploadFileAsWritten(UploadAllAsWritten(s, capturedCreated, capturedModified, files[..|files| - 1]),
                             capturedCreated, capturedModified, files[|files| - 1])
  }

  /** As written, a state that starts without timestamps never gets any, whatever files are uploaded. */
  lemma {:induction false} FreshStateNeverAdoptsTimes(s: ToolState, files: seq<Option<WayPointsJson>>)
    requires s.createdTime.None? && s.modifiedTime.None?
    ensures UploadAllAsWritten(s, s.createdTime, s.modifiedTime, files).createdTime.None?
    ensures UploadAllAsWritten(s, s.createdTime, s.modifiedTime, files).modifiedTime.None?
    decreases |files|
  {
    if |files| > 0 {
      FreshStateNeverAdoptsTimes(s, files[..|files| - 1]);
    }
  }

  /** With the guard testing the incoming times, the last valid file's times are adopted. */
  lemma {:induction false} LastValidFileSetsTimes(s: ToolState, files: seq<Option<WayPointsJson>>, k: nat)
    requires k < |files| && files[k].Some?
    requires forall m :: k < m < |files| ==> files[m].None?
    ensures UploadAll(s, files).createdTime == Some(files[k].value.createdTime)
    ensures UploadAll(s, files).modifiedTime == Some(files[k].value.modifiedTime)
    decreases |files|
  {
    if k < |files| - 1 {
      LastValidFileSetsTimes(s, files[..|files| - 1], k);
    }
  }

  // ------------------------------------------------------------ properties

  /** The import yields pairwise distinct ids, and its id set is exactly their ids. */
  lemma DeserializedDistinct(doc: WayPointsJson)
    ensures DistinctIds(Deserialized(doc).0)
    ensures Ids(Deserialized(doc).0) == Deserialized(doc).1
  {
    var rows := doc.waypoints;
    if !HasDuplicateIds(rows) {
      var wps := Deserialized(doc).0;
      assert forall i :: 0 <= i < |wps| ==> wps[i].data.id == rows[i].data.id;
      assert Ids(wps) == RowIds(rows) by {
        forall id | id in RowIds(rows) ensures id in Ids(wps) {
          var i :| 0 <= i < |rows| && rows[i].data.id == id;
          assert wps[i].data.id == id;
        }
      }
    }
  }

  /** An upload never introduces a repeated id into a list that has none. */
  lemma MergeKeepsIdsDistinct(prev: seq<WayPoint>, doc: WayPointsJson)
    requires DistinctIds(prev)
    ensures DistinctIds(MergeWayPoints(prev, Deserialized(doc).0, Deserialized(doc).1))
  {
    var (uploaded, newIds) := Deserialized(doc);
    DeserializedDistinct(doc);
    var r := MergeWayPoints(prev, uploaded, newIds);
    if newIds * Ids(prev) == {} {
      assert r == prev + uploaded;
      forall i, j | 0 <= i < j < |r| ensures r[i].data.id != r[j].data.id {
        if j < |prev| {
          assert r[i] == prev[i] && r[j] == prev[j];
        } else if i >= |prev| {
          assert r[i] == uploaded[i - |prev|] && r[j] == uploaded[j - |prev|];
          assert uploaded[i - |prev|].data.id != uploaded[j - |prev|].data.id;
        } else {
          assert r[i] == prev[i] && r[j] == uploaded[j - |prev|];
          assert r[i].data.id in Ids(prev);
          assert uploaded[j - |prev|].data.id in Ids(uploaded);
          assert r[j].data.id in newIds;
          assert r[j].data.id !in newIds * Ids(prev);
        }
      }
    }
  }

  /** Any sequence of uploads keeps the waypoint ids pairwise distinct. */
  lemma {:induction false} UploadsKeepIdsDistinct(s: ToolState, files: seq<Option<WayPointsJson>>)
    requires DistinctIds(s.waypoints)
    ensures DistinctIds(UploadAll(s, files).waypoints)
    decreases |files|
  {
    if |files| > 0 {
      UploadsKeepIdsDistinct(s, files[..|files| - 1]);
      if files[|files| - 1].Some? {
        MergeKeepsIdsDistinct(UploadAll(s, files[..|files| - 1]).waypoints, files[|files| - 1].value);
      }
    }
  }

  /** An accepted upload keeps the old waypoints first and appends the file's, both in order. */
  lemma AcceptedUploadAppends(s: ToolState, doc: WayPointsJson)
    requires !HasDuplicateIds(doc.waypoints)
    requires forall k :: 0 <= k < |doc.waypoints| ==> doc.waypoints[k].data.id !in Ids(s.waypoints)
    ensures UploadFile(s, Some(doc)).waypoints == s.waypoints + Deserialized(doc).0
    ensures |UploadFile(s, Some(doc)).waypoints| == |s.waypoints| + |doc.waypoints|
  {
    assert RowIds(doc.waypoints) * Ids(s.waypoints) == {};
  }

  /** A file in which an id repeats leaves the list as it was. */
  lemma DuplicateFileLeavesList(s: ToolState, doc: WayPointsJson)
    requires HasDuplicateIds(doc.waypoints)
    ensures UploadFile(s, Some(doc)).waypoints == s.waypoints
  {
    assert s.waypoints + [] == s.waypoints;
  }

  /**
   * Selection is resolved even when the merge is rejected: a file that reuses an id already in
   * the list, naming it as source, leaves the list unchanged but selects the file's waypoint, which
   * is not in the list when its position differs from every listed waypoint with that id.
   */
  lemma RejectedUploadStillSelects(s: ToolState, doc: WayPointsJson, k: nat)
    requires !HasDuplicateIds(doc.waypoints)
    requires k < |doc.waypoints| && doc.waypoints[k].data.id in Ids(s.waypoints)
    requires doc.source == Some(doc.waypoints[k].data.id) && doc.waypoints[k].data.id != ""
    requires forall w :: w in s.waypoints ==> w.position != doc.waypoints[k].position
    ensures UploadFile(s, Some(doc)).waypoints == s.waypoints
    ensures UploadFile(s, Some(doc)).sourceNode.Some?
    ensures UploadFile(s, Some(doc)).sourceNode.value !in UploadFile(s, Some(doc)).waypoints
  {
    var rows := doc.waypoints;
    var uploaded := Deserialized(doc).0;
    assert rows[k].data.id in RowIds(rows) * Ids(s.waypoints);
    assert uploaded[k].data.id == rows[k].data.id;
    assert FindById(uploaded, rows[k].data.id) == Some(k);
    assert uploaded[k].position == rows[k].position;
  }

  /** A file that failed to parse is skipped: the files after it are processed as if it were absent. */
  lemma {:induction false} FailedFileSkipped(s: ToolState, before: seq<Option<WayPointsJson>>, after: seq<Option<WayPointsJson>>)
    ensures UploadAll(s, before + [None] + after) == UploadAll(s, before + after)
    decreases |after|
  {
    if |after| == 0 {
      assert (before + [None] + after)[..|before| + 1 - 1] == before;
      assert before + after == before;
    } else {
      var init := after[..|after| - 1];
      FailedFileSkipped(s, before, init);
      assert (before + [None] + after)[..|before + [None] + after| - 1] == before + [None] + init;
      assert (before + after)[..|before + after| - 1] == before + init;
    }
  }

  // ------------------------------------------------------------ the hook

  /** The hook's state, as fields that the upload and the download read and set. */
  class ToolDataHook {
    var waypoints: seq<WayPoint>
    var sourceNode: Option<WayPoint>
    var destinationNode: Option<WayPoint>
    var createdTime: Option<Time>
    var modifiedTime: Option<Time>

    constructor ()
      ensures waypoints == [] && sourceNode == None && destinationNode == None
      ensures createdTime == None && modifiedTime == None
    {
      waypoints := [];
      sourceNode := None;
      destinationNode := None;
      createdTime := None;
      modifiedTime := None;
    }

    function State(): ToolState
      reads this
    {
      ToolState(waypoints, sourceNode, destinationNode, createdTime, modifiedTime)
    }

    /** `uploadWayPoints`: each file in turn; a failed file reports an error and changes nothing. */
    method UploadWayPoints(files: seq<Option<WayPointsJson>>)
      modifies this
      ensures State() == UploadAll(old(State()), files)
    {
      ghost var start := State();
      var k := 0;
      while k < |files|
        invariant 0 <= k <= |files|
        invariant State() == UploadAll(start, files[..k])
      {
        assert files[..k + 1][..k] == files[..k];
        var file := files[k];
        if file.Some? {
          var doc := file.value;
          createdTime := Some(doc.createdTime);
          modifiedTime := Some(doc.modifiedTime);
          var uploaded, newIds := DeserializeWayPoints(doc);
          waypoints := MergeWayPoints(waypoints, uploaded, newIds);
          if doc.source.Some? && doc.source.value != "" {
            var found := FindById(uploaded, doc.source.value);
            if found.Some? {
              sourceNode := Some(uploaded[found.value]);
            }
          }
          if doc.destination.Some? && doc.destination.value != "" {
            var found := FindById(uploaded, doc.destination.value);
            if found.Some? {
              destinationNode := Some(uploaded[found.value]);
            }
          }
        }
        k := k + 1;
      }
      assert files[..k] == files;
    }

    /** `downloadWayPoints`: the serialised state, saved under the name `waypoints.json`. */
    method DownloadWayPoints(now: Time) returns (fileName: string, doc: WayPointsJson)
      ensures fileName == "waypoints.json"
      ensures doc == Serialized(createdTime, modifiedTime, waypoints, sourceNode, destinationNode, now)
    {
      doc := SerializeWayPoints(createdTime, modifiedTime, waypoints, sourceNode, destinationNode, now);
      fileName := "waypoints.json";
    }
  }
}
