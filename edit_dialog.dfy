/**
 * The waypoint edit dialog (src/app/waypoints/WayPointEditDialog.tsx):
 * removing and submitting the edited waypoint, the label and coordinate
 * fields, and the connection picker.
 *
 * The row being edited is a value held by the dialog.  `parseFloat` is not
 * modelled: a field change arrives with its text and the number that
 * `parseFloat` read from it (NaN when it read none).
 */
module EditDialog {
  import opened Wrappers
  import opened Numbers
  import opened WayPoints

  // --------------------------------------------------------- remove, submit

  /** `rows.filter(r => r.data.id !== id)`. */
  function RemoveById(rows: seq<WayPoint>, id: string): (r: seq<WayPoint>)
    ensures forall w :: w in r <==> w in rows && w.data.id != id
    ensures |r| <= |rows|
    decreases |rows|
  {
    if |rows| == 0 then []
    else if rows[0].data.id == id then RemoveById(rows[1..], id)
    else [rows[0]] + RemoveById(rows[1..], id)
  }

  /** Removal works piece by piece, so the kept rows stay in their original order. */
  lemma {:induction false} RemoveSplits(xs: seq<WayPoint>, ys: seq<WayPoint>, id: string)
    ensures RemoveById(xs + ys, id) == RemoveById(xs, id) + RemoveById(ys, id)
    decreases |xs|
  {
    if |xs| == 0 {
      assert xs + ys == ys;
    } else {
      RemoveSplits(xs[1..], ys, id);
      assert (xs + ys)[1..] == xs[1..] + ys;
    }
  }

  /** Removing twice is removing once. */
  lemma {:induction false} RemoveIdempotent(rows: seq<WayPoint>, id: string)
    ensures RemoveById(RemoveById(rows, id), id) == RemoveById(rows, id)
    decreases |rows|
  {
    if |rows| > 0 {
      RemoveIdempotent(rows[1..], id);
      if rows[0].data.id != id {
        assert ([rows[0]] + RemoveById(rows[1..], id))[1..] == RemoveById(rows[1..], id);
      }
    }
  }

  /**
   * Removal leaves other waypoints' connections alone: a row linked to the removed waypoint
   * stays in the list, still naming an id that is no longer there.
   */
  lemma RemoveLeavesDanglingLink(rows: seq<WayPoint>, id: string, k: nat)
    requires k < |rows| && rows[k].data.id != id && rows[k].connection == Some(id)
    ensures rows[k] in RemoveById(rows, id)
    ensures id !in Ids(RemoveById(rows, id))
    ensures !ConnectionsInside(RemoveById(rows, id))
  {
    var r := RemoveById(rows, id);
    assert rows[k] in rows;
    assert forall i :: 0 <= i < |r| ==> r[i] in r;
    var m :| 0 <= m < |r| && r[m] == rows[k];
    assert r[m].connection.Some? && r[m].connection.value !in Ids(r);
  }

  /** `rows.map(r => r.data.id === edited.data.id ? edited : r)`. */
  function ReplaceById(rows: seq<WayPoint>, edited: WayPoint): (r: seq<WayPoint>)
    ensures |r| == |rows|
  {
    seq(|rows|, k requires 0 <= k < |rows| => if rows[k].data.id == edited.data.id then edited else rows[k])
  }

  /** Submitting changes no id, so the id set and distinctness are kept. */
  lemma ReplaceKeepsIds(rows: seq<WayPoint>, edited: WayPoint)
    ensures forall k :: 0 <= k < |rows| ==> ReplaceById(rows, edited)[k].data.id == rows[k].data.id
    ensures Ids(ReplaceById(rows, edited)) == Ids(rows)
    ensures DistinctIds(rows) ==> DistinctIds(ReplaceById(rows, edited))
  {
    var r := ReplaceById(rows, edited);
    forall id | id in Ids(rows) ensures id in Ids(r) {
      var k :| 0 <= k < |rows| && rows[k].data.id == id;
      assert r[k].data.id == id;
    }
  }

  /** The edited row is in the list after submitting exactly when its id was; every other row is unchanged. */
  lemma ReplaceInstallsEdit(rows: seq<WayPoint>, edited: WayPoint)
    ensures edited in ReplaceById(rows, edited) <==> edited.data.id in Ids(rows) || edited in rows
    ensures forall w :: w in rows && w.data.id != edited.data.id ==> w in ReplaceById(rows, edited)
  {
    var r := ReplaceById(rows, edited);
    if edited.data.id in Ids(rows) {
      var k :| 0 <= k < |rows| && rows[k].data.id == edited.data.id;
      assert r[k] == edited;
    }
    if edited in rows {
      var k :| 0 <= k < |rows| && rows[k] == edited;
      assert r[k] == edited;
    }
    forall w | w in rows && w.data.id != edited.data.id ensures w in r {
      var k :| 0 <= k < |rows| && rows[k] == w;
      assert r[k] == w;
    }
  }

  /** Submitting the same edit twice is submitting it once. */
  lemma ReplaceIdempotent(rows: seq<WayPoint>, edited: WayPoint)
    ensures ReplaceById(ReplaceById(rows, edited), edited) == ReplaceById(rows, edited)
  {
  }

  // ---------------------------------------------------------------- fields

  /** The three coordinate fields of the form. */
  datatype Field = X | Y | Z

  /** `text.length === 0 ? 0 : parseFloat(text)`, then NaN is ignored. */
  function FieldValue(text: string, parsed: Num): (v: Option<Num>)
    ensures |text| == 0 ==> v == Some(Fin(0))
    ensures |text| > 0 ==> (v.None? <==> parsed.NaN?)
    ensures |text| > 0 && !parsed.NaN? ==> v == Some(parsed)
  {
    if |text| == 0 then Some(Fin(0))
    else if parsed.NaN? then None
    else Some(parsed)
  }

  /** Field x writes position.x, field y writes the height, field z writes position.y. */
  function SetField(w: WayPoint, f: Field, v: Num): (r: WayPoint)
    ensures r.data.id == w.data.id && r.connection == w.connection
  {
    match f
    case X => w.(position := w.position.(x := v))
    case Y => w.(data := w.data.(height := v))
    case Z => w.(position := w.position.(y := v))
  }

  /** The "y" field is the height, which the distance rule ignores. */
  lemma HeightEditKeepsDistances(w: WayPoint, v: Num, u: WayPoint)
    ensures Distance(SetField(w, Y, v), u) == Distance(w, u)
    ensures Distance(u, SetField(w, Y, v)) == Distance(u, w)
  {
    DistanceIgnoresHeight(w, u, SetField(w, Y, v), u);
    DistanceIgnoresHeight(u, w, u, SetField(w, Y, v));
  }

  /** The "x" and "z" fields are the two coordinates the distance rule reads. */
  lemma PlanarFieldsSetDistance(w: WayPoint, u: WayPoint, x: int, z: int)
    requires !Linked(w, u)
    requires u.position.x.Fin? && u.position.y.Fin?
    ensures Distance(SetField(SetField(w, X, Fin(x)), Z, Fin(z)), u) ==
              Root((x - u.position.x.v) * (x - u.position.x.v) + (z - u.position.y.v) * (z - u.position.y.v))
  {
    var w' := SetField(SetField(w, X, Fin(x)), Z, Fin(z));
    assert !Linked(w', u);
    DistanceOfFinitePositions(w', u);
  }

  // ------------------------------------------------------------ connection

  /**
   * Picking row k of the list as the connection: the edited row now names it, and the picked row
   * names the edited one.  No other row changes, so a former partner keeps its old link.
   */
  function Connect(editRow: WayPoint, rows: seq<WayPoint>, k: nat): (r: (WayPoint, seq<WayPoint>))
    requires k < |rows|
    ensures |r.1| == |rows|
  {
    (editRow.(connection := Some(rows[k].data.id)),
     rows[k := rows[k].(connection := Some(editRow.data.id))])
  }

  /** After picking, the two are linked both ways, so the distance rule puts them 0 apart. */
  lemma ConnectLinksBothWays(editRow: WayPoint, rows: seq<WayPoint>, k: nat)
    requires k < |rows|
    ensures Connect(editRow, rows, k).0.connection == Some(rows[k].data.id)
    ensures Connect(editRow, rows, k).1[k].connection == Some(editRow.data.id)
    ensures Distance(Connect(editRow, rows, k).0, Connect(editRow, rows, k).1[k]) == Root(0)
    ensures Distance(Connect(editRow, rows, k).1[k], Connect(editRow, rows, k).0) == Root(0)
  {
  }

  /** A row that named the edited waypoint before keeps naming it, even after another row is picked. */
  lemma FormerPartnerKeepsLink(editRow: WayPoint, rows: seq<WayPoint>, k: nat, m: nat)
    requires k < |rows| && m < |rows| && m != k
    ensures Connect(editRow, rows, k).1[m] == rows[m]
  {
  }

  // ---------------------------------------------------------------- dialog

  /** The dialog's state: whether it is open, the row being edited, and the page's list it edits. */
  class EditDialogState {
    var open: bool
    var editRow: WayPoint
    var rows: seq<WayPoint>

    constructor (editRow0: WayPoint, rows0: seq<WayPoint>)
      ensures open && editRow == editRow0 && rows == rows0
    {
      open := true;
      editRow := editRow0;
      rows := rows0;
    }

    /** `handleDelete`: close, and drop every row with the edited id. */
    method Delete()
      modifies this
      ensures !open && editRow == old(editRow)
      ensures rows == RemoveById(old(rows), old(editRow).data.id)
    {
      open := false;
      rows := RemoveById(rows, editRow.data.id);
    }

    /** `onSubmit`: close, and put the edited row in place of every row with its id. */
    method Submit()
      modifies this
      ensures !open && editRow == old(editRow)
      ensures rows == ReplaceById(old(rows), old(editRow))
    {
      open := false;
      rows := ReplaceById(rows, editRow);
    }

    /** The label field: only the label changes. */
    method ChangeLabel(text: string)
      modifies this
      ensures open == old(open) && rows == old(rows)
      ensures editRow == old(editRow).(data := old(editRow).data.(name := text))
    {
      editRow := editRow.(data := editRow.data.(name := text));
    }

    /** A coordinate field: empty text writes 0, text `parseFloat` cannot read is ignored. */
    method ChangeField(f: Field, text: string, parsed: Num)
      modifies this
      ensures open == old(open) && rows == old(rows)
      ensures FieldValue(text, parsed).None? ==> editRow == old(editRow)
      ensures FieldValue(text, parsed).Some? ==> editRow == SetField(old(editRow), f, FieldValue(text, parsed).value)
    {
      var value := if |text| == 0 then Fin(0) else parsed;
      if value.NaN? {
        return;
      }
      editRow := SetField(editRow, f, value);
    }

    /** The connection picker: a picked row is linked both ways in place; clearing the choice does nothing. */
    method ChangeConnection(choice: Option<nat>)
      requires choice.Some? ==> choice.value < |rows|
      modifies this
      ensures open == old(open)
      ensures choice.None? ==> editRow == old(editRow) && rows == old(rows)
      ensures choice.Some? ==> (editRow, rows) == Connect(old(editRow), old(rows), choice.value)
    {
      if choice.Some? {
        var k := choice.value;
        var picked := rows[k];
        rows := rows[k := picked.(connection := Some(editRow.data.id))];
        editRow := editRow.(connection := Some(picked.data.id));
      }
    }
  }
}
