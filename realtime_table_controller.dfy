/**
 * The real-time telemetry table: each batch of real-time data appends one
 * row per telemetry object that has a datum, keeping at most `MaxRows`
 * rows by dropping the oldest, and tells the table view about every row
 * removed and added.
 *
 * The telemetry handle and the row formatter are collaborators: a batch
 * is given as the row built for each telemetry object, in the handle's
 * order, or None for an object without a datum.
 */
module RealtimeTableController {
  import opened Base

  const MaxRows: nat := 100000

  /** The values of one table row, by column. */
  type Row = map<string, string>

  /** What the controller broadcasts to the table view. */
  datatype Broadcast = RemoveRow(index: int) | AddRow(index: int)

  /** The rows after pushing `row`: appended, and the oldest dropped when that exceeds `max`. */
  function Push(rows: seq<Row>, row: Row, max: nat): (r: seq<Row>)
    ensures |rows| <= max ==> |r| <= max
    ensures |rows| < max ==> r == rows + [row]
    ensures max > 0 ==> r != [] && r[|r| - 1] == row
  {
    var pushed := rows + [row];
    if |pushed| > max then pushed[1..] else pushed
  }

  /** The rows after a whole batch. */
  function Fed(rows: seq<Row>, batch: seq<Option<Row>>, max: nat): seq<Row> {
    if batch == [] then rows
    else
      var before := Fed(rows, batch[..|batch| - 1], max);
      match batch[|batch| - 1]
      case Some(row) => Push(before, row, max)
      case None => before
  }

  /** The broadcasts a batch causes: for each new row, a removal of row 0 if one was dropped, then the new last index. */
  function Broadcasts(rows: seq<Row>, batch: seq<Option<Row>>, max: nat): seq<Broadcast> {
    if batch == [] then []
    else
      var init := batch[..|batch| - 1];
      var before := Fed(rows, init, max);
      Broadcasts(rows, init, max) +
        (match batch[|batch| - 1]
         case Some(row) =>
           (if |before| + 1 > max then [RemoveRow(0)] else []) + [AddRow(|Push(before, row, max)| - 1)]
         case None => [])
  }

  /** The rows a batch brings, in order. */
  function NewRows(batch: seq<Option<Row>>): (r: seq<Row>)
    ensures |r| <= |batch|
  {
    if batch == [] then []
    else
      var init := NewRows(batch[..|batch| - 1]);
      match batch[|batch| - 1]
      case Some(row) => init + [row]
      case None => init
  }

  /** The last `max` elements of `s`, or all of them when there are fewer. */
  function Newest(s: seq<Row>, max: nat): (r: seq<Row>)
    ensures |r| == if |s| > max then max else |s|
  {
    if |s| > max then s[|s| - max..] else s
  }

  /**
   * A buffer that starts within the bound ends a batch holding exactly
   * the newest `max` of its old rows followed by the batch's rows.
   */
  lemma {:induction false} FedKeepsNewest(rows: seq<Row>, batch: seq<Option<Row>>, max: nat)
    requires |rows| <= max
    ensures Fed(rows, batch, max) == Newest(rows + NewRows(batch), max)
  {
    if batch != [] {
      var init := batch[..|batch| - 1];
      FedKeepsNewest(rows, init, max);
      var all := rows + NewRows(init);
      match batch[|batch| - 1]
      case Some(row) =>
        assert rows + NewRows(batch) == all + [row];
        var before := Newest(all, max);
        if |all| > max {
          assert before + [row] == (all + [row])[|all| - max..];
          assert (before + [row])[1..] == (all + [row])[|all| + 1 - max..];
        }
      case None =>
    }
  }

  /** The buffer never grows past the bound, and each added row's index is the buffer's last. */
  lemma {:induction false} FedStaysBounded(rows: seq<Row>, batch: seq<Option<Row>>, max: nat)
    requires 0 < max && |rows| <= max
    ensures |Fed(rows, batch, max)| <= max
    ensures forall b :: b in Broadcasts(rows, batch, max) ==> b == RemoveRow(0) || (b.AddRow? && 0 <= b.index < max)
  {
    if batch != [] {
      FedStaysBounded(rows, batch[..|batch| - 1], max);
    }
  }

  /** A batch adds one `AddRow` broadcast per row it brings. */
  lemma {:induction false} OneAddPerRow(rows: seq<Row>, batch: seq<Option<Row>>, max: nat)
    ensures |Broadcasts(rows, batch, max)| >= |NewRows(batch)|
    ensures |rows| + |NewRows(batch)| <= max ==> Broadcasts(rows, batch, max) == AddsFrom(|rows|, |NewRows(batch)|)
  {
    if batch != [] {
      var init := batch[..|batch| - 1];
      OneAddPerRow(rows, init, max);
      if |rows| + |NewRows(batch)| <= max {
        FedKeepsNewest(rows, init, max);
      }
    }
  }

  /** `AddRow(from)`, `AddRow(from + 1)`, ... `count` of them. */
  function AddsFrom(from: int, count: nat): (r: seq<Broadcast>)
    ensures |r| == count && forall i :: 0 <= i < count ==> r[i] == AddRow(from + i)
  {
    if count == 0 then [] else AddsFrom(from, count - 1) + [AddRow(from + count - 1)]
  }

  class RealtimeTableController {
    var rows: seq<Row>
    var loading: bool
    /** Everything broadcast to the table view, in order. */
    var broadcasts: seq<Broadcast>

    constructor ()
      ensures rows == [] && loading && broadcasts == []
    {
      rows, loading, broadcasts := [], true, [];
    }

    /** `addRealtimeData`: push the row of every telemetry object that has a datum, then stop loading. */
    method AddRealtimeData(batch: seq<Option<Row>>)
      modifies this
      ensures rows == Fed(old(rows), batch, MaxRows)
      ensures broadcasts == old(broadcasts) + Broadcasts(old(rows), batch, MaxRows)
      ensures |old(rows)| <= MaxRows ==> rows == Newest(old(rows) + NewRows(batch), MaxRows) && |rows| <= MaxRows
      ensures !loading
    {
      ghost var rows0 := rows;
      for i := 0 to |batch|
        invariant rows == Fed(old(rows), batch[..i], MaxRows)
        invariant broadcasts == old(broadcasts) + Broadcasts(old(rows), batch[..i], MaxRows)
      {
        assert batch[..i + 1][..i] == batch[..i];
        match batch[i]
        case Some(row) =>
          rows := rows + [row];
          if |rows| > MaxRows {
            broadcasts := broadcasts + [RemoveRow(0)];
            rows := rows[1..];
          }
          broadcasts := broadcasts + [AddRow(|rows| - 1)];
        case None =>
      }
      assert batch[..|batch|] == batch;
      if |rows0| <= MaxRows {
        FedKeepsNewest(rows0, batch, MaxRows);
      }
      loading := false;
    }
  }
}
