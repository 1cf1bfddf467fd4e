/** The net-profit-over-time graph: the user's profit history, oldest first,
    turned into points whose value is the running total of the deltas so far. */
module NetProfitGraph {
  import opened Common

  /** A history row; the time is kept as the store's ordering key. */
  datatype HistoryRow = HistoryRow(profitDelta: real, recordedAt: int)

  datatype Point = Point(at: int, net: real)

  datatype GraphView = NoHistory | Chart(points: seq<Point>)

  function Delta(r: HistoryRow): real { r.profitDelta }

  /** The total of the deltas of the given rows. */
  function Total(rows: seq<HistoryRow>): real
  {
    Sum(rows, Delta)
  }

  /** The rows in the order the store returns them: `recorded_at` ascending. */
  predicate Chronological(rows: seq<HistoryRow>)
  {
    forall i, j :: 0 <= i < j < |rows| ==> rows[i].recordedAt <= rows[j].recordedAt
  }

  /** With no rows the "no history" view; otherwise one point per row, in the same order,
      whose value is the total of the deltas up to and including that row. */
  method BuildPoints(rows: seq<HistoryRow>) returns (view: GraphView)
    ensures view.NoHistory? <==> rows == []
    ensures view.Chart? ==> |view.points| == |rows|
    ensures view.Chart? ==> forall i :: 0 <= i < |rows| ==>
              view.points[i].at == rows[i].recordedAt && view.points[i].net == Total(rows[..i + 1])
    ensures view.Chart? ==> view.points[|rows| - 1].net == Total(rows)
    ensures view.Chart? ==> view.points[0].net == rows[0].profitDelta
    ensures view.Chart? ==> forall i :: 0 < i < |rows| ==>
              view.points[i].net == view.points[i - 1].net + rows[i].profitDelta
    ensures view.Chart? && Chronological(rows) ==>
              forall i, j :: 0 <= i < j < |rows| ==> view.points[i].at <= view.points[j].at
  {
    if |rows| == 0 {
      return NoHistory;
    }
    var running := 0.0;
    var points: seq<Point> := [];
    for i := 0 to |rows|
      invariant |points| == i
      invariant running == Total(rows[..i])
      invariant forall j :: 0 <= j < i ==> points[j].at == rows[j].recordedAt && points[j].net == Total(rows[..j + 1])
    {
      assert rows[..i + 1][..i] == rows[..i];
      running := running + rows[i].profitDelta;
      points := points + [Point(rows[i].recordedAt, running)];
    }
    assert rows[..|rows|] == rows;
    assert rows[..1][..0] == [];
    forall i | 0 < i < |rows|
      ensures points[i].net == points[i - 1].net + rows[i].profitDelta
    {
      assert rows[..i + 1][..i] == rows[..i];
    }
    return Chart(points);
  }
}
