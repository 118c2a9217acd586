/** Live-bar roll-up: native one-minute rows become the latest bar of every chart interval. */
module Bars {
  import opened Numeric
  import opened Wrappers

  datatype Row = Row(ts: int, open: real, high: real, low: real, close: real, volume: real)

  datatype Bar = Bar(open: real, high: real, low: real, close: real, volume: real)

  datatype Payload = Payload(interval: string, time: int, bar: Bar)

  /** Chart labels and their widths in minutes. */
  const CHART_INTERVALS: seq<(string, int)> := [
    ("1m", 1), ("3m", 3), ("5m", 5), ("15m", 15), ("30m", 30), ("1h", 60), ("2h", 120), ("4h", 240)]

  function Width(minutes: int): (w: int)
    ensures w >= 60
  {
    (if minutes < 1 then 1 else minutes) * 60
  }

  /** Floor to a multiple of the width; Dafny's division is the euclidean one the source asks for. */
  function BucketStart(ts: int, width: int): int
    requires width > 0
  {
    ts / width * width
  }

  function LatestTs(rows: seq<Row>): (t: int)
    requires rows != []
    ensures exists r <- rows :: r.ts == t
    ensures forall r <- rows :: r.ts <= t
  {
    if |rows| == 1 then rows[0].ts
    else
      var rest := LatestTs(rows[1..]);
      assert forall r <- rows :: r == rows[0] || r in rows[1..];
      if rows[0].ts > rest then rows[0].ts else rest
  }

  /** The rows that fall into the bucket starting at `start`, in their order. */
  function InBucket(rows: seq<Row>, start: int, width: int): seq<Row>
    requires width > 0
  {
    if rows == [] then []
    else (if BucketStart(rows[0].ts, width) == start then [rows[0]] else []) + InBucket(rows[1..], start, width)
  }

  predicate Sorted(rows: seq<Row>) {
    forall i, j | 0 <= i < j < |rows| :: rows[i].ts <= rows[j].ts
  }

  /** Stable insertion of a row that came before all of these: it goes in front of its equals. */
  function Insert(x: Row, rows: seq<Row>): (s: seq<Row>)
    ensures multiset(s) == multiset(rows) + multiset{x}
  {
    if rows == [] || x.ts <= rows[0].ts then
      [x] + rows
    else
      assert rows == [rows[0]] + rows[1..];
      [rows[0]] + Insert(x, rows[1..])
  }

  /** Sorting by time, stably: rows of equal time keep their order. */
  function SortByTs(rows: seq<Row>): (s: seq<Row>)
    ensures multiset(s) == multiset(rows)
  {
    if rows == [] then []
    else
      assert rows == [rows[0]] + rows[1..];
      Insert(rows[0], SortByTs(rows[1..]))
  }

  function MaxHigh(rows: seq<Row>): real
    requires rows != []
  {
    if |rows| == 1 then rows[0].high else Max(rows[0].high, MaxHigh(rows[1..]))
  }

  function MinLow(rows: seq<Row>): real
    requires rows != []
  {
    if |rows| == 1 then rows[0].low else Min(rows[0].low, MinLow(rows[1..]))
  }

  function Volume(rows: seq<Row>): real {
    if rows == [] then 0.0 else rows[0].volume + Volume(rows[1..])
  }

  function Aggregate(rows: seq<Row>): Option<Bar> {
    if rows == [] then None
    else Some(Bar(rows[0].open, MaxHigh(rows), MinLow(rows), rows[|rows| - 1].close, Volume(rows)))
  }

  function Labelled(interval: string, time: int, bar: Option<Bar>): Option<Payload> {
    match bar
    case None => None
    case Some(b) => Some(Payload(interval, time, b))
  }

  function LatestPayload(interval: string, width: int, rows: seq<Row>): Option<Payload>
    requires width > 0
  {
    if rows == [] then None
    else
      var start := BucketStart(LatestTs(rows), width);
      Labelled(interval, start, Aggregate(SortByTs(InBucket(rows, start, width))))
  }

  /** The payloads of the first k intervals that have one. */
  function IntervalPayloads(rows: seq<Row>, k: nat): seq<Payload>
    requires k <= |CHART_INTERVALS|
  {
    if k == 0 then []
    else
      var (interval, minutes) := CHART_INTERVALS[k - 1];
      IntervalPayloads(rows, k - 1)
      + match LatestPayload(interval, Width(minutes), rows) case Some(p) => [p] case None => []
  }

  function Payloads(rows: seq<Row>): seq<Payload> {
    if rows == [] then []
    else
      IntervalPayloads(rows, |CHART_INTERVALS|)
      + match LatestPayload("1D", SECONDS_PER_DAY, rows) case Some(p) => [p] case None => []
  }

  method LatestMarketBarPayloads(rows: seq<Row>) returns (payloads: seq<Payload>)
    ensures payloads == Payloads(rows)
  {
    hide LatestPayload;
    payloads := [];
    if rows == [] {
      return;
    }
    for k := 0 to |CHART_INTERVALS|
      invariant payloads == IntervalPayloads(rows, k)
    {
      var (interval, minutes) := CHART_INTERVALS[k];
      var payload := LatestPayload(interval, Width(minutes), rows);
      if payload.Some? {
        payloads := payloads + [payload.value];
      }
    }
    var day := LatestPayload("1D", SECONDS_PER_DAY, rows);
    if day.Some? {
      payloads := payloads + [day.value];
    }
  }
}
