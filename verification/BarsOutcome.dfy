/** What each payload says, from the rows themselves. */
module BarsOutcome {
  import opened Numeric
  import opened Wrappers
  import opened Bars
  import opened BarsRollUp

  /** Volumes added up. */
  function Traded(rows: seq<Row>): real {
    if rows == [] then 0.0 else Traded(rows[..|rows| - 1]) + rows[|rows| - 1].volume
  }

  lemma {:induction false} TradedIsVolume(rows: seq<Row>)
    ensures Traded(rows) == Volume(rows)
  {
    if |rows| == 1 {
      assert rows[..0] == [] && rows[1..] == [];
    } else if |rows| > 1 {
      var last := |rows| - 1;
      TradedIsVolume(rows[..last]);
      VolumeEnd(rows[..last], rows[last]);
      assert rows == rows[..last] + [rows[last]];
    }
  }

  lemma {:induction false} VolumeEnd(rows: seq<Row>, r: Row)
    ensures Volume(rows + [r]) == Volume(rows) + r.volume
  {
    if rows == [] {
      assert [] + [r] == [r] && [r][1..] == [];
    } else {
      VolumeEnd(rows[1..], r);
      assert (rows + [r])[1..] == rows[1..] + [r];
    }
  }

  lemma {:induction false} VolumeOfInsert(x: Row, rows: seq<Row>)
    ensures Volume(Insert(x, rows)) == x.volume + Volume(rows)
  {
    if rows == [] || x.ts <= rows[0].ts {
      assert ([x] + rows)[1..] == rows;
    } else {
      VolumeOfInsert(x, rows[1..]);
      assert Insert(x, rows)[1..] == Insert(x, rows[1..]);
    }
  }

  lemma {:induction false} VolumeOfSorted(rows: seq<Row>)
    ensures Volume(SortByTs(rows)) == Volume(rows)
  {
    hide Insert;
    if rows != [] {
      VolumeOfSorted(rows[1..]);
      VolumeOfInsert(rows[0], SortByTs(rows[1..]));
    }
  }

  lemma {:induction false} ExtremesAre(rows: seq<Row>)
    requires rows != []
    ensures (exists r <- rows :: r.high == MaxHigh(rows)) && forall r <- rows :: r.high <= MaxHigh(rows)
    ensures (exists r <- rows :: r.low == MinLow(rows)) && forall r <- rows :: MinLow(rows) <= r.low
  {
    if |rows| > 1 {
      ExtremesAre(rows[1..]);
      assert forall r :: r in rows <==> r == rows[0] || r in rows[1..];
      assert rows[0] in rows;
    } else {
      assert rows == [rows[0]] && rows[0] in rows;
    }
  }

  /** The bar tells these rows: its high is the highest high, its low the lowest low, its volume all of it; it opens
      with the first of the rows of the earliest time, and closes with the last of those of the latest. */
  ghost predicate Tells(bar: Bar, rows: seq<Row>) {
    && (exists r <- rows :: r.high == bar.high) && (forall r <- rows :: r.high <= bar.high)
    && (exists r <- rows :: r.low == bar.low) && (forall r <- rows :: bar.low <= r.low)
    && bar.volume == Traded(rows)
    && (exists t: int :: OpensAt(bar, rows, t))
    && (exists t: int :: ClosesAt(bar, rows, t))
  }

  ghost predicate OpensAt(bar: Bar, rows: seq<Row>, t: int) {
    var earliest := Within(rows, t, t + 1);
    (forall r <- rows :: t <= r.ts) && earliest != [] && bar.open == earliest[0].open
  }

  ghost predicate ClosesAt(bar: Bar, rows: seq<Row>, t: int) {
    var latest := Within(rows, t, t + 1);
    (forall r <- rows :: r.ts <= t) && latest != [] && bar.close == latest[|latest| - 1].close
  }

  lemma SortedMembers(rows: seq<Row>)
    ensures forall r :: r in SortByTs(rows) <==> r in rows
    ensures |SortByTs(rows)| == |rows|
  {
    var sorted := SortByTs(rows);
    assert |multiset(sorted)| == |sorted| && |multiset(rows)| == |rows|;
    forall r ensures r in sorted <==> r in rows {
      assert r in sorted <==> r in multiset(sorted);
      assert r in rows <==> r in multiset(rows);
    }
  }

  /** In sorted rows the first and the last are the ends of the rows of their times. */
  lemma SortedEnds(rows: seq<Row>)
    requires Sorted(rows) && rows != []
    ensures var last := |rows| - 1;
            && (var early := Within(rows, rows[0].ts, rows[0].ts + 1); early != [] && early[0] == rows[0])
            && (var late := Within(rows, rows[last].ts, rows[last].ts + 1);
                late != [] && late[|late| - 1] == rows[last])
  {
    var last := |rows| - 1;
    WithinEndsWith(rows, rows[last].ts, rows[last].ts + 1);
  }

  lemma {:induction false} WithinEndsWith(rows: seq<Row>, from: int, to: int)
    requires rows != [] && from <= rows[|rows| - 1].ts < to
    ensures var w := Within(rows, from, to); w != [] && w[|w| - 1] == rows[|rows| - 1]
  {
    if |rows| > 1 {
      WithinEndsWith(rows[1..], from, to);
    }
  }

  lemma AggregateTells(rows: seq<Row>)
    requires rows != []
    ensures Aggregate(SortByTs(rows)).Some? && Tells(Aggregate(SortByTs(rows)).value, rows)
  {
    hide SortByTs, MaxHigh, MinLow, Within, Traded, Volume;
    var sorted := SortByTs(rows);
    SortedMembers(rows);
    SortByTsSorted(rows);
    ExtremesAre(sorted);
    VolumeOfSorted(rows);
    TradedIsVolume(rows);
    SortedEnds(sorted);
    var bar, last := Aggregate(sorted).value, |sorted| - 1;
    SortIsStable(rows, sorted[0].ts);
    SortIsStable(rows, sorted[last].ts);
    forall r | r in rows ensures sorted[0].ts <= r.ts <= sorted[last].ts {
      var k :| 0 <= k < |sorted| && sorted[k] == r;
    }
    assert OpensAt(bar, rows, sorted[0].ts);
    assert ClosesAt(bar, rows, sorted[last].ts);
  }

  lemma {:induction false} WithinIff(rows: seq<Row>, from: int, to: int, r: Row)
    ensures r in Within(rows, from, to) <==> r in rows && from <= r.ts < to
  {
    if rows != [] {
      WithinIff(rows[1..], from, to, r);
      assert r in rows <==> r == rows[0] || r in rows[1..];
    }
  }

  /** The latest bar of a width: its time is the multiple of the width whose bucket holds the newest row, and it tells
      exactly the rows of that bucket. */
  lemma LatestPayloadTells(interval: string, width: int, rows: seq<Row>)
    requires rows != [] && width > 0
    ensures LatestPayload(interval, width, rows).Some?
    ensures var p := LatestPayload(interval, width, rows).value;
            && p.interval == interval && p.time % width == 0
            && (forall r <- rows :: r.ts < p.time + width) && (exists r <- rows :: p.time <= r.ts)
            && Within(rows, p.time, p.time + width) != [] && Tells(p.bar, Within(rows, p.time, p.time + width))
  {
    hide BucketStart, LatestTs, Aggregate, SortByTs, Within, Tells, LatestPayload;
    var start := BucketStart(LatestTs(rows), width);
    LatestIsBucketBar(interval, width, rows);
    BucketContains(LatestTs(rows), width);
    BucketIsMultiple(LatestTs(rows), width);
    var newest :| newest in rows && newest.ts == LatestTs(rows);
    WithinIff(rows, start, start + width, newest);
    AggregateTells(Within(rows, start, start + width));
  }

  lemma BucketIsMultiple(ts: int, width: int)
    requires width > 0
    ensures BucketStart(ts, width) % width == 0
  {
    var q := ts / width;
    assert (q * width) % width == 0 by { MultipleHasNoRest(q, width); }
  }

  lemma MultipleHasNoRest(q: int, width: int)
    requires width > 0
    ensures (q * width) % width == 0
  {
    QuotientUnique(q * width, q, width);
  }

  /** The payload of an interval of so many seconds. */
  ghost predicate IsPayload(p: Payload, interval: string, seconds: int, rows: seq<Row>)
    requires seconds > 0
  {
    LatestPayload(interval, seconds, rows) == Some(p)
  }

  lemma {:induction false} IntervalsAre(rows: seq<Row>, k: nat)
    requires rows != [] && k <= |CHART_INTERVALS|
    ensures |IntervalPayloads(rows, k)| == k
    ensures forall i | 0 <= i < k ::
              LatestPayload(CHART_INTERVALS[i].0, Width(CHART_INTERVALS[i].1), rows)
              == Some(IntervalPayloads(rows, k)[i])
  {
    hide LatestPayload, Width;
    if k > 0 {
      IntervalsAre(rows, k - 1);
      LatestPayloadTells(CHART_INTERVALS[k - 1].0, Width(CHART_INTERVALS[k - 1].1), rows);
    }
  }

  lemma Widths()
    ensures |CHART_INTERVALS| == 8
    ensures CHART_INTERVALS[0].0 == "1m" && Width(CHART_INTERVALS[0].1) == 60
    ensures CHART_INTERVALS[1].0 == "3m" && Width(CHART_INTERVALS[1].1) == 180
    ensures CHART_INTERVALS[2].0 == "5m" && Width(CHART_INTERVALS[2].1) == 300
    ensures CHART_INTERVALS[3].0 == "15m" && Width(CHART_INTERVALS[3].1) == 900
    ensures CHART_INTERVALS[4].0 == "30m" && Width(CHART_INTERVALS[4].1) == 1800
    ensures CHART_INTERVALS[5].0 == "1h" && Width(CHART_INTERVALS[5].1) == 3600
    ensures CHART_INTERVALS[6].0 == "2h" && Width(CHART_INTERVALS[6].1) == 7200
    ensures CHART_INTERVALS[7].0 == "4h" && Width(CHART_INTERVALS[7].1) == 14400
  {
  }

  /** The nine payloads, by label and width in seconds, in order. */
  lemma PayloadsAre(rows: seq<Row>)
    requires rows != []
    ensures Payloads([]) == []
    ensures var ps := Payloads(rows);
            && |ps| == 9
            && IsPayload(ps[0], "1m", 60, rows) && IsPayload(ps[1], "3m", 180, rows)
            && IsPayload(ps[2], "5m", 300, rows) && IsPayload(ps[3], "15m", 900, rows)
            && IsPayload(ps[4], "30m", 1800, rows) && IsPayload(ps[5], "1h", 3600, rows)
            && IsPayload(ps[6], "2h", 7200, rows) && IsPayload(ps[7], "4h", 14400, rows)
            && IsPayload(ps[8], "1D", 86400, rows)
  {
    hide LatestPayload, IntervalPayloads, Width;
    Widths();
    IntervalsAre(rows, 8);
    LatestPayloadTells("1D", SECONDS_PER_DAY, rows);
  }
}
