/** Rolling bars up in steps or in one go gives the same bars. */
module BarsRollUp {
  import opened Numeric
  import opened Wrappers
  import opened Permutations
  import opened Bars

  // ---------- buckets ----------

  lemma BucketContains(ts: int, width: int)
    requires width > 0
    ensures BucketStart(ts, width) <= ts < BucketStart(ts, width) + width
  {
  }

  /** A row is in a bucket exactly when its own bucket is that one. */
  lemma BucketIff(ts: int, k: int, width: int)
    requires width > 0
    ensures BucketStart(ts, width) == k * width <==> k * width <= ts < k * width + width
  {
    if k * width <= ts < k * width + width {
      QuotientUnique(ts, k, width);
    }
  }

  /** Buckets nest whenever one width divides another. */
  lemma BucketsNest(ts: int, width: int, times: int)
    requires width > 0 && times > 0 && width * times > 0
    ensures BucketStart(BucketStart(ts, width), width * times) == BucketStart(ts, width * times)
  {
    var wide := width * times;
    var q := ts / wide;
    var narrow := BucketStart(ts, width);
    assert q * wide == q * times * width;
    NotBelow(ts, q * times, width);
    QuotientUnique(narrow, q, wide);
  }

  /** Flooring never crosses a multiple of the width. */
  lemma NotBelow(ts: int, m: int, width: int)
    requires width > 0 && m * width <= ts
    ensures m * width <= BucketStart(ts, width) <= ts
  {
    CancelLess(m, ts / width + 1, width);
    MulGrows(m, ts / width, width);
  }

  // ---------- sorting and selecting ----------

  /** The rows with from <= ts < to, in their order. */
  function Within(rows: seq<Row>, from: int, to: int): seq<Row> {
    if rows == [] then []
    else (if from <= rows[0].ts < to then [rows[0]] else []) + Within(rows[1..], from, to)
  }

  lemma {:induction false} WithinMembers(rows: seq<Row>, from: int, to: int)
    ensures forall r <- Within(rows, from, to) :: r in rows && from <= r.ts < to
  {
    if rows != [] {
      WithinMembers(rows[1..], from, to);
    }
  }

  /** The bar of the rows of one time range. */
  function BucketBar(rows: seq<Row>, start: int, width: int): Option<Bar> {
    Aggregate(SortByTs(Within(rows, start, start + width)))
  }

  /** Selecting by bucket is selecting by time. */
  lemma {:induction false} InBucketIsWithin(rows: seq<Row>, k: int, width: int)
    requires width > 0
    ensures InBucket(rows, k * width, width) == Within(rows, k * width, k * width + width)
  {
    hide BucketStart;
    if rows != [] {
      BucketIff(rows[0].ts, k, width);
      InBucketIsWithin(rows[1..], k, width);
    }
  }

  lemma LatestIsBucketBar(interval: string, width: int, rows: seq<Row>)
    requires rows != [] && width > 0
    ensures var start := BucketStart(LatestTs(rows), width);
            LatestPayload(interval, width, rows) == Labelled(interval, start, BucketBar(rows, start, width))
  {
    hide Aggregate, SortByTs, LatestTs, Within, InBucket;
    InBucketIsWithin(rows, LatestTs(rows) / width, width);
  }

  lemma InsertedAfter(x: Row, y: Row, rows: seq<Row>)
    requires y.ts <= x.ts && forall r <- rows :: y.ts <= r.ts
    ensures forall r <- Insert(x, rows) :: y.ts <= r.ts
  {
    hide Insert;
    forall r | r in Insert(x, rows) ensures y.ts <= r.ts {
      assert r in multiset(Insert(x, rows));
      assert r == x || r in rows;
    }
  }

  lemma {:induction false} InsertSorted(x: Row, rows: seq<Row>)
    requires Sorted(rows)
    ensures Sorted(Insert(x, rows))
  {
    if rows != [] && x.ts > rows[0].ts {
      InsertSorted(x, rows[1..]);
      InsertedAfter(x, rows[0], rows[1..]);
      var rest := Insert(x, rows[1..]);
      assert forall j | 0 <= j < |rest| :: rest[j] in rest;
    }
  }

  lemma {:induction false} SortByTsSorted(rows: seq<Row>)
    ensures Sorted(SortByTs(rows))
  {
    if rows != [] {
      SortByTsSorted(rows[1..]);
      InsertSorted(rows[0], SortByTs(rows[1..]));
    }
  }

  /** Sorting keeps rows of equal time in their order, and every row. */
  lemma SortIsStable(rows: seq<Row>, ts: int)
    ensures Sorted(SortByTs(rows)) && multiset(SortByTs(rows)) == multiset(rows)
    ensures Within(SortByTs(rows), ts, ts + 1) == Within(rows, ts, ts + 1)
  {
    hide Within, SortByTs;
    SortByTsSorted(rows);
    SelectThenSort(rows, ts, ts + 1);
    WithinMembers(rows, ts, ts + 1);
    SortOfOneTime(Within(rows, ts, ts + 1), ts);
  }

  lemma {:induction false} SortOfOneTime(rows: seq<Row>, ts: int)
    requires forall r <- rows :: r.ts == ts
    ensures SortByTs(rows) == rows
  {
    if rows != [] {
      assert rows == [rows[0]] + rows[1..];
      SortOfOneTime(rows[1..], ts);
    }
  }

  lemma WithinCons(x: Row, rows: seq<Row>, from: int, to: int)
    ensures Within([x] + rows, from, to)
         == if from <= x.ts < to then [x] + Within(rows, from, to) else Within(rows, from, to)
  {
    assert ([x] + rows)[1..] == rows;
  }

  lemma InsertBehind(x: Row, y: Row, rows: seq<Row>)
    requires x.ts > y.ts
    ensures Insert(x, [y] + rows) == [y] + Insert(x, rows)
  {
    assert ([y] + rows)[1..] == rows;
  }

  lemma InsertFront(x: Row, rows: seq<Row>)
    requires rows != [] ==> x.ts <= rows[0].ts
    ensures Insert(x, rows) == [x] + rows
  {
  }

  lemma FirstWithin(rows: seq<Row>, from: int, to: int)
    requires Sorted(rows) && Within(rows, from, to) != []
    ensures rows[0].ts <= Within(rows, from, to)[0].ts
  {
    WithinMembers(rows, from, to);
    var r := Within(rows, from, to)[0];
    assert r in Within(rows, from, to);
    var i :| 0 <= i < |rows| && rows[i] == r;
  }

  lemma {:induction false} WithinOfInsert(x: Row, rows: seq<Row>, from: int, to: int)
    requires Sorted(rows)
    ensures Within(Insert(x, rows), from, to)
         == if from <= x.ts < to then Insert(x, Within(rows, from, to)) else Within(rows, from, to)
  {
    hide Within, Insert;
    if rows == [] || x.ts <= rows[0].ts {
      InsertFront(x, rows);
      WithinCons(x, rows, from, to);
      WithinOfNothing(from, to);
      if Within(rows, from, to) != [] {
        FirstWithin(rows, from, to);
      }
      InsertFront(x, Within(rows, from, to));
    } else {
      var y, rest := rows[0], rows[1..];
      assert rows == [y] + rest;
      WithinOfInsert(x, rest, from, to);
      InsertBehind(x, y, rest);
      WithinCons(y, Insert(x, rest), from, to);
      WithinCons(y, rest, from, to);
      InsertBehind(x, y, Within(rest, from, to));
    }
  }

  lemma WithinOfNothing(from: int, to: int)
    ensures Within([], from, to) == []
  {
  }

  lemma SortOfNothing()
    ensures SortByTs([]) == []
  {
  }

  lemma SortCons(x: Row, rows: seq<Row>)
    ensures SortByTs([x] + rows) == Insert(x, SortByTs(rows))
  {
    assert ([x] + rows)[1..] == rows;
  }

  /** Selecting before or after the stable sort is the same. */
  lemma {:induction false} SelectThenSort(rows: seq<Row>, from: int, to: int)
    ensures SortByTs(Within(rows, from, to)) == Within(SortByTs(rows), from, to)
  {
    hide Within, Insert, SortByTs, Sorted;
    if rows == [] {
      WithinOfNothing(from, to);
      SortOfNothing();
    } else {
      var x, rest := rows[0], rows[1..];
      assert rows == [x] + rest;
      SelectThenSort(rest, from, to);
      SortByTsSorted(rest);
      WithinOfInsert(x, SortByTs(rest), from, to);
      WithinCons(x, rest, from, to);
      SortCons(x, rest);
      SortCons(x, Within(rest, from, to));
    }
  }

  lemma {:induction false} NothingWithin(rows: seq<Row>, from: int, to: int)
    requires forall r <- rows :: !(from <= r.ts < to)
    ensures Within(rows, from, to) == []
  {
    if rows != [] {
      assert rows[0] in rows;
      NothingWithin(rows[1..], from, to);
    }
  }

  lemma NothingBeforeFirst(x: Row, rest: seq<Row>, from: int, mid: int)
    requires Sorted([x] + rest) && mid <= x.ts
    ensures Within(rest, from, mid) == []
  {
    hide Within;
    forall r | r in rest ensures !(from <= r.ts < mid) {
      var i :| 0 <= i < |rest| && rest[i] == r;
      assert ([x] + rest)[0].ts <= ([x] + rest)[i + 1].ts;
    }
    NothingWithin(rest, from, mid);
  }

  lemma SortedTail(x: Row, rest: seq<Row>)
    requires Sorted([x] + rest)
    ensures Sorted(rest)
  {
    assert ([x] + rest)[1..] == rest;
  }

  /** In time order, a range splits at any point into two consecutive pieces. */
  lemma {:induction false} WithinSplits(rows: seq<Row>, from: int, mid: int, to: int)
    requires Sorted(rows) && from <= mid <= to
    ensures Within(rows, from, to) == Within(rows, from, mid) + Within(rows, mid, to)
  {
    hide Within, Sorted;
    if rows == [] {
      WithinOfNothing(from, to);
      WithinOfNothing(from, mid);
      WithinOfNothing(mid, to);
    } else {
      var x, rest := rows[0], rows[1..];
      assert rows == [x] + rest;
      SortedTail(x, rest);
      WithinSplits(rest, from, mid, to);
      WithinCons(x, rest, from, to);
      WithinCons(x, rest, from, mid);
      WithinCons(x, rest, mid, to);
      if mid <= x.ts {
        NothingBeforeFirst(x, rest, from, mid);
      }
    }
  }

  // ---------- combining bars ----------

  /** Two consecutive bars as one: first open, extreme high and low, last close, summed volume. */
  function Combine(a: Option<Bar>, b: Option<Bar>): Option<Bar> {
    match (a, b)
    case (None, _) => b
    case (_, None) => a
    case (Some(x), Some(y)) =>
      Some(Bar(x.open, Max(x.high, y.high), Min(x.low, y.low), y.close, x.volume + y.volume))
  }

  lemma {:induction false} ExtremesOfConcat(a: seq<Row>, b: seq<Row>)
    requires a != [] && b != []
    ensures MaxHigh(a + b) == Max(MaxHigh(a), MaxHigh(b))
    ensures MinLow(a + b) == Min(MinLow(a), MinLow(b))
    ensures Volume(a + b) == Volume(a) + Volume(b)
  {
    assert (a + b)[1..] == a[1..] + b;
    if |a| == 1 {
      assert a[1..] == [] && a[1..] + b == b;
    } else {
      ExtremesOfConcat(a[1..], b);
    }
  }

  /** Aggregation turns concatenation into combination. */
  lemma AggregateOfConcat(a: seq<Row>, b: seq<Row>)
    ensures Aggregate(a + b) == Combine(Aggregate(a), Aggregate(b))
  {
    if a == [] {
      assert a + b == b;
    } else if b == [] {
      assert a + b == a;
    } else {
      ExtremesOfConcat(a, b);
    }
  }

  /** The bars of n consecutive buckets of one width, combined in order. */
  function CombinedBars(rows: seq<Row>, start: int, width: int, n: nat): Option<Bar> {
    if n == 0 then None
    else Combine(CombinedBars(rows, start, width, n - 1), BucketBar(rows, start + (n - 1) * width, width))
  }

  /** A wide bucket's bar is the combination of the narrow bars inside it, whatever the row order. */
  lemma {:induction false} WideBarCombinesNarrow(rows: seq<Row>, start: int, width: int, n: nat)
    requires width > 0
    ensures BucketBar(rows, start, n * width) == CombinedBars(rows, start, width, n)
  {
    hide Within, SortByTs, Aggregate, Sorted;
    var sorted := SortByTs(rows);
    SelectThenSort(rows, start, start + n * width);
    if n == 0 {
      NothingWithin(sorted, start, start);
      NoRowsNoBar();
    } else {
      var mid := start + (n - 1) * width;
      assert n * width == (n - 1) * width + width;
      MulNonNegative(n - 1, width);
      SortByTsSorted(rows);
      WithinSplits(sorted, start, mid, mid + width);
      SelectThenSort(rows, start, mid);
      SelectThenSort(rows, mid, mid + width);
      AggregateOfConcat(Within(sorted, start, mid), Within(sorted, mid, mid + width));
      WideBarCombinesNarrow(rows, start, width, n - 1);
    }
  }

  lemma NoRowsNoBar()
    ensures Aggregate([]) == None
  {
  }

  lemma MulNonNegative(a: nat, b: nat)
    ensures a * b >= 0
  {
  }

  /** The latest wide payload is the combination of the narrow buckets it spans. */
  lemma LatestWideCombines(interval: string, rows: seq<Row>, width: int, n: nat)
    requires rows != [] && width > 0 && n > 0 && n * width > 0
    ensures LatestPayload(interval, n * width, rows).Some?
    ensures var p := LatestPayload(interval, n * width, rows).value;
            p.time == BucketStart(LatestTs(rows), n * width)
            && Some(p.bar) == CombinedBars(rows, p.time, width, n)
  {
    hide CombinedBars, BucketBar, LatestPayload, LatestTs, BucketStart;
    WideBarCombinesNarrow(rows, BucketStart(LatestTs(rows), n * width), width, n);
    LatestIsBucketBar(interval, n * width, rows);
    LatestPayloadExists(interval, n * width, rows);
  }

  // ---------- row order ----------

  predicate DistinctTimes(rows: seq<Row>) {
    forall i, j | 0 <= i < j < |rows| :: rows[i].ts != rows[j].ts
  }

  lemma SameHead(a: seq<Row>, b: seq<Row>)
    requires a != [] && b != []
    requires Sorted(a) && Sorted(b) && DistinctTimes(a) && multiset(a) == multiset(b)
    ensures a[0] == b[0]
  {
    assert a[0] in multiset(b) && b[0] in multiset(a);
    var i :| 0 <= i < |b| && b[i] == a[0];
    var j :| 0 <= j < |a| && a[j] == b[0];
    assert b[0].ts <= b[i].ts && a[0].ts <= a[j].ts;
  }

  lemma MultisetTail(s: seq<Row>)
    requires s != []
    ensures multiset(s[1..]) == multiset(s) - multiset{s[0]}
  {
    MultisetWithout(s, 0);
    assert Without(s, 0) == s[1..];
  }

  /** With distinct times, sorting forgets the row order. */
  lemma {:induction false} SortForgetsOrder(a: seq<Row>, b: seq<Row>)
    requires Sorted(a) && Sorted(b) && DistinctTimes(a) && multiset(a) == multiset(b)
    ensures a == b
  {
    assert |multiset(a)| == |a| && |multiset(b)| == |b|;
    if a != [] {
      SameHead(a, b);
      MultisetTail(a);
      MultisetTail(b);
      SortForgetsOrder(a[1..], b[1..]);
    }
  }

  lemma DistinctFromMultiset(rows: seq<Row>)
    requires DistinctTimes(rows)
    ensures DistinctTimes(SortByTs(rows))
  {
    var s := SortByTs(rows);
    forall i, j | 0 <= i < j < |s|
      ensures s[i].ts != s[j].ts
    {
      if s[i].ts == s[j].ts {
        assert s[i] in multiset(rows) && s[j] in multiset(rows);
        var x :| 0 <= x < |rows| && rows[x] == s[i];
        var y :| 0 <= y < |rows| && rows[y] == s[j];
        assert x == y;
        TwiceInSorted(s, i, j);
        OnceInDistinct(rows, x);
      }
    }
  }

  lemma TwiceInSorted(s: seq<Row>, i: nat, j: nat)
    requires i < j < |s| && s[i] == s[j]
    ensures multiset(s)[s[i]] >= 2
  {
    assert s == s[..i] + [s[i]] + s[i + 1..j] + [s[j]] + s[j + 1..];
  }

  lemma OnceInDistinct(rows: seq<Row>, x: nat)
    requires DistinctTimes(rows) && x < |rows|
    ensures multiset(rows)[rows[x]] == 1
  {
    MultisetWithout(rows, x);
    var rest := Without(rows, x);
    forall k | 0 <= k < |rest|
      ensures rest[k] != rows[x]
    {
      assert rest[k] == if k < x then rows[k] else rows[k + 1];
    }
    assert rows[x] !in multiset(rest);
  }

  lemma LatestTsIgnoresOrder(a: seq<Row>, b: seq<Row>)
    requires a != [] && b != [] && multiset(a) == multiset(b)
    ensures LatestTs(a) == LatestTs(b)
  {
    hide LatestTs;
    assert forall r :: r in a <==> r in multiset(a);
    assert forall r :: r in b <==> r in multiset(b);
  }

  /** With distinct times, every payload is the same for every order of the rows. */
  lemma PayloadsIgnoreOrder(a: seq<Row>, b: seq<Row>)
    requires DistinctTimes(a) && multiset(a) == multiset(b)
    ensures Payloads(a) == Payloads(b)
  {
    hide IntervalPayloads, LatestPayload, SortByTs, Sorted, DistinctTimes, LatestTs;
    assert |multiset(a)| == |a| && |multiset(b)| == |b|;
    if a != [] {
      DistinctFromMultiset(a);
      SortByTsSorted(a);
      SortByTsSorted(b);
      SortForgetsOrder(SortByTs(a), SortByTs(b));
      LatestTsIgnoresOrder(a, b);
      IntervalsIgnoreOrder(a, b, |CHART_INTERVALS|);
      LatestIgnoresOrder("1D", SECONDS_PER_DAY, a, b);
    }
  }

  lemma LatestIgnoresOrder(interval: string, width: int, a: seq<Row>, b: seq<Row>)
    requires width > 0 && a != [] && b != []
    requires SortByTs(a) == SortByTs(b) && LatestTs(a) == LatestTs(b)
    ensures LatestPayload(interval, width, a) == LatestPayload(interval, width, b)
  {
    hide Within, SortByTs, Aggregate, LatestTs, LatestPayload;
    LatestIsBucketBar(interval, width, a);
    LatestIsBucketBar(interval, width, b);
    var start := BucketStart(LatestTs(a), width);
    SelectThenSort(a, start, start + width);
    SelectThenSort(b, start, start + width);
  }

  lemma {:induction false} IntervalsIgnoreOrder(a: seq<Row>, b: seq<Row>, k: nat)
    requires k <= |CHART_INTERVALS| && a != [] && b != []
    requires SortByTs(a) == SortByTs(b) && LatestTs(a) == LatestTs(b)
    ensures IntervalPayloads(a, k) == IntervalPayloads(b, k)
  {
    if k > 0 {
      IntervalsIgnoreOrder(a, b, k - 1);
      LatestIgnoresOrder(CHART_INTERVALS[k - 1].0, Width(CHART_INTERVALS[k - 1].1), a, b);
    }
  }

  // ---------- one close for all intervals ----------

  lemma {:induction false} WithinKeepsLast(rows: seq<Row>, from: int, to: int)
    requires rows != [] && from <= rows[|rows| - 1].ts < to
    ensures Within(rows, from, to) != []
    ensures Within(rows, from, to)[|Within(rows, from, to)| - 1] == rows[|rows| - 1]
  {
    if |rows| > 1 {
      WithinKeepsLast(rows[1..], from, to);
    }
  }

  lemma LastOfSortedIsLatest(rows: seq<Row>)
    requires rows != []
    ensures SortByTs(rows) != []
    ensures SortByTs(rows)[|SortByTs(rows)| - 1].ts == LatestTs(rows)
  {
    hide LatestTs, SortByTs;
    var s := SortByTs(rows);
    assert |multiset(s)| == |s| && |multiset(rows)| == |rows|;
    SortByTsSorted(rows);
    var r :| r in rows && r.ts == LatestTs(rows);
    assert r in multiset(s);
    var i :| 0 <= i < |s| && s[i] == r;
    assert s[|s| - 1] in multiset(s);
    assert s[|s| - 1] in rows;
  }

  /** Every interval has a payload, and it closes at the latest row's close. */
  lemma LatestPayloadExists(interval: string, width: int, rows: seq<Row>)
    requires rows != [] && width > 0
    ensures LatestPayload(interval, width, rows).Some?
    ensures SortByTs(rows) != []
    ensures LatestPayload(interval, width, rows).value.bar.close == SortByTs(rows)[|SortByTs(rows)| - 1].close
  {
    hide Within, SortByTs, LatestTs, BucketStart, LatestPayload;
    LatestIsBucketBar(interval, width, rows);
    var start := BucketStart(LatestTs(rows), width);
    BucketContains(LatestTs(rows), width);
    LastOfSortedIsLatest(rows);
    SelectThenSort(rows, start, start + width);
    WithinKeepsLast(SortByTs(rows), start, start + width);
  }

  lemma {:induction false} IntervalsShareClose(rows: seq<Row>, k: nat)
    requires rows != [] && k <= |CHART_INTERVALS| && SortByTs(rows) != []
    ensures |IntervalPayloads(rows, k)| == k
    ensures forall p <- IntervalPayloads(rows, k) :: p.bar.close == SortByTs(rows)[|SortByTs(rows)| - 1].close
  {
    hide LatestPayload, SortByTs;
    if k > 0 {
      IntervalsShareClose(rows, k - 1);
      LatestPayloadExists(CHART_INTERVALS[k - 1].0, Width(CHART_INTERVALS[k - 1].1), rows);
    }
  }

  /** Any rows give all nine payloads, and all nine share one close. */
  lemma NinePayloadsOneClose(rows: seq<Row>)
    requires rows != []
    ensures |Payloads(rows)| == 9
    ensures forall p, q | p in Payloads(rows) && q in Payloads(rows) :: p.bar.close == q.bar.close
  {
    hide LatestPayload, SortByTs, IntervalPayloads;
    LatestPayloadExists("1D", SECONDS_PER_DAY, rows);
    IntervalsShareClose(rows, |CHART_INTERVALS|);
  }
}
