/** Backfilling intraday history: the windows fetched before the oldest stored bar, and the budget of
    fetches one chart request may make. Dates are day numbers. */
module Backfill {
  import opened Numeric
  import opened Wrappers

  datatype Window = Window(from: int, to: int)

  const MAX_FETCHES := 4

  function ChunkDays(interval: string): (days: int)
    ensures days >= 7
  {
    match interval
    case "1min" => 7
    case "5min" => 14
    case "15min" => 45
    case "30min" => 45
    case "1hour" => 120
    case "4hour" => 365
    case _ => 45
  }

  function Later(a: int, b: int): int {
    if a < b then b else a
  }

  /** Chunks needed to reach back from `oldest` to `target`, the last possibly short. */
  function ChunksNeeded(target: int, oldest: int, chunk: int): nat
    requires chunk >= 1
  {
    if oldest <= target then 0 else (oldest - target + chunk - 1) / chunk
  }

  function WindowCount(target: int, oldest: int, chunk: int, limit: nat): nat
    requires chunk >= 1
  {
    var needed := ChunksNeeded(target, oldest, chunk);
    if needed < limit then needed else limit
  }

  /** The i-th window back from `oldest`. */
  function WindowAt(target: int, oldest: int, chunk: int, i: nat): Window {
    Window(Later(target, oldest - (i + 1) * chunk), oldest - i * chunk - 1)
  }

  function Windows(target: int, oldest: int, chunk: int, limit: nat): (ws: seq<Window>)
    requires chunk >= 1
    ensures |ws| <= limit
  {
    seq(WindowCount(target, oldest, chunk, limit), i requires 0 <= i => WindowAt(target, oldest, chunk, i))
  }

  /** Fewer than all chunks reach back to a day still after `target`; all of them reach it. */
  lemma ChunkReach(target: int, oldest: int, chunk: int, n: nat)
    requires chunk >= 1
    ensures n < ChunksNeeded(target, oldest, chunk) <==> oldest - n * chunk > target
  {
    if oldest > target {
      var gap := oldest - target;
      var needed := (gap + chunk - 1) / chunk;
      if n < needed {
        MulGrows(n + 1, needed, chunk);
      } else {
        MulGrows(needed, n, chunk);
      }
    } else {
      MulGrows(0, n, chunk);
    }
  }

  method IntradayHistoryWindows(target: int, oldest: int, chunk: int, limit: nat) returns (windows: seq<Window>)
    requires chunk >= 1
    ensures windows == Windows(target, oldest, chunk, limit)
  {
    if oldest <= target || limit == 0 {
      return [];
    }
    windows := [];
    var to := oldest - 1;
    ChunkReach(target, oldest, chunk, 0);
    while to >= target && |windows| < limit
      invariant |windows| <= WindowCount(target, oldest, chunk, limit)
      invariant to == oldest - |windows| * chunk - 1
      invariant forall i | 0 <= i < |windows| :: windows[i] == WindowAt(target, oldest, chunk, i)
      decreases limit - |windows|
    {
      ghost var n := |windows|;
      ChunkReach(target, oldest, chunk, n);
      ChunkReach(target, oldest, chunk, n + 1);
      assert (n + 1) * chunk == n * chunk + chunk;
      var from := Later(target, to - (chunk - 1));
      windows := windows + [Window(from, to)];
      if from <= target {
        break;
      }
      to := from - 1;
    }
    ChunkReach(target, oldest, chunk, |windows|);
  }

  // ---------- tiling ----------

  /** The windows are newest first, adjacent and non-empty, start at the day before `oldest`, never reach
      before `target`, and are full length except possibly the last. */
  lemma WindowsTile(target: int, oldest: int, chunk: int, limit: nat, i: nat)
    requires chunk >= 1 && i < |Windows(target, oldest, chunk, limit)|
    ensures var ws := Windows(target, oldest, chunk, limit);
            && (i == 0 ==> ws[i].to == oldest - 1)
            && (i > 0 ==> ws[i].to == ws[i - 1].from - 1)
            && target <= ws[i].from <= ws[i].to
            && ws[i].to - ws[i].from + 1 <= chunk
            && (i + 1 < ChunksNeeded(target, oldest, chunk) ==> ws[i].to - ws[i].from + 1 == chunk)
  {
    ChunkReach(target, oldest, chunk, i);
    ChunkReach(target, oldest, chunk, i + 1);
    assert (i + 1) * chunk == i * chunk + chunk;
  }

  /** Which window holds a day. */
  function WindowOf(oldest: int, chunk: int, day: int): int
    requires chunk >= 1
  {
    (oldest - 1 - day) / chunk
  }

  /** A day lies in the i-th window exactly when it is a missing day that far back: so windows are
      disjoint, and a day is fetched iff it is in the gap and within the allowed number of chunks. */
  lemma DayInWindowIff(target: int, oldest: int, chunk: int, limit: nat, i: nat, day: int)
    requires chunk >= 1 && i < |Windows(target, oldest, chunk, limit)|
    ensures var w := Windows(target, oldest, chunk, limit)[i];
            w.from <= day <= w.to <==> target <= day < oldest && WindowOf(oldest, chunk, day) == i
  {
    var back := oldest - 1 - day;
    assert (i + 1) * chunk == i * chunk + chunk;
    MulGrows(0, i, chunk);
    if i * chunk <= back < i * chunk + chunk {
      QuotientUnique(back, i, chunk);
    }
  }

  /** When the limit does not truncate, every missing day is in exactly one window, and no day outside the
      gap is in any. */
  lemma WholeGapCoveredOnce(target: int, oldest: int, chunk: int, limit: nat, day: int)
    requires chunk >= 1 && ChunksNeeded(target, oldest, chunk) <= limit
    ensures var ws := Windows(target, oldest, chunk, limit);
            && (target <= day < oldest ==>
                  var i := WindowOf(oldest, chunk, day); 0 <= i < |ws| && ws[i].from <= day <= ws[i].to)
            && (forall i | 0 <= i < |ws| && ws[i].from <= day <= ws[i].to ::
                  target <= day < oldest && i == WindowOf(oldest, chunk, day))
  {
    hide Windows, WindowOf;
    var ws := Windows(target, oldest, chunk, limit);
    if target <= day < oldest {
      MissingDayHasWindow(target, oldest, chunk, limit, day);
      DayInWindowIff(target, oldest, chunk, limit, WindowOf(oldest, chunk, day), day);
    }
    forall i | 0 <= i < |ws| && ws[i].from <= day <= ws[i].to
      ensures target <= day < oldest && i == WindowOf(oldest, chunk, day)
    {
      DayInWindowIff(target, oldest, chunk, limit, i, day);
    }
  }

  lemma MissingDayHasWindow(target: int, oldest: int, chunk: int, limit: nat, day: int)
    requires chunk >= 1 && ChunksNeeded(target, oldest, chunk) <= limit && target <= day < oldest
    ensures 0 <= WindowOf(oldest, chunk, day) < |Windows(target, oldest, chunk, limit)|
  {
    hide ChunksNeeded;
    var back := oldest - 1 - day;
    var i := back / chunk;
    if i < 0 {
      MulGrows(i, -1, chunk);
    }
    ChunkReach(target, oldest, chunk, i);
  }

  // ---------- one chart request ----------

  /** Stored coverage of a symbol: its oldest day, and whether the newest bar is stale. */
  datatype Coverage = Coverage(oldest: Option<int>, latestStale: bool)

  /** The fetch that refreshes a stale latest bar. */
  function FreshWindows(interval: string, today: int, lookbackDays: nat, first: Option<Coverage>): (ws: seq<Window>)
    ensures |ws| <= 1
  {
    if first.None? || !first.value.latestStale then []
    else [Window(Later(today - lookbackDays, today - (ChunkDays(interval) - 1)), today)]
  }

  /** Every window a request would fetch if no fetch failed: the fresh one, then history within what is left
      of the budget. A failed coverage lookup (None) ends the plan. */
  function Planned(interval: string, today: int, lookbackDays: nat, first: Option<Coverage>, second: Option<Coverage>)
    : (ws: seq<Window>)
    ensures |ws| <= MAX_FETCHES
  {
    var latest := FreshWindows(interval, today, lookbackDays, first);
    if first.None? || second.None? || second.value.oldest.None? then latest
    else latest + Windows(today - lookbackDays, second.value.oldest.value, ChunkDays(interval), MAX_FETCHES - |latest|)
  }

  /** One request fetches its plan in order, never more than the budget, and stops short only after a
      history window fails. Fetch k succeeds iff `succeeds(k)`. */
  method EnsureCoverage(interval: string, today: int, lookbackDays: nat, first: Option<Coverage>,
                        second: Option<Coverage>, succeeds: nat -> bool)
    returns (fetched: seq<Window>, failed: bool)
    ensures |fetched| <= MAX_FETCHES
    ensures var plan := Planned(interval, today, lookbackDays, first, second);
            var latest := |FreshWindows(interval, today, lookbackDays, first)|;
            && fetched <= plan
            && (fetched == plan || (|fetched| > latest && !succeeds(|fetched| - 1)))
            && (forall k | latest <= k < |fetched| - 1 :: succeeds(k))
    ensures failed <==> first.None? || second.None? || exists k | 0 <= k < |fetched| :: !succeeds(k)
  {
    hide Windows, ChunkDays;
    var target := today - lookbackDays;
    var chunk := ChunkDays(interval);
    fetched, failed := [], false;
    if first.None? {
      return [], true;
    }
    if first.value.latestStale && |fetched| < MAX_FETCHES {
      fetched := [Window(Later(target, today - (chunk - 1)), today)];
      failed := !succeeds(0);
    }
    ghost var latest := fetched;
    if second.None? {
      return fetched, true;
    }
    if second.value.oldest.None? {
      return;
    }
    var windows := IntradayHistoryWindows(target, second.value.oldest.value, chunk, MAX_FETCHES - |fetched|);
    for i := 0 to |windows|
      invariant fetched == latest + windows[..i]
      invariant failed <==> exists k | 0 <= k < |fetched| :: !succeeds(k)
      invariant forall k | |latest| <= k < |fetched| :: succeeds(k)
    {
      fetched := fetched + [windows[i]];
      if !succeeds(|fetched| - 1) {
        failed := true;
        break;
      }
    }
  }

  /** No request plans a day before its lookback. */
  lemma PlannedWithinLookback(interval: string, today: int, lookbackDays: nat, first: Option<Coverage>,
                              second: Option<Coverage>, k: nat)
    requires k < |Planned(interval, today, lookbackDays, first, second)|
    ensures var w := Planned(interval, today, lookbackDays, first, second)[k];
            today - lookbackDays <= w.from <= w.to
  {
    hide Windows;
    var latest := FreshWindows(interval, today, lookbackDays, first);
    if k >= |latest| {
      WindowsTile(today - lookbackDays, second.value.oldest.value, ChunkDays(interval), MAX_FETCHES - |latest|,
                  k - |latest|);
    }
  }
}
