/** What one chart request plans to fetch, day by day. */
module BackfillRules {
  import opened Numeric
  import opened Wrappers
  import opened Backfill

  /** How many days one fetch of an interval may span. */
  lemma DaysPerFetch(interval: string)
    ensures ChunkDays("1min") == 7 && ChunkDays("5min") == 14 && ChunkDays("15min") == 45 && ChunkDays("30min") == 45
    ensures ChunkDays("1hour") == 120 && ChunkDays("4hour") == 365
    ensures interval !in {"1min", "5min", "1hour", "4hour"} ==> ChunkDays(interval) == 45
  {
    assert |"1min"| == 4 && |"5min"| == 4 && |"15min"| == 5 && |"30min"| == 5 && |"1hour"| == 5 && |"4hour"| == 5;
    assert "1min"[0] == '1' && "5min"[0] == '5' && "15min"[1] == '5' && "30min"[0] == '3' && "1hour"[1] == 'h'
        && "4hour"[0] == '4' && "15min"[0] == '1';
  }

  /** The newest bar is known to be stale. */
  predicate Stale(first: Option<Coverage>) {
    first.Some? && first.value.latestStale
  }

  /** The oldest stored day, if both lookups succeeded and there is one. */
  function Oldest(first: Option<Coverage>, second: Option<Coverage>): Option<int> {
    if first.Some? && second.Some? then second.value.oldest else None
  }

  /** A stale newest bar is refreshed first, by one fetch that ends today, spans a fetch's days and starts no earlier
      than the lookback; nothing else in the plan ends today unless bars are missing up to today. */
  lemma FreshFirst(interval: string, today: int, lookbackDays: nat, first: Option<Coverage>, second: Option<Coverage>)
    ensures var plan, days := Planned(interval, today, lookbackDays, first, second), ChunkDays(interval);
            && |FreshWindows(interval, today, lookbackDays, first)| == (if Stale(first) then 1 else 0)
            && (Stale(first) ==>
                  plan != []
                  && plan[0] == Window(if today - lookbackDays > today - days + 1 then today - lookbackDays
                                       else today - days + 1, today))
            && (Oldest(first, second).None? ==> |plan| == if Stale(first) then 1 else 0)
  {
    hide Windows, ChunkDays;
  }

  lemma DayInSomeWindowIff(target: int, oldest: int, chunk: int, limit: nat, day: int)
    requires chunk >= 1
    ensures var ws := Windows(target, oldest, chunk, limit);
            (exists k | 0 <= k < |ws| :: ws[k].from <= day <= ws[k].to)
            <==> target <= day < oldest && WindowOf(oldest, chunk, day) < limit
  {
    hide Windows, WindowOf, ChunksNeeded;
    var ws := Windows(target, oldest, chunk, limit);
    if k :| 0 <= k < |ws| && ws[k].from <= day <= ws[k].to {
      DayInWindowIff(target, oldest, chunk, limit, k, day);
    } else if target <= day < oldest && WindowOf(oldest, chunk, day) < limit {
      WindowReaches(target, oldest, chunk, limit, day);
      DayInWindowIff(target, oldest, chunk, limit, WindowOf(oldest, chunk, day), day);
    }
  }

  lemma HistoryPart(interval: string, today: int, lookbackDays: nat, first: Option<Coverage>, second: Option<Coverage>)
    requires Oldest(first, second).Some?
    ensures var plan, ahead := Planned(interval, today, lookbackDays, first, second), if Stale(first) then 1 else 0;
            var ws := Windows(today - lookbackDays, Oldest(first, second).value, ChunkDays(interval), 4 - ahead);
            |plan| == ahead + |ws| && forall k | 0 <= k < |ws| :: plan[k + ahead] == ws[k]
  {
    hide Windows, ChunkDays;
  }

  /** Some window of the plan from the k-th on has this day. */
  predicate FetchedFrom(plan: seq<Window>, k: nat, day: int) {
    exists i | k <= i < |plan| :: plan[i].from <= day <= plan[i].to
  }

  /** Which days the rest of the plan fetches: a day is in some history window exactly when it is missing, from the
      lookback's first day to the day before the oldest stored one, and no more fetches back from there than the four of
      a request leave. */
  lemma HistoryDaysIff(interval: string, today: int, lookbackDays: nat, first: Option<Coverage>,
                       second: Option<Coverage>, day: int)
    requires Oldest(first, second).Some?
    ensures var plan, ahead := Planned(interval, today, lookbackDays, first, second), if Stale(first) then 1 else 0;
            var oldest := Oldest(first, second).value;
            FetchedFrom(plan, ahead, day)
            <==> today - lookbackDays <= day < oldest && (oldest - 1 - day) / ChunkDays(interval) < 4 - ahead
  {
    hide Windows, ChunkDays, Planned, Oldest, Stale;
    var target, chunk := today - lookbackDays, ChunkDays(interval);
    var plan, ahead := Planned(interval, today, lookbackDays, first, second), if Stale(first) then 1 else 0;
    var ws := Windows(target, Oldest(first, second).value, chunk, 4 - ahead);
    HistoryPart(interval, today, lookbackDays, first, second);
    DayInSomeWindowIff(target, Oldest(first, second).value, chunk, 4 - ahead, day);
    if k :| 0 <= k < |ws| && ws[k].from <= day <= ws[k].to {
      assert plan[k + ahead] == ws[k];
    }
    if i :| ahead <= i < |plan| && plan[i].from <= day <= plan[i].to {
      assert plan[(i - ahead) + ahead] == ws[i - ahead];
    }
  }

  lemma WindowReaches(target: int, oldest: int, chunk: int, limit: nat, day: int)
    requires chunk >= 1 && target <= day < oldest && WindowOf(oldest, chunk, day) < limit
    ensures 0 <= WindowOf(oldest, chunk, day) < |Windows(target, oldest, chunk, limit)|
  {
    hide ChunksNeeded;
    var back := oldest - 1 - day;
    var i := back / chunk;
    if i < 0 {
      MulGrows(i, -1, chunk);
    }
    ChunkReach(target, oldest, chunk, i);
  }
}
