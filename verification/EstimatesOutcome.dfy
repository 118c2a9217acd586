/** What one scanned estimate adds to the tables, from the estimate and the snapshot before it. */
module EstimatesOutcome {
  import opened Numeric
  import opened Wrappers
  import opened Estimates

  /** Two values are both there, and apart by more than the noise. */
  predicate Apart(before: Option<real>, after: Option<real>, noise: real) {
    before.Some? && after.Some?
    && (after.value - before.value > noise || before.value - after.value > noise)
  }

  /** A billionth of a dollar of earnings per share, and half a dollar of revenue. */
  predicate EpsMoved(p: Estimate, c: Estimate) {
    Apart(p.eps, c.eps, 0.000000001)
  }

  predicate RevenueMoved(p: Estimate, c: Estimate) {
    Apart(p.revenue, c.revenue, 0.5)
  }

  /** Nothing is emitted exactly when neither value moved and the same numbers of analysts stand behind them. */
  lemma EmittedIff(previous: Option<Estimate>, c: Estimate)
    ensures Diff(previous, c).None? <==>
              && previous.Some?
              && var p := previous.value;
                 !EpsMoved(p, c) && !RevenueMoved(p, c)
                 && p.analystsEps == c.analystsEps && p.analystsRevenue == c.analystsRevenue
  {
  }

  lemma PctIs(delta: real, base: real)
    requires Abs(base) > 0.000000001
    ensures 100.0 * delta / Abs(base) * Abs(base) == 100.0 * delta
  {
    DivCancels(100.0 * delta, Abs(base));
  }

  /** A change and its percentage of the value before, which has none from a value of nothing. */
  predicate Carries(delta: Option<real>, pct: Option<real>, before: Option<real>, after: Option<real>, noise: real) {
    if Apart(before, after, noise) then
      && delta == Some(after.value - before.value)
      && (pct.Some? <==> Abs(before.value) > 0.000000001)
      && (pct.Some? ==> pct.value * Abs(before.value) == 100.0 * (after.value - before.value))
    else delta.None? && pct.None?
  }

  lemma CarriesEach(p: Estimate, c: Estimate)
    ensures Carries(Change(p, c, Eps), Pct(Change(p, c, Eps), p.eps), p.eps, c.eps, 0.000000001)
    ensures Carries(Change(p, c, Revenue), Pct(Change(p, c, Revenue), p.revenue), p.revenue, c.revenue, 0.5)
  {
    if EpsMoved(p, c) && Abs(p.eps.value) > 0.000000001 {
      PctIs(c.eps.value - p.eps.value, p.eps.value);
    }
    if RevenueMoved(p, c) && Abs(p.revenue.value) > 0.000000001 {
      PctIs(c.revenue.value - p.revenue.value, p.revenue.value);
    }
  }

  /** What an emitted delta carries: nothing but the word for a first snapshot; otherwise both changes, and a direction
      that is up when what moved rose, down when it fell, mixed when one rose and the other fell, and a change of
      coverage when neither moved. */
  lemma DeltaIs(previous: Option<Estimate>, c: Estimate)
    requires Diff(previous, c).Some?
    ensures var d := Diff(previous, c).value;
            match previous
            case None => d == Delta(None, None, None, None, Initial)
            case Some(p) =>
              && Carries(d.eps, d.epsPct, p.eps, c.eps, 0.000000001)
              && Carries(d.revenue, d.revenuePct, p.revenue, c.revenue, 0.5)
              && var rose := (EpsMoved(p, c) && c.eps.value > p.eps.value)
                             || (RevenueMoved(p, c) && c.revenue.value > p.revenue.value);
                 var fell := (EpsMoved(p, c) && c.eps.value < p.eps.value)
                             || (RevenueMoved(p, c) && c.revenue.value < p.revenue.value);
                 && (d.direction == Up <==> rose && !fell) && (d.direction == Down <==> fell && !rose)
                 && (d.direction == Mixed <==> rose && fell) && (d.direction == CoverageChange <==> !rose && !fell)
  {
    hide Pct;
    if previous.Some? {
      CarriesEach(previous.value, c);
    }
  }

  /** The newest snapshot of a period, if there is one. */
  ghost predicate IsNewest(snapshots: seq<Estimate>, key: Key, id: Option<int>) {
    match id
    case Some(k) =>
      0 <= k < |snapshots| && snapshots[k].key == key && forall j | k < j < |snapshots| :: snapshots[j].key != key
    case None => forall j | 0 <= j < |snapshots| :: snapshots[j].key != key
  }

  lemma {:induction false} LatestIsNewest(snapshots: seq<Estimate>, key: Key)
    ensures IsNewest(snapshots, key, LatestId(snapshots, key))
  {
    if snapshots != [] && snapshots[|snapshots| - 1].key != key {
      LatestIsNewest(snapshots[..|snapshots| - 1], key);
    }
  }

  /** One scanned row stores its estimate, unless that failed; and then the revision against the newest snapshot of its
      period, naming both, unless there is nothing to emit or that failed. */
  lemma ScanStores(t: Tables, feed: Feed)
    ensures var next, e := Scan(t, feed), feed.estimate;
            if feed.fate == LosesBoth then next == t
            else
              && next.snapshots == t.snapshots + [e]
              && exists id: Option<int> ::
                   && IsNewest(t.snapshots, e.key, id)
                   && var delta := Diff(if id.Some? then Some(t.snapshots[id.value]) else None, e);
                      next.revisions == t.revisions + if delta.Some? && feed.fate != LosesRevision
                                                      then [Revision(e.key, id, |t.snapshots|, delta.value)] else []
  {
    hide Diff, LatestId, IsNewest;
    LatestIsNewest(t.snapshots, feed.estimate.key);
    assert IsNewest(t.snapshots, feed.estimate.key, LatestId(t.snapshots, feed.estimate.key));
  }

  /** A row goes through: no error meets it, or the error is in a statement it does not need. A revision is needed when
      something is emitted, and noted when its period was seen before. */
  predicate GoesThrough(t: Tables, feed: Feed) {
    var previous := Latest(t.snapshots, feed.estimate.key);
    match feed.fate
    case Spared => true
    case LosesNote => previous.None? || Diff(previous, feed.estimate).None?
    case LosesRevision => Diff(previous, feed.estimate).None?
    case LosesBoth => false
  }

  lemma GoesThroughIff(t: Tables, feed: Feed)
    ensures GoesThrough(t, feed) <==> !Fails(t, feed)
  {
    hide Latest, Change, Pct;
  }

  /** The k-th row of a scan goes through in the state it meets. */
  predicate RowGoesThrough(t: Tables, feeds: seq<Feed>, k: nat)
    requires k < |feeds|
  {
    GoesThrough(ScanAll(Scanned(t, false), feeds[..k]).tables, feeds[k])
  }

  lemma RowOfPrefix(t: Tables, feeds: seq<Feed>, n: nat, k: nat)
    requires k < n <= |feeds|
    ensures RowGoesThrough(t, feeds[..n], k) == RowGoesThrough(t, feeds, k)
  {
    hide GoesThrough, ScanAll;
    assert feeds[..n][..k] == feeds[..k];
  }

  /** A scan runs to its end exactly when every row goes through. */
  lemma {:induction false} CompletesIff(t: Tables, feeds: seq<Feed>)
    ensures !ScanAll(Scanned(t, false), feeds).failed <==> forall k | 0 <= k < |feeds| :: RowGoesThrough(t, feeds, k)
  {
    hide GoesThrough, Fails, Scan, ScanAll, RowGoesThrough;
    if feeds == [] {
      ScanNone(Scanned(t, false));
    } else {
      var last, start := |feeds| - 1, Scanned(t, false);
      CompletesIff(t, feeds[..last]);
      ScanNext(start, feeds, last);
      assert feeds[..|feeds|] == feeds;
      GoesThroughIff(ScanAll(start, feeds[..last]).tables, feeds[last]);
      RowIs(t, feeds, last);
      forall k | 0 <= k < last ensures RowGoesThrough(t, feeds[..last], k) == RowGoesThrough(t, feeds, k) {
        RowOfPrefix(t, feeds, last, k);
      }
    }
  }

  lemma RowIs(t: Tables, feeds: seq<Feed>, k: nat)
    requires k < |feeds|
    ensures RowGoesThrough(t, feeds, k) <==> GoesThrough(ScanAll(Scanned(t, false), feeds[..k]).tables, feeds[k])
  {
    hide GoesThrough, ScanAll;
  }
}
