/** Estimate tracking: every scanned estimate is stored, and a revision is emitted when it differs
    materially from the snapshot before it. What the revisions leave out is the noise, which never adds up to much,
    and the changes whose revision an error lost. */
module Estimates {
  import opened Numeric
  import opened Wrappers

  datatype Key = Key(symbol: string, period: int)

  datatype Estimate = Estimate(
    key: Key, eps: Option<real>, revenue: Option<real>, analystsEps: Option<int>, analystsRevenue: Option<int>)

  datatype Direction = Initial | Up | Down | Mixed | CoverageChange

  datatype Delta = Delta(
    eps: Option<real>, epsPct: Option<real>, revenue: Option<real>, revenuePct: Option<real>, direction: Direction)

  datatype Revision = Revision(key: Key, previousId: Option<int>, currentId: int, delta: Delta)

  datatype Metric = Eps | Revenue

  function Value(e: Estimate, metric: Metric): Option<real> {
    match metric case Eps => e.eps case Revenue => e.revenue
  }

  /** A change up to this size is noise. */
  function Tolerance(metric: Metric): real {
    match metric case Eps => 0.000000001 case Revenue => 0.5
  }

  /** The change of one metric, if both values are present and it is material. */
  function Change(previous: Estimate, current: Estimate, metric: Metric): Option<real> {
    match (Value(previous, metric), Value(current, metric))
    case (Some(p), Some(c)) => if Abs(c - p) > Tolerance(metric) then Some(c - p) else None
    case _ => None
  }

  function Pct(delta: Option<real>, base: Option<real>): Option<real> {
    match (delta, base)
    case (Some(d), Some(b)) => if Abs(b) > 0.000000001 then Some(100.0 * d / Abs(b)) else None
    case _ => None
  }

  function UpOrDown(delta: real): Direction {
    if delta > 0.0 then Up else Down
  }

  function Diff(previous: Option<Estimate>, current: Estimate): Option<Delta> {
    match previous
    case None => Some(Delta(None, None, None, None, Initial))
    case Some(p) =>
      var eps, revenue := Change(p, current, Eps), Change(p, current, Revenue);
      var analystsChanged := p.analystsEps != current.analystsEps || p.analystsRevenue != current.analystsRevenue;
      var delta := (d: Direction) => Some(Delta(eps, Pct(eps, p.eps), revenue, Pct(revenue, p.revenue), d));
      match (eps, revenue)
      case (None, None) => if analystsChanged then delta(CoverageChange) else None
      case (Some(e), None) => delta(UpOrDown(e))
      case (None, Some(r)) => delta(UpOrDown(r))
      case (Some(e), Some(r)) =>
        if e > 0.0 && r > 0.0 then delta(Up) else if e <= 0.0 && r <= 0.0 then delta(Down) else delta(Mixed)
  }

  /** Append-only tables; row ids are indices. */
  datatype Tables = Tables(snapshots: seq<Estimate>, revisions: seq<Revision>)

  /** The newest snapshot of a period. */
  function LatestId(snapshots: seq<Estimate>, key: Key): (id: Option<int>)
    ensures id.Some? ==> 0 <= id.value < |snapshots| && snapshots[id.value].key == key
  {
    if snapshots == [] then None
    else
      var last := |snapshots| - 1;
      if snapshots[last].key == key then Some(last) else LatestId(snapshots[..last], key)
  }

  function Latest(snapshots: seq<Estimate>, key: Key): Option<Estimate> {
    var id := LatestId(snapshots, key);
    if id.Some? then Some(snapshots[id.value]) else None
  }

  /** What a store error spares of one row: everything, all but what is noted after its revision, the snapshot but not
      its revision, or nothing. */
  datatype Fate = Spared | LosesNote | LosesRevision | LosesBoth

  datatype Feed = Feed(estimate: Estimate, fate: Fate)

  function DeltaFor(t: Tables, current: Estimate): Option<Delta> {
    Diff(Latest(t.snapshots, current.key), current)
  }

  /** The snapshot is stored, and then the revision, in two statements. */
  function Scan(t: Tables, feed: Feed): Tables {
    var current := feed.estimate;
    if feed.fate == LosesBoth then t
    else
      Tables(t.snapshots + [current],
             if DeltaFor(t, current).None? || feed.fate == LosesRevision then t.revisions
             else t.revisions + [Revision(current.key, LatestId(t.snapshots, current.key), |t.snapshots|,
                                          DeltaFor(t, current).value)])
  }

  /** An error ends the symbol's scan; there is none to make if there is no revision to store, and a period's first
      revision is not noted. */
  predicate Fails(t: Tables, feed: Feed) {
    var delta := DeltaFor(t, feed.estimate);
    feed.fate == LosesBoth || (feed.fate == LosesRevision && delta.Some?)
    || (feed.fate == LosesNote && delta.Some? && delta.value.direction != Initial)
  }

  datatype Scanned = Scanned(tables: Tables, failed: bool)

  function ScanFeed(s: Scanned, feed: Feed): Scanned {
    if s.failed then s else Scanned(Scan(s.tables, feed), Fails(s.tables, feed))
  }

  function ScanAll(s: Scanned, feeds: seq<Feed>): Scanned {
    if feeds == [] then s else ScanFeed(ScanAll(s, feeds[..|feeds| - 1]), feeds[|feeds| - 1])
  }

  /** One scan after another, each ending where its first error does. */
  function RunScans(t: Tables, scans: seq<seq<Feed>>): Tables
    decreases |scans|
  {
    if scans == [] then t else RunScans(ScanAll(Scanned(t, false), scans[0]).tables, scans[1..])
  }

  lemma ScanNone(s: Scanned)
    ensures ScanAll(s, []) == s
  {
  }

  lemma ScanNext(s: Scanned, feeds: seq<Feed>, k: nat)
    requires k < |feeds|
    ensures ScanAll(s, feeds[..k + 1]) == ScanFeed(ScanAll(s, feeds[..k]), feeds[k])
  {
    hide ScanFeed;
    assert feeds[..k + 1][..k] == feeds[..k];
  }

  lemma {:induction false} FailureEnds(s: Scanned, feeds: seq<Feed>, k: nat)
    requires k <= |feeds| && ScanAll(s, feeds[..k]).failed
    ensures ScanAll(s, feeds) == ScanAll(s, feeds[..k])
    decreases |feeds| - k
  {
    hide Scan, Fails;
    if k == |feeds| {
      assert feeds[..k] == feeds;
    } else {
      ScanNext(s, feeds, k);
      FailureEnds(s, feeds, k + 1);
    }
  }

  class EstimateStore {
    var snapshots: seq<Estimate>
    var revisions: seq<Revision>

    ghost function State(): Tables
      reads this
    {
      Tables(snapshots, revisions)
    }

    constructor ()
      ensures State() == Tables([], [])
    {
      snapshots, revisions := [], [];
    }

    /** Scans one symbol's rows; an error returns no count and keeps what was stored. */
    method ScanOne(feeds: seq<Feed>) returns (emitted: Option<nat>)
      modifies this
      ensures State() == ScanAll(Scanned(old(State()), false), feeds).tables
      ensures emitted.None? <==> ScanAll(Scanned(old(State()), false), feeds).failed
      ensures emitted.Some? ==> emitted.value == |revisions| - |old(revisions)|
    {
      hide ScanAll, Diff, Latest, LatestId;
      var count := 0;
      ghost var start := Scanned(State(), false);
      ScanNone(start);
      for k := 0 to |feeds|
        invariant Scanned(State(), false) == ScanAll(start, feeds[..k])
        invariant count == |revisions| - |old(revisions)|
      {
        ScanNext(start, feeds, k);
        var current := feeds[k].estimate;
        var delta := DeltaFor(Tables(snapshots, revisions), current);
        if feeds[k].fate == LosesBoth {
          FailureEnds(start, feeds, k + 1);
          return None;
        }
        var previousId, currentId := LatestId(snapshots, current.key), |snapshots|;
        snapshots := snapshots + [current];
        if delta.Some? {
          if feeds[k].fate == LosesRevision {
            FailureEnds(start, feeds, k + 1);
            return None;
          }
          revisions := revisions + [Revision(current.key, previousId, currentId, delta.value)];
          if feeds[k].fate == LosesNote && delta.value.direction != Initial {
            FailureEnds(start, feeds, k + 1);
            return None;
          }
          count := count + 1;
        }
      }
      assert feeds[..|feeds|] == feeds;
      emitted := Some(count);
    }
  }

  // ---------- drift ----------

  /** What a metric moved between one snapshot and the next, when both carry it. */
  function Move(previous: Option<Estimate>, current: Estimate, metric: Metric): Option<real> {
    if previous.Some? && Value(previous.value, metric).Some? && Value(current, metric).Some?
    then Some(Value(current, metric).value - Value(previous.value, metric).value)
    else None
  }

  /** All moves of a metric of one period, summed. */
  function Moved(snapshots: seq<Estimate>, key: Key, metric: Metric): real {
    if snapshots == [] then 0.0
    else
      var rest, current := snapshots[..|snapshots| - 1], snapshots[|snapshots| - 1];
      Moved(rest, key, metric)
      + if current.key == key then GetOr(Move(Latest(rest, key), current, metric), 0.0) else 0.0
  }

  /** How many of them were small enough to be ignored. */
  function Ignored(snapshots: seq<Estimate>, key: Key, metric: Metric): nat {
    if snapshots == [] then 0
    else
      var rest, current := snapshots[..|snapshots| - 1], snapshots[|snapshots| - 1];
      var move := Move(Latest(rest, key), current, metric);
      Ignored(rest, key, metric)
      + if current.key == key && move.Some? && Abs(move.value) <= Tolerance(metric) then 1 else 0
  }

  /** Their moves, summed. */
  function Noise(snapshots: seq<Estimate>, key: Key, metric: Metric): real {
    if snapshots == [] then 0.0
    else
      var rest, current := snapshots[..|snapshots| - 1], snapshots[|snapshots| - 1];
      var move := Move(Latest(rest, key), current, metric);
      Noise(rest, key, metric)
      + if current.key == key && move.Some? && Abs(move.value) <= Tolerance(metric) then move.value else 0.0
  }

  predicate Recorded(revisions: seq<Revision>, id: int) {
    exists r <- revisions :: r.currentId == id
  }

  /** The material moves of snapshots that have no revision, summed. */
  function Unrecorded(snapshots: seq<Estimate>, revisions: seq<Revision>, key: Key, metric: Metric): real {
    if snapshots == [] then 0.0
    else
      var rest, current := snapshots[..|snapshots| - 1], snapshots[|snapshots| - 1];
      var move := Move(Latest(rest, key), current, metric);
      Unrecorded(rest, revisions, key, metric)
      + if current.key == key && move.Some? && Abs(move.value) > Tolerance(metric) && !Recorded(revisions, |rest|)
        then move.value else 0.0
  }

  function DeltaOf(d: Delta, metric: Metric): Option<real> {
    match metric case Eps => d.eps case Revenue => d.revenue
  }

  /** The emitted deltas of a metric of one period, summed. */
  function Emitted(revisions: seq<Revision>, key: Key, metric: Metric): real {
    if revisions == [] then 0.0
    else
      var r := revisions[|revisions| - 1];
      Emitted(revisions[..|revisions| - 1], key, metric)
      + if r.key == key then GetOr(DeltaOf(r.delta, metric), 0.0) else 0.0
  }

  /** One tolerance per ignored move. */
  function Allowance(snapshots: seq<Estimate>, key: Key, metric: Metric): real {
    Tolerances(Ignored(snapshots, key, metric), metric)
  }

  function Tolerances(k: nat, metric: Metric): real {
    k as real * Tolerance(metric)
  }

  predicate WithinAllowance(t: Tables, key: Key, metric: Metric) {
    Abs(Moved(t.snapshots, key, metric) - Emitted(t.revisions, key, metric)) <= Allowance(t.snapshots, key, metric)
  }

  /** Every move was emitted, or was noise, or lost its revision. */
  predicate MoveAccounted(t: Tables, key: Key, metric: Metric) {
    Moved(t.snapshots, key, metric)
    == Emitted(t.revisions, key, metric) + Noise(t.snapshots, key, metric)
       + Unrecorded(t.snapshots, t.revisions, key, metric)
  }

  ghost predicate Accounted(t: Tables) {
    && (forall r <- t.revisions :: 0 <= r.currentId < |t.snapshots|)
    && forall key: Key, metric: Metric :: MoveAccounted(t, key, metric)
  }

  /** A revision carries a metric's move exactly when it is material; otherwise the move was noise. */
  lemma DiffCarriesMove(previous: Option<Estimate>, current: Estimate, metric: Metric)
    ensures var move, delta := Move(previous, current, metric), Diff(previous, current);
            var carried := if delta.Some? then DeltaOf(delta.value, metric) else None;
            carried == if move.Some? && Abs(move.value) > Tolerance(metric) then move else None
  {
  }

  /** A direction says how the material changes went: up and down agree with every carried delta. */
  lemma DirectionAgrees(previous: Estimate, current: Estimate)
    requires Diff(Some(previous), current).Some?
    ensures var d := Diff(Some(previous), current).value;
            && (d.direction == Up ==> forall m: Metric :: GetOr(DeltaOf(d, m), 1.0) > 0.0)
            && (d.direction == Down ==> forall m: Metric :: GetOr(DeltaOf(d, m), -1.0) < 0.0)
            && (d.direction == Mixed ==>
                  d.eps.Some? && d.revenue.Some? && (d.eps.value > 0.0) != (d.revenue.value > 0.0))
            && (d.direction == CoverageChange <==> d.eps.None? && d.revenue.None?)
            && d.direction != Initial
  {
  }

  lemma RecordedAppend(revisions: seq<Revision>, r: Revision, id: int)
    ensures Recorded(revisions + [r], id) <==> Recorded(revisions, id) || r.currentId == id
  {
    var next := revisions + [r];
    assert forall q :: q in next <==> q in revisions || q == r;
  }

  /** A later snapshot's revision records nothing earlier. */
  lemma {:induction false} UnrecordedKept(snapshots: seq<Estimate>, revisions: seq<Revision>, r: Revision, key: Key,
                                          metric: Metric)
    requires r.currentId >= |snapshots|
    ensures Unrecorded(snapshots, revisions + [r], key, metric) == Unrecorded(snapshots, revisions, key, metric)
  {
    hide Move, Recorded, Latest, Tolerance;
    if snapshots != [] {
      UnrecordedKept(snapshots[..|snapshots| - 1], revisions, r, key, metric);
      RecordedAppend(revisions, r, |snapshots| - 1);
    }
  }

  lemma SnapshotMoves(snapshots: seq<Estimate>, revisions: seq<Revision>, current: Estimate, key: Key, metric: Metric)
    ensures var move, next := Move(Latest(snapshots, key), current, metric), snapshots + [current];
            var own := current.key == key && move.Some?;
            var material := own && Abs(move.value) > Tolerance(metric);
            && Moved(next, key, metric) == Moved(snapshots, key, metric) + (if own then move.value else 0.0)
            && Noise(next, key, metric)
               == Noise(snapshots, key, metric) + (if own && !material then move.value else 0.0)
            && Unrecorded(next, revisions, key, metric)
               == Unrecorded(snapshots, revisions, key, metric)
                  + (if material && !Recorded(revisions, |snapshots|) then move.value else 0.0)
  {
    hide Move, Latest, Recorded, Tolerance;
    assert (snapshots + [current])[..|snapshots|] == snapshots;
  }

  lemma EmittedAppend(revisions: seq<Revision>, r: Revision, key: Key, metric: Metric)
    ensures Emitted(revisions + [r], key, metric)
         == Emitted(revisions, key, metric) + if r.key == key then GetOr(DeltaOf(r.delta, metric), 0.0) else 0.0
  {
    assert (revisions + [r])[..|revisions|] == revisions;
  }

  lemma NotYetRecorded(t: Tables)
    requires forall r <- t.revisions :: 0 <= r.currentId < |t.snapshots|
    ensures !Recorded(t.revisions, |t.snapshots|)
  {
  }

  lemma ScanAccounts(t: Tables, feed: Feed, key: Key, metric: Metric)
    requires MoveAccounted(t, key, metric) && forall r <- t.revisions :: 0 <= r.currentId < |t.snapshots|
    ensures MoveAccounted(Scan(t, feed), key, metric)
  {
    hide Moved, Noise, Unrecorded, Emitted, Move, Latest, Recorded, Tolerance, Diff, LatestId;
    var current := feed.estimate;
    var delta, next := DeltaFor(t, current), Scan(t, feed);
    if feed.fate != LosesBoth {
      DiffCarriesMove(Latest(t.snapshots, current.key), current, metric);
      NotYetRecorded(t);
      if delta.None? || feed.fate == LosesRevision {
        SnapshotMoves(t.snapshots, t.revisions, current, key, metric);
      } else {
        var r := next.revisions[|t.revisions|];
        SnapshotMoves(t.snapshots, next.revisions, current, key, metric);
        UnrecordedKept(t.snapshots, t.revisions, r, key, metric);
        RecordedAppend(t.revisions, r, |t.snapshots|);
        EmittedAppend(t.revisions, r, key, metric);
      }
    }
  }

  /** One row, wherever an error ends it, keeps the account of moves. */
  lemma ScanKeepsAccount(t: Tables, feed: Feed)
    requires Accounted(t)
    ensures Accounted(Scan(t, feed))
  {
    hide MoveAccounted, Diff, LatestId, Latest;
    forall key: Key, metric: Metric
      ensures MoveAccounted(Scan(t, feed), key, metric)
    {
      ScanAccounts(t, feed, key, metric);
    }
  }

  lemma {:induction false} ScanAllKeepsAccount(s: Scanned, feeds: seq<Feed>)
    requires Accounted(s.tables)
    ensures Accounted(ScanAll(s, feeds).tables)
  {
    hide Accounted, Scan, Fails;
    if feeds != [] {
      ScanAllKeepsAccount(s, feeds[..|feeds| - 1]);
      ScanKeepsAccount(ScanAll(s, feeds[..|feeds| - 1]).tables, feeds[|feeds| - 1]);
    }
  }

  lemma {:induction false} EveryRunAccounted(t: Tables, scans: seq<seq<Feed>>)
    requires Accounted(t)
    ensures Accounted(RunScans(t, scans))
    decreases |scans|
  {
    hide Accounted, ScanAll;
    if scans != [] {
      ScanAllKeepsAccount(Scanned(t, false), scans[0]);
      EveryRunAccounted(ScanAll(Scanned(t, false), scans[0]).tables, scans[1..]);
    }
  }

  lemma EmptyIsAccounted()
    ensures Accounted(Tables([], []))
  {
  }

  lemma NoiseStep(snapshots: seq<Estimate>, key: Key, metric: Metric)
    requires snapshots != []
    ensures var rest := snapshots[..|snapshots| - 1];
            var added := Noise(snapshots, key, metric) - Noise(rest, key, metric);
            || (added == 0.0 && Ignored(snapshots, key, metric) == Ignored(rest, key, metric))
            || (Abs(added) <= Tolerance(metric)
                && Ignored(snapshots, key, metric) == Ignored(rest, key, metric) + 1)
  {
    hide Move, Latest, Tolerance;
  }

  lemma TolerancesNext(k: nat, metric: Metric)
    ensures Tolerances(k + 1, metric) == Tolerances(k, metric) + Tolerance(metric)
  {
    match metric
    case Eps => assert (k + 1) as real == k as real + 1.0;
    case Revenue => assert (k + 1) as real == k as real + 1.0;
  }

  lemma NoTolerances(metric: Metric)
    ensures Tolerances(0, metric) == 0.0
  {
  }

  lemma {:induction false} NoiseBound(snapshots: seq<Estimate>, key: Key, metric: Metric)
    ensures Abs(Noise(snapshots, key, metric)) <= Allowance(snapshots, key, metric)
  {
    hide Tolerance, Tolerances;
    if snapshots == [] {
      NoTolerances(metric);
    } else {
      hide Noise, Ignored;
      var rest := snapshots[..|snapshots| - 1];
      NoiseStep(snapshots, key, metric);
      NoiseBound(rest, key, metric);
      TolerancesNext(Ignored(rest, key, metric), metric);
    }
  }

  /** In every reachable state and for every period and metric: emitted deltas account for the moves up to one
      tolerance per ignored one exactly when the noise and the changes that lost their revision stay within that
      together. Without lost revisions they always do. */
  lemma DriftBoundedIff(scans: seq<seq<Feed>>, key: Key, metric: Metric)
    ensures var t := RunScans(Tables([], []), scans);
            var lost := Unrecorded(t.snapshots, t.revisions, key, metric);
            var allowance := Allowance(t.snapshots, key, metric);
            && (WithinAllowance(t, key, metric) <==> Abs(Noise(t.snapshots, key, metric) + lost) <= allowance)
            && (lost == 0.0 ==> WithinAllowance(t, key, metric))
            && (Ignored(t.snapshots, key, metric) == 0 ==> (WithinAllowance(t, key, metric) <==> lost == 0.0))
  {
    hide Moved, Noise, Unrecorded, Emitted, Ignored, RunScans, Tolerances;
    var t := RunScans(Tables([], []), scans);
    EmptyIsAccounted();
    EveryRunAccounted(Tables([], []), scans);
    assert MoveAccounted(t, key, metric);
    NoiseBound(t.snapshots, key, metric);
    NoTolerances(metric);
  }

  predicate NothingLost(scans: seq<seq<Feed>>) {
    forall scan <- scans, feed <- scan :: feed.fate != LosesRevision
  }

  /** Without an interruption between snapshot and revision no material move is unrecorded. */
  ghost predicate AllRecorded(t: Tables) {
    forall key: Key, metric: Metric :: Unrecorded(t.snapshots, t.revisions, key, metric) == 0.0
  }

  lemma ScanRecords(t: Tables, feed: Feed)
    requires Accounted(t) && AllRecorded(t) && feed.fate != LosesRevision
    ensures AllRecorded(Scan(t, feed))
  {
    hide Unrecorded, Move, Latest, Recorded, Tolerance, Diff, LatestId, MoveAccounted;
    var current, next := feed.estimate, Scan(t, feed);
    forall key: Key, metric: Metric
      ensures Unrecorded(next.snapshots, next.revisions, key, metric) == 0.0
    {
      if feed.fate != LosesBoth {
        DiffCarriesMove(Latest(t.snapshots, current.key), current, metric);
        SnapshotMoves(t.snapshots, next.revisions, current, key, metric);
        if DeltaFor(t, current).Some? {
          UnrecordedKept(t.snapshots, t.revisions, next.revisions[|t.revisions|], key, metric);
          RecordedAppend(t.revisions, next.revisions[|t.revisions|], |t.snapshots|);
        }
      }
    }
  }

  lemma {:induction false} ScanAllRecords(s: Scanned, feeds: seq<Feed>)
    requires Accounted(s.tables) && AllRecorded(s.tables) && forall feed <- feeds :: feed.fate != LosesRevision
    ensures AllRecorded(ScanAll(s, feeds).tables)
  {
    hide Accounted, AllRecorded, Scan, Fails;
    if feeds != [] {
      var last := |feeds| - 1;
      assert feeds[last] in feeds;
      ScanAllRecords(s, feeds[..last]);
      ScanAllKeepsAccount(s, feeds[..last]);
      ScanRecords(ScanAll(s, feeds[..last]).tables, feeds[last]);
    }
  }

  lemma {:induction false} EveryRunRecords(t: Tables, scans: seq<seq<Feed>>)
    requires Accounted(t) && AllRecorded(t) && NothingLost(scans)
    ensures AllRecorded(RunScans(t, scans))
    decreases |scans|
  {
    hide Accounted, AllRecorded, ScanAll;
    if scans != [] {
      assert scans[0] in scans;
      ScanAllKeepsAccount(Scanned(t, false), scans[0]);
      ScanAllRecords(Scanned(t, false), scans[0]);
      EveryRunRecords(ScanAll(Scanned(t, false), scans[0]).tables, scans[1..]);
    }
  }

  /** So any scans with no error between a snapshot and its revision stay within the tolerance. */
  lemma UninterruptedDriftBounded(scans: seq<seq<Feed>>, key: Key, metric: Metric)
    requires NothingLost(scans)
    ensures WithinAllowance(RunScans(Tables([], []), scans), key, metric)
  {
    hide Unrecorded, RunScans, WithinAllowance, Accounted;
    EmptyIsAccounted();
    assert AllRecorded(Tables([], [])) by {
      forall k: Key, m: Metric ensures Unrecorded([], [], k, m) == 0.0 { NothingToRecord(k, m); }
    }
    EveryRunRecords(Tables([], []), scans);
    DriftBoundedIff(scans, key, metric);
  }

  lemma NothingToRecord(key: Key, metric: Metric)
    ensures Unrecorded([], [], key, metric) == 0.0
  {
  }

  /** The first snapshot of a period. */
  function First(snapshots: seq<Estimate>, key: Key): Option<Estimate> {
    if snapshots == [] then None
    else if snapshots[0].key == key then Some(snapshots[0])
    else First(snapshots[1..], key)
  }

  lemma {:induction false} FirstOfPrefix(snapshots: seq<Estimate>, key: Key)
    requires snapshots != []
    ensures First(snapshots, key)
         == if First(snapshots[..|snapshots| - 1], key).Some? then First(snapshots[..|snapshots| - 1], key)
            else if snapshots[|snapshots| - 1].key == key then Some(snapshots[|snapshots| - 1]) else None
  {
    if |snapshots| > 1 {
      FirstOfPrefix(snapshots[1..], key);
      assert snapshots[1..][..|snapshots| - 2] == snapshots[..|snapshots| - 1][1..];
    }
  }

  /** When every snapshot of a period carries a metric, its moves telescope to last minus first. */
  lemma {:induction false} MovesTelescope(snapshots: seq<Estimate>, key: Key, metric: Metric)
    requires forall s <- snapshots | s.key == key :: Value(s, metric).Some?
    ensures First(snapshots, key).Some? <==> Latest(snapshots, key).Some?
    ensures First(snapshots, key).Some? ==>
              && Value(First(snapshots, key).value, metric).Some? && Value(Latest(snapshots, key).value, metric).Some?
              && Moved(snapshots, key, metric)
                 == Value(Latest(snapshots, key).value, metric).value - Value(First(snapshots, key).value, metric).value
    ensures First(snapshots, key).None? ==> Moved(snapshots, key, metric) == 0.0
  {
    if snapshots != [] {
      var last := |snapshots| - 1;
      assert snapshots[last] in snapshots;
      FirstOfPrefix(snapshots, key);
      MovesTelescope(snapshots[..last], key, metric);
    }
  }

  /** Over any scans of a period whose snapshots all carry the metric, emitted deltas and lost revisions sum to last
      minus first, with an error of at most one tolerance per ignored change. */
  lemma EmittedSumsToChange(scans: seq<seq<Feed>>, key: Key, metric: Metric)
    requires forall s <- RunScans(Tables([], []), scans).snapshots | s.key == key :: Value(s, metric).Some?
    requires First(RunScans(Tables([], []), scans).snapshots, key).Some?
    ensures var t := RunScans(Tables([], []), scans);
            && Latest(t.snapshots, key).Some? && Value(Latest(t.snapshots, key).value, metric).Some?
            && Value(First(t.snapshots, key).value, metric).Some?
            && Abs(Value(Latest(t.snapshots, key).value, metric).value
                   - Value(First(t.snapshots, key).value, metric).value
                   - Emitted(t.revisions, key, metric) - Unrecorded(t.snapshots, t.revisions, key, metric))
               <= Allowance(t.snapshots, key, metric)
  {
    hide Moved, Allowance, Emitted, First, Latest, RunScans, Noise, Unrecorded;
    var t := RunScans(Tables([], []), scans);
    EmptyIsAccounted();
    EveryRunAccounted(Tables([], []), scans);
    assert MoveAccounted(t, key, metric);
    NoiseBound(t.snapshots, key, metric);
    MovesTelescope(t.snapshots, key, metric);
  }

  const EXAMPLE_KEY := Key("ACME", 1)
  const ONE := Estimate(EXAMPLE_KEY, Some(1.0), None, None, None)
  const TWO := Estimate(EXAMPLE_KEY, Some(2.0), None, None, None)

  function InitialRevision(): Revision {
    Revision(EXAMPLE_KEY, None, 0, Delta(None, None, None, None, Initial))
  }

  lemma ScanOnly(t: Tables, feed: Feed)
    ensures ScanAll(Scanned(t, false), [feed]).tables == Scan(t, feed)
  {
    hide Scan, Fails;
    assert [feed][..0] == [];
  }

  lemma RunNext(t: Tables, feed: Feed, rest: seq<seq<Feed>>)
    ensures RunScans(t, [[feed]] + rest) == RunScans(Scan(t, feed), rest)
  {
    hide Scan, ScanAll;
    ScanOnly(t, feed);
    assert ([[feed]] + rest)[0] == [feed] && ([[feed]] + rest)[1..] == rest;
  }

  lemma FirstScan()
    ensures Scan(Tables([], []), Feed(ONE, Spared)) == Tables([ONE], [InitialRevision()])
  {
  }

  lemma LatestIs(snapshots: seq<Estimate>, current: Estimate)
    ensures Latest(snapshots + [current], current.key) == Some(current)
  {
  }

  lemma LaterScans()
    ensures Scan(Tables([ONE], [InitialRevision()]), Feed(TWO, LosesRevision))
         == Tables([ONE, TWO], [InitialRevision()])
    ensures Scan(Tables([ONE, TWO], [InitialRevision()]), Feed(TWO, Spared))
         == Tables([ONE, TWO, TWO], [InitialRevision()])
  {
    hide Latest, LatestId, InitialRevision;
    assert [ONE] + [TWO] == [ONE, TWO] && [ONE, TWO] + [TWO] == [ONE, TWO, TWO];
    LatestIs([ONE], TWO);
    assert Diff(Some(TWO), TWO) == None;
  }

  lemma ExampleSums()
    ensures Moved([ONE, TWO, TWO], EXAMPLE_KEY, Eps) == 1.0 && Ignored([ONE, TWO, TWO], EXAMPLE_KEY, Eps) == 1
  {
    hide Latest;
    var snapshots := [ONE, TWO, TWO];
    assert snapshots[..2] == [ONE, TWO] && [ONE, TWO][..1] == [ONE] && [ONE][..0] == [];
    LatestIs([], ONE);
    LatestIs([ONE], TWO);
    assert [] + [ONE] == [ONE] && [ONE] + [TWO] == [ONE, TWO];
    NoLatest();
    assert Moved([ONE], EXAMPLE_KEY, Eps) == 0.0 && Ignored([ONE], EXAMPLE_KEY, Eps) == 0;
    assert Moved([ONE, TWO], EXAMPLE_KEY, Eps) == 1.0 && Ignored([ONE, TWO], EXAMPLE_KEY, Eps) == 0;
  }

  lemma NoLatest()
    ensures Latest([], EXAMPLE_KEY) == None
  {
  }

  lemma NothingEmitted()
    ensures Emitted([InitialRevision()], EXAMPLE_KEY, Eps) == 0.0
  {
    assert [InitialRevision()][..0] == [];
  }

  /** Estimates of 1 and then 2, with the second one's revision lost: the period moved by 1 and nothing was emitted for
      it, then or at the next scan. */
  lemma LostRevisionExample()
    ensures var t := RunScans(Tables([], []), [[Feed(ONE, Spared)], [Feed(TWO, LosesRevision)], [Feed(TWO, Spared)]]);
            && t.snapshots == [ONE, TWO, TWO] && t.revisions == [InitialRevision()]
            && Moved(t.snapshots, EXAMPLE_KEY, Eps) == 1.0 && Emitted(t.revisions, EXAMPLE_KEY, Eps) == 0.0
            && !WithinAllowance(t, EXAMPLE_KEY, Eps)
  {
    hide Scan, RunScans, Moved, Ignored, Emitted, InitialRevision;
    var first, second, third := [Feed(ONE, Spared)], [Feed(TWO, LosesRevision)], [Feed(TWO, Spared)];
    assert [first] + [second, third] == [first, second, third] && [second] + [third] == [second, third];
    assert [third] + [] == [third];
    FirstScan();
    LaterScans();
    RunNext(Tables([], []), first[0], [second, third]);
    RunNext(Tables([ONE], [InitialRevision()]), second[0], [third]);
    RunNext(Tables([ONE, TWO], [InitialRevision()]), third[0], []);
    RunNone(Tables([ONE, TWO, TWO], [InitialRevision()]));
    ExampleSums();
    NothingEmitted();
  }

  lemma RunNone(t: Tables)
    ensures RunScans(t, []) == t
  {
  }
}
