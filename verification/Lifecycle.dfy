/** Discovery candidates, the operator's attention queue, and its append-only history. Every SQL statement
    is one atomic step on the three tables; row ids are indices. */
module Lifecycle {
  import opened Wrappers
  import Text
  import opened Composer

  datatype CandidateStatus = Proposed | Confirmed | Rejected | Superseded

  datatype CandidateRow = CandidateRow(
    symbol: string, signal: string, value: real, tier: int, fit: real, proposedAt: int, status: CandidateStatus)

  datatype ReviewKind = CandidateReview | ThesisActionable

  datatype ReviewStatus = Open | Resolved | Dismissed

  datatype AttentionRow = AttentionRow(
    kind: ReviewKind, symbol: string, candidateId: Option<int>, thesisId: Option<int>,
    status: ReviewStatus, fsm: string)

  datatype HistoryRow = HistoryRow(attentionId: int, fromState: string, toState: string, reason: string)

  datatype Tables = Tables(
    candidates: seq<CandidateRow>, attention: seq<AttentionRow>, history: seq<HistoryRow>)

  const EMPTY_TABLES := Tables([], [], [])

  const NOMINATION := "research_nomination"

  // ---------- moving attention items ----------

  const ITEM_STATES: seq<string> := [
    "queued", "evaluating", "waiting_on_data", "ready_for_review", "operator_deferred", "actionable", "resolved",
    "dismissed", "blocked"]

  /** Two states close an item; every other state keeps it open. */
  function StatusFor(state: string): ReviewStatus {
    if state == "resolved" then Resolved else if state == "dismissed" then Dismissed else Open
  }

  /** Statements move open items only. */
  predicate Selected(i: int, a: AttentionRow, sel: set<int>) {
    i in sel && a.status == Open
  }

  function Moved(i: int, a: AttentionRow, sel: set<int>, to: string): AttentionRow {
    if Selected(i, a, sel) then a.(status := StatusFor(to), fsm := to) else a
  }

  function MovedRow(i: int, a: AttentionRow, sel: set<int>, to: string, reason: string): seq<HistoryRow> {
    if Selected(i, a, sel) then [HistoryRow(i, a.fsm, to, reason)] else []
  }

  function MoveItems(attention: seq<AttentionRow>, sel: set<int>, to: string): seq<AttentionRow> {
    seq(|attention|, i requires 0 <= i < |attention| => Moved(i, attention[i], sel, to))
  }

  /** One history row per moved item, carrying the state it was in. */
  function MoveRows(attention: seq<AttentionRow>, sel: set<int>, to: string, reason: string): seq<HistoryRow> {
    if attention == [] then []
    else
      var last := |attention| - 1;
      MoveRows(attention[..last], sel, to, reason) + MovedRow(last, attention[last], sel, to, reason)
  }

  /** Moves the selected open items to a state, recording each move, in one statement. */
  function Transition(t: Tables, sel: set<int>, to: string, reason: string): Tables {
    t.(attention := MoveItems(t.attention, sel, to), history := t.history + MoveRows(t.attention, sel, to, reason))
  }

  /** The reviews of these candidates. */
  function ReviewsOf(attention: seq<AttentionRow>, ids: set<int>): set<int> {
    set i | 0 <= i < |attention| && attention[i].kind == CandidateReview
            && attention[i].candidateId.Some? && attention[i].candidateId.value in ids
  }

  function ItemsOfThesis(attention: seq<AttentionRow>, thesis: int): set<int> {
    set i | 0 <= i < |attention| && attention[i].kind == ThesisActionable && attention[i].thesisId == Some(thesis)
  }

  /** Deferred items among those whose time has come. */
  function DueItems(attention: seq<AttentionRow>, due: set<int>): set<int> {
    set i | 0 <= i < |attention| && i in due && attention[i].fsm == "operator_deferred"
  }

  function SetStatus(candidates: seq<CandidateRow>, ids: set<int>, status: CandidateStatus): seq<CandidateRow> {
    seq(|candidates|, i requires 0 <= i < |candidates| =>
      if i in ids then candidates[i].(status := status) else candidates[i])
  }

  /** Decides these candidates and closes their open reviews in one statement. */
  function Decide(t: Tables, ids: set<int>, decided: CandidateStatus, closing: string, reason: string): Tables {
    Transition(t.(candidates := SetStatus(t.candidates, ids, decided)), ReviewsOf(t.attention, ids), closing, reason)
  }

  function Supersede(t: Tables, ids: set<int>, reason: string): Tables {
    Decide(t, ids, Superseded, "dismissed", reason)
  }

  /** The operator's "not relevant", or "defer", which keeps the item open. */
  function DismissItem(t: Tables, id: int, reason: Option<string>): Tables {
    if reason == Some("defer") then Transition(t, {id}, "operator_deferred", "defer")
    else Transition(t, {id}, "dismissed", if GetOr(reason, "") == "" then "dismissed" else reason.value)
  }

  /** A requested move to any valid state; an invalid one is refused. */
  function TransitionItem(t: Tables, id: int, to: string, reason: string): Tables {
    if to in ITEM_STATES then Transition(t, {id}, to, reason) else t
  }

  // ---------- which candidates a statement selects ----------

  function ProposedNamed(t: Tables, symbol: string, names: seq<string>): set<int> {
    set i | 0 <= i < |t.candidates|
      && t.candidates[i].status == Proposed && t.candidates[i].symbol == symbol && t.candidates[i].signal in names
  }

  function ProposedFor(t: Tables, symbols: set<string>): set<int> {
    set i | 0 <= i < |t.candidates| && t.candidates[i].status == Proposed && t.candidates[i].symbol in symbols
  }

  function Nominations(t: Tables): set<int> {
    set i | 0 <= i < |t.candidates| && t.candidates[i].status == Proposed && t.candidates[i].signal == NOMINATION
  }

  /** Review order of nominations: lower tier, then higher value, higher fit, newer, and by symbol. */
  predicate RanksBefore(a: CandidateRow, b: CandidateRow) {
    if a.tier != b.tier then a.tier < b.tier
    else if a.value != b.value then a.value > b.value
    else if a.fit != b.fit then a.fit > b.fit
    else if a.proposedAt != b.proposedAt then a.proposedAt > b.proposedAt
    else Text.Less(a.symbol, b.symbol)
  }

  function BetterThan(t: Tables, among: set<int>, i: int): set<int>
    requires 0 <= i < |t.candidates| && forall j <- among :: 0 <= j < |t.candidates|
  {
    set j | j in among && RanksBefore(t.candidates[j], t.candidates[i])
  }

  /** Nominations beyond the review budget: those with at least `keep` better ones. */
  function OverBudget(t: Tables, keep: nat): set<int> {
    set i | i in Nominations(t) && |BetterThan(t, Nominations(t), i)| >= keep
  }

  // ---------- inserting ----------

  predicate NameTaken(t: Tables, symbol: string, signal: string) {
    exists c <- t.candidates :: c.symbol == symbol && c.signal == signal && c.status == Proposed
  }

  predicate EverNominated(t: Tables, symbol: string) {
    exists c <- t.candidates :: c.symbol == symbol && c.signal == NOMINATION
  }

  /** The partial unique indexes: one open item per kind and candidate, and per kind and thesis. */
  predicate Conflicts(t: Tables, a: AttentionRow) {
    exists b <- t.attention ::
      b.status == Open && b.kind == a.kind
      && ((a.candidateId.Some? && b.candidateId == a.candidateId) || (a.thesisId.Some? && b.thesisId == a.thesisId))
  }

  function InsertAttention(t: Tables, a: AttentionRow): Tables {
    if Conflicts(t, a) then t else t.(attention := t.attention + [a])
  }

  function ReviewOf(symbol: string, candidateId: int): AttentionRow {
    AttentionRow(CandidateReview, symbol, Some(candidateId), None, Open, "ready_for_review")
  }

  /** Inserts a candidate and, unless that later statement fails, its review. */
  function Propose(t: Tables, row: CandidateRow, reviewed: bool): Tables {
    var inserted := t.(candidates := t.candidates + [row]);
    if reviewed then InsertAttention(inserted, ReviewOf(row.symbol, |t.candidates|)) else inserted
  }

  // ---------- steps ----------

  /** How far a persist gets before a statement fails: nothing, only the superseding, all but the last statement
      (a candidate's review, or the refresh of a thesis item), or everything. */
  datatype Progress = Nothing | OnlySuperseded | AllButLast | Complete

  function OtherNames(names: seq<string>, own: string): seq<string> {
    if names == [] then []
    else (if names[0] != own then [names[0]] else []) + OtherNames(names[1..], own)
  }

  const BY_COMPOSED := "superseded_by_composed_discovery"
  const BY_TRACKED := "suppressed_tracked_ticker_update"
  const BY_NOISE := "suppressed_low_quality_noise"
  const BY_BUDGET := "superseded_by_research_nomination_review_budget"

  function SupersedeStale(t: Tables, hit: Composed): Tables {
    Supersede(t, ProposedNamed(t, hit.symbol, hit.rawSignals + OtherNames(COMPOSED_NAMES, SignalName(hit.kind))),
              BY_COMPOSED)
  }

  function ThesisItem(symbol: string, thesis: int): AttentionRow {
    AttentionRow(ThesisActionable, symbol, None, Some(thesis), Open, "actionable")
  }

  function Refreshed(a: AttentionRow, thesis: int): AttentionRow {
    if a.kind == ThesisActionable && a.thesisId == Some(thesis) && a.status == Open then a.(fsm := "actionable") else a
  }

  function RefreshThesis(t: Tables, thesis: int): Tables {
    t.(attention := seq(|t.attention|, i requires 0 <= i < |t.attention| => Refreshed(t.attention[i], thesis)))
  }

  /** Opens the thesis's item, or brings its open one back to the actionable state. */
  function TriggerThesis(t: Tables, symbol: string, thesis: int): Tables {
    RefreshThesis(InsertAttention(t, ThesisItem(symbol, thesis)), thesis)
  }

  function Persist(t: Tables, hit: Composed, now: int, progress: Progress): Tables {
    if progress == Nothing then t
    else
      var cleared := SupersedeStale(t, hit);
      if progress == OnlySuperseded then cleared
      else if hit.kind == ExistingThesisTrigger && hit.thesisId.Some? then
        if progress == AllButLast then InsertAttention(cleared, ThesisItem(hit.symbol, hit.thesisId.value))
        else TriggerThesis(cleared, hit.symbol, hit.thesisId.value)
      else if NameTaken(cleared, hit.symbol, SignalName(hit.kind)) then cleared
      else Propose(cleared, CandidateRow(hit.symbol, SignalName(hit.kind), hit.value, 2, 0.0, now, Proposed),
                   progress == Complete)
  }

  function Nominate(t: Tables, symbol: string, value: real, tier: int, fit: real, now: int, reviewed: bool): Tables {
    if EverNominated(t, symbol) then t
    else Propose(t, CandidateRow(symbol, NOMINATION, value, tier, fit, now, Proposed), reviewed)
  }

  datatype Step =
    | PersistHit(hit: Composed, now: int, progress: Progress)
    | SupersedeRaw(symbol: string, names: seq<string>)
    | SupersedeSymbols(symbols: set<string>)
    | NominateSymbol(symbol: string, value: real, tier: int, fit: real, now: int, reviewed: bool)
    | TrimNominations(keep: int)
    | ConfirmCandidate(id: int)
    | RejectCandidate(id: int)
    | DismissAttention(id: int, note: Option<string>)
    | TransitionAttention(id: int, to: string, why: string)
    | ResurfaceDue(due: set<int>)
    | RaiseThesis(symbol: string, thesis: int)
    | ResolveThesis(thesis: int, why: string)

  function Apply(t: Tables, step: Step): Tables {
    match step
    case PersistHit(hit, now, progress) => Persist(t, hit, now, progress)
    case SupersedeRaw(symbol, names) => Supersede(t, ProposedNamed(t, symbol, names), BY_NOISE)
    case SupersedeSymbols(symbols) => Supersede(t, ProposedFor(t, symbols), BY_TRACKED)
    case NominateSymbol(symbol, value, tier, fit, now, reviewed) => Nominate(t, symbol, value, tier, fit, now, reviewed)
    case TrimNominations(keep) => Supersede(t, OverBudget(t, if keep < 0 then 0 else keep), BY_BUDGET)
    case ConfirmCandidate(id) => Decide(t, {id}, Confirmed, "resolved", "candidate_confirmed")
    case RejectCandidate(id) => Decide(t, {id}, Rejected, "dismissed", "candidate_rejected")
    case DismissAttention(id, note) => DismissItem(t, id, note)
    case TransitionAttention(id, to, why) => TransitionItem(t, id, to, why)
    case ResurfaceDue(due) => Transition(t, DueItems(t.attention, due), "ready_for_review", "resurfaced")
    case RaiseThesis(symbol, thesis) => InsertAttention(t, ThesisItem(symbol, thesis))
    case ResolveThesis(thesis, why) => Transition(t, ItemsOfThesis(t.attention, thesis), "resolved", why)
  }

  function Run(t: Tables, steps: seq<Step>): Tables
    decreases |steps|
  {
    if steps == [] then t else Run(Apply(t, steps[0]), steps[1..])
  }

  // ---------- the scanner pass ----------

  /** One scanned symbol: what fired, and how far scanning and persisting got. */
  datatype Scan = Scan(
    symbol: string, failed: bool, hits: seq<SignalHit>, extension: Option<PriceExtension.Extension>,
    hasOpenThesis: bool, actionableThesis: Option<int>, now: int, progress: Progress)

  function ComposedFor(s: Scan, active: set<string>): Option<Composed> {
    Compose(s.symbol, s.hits, s.extension, Context(s.hasOpenThesis, s.actionableThesis, s.symbol in active))
  }

  function ScanSymbol(t: Tables, s: Scan, active: set<string>): Tables {
    if s.failed then t
    else match ComposedFor(s, active)
      case Some(hit) => Persist(t, hit, s.now, s.progress)
      case None =>
        if s.hits == [] then t
        else if s.symbol in active then Supersede(t, ProposedFor(t, {s.symbol}), BY_TRACKED)
        else Supersede(t, ProposedNamed(t, s.symbol, Names(s.hits)), BY_NOISE)
  }

  /** The scans of a pass, in order, after active tickers' candidates were superseded. */
  function ScanAll(t: Tables, scans: seq<Scan>, active: set<string>): Tables {
    if scans == [] then t
    else ScanSymbol(ScanAll(t, scans[..|scans| - 1], active), scans[|scans| - 1], active)
  }

  function ScanPass(t: Tables, scans: seq<Scan>, active: set<string>): Tables {
    ScanAll(Supersede(t, ProposedFor(t, active), BY_TRACKED), scans, active)
  }

  lemma MoveNext(attention: seq<AttentionRow>, i: nat, sel: set<int>, to: string, reason: string)
    requires i < |attention|
    ensures |MoveItems(attention[..i], sel, to)| == i
    ensures MoveItems(attention[..i + 1], sel, to)
         == MoveItems(attention[..i], sel, to) + [Moved(i, attention[i], sel, to)]
    ensures MoveRows(attention[..i + 1], sel, to, reason)
         == MoveRows(attention[..i], sel, to, reason) + MovedRow(i, attention[i], sel, to, reason)
  {
    assert attention[..i + 1][..i] == attention[..i];
  }

  lemma NothingMoved(sel: set<int>, to: string, reason: string)
    ensures MoveItems([], sel, to) == [] && MoveRows([], sel, to, reason) == []
  {
  }

  lemma UpdateSplit<T>(done: seq<T>, s: seq<T>, i: nat, x: T)
    requires i < |s| && |done| == i
    ensures (done + s[i..])[i := x] == done + [x] + s[i + 1..]
    ensures (done + s[i..])[i] == s[i] && |done + s[i..]| == |s|
  {
  }

  /** The three tables as the services update them. */
  class DiscoveryStore {
    var candidates: seq<CandidateRow>
    var attention: seq<AttentionRow>
    var history: seq<HistoryRow>

    ghost function State(): Tables
      reads this
    {
      Tables(candidates, attention, history)
    }

    constructor ()
      ensures State() == EMPTY_TABLES
    {
      candidates, attention, history := [], [], [];
    }

    method MoveItem(i: nat, sel: set<int>, to: string, reason: string)
      requires i < |attention|
      modifies this`attention, this`history
      ensures attention == old(attention)[i := Moved(i, old(attention)[i], sel, to)]
      ensures history == old(history) + MovedRow(i, old(attention)[i], sel, to, reason)
    {
      var a := attention[i];
      if Selected(i, a, sel) {
        attention := attention[i := a.(status := StatusFor(to), fsm := to)];
        history := history + [HistoryRow(i, a.fsm, to, reason)];
      }
    }

    /** Walks the items, moving each selected open one and appending its history row. */
    method MoveSelected(sel: set<int>, to: string, reason: string)
      modifies this`attention, this`history
      ensures State() == Transition(old(State()), sel, to, reason)
    {
      hide MoveItems, MoveRows, Moved, MovedRow;
      ghost var start := attention;
      NothingMoved(sel, to, reason);
      for i := 0 to |attention|
        invariant attention == MoveItems(start[..i], sel, to) + start[i..]
        invariant history == old(history) + MoveRows(start[..i], sel, to, reason)
      {
        MoveNext(start, i, sel, to, reason);
        UpdateSplit(MoveItems(start[..i], sel, to), start, i, Moved(i, start[i], sel, to));
        MoveItem(i, sel, to, reason);
      }
      assert start[..|start|] == start;
    }

    method DecideCandidates(ids: set<int>, decided: CandidateStatus, closing: string, reason: string)
      modifies this
      ensures State() == Decide(old(State()), ids, decided, closing, reason)
    {
      candidates := SetStatus(candidates, ids, decided);
      MoveSelected(ReviewsOf(attention, ids), closing, reason);
    }

    method DismissAttention(id: int, reason: Option<string>)
      modifies this
      ensures State() == DismissItem(old(State()), id, reason)
    {
      if reason == Some("defer") {
        MoveSelected({id}, "operator_deferred", "defer");
      } else {
        MoveSelected({id}, "dismissed", if GetOr(reason, "") == "" then "dismissed" else reason.value);
      }
    }

    method TransitionAttention(id: int, to: string, reason: string)
      modifies this
      ensures State() == TransitionItem(old(State()), id, to, reason)
    {
      if to in ITEM_STATES {
        MoveSelected({id}, to, reason);
      }
    }

    method ProposeCandidate(row: CandidateRow, reviewed: bool)
      modifies this
      ensures State() == Propose(old(State()), row, reviewed)
    {
      var review := ReviewOf(row.symbol, |candidates|);
      candidates := candidates + [row];
      if reviewed && !Conflicts(Tables(candidates, attention, history), review) {
        attention := attention + [review];
      }
    }

    method PersistHit(hit: Composed, now: int, progress: Progress)
      modifies this
      ensures State() == Persist(old(State()), hit, now, progress)
    {
      if progress == Nothing {
        return;
      }
      var stale := ProposedNamed(Tables(candidates, attention, history), hit.symbol,
                                 hit.rawSignals + OtherNames(COMPOSED_NAMES, SignalName(hit.kind)));
      DecideCandidates(stale, Superseded, "dismissed", BY_COMPOSED);
      if progress == OnlySuperseded {
        return;
      }
      if hit.kind == ExistingThesisTrigger && hit.thesisId.Some? {
        var item := ThesisItem(hit.symbol, hit.thesisId.value);
        attention := InsertAttention(Tables(candidates, attention, history), item).attention;
        if progress == Complete {
          attention := RefreshThesis(Tables(candidates, attention, history), hit.thesisId.value).attention;
        }
      } else if !NameTaken(Tables(candidates, attention, history), hit.symbol, SignalName(hit.kind)) {
        ProposeCandidate(CandidateRow(hit.symbol, SignalName(hit.kind), hit.value, 2, 0.0, now, Proposed),
                         progress == Complete);
      }
    }

    method ScanOne(s: Scan, active: set<string>)
      modifies this
      ensures State() == ScanSymbol(old(State()), s, active)
    {
      if s.failed {
        return;
      }
      var composed := ComposedFor(s, active);
      if composed.Some? {
        PersistHit(composed.value, s.now, s.progress);
      } else if s.hits != [] {
        var t := Tables(candidates, attention, history);
        if s.symbol in active {
          DecideCandidates(ProposedFor(t, {s.symbol}), Superseded, "dismissed", BY_TRACKED);
        } else {
          DecideCandidates(ProposedNamed(t, s.symbol, Names(s.hits)), Superseded, "dismissed", BY_NOISE);
        }
      }
    }

    method RunOnce(scans: seq<Scan>, active: set<string>)
      modifies this
      ensures State() == ScanPass(old(State()), scans, active)
    {
      DecideCandidates(ProposedFor(Tables(candidates, attention, history), active), Superseded, "dismissed",
                       BY_TRACKED);
      ghost var cleared := State();
      for k := 0 to |scans|
        invariant State() == ScanAll(cleared, scans[..k], active)
      {
        assert scans[..k + 1][..k] == scans[..k];
        ScanOne(scans[k], active);
      }
      assert scans[..|scans|] == scans;
    }
  }
}
