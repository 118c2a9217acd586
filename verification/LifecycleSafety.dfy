/** What every run of lifecycle steps keeps across the candidate, attention and history tables, and what a
    complete scanner pass and a budget trim achieve. */
module LifecycleSafety {
  import opened Wrappers
  import opened Composer
  import opened Lifecycle

  // ---------- the cross-table invariant ----------

  predicate Resolves(a: AttentionRow, candidates: nat) {
    match a.kind
    case CandidateReview => a.candidateId.Some? && 0 <= a.candidateId.value < candidates
    case ThesisActionable => a.candidateId.None?
  }

  predicate ReferencesResolve(t: Tables) {
    forall i | 0 <= i < |t.attention| :: Resolves(t.attention[i], |t.candidates|)
  }

  predicate IsOpenReview(a: AttentionRow) {
    a.kind == CandidateReview && a.status == Open
  }

  /** Every open review points at a proposed candidate of the same symbol. */
  predicate OpenReviewsProposed(t: Tables)
    requires ReferencesResolve(t)
  {
    forall i | 0 <= i < |t.attention| && IsOpenReview(t.attention[i]) ::
      var c := t.candidates[t.attention[i].candidateId.value];
      c.status == Proposed && c.symbol == t.attention[i].symbol
  }

  predicate OneOpenReviewEach(t: Tables) {
    forall i, j | 0 <= i < j < |t.attention| && IsOpenReview(t.attention[i]) && IsOpenReview(t.attention[j]) ::
      t.attention[i].candidateId != t.attention[j].candidateId
  }

  /** Two candidates that may not both be proposed: one symbol and one signal name, or two composed names. */
  predicate Clash(a: CandidateRow, b: CandidateRow) {
    a.symbol == b.symbol && (a.signal == b.signal || (a.signal in COMPOSED_NAMES && b.signal in COMPOSED_NAMES))
  }

  predicate NoClashes(candidates: seq<CandidateRow>) {
    forall i, j | 0 <= i < j < |candidates| && candidates[i].status == Proposed && candidates[j].status == Proposed ::
      !Clash(candidates[i], candidates[j])
  }

  predicate NominatedOnce(candidates: seq<CandidateRow>) {
    forall i, j | 0 <= i < j < |candidates|
                  && candidates[i].signal == NOMINATION && candidates[j].signal == NOMINATION ::
      candidates[i].symbol != candidates[j].symbol
  }

  /** The state an item is created in. */
  function FirstState(kind: ReviewKind): string {
    match kind case CandidateReview => "ready_for_review" case ThesisActionable => "actionable"
  }

  /** A recorded state may differ from the actual one in one way: a discovery trigger brings an open thesis item
      back to the actionable state without recording it. */
  predicate Follows(kind: ReviewKind, recorded: string, actual: string) {
    actual == recorded || (kind == ThesisActionable && actual == "actionable" && StatusFor(recorded) == Open)
  }

  /** The item's history rows lead from its first state to `now`, each row starting where the one before ended. */
  predicate Chained(history: seq<HistoryRow>, i: int, kind: ReviewKind, now: string) {
    if history == [] then Follows(kind, FirstState(kind), now)
    else
      var rest, h := history[..|history| - 1], history[|history| - 1];
      if h.attentionId == i then Follows(kind, h.toState, now) && Chained(rest, i, kind, h.fromState)
      else Chained(rest, i, kind, now)
  }

  function RowsFor(history: seq<HistoryRow>, i: int): nat {
    if history == [] then 0
    else RowsFor(history[..|history| - 1], i) + if history[|history| - 1].attentionId == i then 1 else 0
  }

  /** How many of the item's rows close it. */
  function ClosingsFor(history: seq<HistoryRow>, i: int): nat {
    if history == [] then 0
    else
      var h := history[|history| - 1];
      ClosingsFor(history[..|history| - 1], i) + if h.attentionId == i && StatusFor(h.toState) != Open then 1 else 0
  }

  predicate ItemRecorded(history: seq<HistoryRow>, i: int, a: AttentionRow) {
    && a.status == StatusFor(a.fsm)
    && Chained(history, i, a.kind, a.fsm)
    && ClosingsFor(history, i) == if a.status == Open then 0 else 1
  }

  /** Each item's rows are a chain from its first state to its current one; a closed item was closed by exactly
      one row, an open one by none, and no row leaves a closed state. */
  predicate HistoryComplete(t: Tables) {
    && (forall i | 0 <= i < |t.attention| :: ItemRecorded(t.history, i, t.attention[i]))
    && (forall h <- t.history :: 0 <= h.attentionId < |t.attention| && StatusFor(h.fromState) == Open)
  }

  predicate Consistent(t: Tables) {
    && ReferencesResolve(t) && OpenReviewsProposed(t) && OneOpenReviewEach(t)
    && NoClashes(t.candidates) && NominatedOnce(t.candidates) && HistoryComplete(t)
  }

  // ---------- moving items ----------

  lemma AppendRow(history: seq<HistoryRow>, h: HistoryRow, i: int, kind: ReviewKind, now: string)
    ensures Chained(history + [h], i, kind, now)
       <==> if h.attentionId == i then Follows(kind, h.toState, now) && Chained(history, i, kind, h.fromState)
            else Chained(history, i, kind, now)
    ensures ClosingsFor(history + [h], i)
         == ClosingsFor(history, i) + if h.attentionId == i && StatusFor(h.toState) != Open then 1 else 0
    ensures RowsFor(history + [h], i) == RowsFor(history, i) + if h.attentionId == i then 1 else 0
  {
    assert (history + [h])[..|history|] == history;
  }

  /** A moving statement appends exactly one row to the item's chain if it selects it, and none otherwise. */
  lemma {:induction false} MoveExtendsChain(history: seq<HistoryRow>, attention: seq<AttentionRow>, sel: set<int>,
                                            to: string, reason: string, i: int, kind: ReviewKind, now: string)
    ensures var next := history + MoveRows(attention, sel, to, reason);
            var moved := 0 <= i < |attention| && Selected(i, attention[i], sel);
            && (Chained(next, i, kind, now)
                <==> if moved then Follows(kind, to, now) && Chained(history, i, kind, attention[i].fsm)
                     else Chained(history, i, kind, now))
            && ClosingsFor(next, i) == ClosingsFor(history, i) + (if moved && StatusFor(to) != Open then 1 else 0)
            && RowsFor(next, i) == RowsFor(history, i) + (if moved then 1 else 0)
    decreases |attention|
  {
    hide Follows, StatusFor, Chained, ClosingsFor, RowsFor, Selected;
    if attention == [] {
      assert history + MoveRows(attention, sel, to, reason) == history;
    } else {
      var last := |attention| - 1;
      var a, rows := attention[last], MoveRows(attention[..last], sel, to, reason);
      if i != last || !Selected(last, a, sel) {
        MoveExtendsChain(history, attention[..last], sel, to, reason, i, kind, now);
      }
      if Selected(last, a, sel) {
        var row := HistoryRow(last, a.fsm, to, reason);
        assert history + MoveRows(attention, sel, to, reason) == (history + rows) + [row];
        AppendRow(history + rows, row, i, kind, now);
        if i == last {
          MoveExtendsChain(history, attention[..last], sel, to, reason, i, kind, a.fsm);
        }
      } else {
        assert MoveRows(attention, sel, to, reason) == rows;
      }
    }
  }

  /** Every appended row carries the state its item was in. */
  ghost predicate RowExact(h: HistoryRow, attention: seq<AttentionRow>, sel: set<int>, to: string, reason: string) {
    && 0 <= h.attentionId < |attention| && Selected(h.attentionId, attention[h.attentionId], sel)
    && h.fromState == attention[h.attentionId].fsm && h.toState == to && h.reason == reason
  }

  lemma {:induction false} MoveRowsExact(attention: seq<AttentionRow>, sel: set<int>, to: string, reason: string)
    ensures forall h <- MoveRows(attention, sel, to, reason) :: RowExact(h, attention, sel, to, reason)
  {
    hide Selected;
    if attention != [] {
      var last := |attention| - 1;
      MoveRowsExact(attention[..last], sel, to, reason);
    }
  }

  lemma TransitionKeepsItem(t: Tables, sel: set<int>, to: string, reason: string, i: int)
    requires 0 <= i < |t.attention| && ItemRecorded(t.history, i, t.attention[i])
    ensures var next := Transition(t, sel, to, reason); ItemRecorded(next.history, i, next.attention[i])
  {
    hide Chained, ClosingsFor, RowsFor, StatusFor, MoveRows;
    var a := t.attention[i];
    MoveExtendsChain(t.history, t.attention, sel, to, reason, i, a.kind, a.fsm);
    MoveExtendsChain(t.history, t.attention, sel, to, reason, i, a.kind, to);
  }

  lemma TransitionKeepsHistory(t: Tables, sel: set<int>, to: string, reason: string)
    requires HistoryComplete(t)
    ensures HistoryComplete(Transition(t, sel, to, reason))
  {
    hide ItemRecorded, MoveRows;
    var next := Transition(t, sel, to, reason);
    forall i | 0 <= i < |next.attention|
      ensures ItemRecorded(next.history, i, next.attention[i])
    {
      TransitionKeepsItem(t, sel, to, reason, i);
    }
    MoveRowsExact(t.attention, sel, to, reason);
    forall h | h in next.history
      ensures 0 <= h.attentionId < |next.attention| && StatusFor(h.fromState) == Open
    {
      if h !in t.history {
        assert h in MoveRows(t.attention, sel, to, reason);
        OpenState(t, h.attentionId);
      }
    }
  }

  lemma OpenState(t: Tables, i: int)
    requires HistoryComplete(t) && 0 <= i < |t.attention| && t.attention[i].status == Open
    ensures StatusFor(t.attention[i].fsm) == Open
  {
    hide Chained, ClosingsFor;
    assert ItemRecorded(t.history, i, t.attention[i]);
  }

  /** Moving items never reopens one, so what holds of all open reviews still does. */
  lemma TransitionKeepsTables(t: Tables, sel: set<int>, to: string, reason: string)
    requires Consistent(t)
    ensures Consistent(Transition(t, sel, to, reason))
  {
    hide HistoryComplete, MoveRows, StatusFor, NoClashes, NominatedOnce;
    TransitionKeepsHistory(t, sel, to, reason);
    var next := Transition(t, sel, to, reason);
    assert forall i | 0 <= i < |next.attention| ::
      next.attention[i].kind == t.attention[i].kind && next.attention[i].symbol == t.attention[i].symbol
      && next.attention[i].candidateId == t.attention[i].candidateId
      && (IsOpenReview(next.attention[i]) ==> IsOpenReview(t.attention[i]));
  }

  // ---------- deciding candidates ----------

  lemma DecidedCandidates(candidates: seq<CandidateRow>, ids: set<int>, decided: CandidateStatus)
    requires NoClashes(candidates) && NominatedOnce(candidates) && decided != Proposed
    ensures NoClashes(SetStatus(candidates, ids, decided)) && NominatedOnce(SetStatus(candidates, ids, decided))
  {
  }

  lemma DecideKeepsTables(t: Tables, ids: set<int>, decided: CandidateStatus, closing: string, reason: string)
    requires Consistent(t) && decided != Proposed && StatusFor(closing) != Open
    ensures Consistent(Decide(t, ids, decided, closing, reason))
  {
    hide HistoryComplete, MoveRows, NoClashes, NominatedOnce;
    var sel := ReviewsOf(t.attention, ids);
    DecidedCandidates(t.candidates, ids, decided);
    TransitionKeepsHistory(t, sel, closing, reason);
    HistoryIgnoresCandidates(Transition(t, sel, closing, reason), SetStatus(t.candidates, ids, decided));
    var next := Decide(t, ids, decided, closing, reason);
    forall i | 0 <= i < |next.attention| && IsOpenReview(next.attention[i])
      ensures IsOpenReview(t.attention[i]) && next.attention[i] == t.attention[i]
      ensures t.attention[i].candidateId.Some? && t.attention[i].candidateId.value !in ids
    {
    }
  }

  lemma HistoryIgnoresCandidates(t: Tables, candidates: seq<CandidateRow>)
    requires HistoryComplete(t)
    ensures HistoryComplete(t.(candidates := candidates))
  {
  }

  /** A system dismissal closes exactly the open reviews of the superseded candidates, changes nothing else
      in the queue, and appends exactly their history rows. */
  lemma SupersedeRecordsDismissals(t: Tables, ids: set<int>, reason: string)
    ensures var next, sel := Supersede(t, ids, reason), ReviewsOf(t.attention, ids);
            && |next.attention| == |t.attention| && |next.candidates| == |t.candidates|
            && (forall i | 0 <= i < |t.attention| ::
                  if Selected(i, t.attention[i], sel)
                  then next.attention[i].status == Dismissed
                       && RowsFor(next.history, i) == RowsFor(t.history, i) + 1
                  else next.attention[i] == t.attention[i] && RowsFor(next.history, i) == RowsFor(t.history, i))
            && t.history <= next.history
            && (forall k | |t.history| <= k < |next.history| ::
                  var h := next.history[k];
                  0 <= h.attentionId < |t.attention| && h.fromState == t.attention[h.attentionId].fsm
                  && h.toState == "dismissed" && h.reason == reason)
  {
    hide MoveRows, ReviewsOf, RowsFor;
    var sel := ReviewsOf(t.attention, ids);
    var rows := MoveRows(t.attention, sel, "dismissed", reason);
    forall i | 0 <= i < |t.attention|
      ensures RowsFor(t.history + rows, i) == RowsFor(t.history, i) + if Selected(i, t.attention[i], sel) then 1 else 0
    {
      MoveExtendsChain(t.history, t.attention, sel, "dismissed", reason, i, CandidateReview, "");
    }
    MoveRowsExact(t.attention, sel, "dismissed", reason);
    forall k | |t.history| <= k < |t.history + rows|
      ensures (t.history + rows)[k] in rows
    {
      assert (t.history + rows)[k] == rows[k - |t.history|];
    }
  }

  // ---------- inserting ----------

  /** Nothing proposed clashes with the row, and a nomination is its symbol's first. */
  predicate MayPropose(t: Tables, row: CandidateRow) {
    && row.status == Proposed
    && (forall c <- t.candidates | c.status == Proposed :: !Clash(c, row))
    && (row.signal == NOMINATION ==> !EverNominated(t, row.symbol))
  }

  lemma ProposeNeverConflicts(t: Tables, row: CandidateRow)
    requires ReferencesResolve(t)
    ensures !Conflicts(t.(candidates := t.candidates + [row]), ReviewOf(row.symbol, |t.candidates|))
  {
    forall b | b in t.attention
      ensures b.candidateId != Some(|t.candidates|)
    {
      var i :| 0 <= i < |t.attention| && t.attention[i] == b;
    }
  }

  lemma {:induction false} NewItemRecorded(history: seq<HistoryRow>, i: int, kind: ReviewKind)
    requires forall h <- history :: h.attentionId < i
    ensures Chained(history, i, kind, FirstState(kind)) && ClosingsFor(history, i) == 0
  {
    if history != [] {
      assert history[|history| - 1] in history;
      NewItemRecorded(history[..|history| - 1], i, kind);
    }
  }

  lemma InsertKeepsHistory(t: Tables, a: AttentionRow)
    requires HistoryComplete(t) && a.status == Open && a.fsm == FirstState(a.kind)
    ensures HistoryComplete(InsertAttention(t, a))
  {
    hide Chained, ClosingsFor, Conflicts;
    NewItemRecorded(t.history, |t.attention|, a.kind);
  }

  lemma ProposedCandidates(t: Tables, row: CandidateRow)
    requires NoClashes(t.candidates) && NominatedOnce(t.candidates) && MayPropose(t, row)
    ensures NoClashes(t.candidates + [row]) && NominatedOnce(t.candidates + [row])
  {
    hide Clash;
    var next := t.candidates + [row];
    forall i, j | 0 <= i < j < |next| && next[i].status == Proposed && next[j].status == Proposed
      ensures !Clash(next[i], next[j])
    {
      if j == |t.candidates| {
        assert t.candidates[i] in t.candidates;
      }
    }
    forall i, j | 0 <= i < j < |next| && next[i].signal == NOMINATION && next[j].signal == NOMINATION
      ensures next[i].symbol != next[j].symbol
    {
      if j == |t.candidates| {
        assert t.candidates[i] in t.candidates;
      }
    }
  }

  lemma ProposeKeepsTables(t: Tables, row: CandidateRow, reviewed: bool)
    requires Consistent(t) && MayPropose(t, row)
    ensures Consistent(Propose(t, row, reviewed))
  {
    hide NoClashes, NominatedOnce, HistoryComplete, MayPropose, Conflicts;
    ProposedCandidates(t, row);
    ProposeNeverConflicts(t, row);
    var inserted, review := t.(candidates := t.candidates + [row]), ReviewOf(row.symbol, |t.candidates|);
    HistoryIgnoresCandidates(t, t.candidates + [row]);
    InsertKeepsHistory(inserted, review);
    RowIsProposed(t, row);
  }

  lemma RowIsProposed(t: Tables, row: CandidateRow)
    requires MayPropose(t, row)
    ensures row.status == Proposed
  {
  }

  lemma ThesisItemKeepsTables(t: Tables, symbol: string, thesis: int)
    requires Consistent(t)
    ensures Consistent(InsertAttention(t, ThesisItem(symbol, thesis)))
  {
    hide NoClashes, NominatedOnce, Conflicts, HistoryComplete;
    InsertKeepsHistory(t, ThesisItem(symbol, thesis));
  }

  lemma {:induction false} ActionableFollows(history: seq<HistoryRow>, i: int, now: string)
    requires Chained(history, i, ThesisActionable, now) && StatusFor(now) == Open
    ensures Chained(history, i, ThesisActionable, "actionable")
  {
    if history != [] {
      var h := history[|history| - 1];
      if h.attentionId != i {
        ActionableFollows(history[..|history| - 1], i, now);
      }
    }
  }

  lemma RefreshKeepsItem(history: seq<HistoryRow>, i: int, a: AttentionRow, thesis: int)
    requires ItemRecorded(history, i, a)
    ensures ItemRecorded(history, i, Refreshed(a, thesis))
  {
    hide Chained, ClosingsFor;
    if Refreshed(a, thesis) != a {
      ActionableFollows(history, i, a.fsm);
    }
  }

  lemma RefreshKeepsTables(t: Tables, thesis: int)
    requires Consistent(t)
    ensures Consistent(RefreshThesis(t, thesis))
  {
    hide NoClashes, NominatedOnce, ItemRecorded;
    var next := RefreshThesis(t, thesis);
    assert forall i | 0 <= i < |t.attention| :: next.attention[i] == Refreshed(t.attention[i], thesis);
    forall i | 0 <= i < |t.attention|
      ensures ItemRecorded(next.history, i, next.attention[i])
    {
      RefreshKeepsItem(t.history, i, t.attention[i], thesis);
    }
  }

  // ---------- what the history says ----------

  /** The state an item's history ends in. */
  function LastRecorded(history: seq<HistoryRow>, i: int, kind: ReviewKind): string {
    if history == [] then FirstState(kind)
    else if history[|history| - 1].attentionId == i then history[|history| - 1].toState
    else LastRecorded(history[..|history| - 1], i, kind)
  }

  lemma {:induction false} ChainEndsInLast(history: seq<HistoryRow>, i: int, kind: ReviewKind, now: string)
    requires Chained(history, i, kind, now)
    ensures Follows(kind, LastRecorded(history, i, kind), now)
  {
    if history != [] && history[|history| - 1].attentionId != i {
      ChainEndsInLast(history[..|history| - 1], i, kind, now);
    }
  }

  /** The history of a candidate review always ends in its current state. */
  lemma ReviewHistoryExact(t: Tables, i: int)
    requires Consistent(t) && 0 <= i < |t.attention| && t.attention[i].kind == CandidateReview
    ensures LastRecorded(t.history, i, CandidateReview) == t.attention[i].fsm
  {
    hide Chained, ClosingsFor, NoClashes, NominatedOnce;
    assert ItemRecorded(t.history, i, t.attention[i]);
    ChainEndsInLast(t.history, i, CandidateReview, t.attention[i].fsm);
  }

  /** A discovery trigger leaves the history of an open thesis item true exactly when it changed no state: when
      the history already ended in the actionable state. */
  lemma TriggerRecordedIff(t: Tables, symbol: string, thesis: int, i: int)
    requires 0 <= i < |t.attention| && t.attention[i].status == Open
    requires t.attention[i].kind == ThesisActionable && t.attention[i].thesisId == Some(thesis)
    ensures var next := TriggerThesis(t, symbol, thesis);
            LastRecorded(next.history, i, ThesisActionable) == next.attention[i].fsm
            <==> LastRecorded(t.history, i, ThesisActionable) == "actionable"
  {
    hide LastRecorded, Conflicts;
  }

  function DeferredExample(): Tables {
    Tables([], [ThesisItem("ACME", 7).(fsm := "operator_deferred")],
           [HistoryRow(0, "actionable", "operator_deferred", "defer")])
  }

  lemma DeferringExample(t: Tables)
    requires t == Tables([], [ThesisItem("ACME", 7)], [])
    ensures Apply(t, DismissAttention(0, Some("defer"))) == DeferredExample()
  {
    hide StatusFor;
    assert StatusFor("operator_deferred") == Open by { OperatorDeferredIsOpen(); }
    assert t.attention[..0] == [];
    assert MoveRows(t.attention[..0], {0}, "operator_deferred", "defer") == [];
    assert MoveItems(t.attention, {0}, "operator_deferred") == DeferredExample().attention;
  }

  lemma OperatorDeferredIsOpen()
    ensures StatusFor("operator_deferred") == Open
  {
    assert |"operator_deferred"| == 17 && |"resolved"| == 8 && |"dismissed"| == 9;
  }

  lemma TriggeringExample()
    ensures TriggerThesis(DeferredExample(), "ACME", 7)
         == Tables([], [ThesisItem("ACME", 7)], DeferredExample().history)
  {
    var t := DeferredExample();
    assert t.attention[0] in t.attention;
    assert Conflicts(t, ThesisItem("ACME", 7));
  }

  lemma RunTwo(t: Tables, first: Step, second: Step)
    ensures Run(t, [first, second]) == Apply(Apply(t, first), second)
  {
    hide Apply;
    assert [first, second][1..] == [second] && [second][1..] == [];
    assert Run(Apply(Apply(t, first), second), []) == Apply(Apply(t, first), second);
  }

  /** A deferred thesis item brought back by a trigger: actionable in the queue, deferred in its history. */
  lemma UnrecordedTriggerExample()
    ensures var t := Run(EMPTY_TABLES, [RaiseThesis("ACME", 7), DismissAttention(0, Some("defer"))]);
            var next := TriggerThesis(t, "ACME", 7);
            && next.attention == [ThesisItem("ACME", 7)] && next.attention[0].fsm == "actionable"
            && next.history == [HistoryRow(0, "actionable", "operator_deferred", "defer")]
  {
    hide TriggerThesis, DismissItem;
    var raise, defer := RaiseThesis("ACME", 7), DismissAttention(0, Some("defer"));
    RunTwo(EMPTY_TABLES, raise, defer);
    var raised := Apply(EMPTY_TABLES, raise);
    assert raised == Tables([], [ThesisItem("ACME", 7)], []);
    DeferringExample(raised);
    TriggeringExample();
  }

  lemma {:induction false} OtherNamesMembers(names: seq<string>, own: string, name: string)
    ensures name in OtherNames(names, own) <==> name in names && name != own
  {
    if names != [] {
      OtherNamesMembers(names[1..], own, name);
    }
  }

  lemma NominationIsNotComposed()
    ensures NOMINATION !in COMPOSED_NAMES
  {
    assert |NOMINATION| == 19 && |COMPOSED_NAMES| == 6;
    assert |COMPOSED_NAMES[0]| == 18 && |COMPOSED_NAMES[1]| == 21 && |COMPOSED_NAMES[2]| == 17
        && |COMPOSED_NAMES[3]| == 17 && |COMPOSED_NAMES[5]| == 23;
    assert COMPOSED_NAMES[4][0] == 'p' && NOMINATION[0] == 'r';
  }

  // ---------- every step, and every run ----------

  lemma SupersedeKeeps(t: Tables, ids: set<int>, reason: string)
    requires Consistent(t)
    ensures Consistent(Supersede(t, ids, reason))
  {
    DecideKeepsTables(t, ids, Superseded, "dismissed", reason);
  }

  lemma PersistKeeps(t: Tables, hit: Composed, now: int, progress: Progress)
    requires Consistent(t) && SignalName(hit.kind) in COMPOSED_NAMES
    ensures Consistent(Persist(t, hit, now, progress))
  {
    hide Consistent, Supersede, SupersedeStale, Propose, TriggerThesis, ProposedNamed, SignalName, NameTaken,
      OtherNames;
    var own := SignalName(hit.kind);
    var names := hit.rawSignals + OtherNames(COMPOSED_NAMES, own);
    var cleared := SupersedeStale(t, hit);
    SupersedeKeeps(t, ProposedNamed(t, hit.symbol, names), BY_COMPOSED);
    StaleIs(t, hit);
    if hit.thesisId.Some? {
      ThesisItemKeepsTables(cleared, hit.symbol, hit.thesisId.value);
      RefreshKeepsTables(InsertAttention(cleared, ThesisItem(hit.symbol, hit.thesisId.value)), hit.thesisId.value);
      TriggerUnfolds(cleared, hit.symbol, hit.thesisId.value);
    }
    var row := CandidateRow(hit.symbol, own, hit.value, 2, 0.0, now, Proposed);
    if !NameTaken(cleared, hit.symbol, own) {
      ClearedForHit(t, hit, row);
      ProposeKeepsTables(cleared, row, progress == Complete);
    }
  }

  lemma StaleIs(t: Tables, hit: Composed)
    ensures var names := hit.rawSignals + OtherNames(COMPOSED_NAMES, SignalName(hit.kind));
            SupersedeStale(t, hit) == Supersede(t, ProposedNamed(t, hit.symbol, names), BY_COMPOSED)
  {
  }

  lemma TriggerUnfolds(t: Tables, symbol: string, thesis: int)
    ensures TriggerThesis(t, symbol, thesis) == RefreshThesis(InsertAttention(t, ThesisItem(symbol, thesis)), thesis)
  {
  }

  /** Superseding first is what makes room: afterwards nothing proposed clashes with a hit whose own
      name is free. */
  lemma ClearedForHit(t: Tables, hit: Composed, row: CandidateRow)
    requires SignalName(hit.kind) in COMPOSED_NAMES
    requires row.symbol == hit.symbol && row.signal == SignalName(hit.kind) && row.status == Proposed
    requires !NameTaken(SupersedeStale(t, hit), row.symbol, row.signal)
    ensures MayPropose(SupersedeStale(t, hit), row)
  {
    var names := hit.rawSignals + OtherNames(COMPOSED_NAMES, row.signal);
    var ids := ProposedNamed(t, hit.symbol, names);
    var cleared := SupersedeStale(t, hit);
    NominationIsNotComposed();
    forall c | c in cleared.candidates && c.status == Proposed
      ensures !Clash(c, row)
    {
      var i :| 0 <= i < |cleared.candidates| && cleared.candidates[i] == c;
      assert i !in ids && t.candidates[i] == c;
      OtherNamesMembers(COMPOSED_NAMES, row.signal, c.signal);
    }
  }

  lemma NominateKeeps(t: Tables, symbol: string, value: real, tier: int, fit: real, now: int, reviewed: bool)
    requires Consistent(t)
    ensures Consistent(Nominate(t, symbol, value, tier, fit, now, reviewed))
  {
    hide Consistent, Propose;
    if !EverNominated(t, symbol) {
      var row := CandidateRow(symbol, NOMINATION, value, tier, fit, now, Proposed);
      NominationIsNotComposed();
      ProposeKeepsTables(t, row, reviewed);
    }
  }

  predicate Composable(step: Step) {
    step.PersistHit? ==> SignalName(step.hit.kind) in COMPOSED_NAMES
  }

  lemma ApplyKeeps(t: Tables, step: Step)
    requires Consistent(t) && Composable(step)
    ensures Consistent(Apply(t, step))
  {
    hide Consistent, Supersede, Persist, Nominate, OverBudget, ProposedNamed, ProposedFor, Decide, Transition,
      InsertAttention;
    match step
    case PersistHit(hit, now, progress) => PersistKeeps(t, hit, now, progress);
    case SupersedeRaw(symbol, names) => SupersedeKeeps(t, ProposedNamed(t, symbol, names), BY_NOISE);
    case SupersedeSymbols(symbols) => SupersedeKeeps(t, ProposedFor(t, symbols), BY_TRACKED);
    case NominateSymbol(symbol, value, tier, fit, now, reviewed) =>
      NominateKeeps(t, symbol, value, tier, fit, now, reviewed);
    case TrimNominations(keep) => SupersedeKeeps(t, OverBudget(t, if keep < 0 then 0 else keep), BY_BUDGET);
    case ConfirmCandidate(id) => DecideKeepsTables(t, {id}, Confirmed, "resolved", "candidate_confirmed");
    case RejectCandidate(id) => DecideKeepsTables(t, {id}, Rejected, "dismissed", "candidate_rejected");
    case DismissAttention(id, note) =>
      TransitionKeepsTables(t, {id}, "operator_deferred", "defer");
      TransitionKeepsTables(t, {id}, "dismissed", if GetOr(note, "") == "" then "dismissed" else note.value);
    case TransitionAttention(id, to, why) => TransitionKeepsTables(t, {id}, to, why);
    case ResurfaceDue(due) => TransitionKeepsTables(t, DueItems(t.attention, due), "ready_for_review", "resurfaced");
    case RaiseThesis(symbol, thesis) => ThesisItemKeepsTables(t, symbol, thesis);
    case ResolveThesis(thesis, why) => TransitionKeepsTables(t, ItemsOfThesis(t.attention, thesis), "resolved", why);
  }

  /** Any steps in any order, with persists failing at any statement, lead from a consistent state to a
      consistent one. */
  lemma {:induction false} EveryRunConsistent(t: Tables, steps: seq<Step>)
    requires Consistent(t) && forall step <- steps :: Composable(step)
    ensures Consistent(Run(t, steps))
    decreases |steps|
  {
    hide Consistent, Apply;
    if steps != [] {
      assert steps[0] in steps;
      ApplyKeeps(t, steps[0]);
      EveryRunConsistent(Apply(t, steps[0]), steps[1..]);
    }
  }

  lemma EmptyIsConsistent()
    ensures Consistent(EMPTY_TABLES)
  {
  }

  /** So every reachable state is consistent. */
  lemma EveryReachableConsistent(steps: seq<Step>)
    requires forall step <- steps :: Composable(step)
    ensures Consistent(Run(EMPTY_TABLES, steps))
  {
    EmptyIsConsistent();
    EveryRunConsistent(EMPTY_TABLES, steps);
  }

  // ---------- the scanner pass ----------

  predicate NoneProposedFor(t: Tables, active: set<string>) {
    forall c <- t.candidates | c.status == Proposed :: c.symbol !in active
  }

  lemma SupersedeKeepsNone(t: Tables, ids: set<int>, reason: string, active: set<string>)
    requires NoneProposedFor(t, active)
    ensures NoneProposedFor(Supersede(t, ids, reason), active)
  {
    forall c | c in Supersede(t, ids, reason).candidates && c.status == Proposed
      ensures c.symbol !in active
    {
      var i :| 0 <= i < |t.candidates| && Supersede(t, ids, reason).candidates[i] == c;
      assert t.candidates[i] in t.candidates;
    }
  }

  lemma ScanKeeps(t: Tables, s: Scan, active: set<string>)
    requires Consistent(t) && NoneProposedFor(t, active)
    ensures Consistent(ScanSymbol(t, s, active)) && NoneProposedFor(ScanSymbol(t, s, active), active)
  {
    hide Consistent, Supersede, TriggerThesis, ProposedNamed, ProposedFor, Compose;
    var ctx := Context(s.hasOpenThesis, s.actionableThesis, s.symbol in active);
    var composed := Compose(s.symbol, s.hits, s.extension, ctx);
    if s.failed {
    } else if composed.Some? {
      ComposedName(s.symbol, s.hits, s.extension, ctx);
      PersistKeeps(t, composed.value, s.now, s.progress);
      ComposedSymbol(s.symbol, s.hits, s.extension, ctx);
      if s.symbol in active {
        ActiveRoutesToThesis(s.symbol, s.hits, s.extension, ctx);
      }
      PersistKeepsNone(t, composed.value, s.now, s.progress, active);
    } else {
      SupersedeKeeps(t, ProposedFor(t, {s.symbol}), BY_TRACKED);
      SupersedeKeepsNone(t, ProposedFor(t, {s.symbol}), BY_TRACKED, active);
      SupersedeKeeps(t, ProposedNamed(t, s.symbol, Names(s.hits)), BY_NOISE);
      SupersedeKeepsNone(t, ProposedNamed(t, s.symbol, Names(s.hits)), BY_NOISE, active);
    }
  }

  lemma ComposedSymbol(symbol: string, hits: seq<SignalHit>, extension: Option<PriceExtension.Extension>, ctx: Context)
    requires Compose(symbol, hits, extension, ctx).Some?
    ensures Compose(symbol, hits, extension, ctx).value.symbol == symbol
  {
  }

  lemma PersistKeepsNone(t: Tables, hit: Composed, now: int, progress: Progress, active: set<string>)
    requires NoneProposedFor(t, active)
    requires hit.symbol in active ==> hit.kind == ExistingThesisTrigger && hit.thesisId.Some?
    ensures NoneProposedFor(Persist(t, hit, now, progress), active)
  {
    hide Supersede, ProposedNamed, Conflicts;
    var names := hit.rawSignals + OtherNames(COMPOSED_NAMES, SignalName(hit.kind));
    SupersedeKeepsNone(t, ProposedNamed(t, hit.symbol, names), BY_COMPOSED, active);
  }

  lemma {:induction false} ScanAllKeeps(t: Tables, scans: seq<Scan>, active: set<string>)
    requires Consistent(t) && NoneProposedFor(t, active)
    ensures Consistent(ScanAll(t, scans, active)) && NoneProposedFor(ScanAll(t, scans, active), active)
  {
    hide Consistent, ScanSymbol, NoneProposedFor;
    if scans != [] {
      ScanAllKeeps(t, scans[..|scans| - 1], active);
      ScanKeeps(ScanAll(t, scans[..|scans| - 1], active), scans[|scans| - 1], active);
    }
  }

  /** After a complete pass, whatever fired and wherever scans or persists failed, no active ticker has a
      proposed candidate or an open candidate review, and the tables are consistent. */
  lemma PassClearsActiveTickers(t: Tables, scans: seq<Scan>, active: set<string>)
    requires Consistent(t)
    ensures var next := ScanPass(t, scans, active);
            && Consistent(next)
            && (forall c <- next.candidates | c.symbol in active :: c.status != Proposed)
            && (forall a <- next.attention | IsOpenReview(a) :: a.symbol !in active)
  {
    hide ScanAll, ProposedFor;
    var ids := ProposedFor(t, active);
    SupersedeKeeps(t, ids, BY_TRACKED);
    FirstSupersedeClears(t, active);
    ScanAllKeeps(Supersede(t, ids, BY_TRACKED), scans, active);
    var next := ScanPass(t, scans, active);
    forall a | a in next.attention && IsOpenReview(a)
      ensures a.symbol !in active
    {
      var i :| 0 <= i < |next.attention| && next.attention[i] == a;
      assert next.candidates[a.candidateId.value] in next.candidates;
    }
  }

  lemma FirstSupersedeClears(t: Tables, active: set<string>)
    ensures NoneProposedFor(Supersede(t, ProposedFor(t, active), BY_TRACKED), active)
  {
    var ids := ProposedFor(t, active);
    forall c | c in Supersede(t, ids, BY_TRACKED).candidates && c.status == Proposed
      ensures c.symbol !in active
    {
      var i :| 0 <= i < |t.candidates| && Supersede(t, ids, BY_TRACKED).candidates[i] == c;
      assert i !in ids && t.candidates[i] == c;
    }
  }
}
