/** What each statement on candidates and attention items does to the three tables, column by column. */
module LifecycleEffects {
  import opened Wrappers
  import opened Composer
  import opened Lifecycle
  import opened LifecycleSafety

  // ---------- moving items ----------

  /** The history grew by one row for each of these items and no other. */
  ghost predicate Records(t: Tables, next: Tables, moved: set<int>, to: string, reason: string) {
    t.history <= next.history && RowsMatch(next.history[|t.history|..], t.attention, moved, to, reason)
  }

  /** Exactly these items went to a state, with the status that goes with it, and their moves were recorded. */
  ghost predicate Moves(t: Tables, next: Tables, moved: set<int>, to: string, status: ReviewStatus, reason: string) {
    && Records(t, next, moved, to, reason)
    && |next.attention| == |t.attention|
    && forall i | 0 <= i < |t.attention| ::
         next.attention[i] == if i in moved then t.attention[i].(status := status, fsm := to) else t.attention[i]
  }

  /** Exactly these candidates were decided, and their open reviews closed. */
  ghost predicate Decides(t: Tables, next: Tables, ids: set<int>, decided: CandidateStatus, to: string,
                          status: ReviewStatus, reason: string) {
    && |next.candidates| == |t.candidates|
    && (forall i | 0 <= i < |t.candidates| ::
          next.candidates[i] == if i in ids then t.candidates[i].(status := decided) else t.candidates[i])
    && Moves(t, next,
             (set i | 0 <= i < |t.attention| && t.attention[i].kind == CandidateReview && t.attention[i].status == Open
                      && t.attention[i].candidateId.Some? && t.attention[i].candidateId.value in ids),
             to, status, reason)
  }

  /** The open ones of a selection. */
  function OpenOf(attention: seq<AttentionRow>, sel: set<int>): set<int> {
    set i | i in sel && 0 <= i < |attention| && attention[i].status == Open
  }

  lemma {:induction false} RowsOf(attention: seq<AttentionRow>, sel: set<int>, to: string, reason: string)
    ensures RowsMatch(MoveRows(attention, sel, to, reason), attention, OpenOf(attention, sel), to, reason)
  {
    hide MoveRows, OpenOf, MovedRow;
    if attention == [] {
      NoRows(sel, to, reason);
    } else {
      var last := |attention| - 1;
      RowsOf(attention[..last], sel, to, reason);
      RowsNext(attention, sel, to, reason);
      OpenNext(attention, sel);
      RowsExtend(MoveRows(attention[..last], sel, to, reason), attention, sel, to, reason);
    }
  }

  /** One row for each of these items and no other, in the order of their ids. */
  ghost predicate RowsMatch(rows: seq<HistoryRow>, attention: seq<AttentionRow>, moved: set<int>, to: string,
                            reason: string) {
    && (forall k | 0 <= k < |rows| :: RowMatches(rows[k], attention, moved, to, reason))
    && (forall i <- moved :: exists k | 0 <= k < |rows| :: rows[k].attentionId == i)
    && (forall j, k | 0 <= j < k < |rows| :: rows[j].attentionId < rows[k].attentionId)
  }

  /** The row says where its item was, where it went and why. */
  ghost predicate RowMatches(h: HistoryRow, attention: seq<AttentionRow>, moved: set<int>, to: string, reason: string)
  {
    && h.attentionId in moved && 0 <= h.attentionId < |attention|
    && h == HistoryRow(h.attentionId, attention[h.attentionId].fsm, to, reason)
  }

  lemma NoRows(sel: set<int>, to: string, reason: string)
    ensures MoveRows([], sel, to, reason) == [] && OpenOf([], sel) == {}
  {
  }

  lemma RowsNext(attention: seq<AttentionRow>, sel: set<int>, to: string, reason: string)
    requires attention != []
    ensures var last := |attention| - 1;
            MoveRows(attention, sel, to, reason)
            == MoveRows(attention[..last], sel, to, reason)
               + if last in sel && attention[last].status == Open
                 then [HistoryRow(last, attention[last].fsm, to, reason)] else []
  {
  }

  lemma OpenNext(attention: seq<AttentionRow>, sel: set<int>)
    requires attention != []
    ensures var last := |attention| - 1;
            OpenOf(attention, sel)
            == OpenOf(attention[..last], sel) + if last in sel && attention[last].status == Open then {last} else {}
  {
  }

  lemma RowsExtend(rows: seq<HistoryRow>, attention: seq<AttentionRow>, sel: set<int>, to: string, reason: string)
    requires attention != []
    requires var last := |attention| - 1;
             RowsMatch(rows, attention[..last], OpenOf(attention[..last], sel), to, reason)
    ensures var last := |attention| - 1;
            RowsMatch(rows + if last in sel && attention[last].status == Open
                             then [HistoryRow(last, attention[last].fsm, to, reason)] else [],
                      attention, OpenOf(attention, sel), to, reason)
  {
    hide OpenOf;
    var last := |attention| - 1;
    var added := if last in sel && attention[last].status == Open
                 then [HistoryRow(last, attention[last].fsm, to, reason)] else [];
    OpenNext(attention, sel);
    var next := rows + added;
    assert forall k | 0 <= k < |rows| ::
      next[k] == rows[k] && RowMatches(rows[k], attention[..last], OpenOf(attention[..last], sel), to, reason);
    forall i | i in OpenOf(attention, sel) ensures exists k | 0 <= k < |next| :: next[k].attentionId == i {
      if i in OpenOf(attention[..last], sel) {
        var k :| 0 <= k < |rows| && rows[k].attentionId == i;
        assert next[k].attentionId == i;
      } else {
        assert next[|rows|].attentionId == i;
      }
    }
  }

  /** Which status goes with a state. */
  predicate GoesWith(to: string, status: ReviewStatus) {
    (to == "resolved" && status == Resolved) || (to == "dismissed" && status == Dismissed)
    || (to !in {"resolved", "dismissed"} && status == Open)
  }

  /** Moving selected items moves exactly the open ones among them. */
  lemma TransitionMoves(t: Tables, sel: set<int>, to: string, status: ReviewStatus, reason: string)
    requires GoesWith(to, status)
    ensures var next := Transition(t, sel, to, reason);
            next.candidates == t.candidates && Moves(t, next, OpenOf(t.attention, sel), to, status, reason)
  {
    hide MoveRows, RowsMatch;
    assert |"resolved"| == 8 && |"dismissed"| == 9;
    RowsOf(t.attention, sel, to, reason);
    var next := Transition(t, sel, to, reason);
    assert next.history[|t.history|..] == MoveRows(t.attention, sel, to, reason);
  }

  lemma DecideDecides(t: Tables, ids: set<int>, decided: CandidateStatus, to: string, status: ReviewStatus,
                      reason: string)
    requires GoesWith(to, status)
    ensures Decides(t, Decide(t, ids, decided, to, reason), ids, decided, to, status, reason)
  {
    hide MoveRows, MoveItems, Records;
    var start := t.(candidates := SetStatus(t.candidates, ids, decided));
    TransitionMoves(start, ReviewsOf(t.attention, ids), to, status, reason);
    assert OpenOf(t.attention, ReviewsOf(t.attention, ids))
        == set i | 0 <= i < |t.attention| && t.attention[i].kind == CandidateReview && t.attention[i].status == Open
                   && t.attention[i].candidateId.Some? && t.attention[i].candidateId.value in ids;
    var next := Transition(start, ReviewsOf(t.attention, ids), to, reason);
    RecordsIgnoreCandidates(start, t, next, OpenOf(t.attention, ReviewsOf(t.attention, ids)), to, reason);
  }

  lemma RecordsIgnoreCandidates(a: Tables, b: Tables, next: Tables, moved: set<int>, to: string, reason: string)
    requires a.attention == b.attention && a.history == b.history && Records(a, next, moved, to, reason)
    ensures Records(b, next, moved, to, reason)
  {
  }

  // ---------- operators ----------

  /** Confirming or rejecting decides that candidate alone. */
  lemma ConfirmDecides(t: Tables, id: int)
    ensures Decides(t, Apply(t, ConfirmCandidate(id)), {id}, Confirmed, "resolved", Resolved, "candidate_confirmed")
    ensures Decides(t, Apply(t, RejectCandidate(id)), {id}, Rejected, "dismissed", Dismissed, "candidate_rejected")
  {
    hide Decides, Decide;
    DecideDecides(t, {id}, Confirmed, "resolved", Resolved, "candidate_confirmed");
    DecideDecides(t, {id}, Rejected, "dismissed", Dismissed, "candidate_rejected");
  }

  /** Dismissing closes an open item with the operator's note as its reason, or the word itself without one; the note
      "defer" sets it aside and leaves it open. */
  lemma DismissMoves(t: Tables, id: int, note: Option<string>)
    ensures var next, open_ := Apply(t, DismissAttention(id, note)), OpenOf(t.attention, {id});
            && next.candidates == t.candidates
            && (note == Some("defer") ==> Moves(t, next, open_, "operator_deferred", Open, "defer"))
            && (note.None? || note == Some("") ==> Moves(t, next, open_, "dismissed", Dismissed, "dismissed"))
            && (note.Some? && note.value !in {"", "defer"} ==>
                  Moves(t, next, open_, "dismissed", Dismissed, note.value))
  {
    hide Transition, Moves;
    StateWords();
    TransitionMoves(t, {id}, "operator_deferred", Open, "defer");
    TransitionMoves(t, {id}, "dismissed", Dismissed, "dismissed");
    if note.Some? {
      TransitionMoves(t, {id}, "dismissed", Dismissed, note.value);
    }
  }

  lemma StateWords()
    ensures GoesWith("operator_deferred", Open) && GoesWith("ready_for_review", Open)
    ensures GoesWith("resolved", Resolved) && GoesWith("dismissed", Dismissed) && "defer" != ""
  {
    assert |"operator_deferred"| == 17 && |"ready_for_review"| == 16 && |"resolved"| == 8 && |"dismissed"| == 9;
  }

  /** A requested move to one of the nine states moves an open item there; any other state changes nothing. */
  lemma TransitionItemMoves(t: Tables, id: int, to: string, why: string)
    ensures var next := Apply(t, TransitionAttention(id, to, why));
            next.candidates == t.candidates
            && if to in {"queued", "evaluating", "waiting_on_data", "ready_for_review", "operator_deferred",
                         "actionable", "resolved", "dismissed", "blocked"}
               then Moves(t, next, OpenOf(t.attention, {id}), to,
                          if to == "resolved" then Resolved else if to == "dismissed" then Dismissed else Open, why)
               else next == t
  {
    hide Transition, Moves;
    assert |"resolved"| == 8 && |"dismissed"| == 9;
    ItemStates(to);
    TransitionMoves(t, {id}, to, if to == "resolved" then Resolved else if to == "dismissed" then Dismissed else Open,
                    why);
  }

  lemma ItemStates(to: string)
    ensures to in ITEM_STATES
       <==> to in {"queued", "evaluating", "waiting_on_data", "ready_for_review", "operator_deferred", "actionable",
                   "resolved", "dismissed", "blocked"}
  {
    assert ITEM_STATES[0] == "queued" && ITEM_STATES[1] == "evaluating" && ITEM_STATES[2] == "waiting_on_data"
        && ITEM_STATES[3] == "ready_for_review" && ITEM_STATES[4] == "operator_deferred"
        && ITEM_STATES[5] == "actionable" && ITEM_STATES[6] == "resolved" && ITEM_STATES[7] == "dismissed"
        && ITEM_STATES[8] == "blocked" && |ITEM_STATES| == 9;
  }

  // ---------- housekeeping ----------

  /** Exactly the open deferred items whose time has come return for review. */
  lemma ResurfaceMoves(t: Tables, due: set<int>)
    ensures var next := Apply(t, ResurfaceDue(due));
            && next.candidates == t.candidates
            && Moves(t, next,
                     (set i | 0 <= i < |t.attention| && i in due && t.attention[i].fsm == "operator_deferred"
                              && t.attention[i].status == Open),
                     "ready_for_review", Open, "resurfaced")
  {
    hide Moves, Transition;
    StateWords();
    TransitionMoves(t, DueItems(t.attention, due), "ready_for_review", Open, "resurfaced");
    assert OpenOf(t.attention, DueItems(t.attention, due))
        == set i | 0 <= i < |t.attention| && i in due && t.attention[i].fsm == "operator_deferred"
                   && t.attention[i].status == Open;
  }

  /** Resolving a thesis resolves exactly its open items. */
  lemma ResolveMoves(t: Tables, thesis: int, why: string)
    ensures var next := Apply(t, ResolveThesis(thesis, why));
            && next.candidates == t.candidates
            && Moves(t, next,
                     (set i | 0 <= i < |t.attention| && t.attention[i].kind == ThesisActionable
                              && t.attention[i].thesisId == Some(thesis) && t.attention[i].status == Open),
                     "resolved", Resolved, why)
  {
    hide Moves, Transition;
    StateWords();
    TransitionMoves(t, ItemsOfThesis(t.attention, thesis), "resolved", Resolved, why);
    assert OpenOf(t.attention, ItemsOfThesis(t.attention, thesis))
        == set i | 0 <= i < |t.attention| && t.attention[i].kind == ThesisActionable
                   && t.attention[i].thesisId == Some(thesis) && t.attention[i].status == Open;
  }

  /** Noise supersedes exactly the symbol's proposed candidates of these names; tracking a ticker supersedes all its
      proposed candidates. */
  lemma SupersedeDecides(t: Tables, symbol: string, names: seq<string>, symbols: set<string>)
    ensures Decides(t, Apply(t, SupersedeRaw(symbol, names)),
                    (set i | 0 <= i < |t.candidates| && t.candidates[i].status == Proposed
                             && t.candidates[i].symbol == symbol && t.candidates[i].signal in names),
                    Superseded, "dismissed", Dismissed, "suppressed_low_quality_noise")
    ensures Decides(t, Apply(t, SupersedeSymbols(symbols)),
                    (set i | 0 <= i < |t.candidates| && t.candidates[i].status == Proposed
                             && t.candidates[i].symbol in symbols),
                    Superseded, "dismissed", Dismissed, "suppressed_tracked_ticker_update")
  {
    hide Decides, Decide;
    DecideDecides(t, ProposedNamed(t, symbol, names), Superseded, "dismissed", Dismissed, BY_NOISE);
    DecideDecides(t, ProposedFor(t, symbols), Superseded, "dismissed", Dismissed, BY_TRACKED);
  }

  /** Trimming supersedes the nominations it drops, for the review budget. */
  lemma TrimDecides(t: Tables, keep: int)
    ensures exists dropped: set<int> ::
              && (forall i <- dropped :: 0 <= i < |t.candidates| && t.candidates[i].status == Proposed
                                         && t.candidates[i].signal == "research_nomination")
              && Decides(t, Apply(t, TrimNominations(keep)), dropped, Superseded, "dismissed", Dismissed,
                         "superseded_by_research_nomination_review_budget")
  {
    hide Decides, Decide, BetterThan;
    var dropped := OverBudget(t, if keep < 0 then 0 else keep);
    DecideDecides(t, dropped, Superseded, "dismissed", Dismissed, BY_BUDGET);
    SupersedeIs(t, dropped, BY_BUDGET);
    assert Decides(t, Apply(t, TrimNominations(keep)), dropped, Superseded, "dismissed", Dismissed,
                   "superseded_by_research_nomination_review_budget");
  }

  // ---------- inserting ----------

  /** One open item of a kind per candidate and per thesis: the insert finds one there. */
  ghost predicate Blocked(t: Tables, a: AttentionRow) {
    exists i | 0 <= i < |t.attention| ::
      && t.attention[i].status == Open && t.attention[i].kind == a.kind
      && (|| (a.candidateId.Some? && t.attention[i].candidateId == a.candidateId)
          || (a.thesisId.Some? && t.attention[i].thesisId == a.thesisId))
  }

  lemma BlockedIff(t: Tables, a: AttentionRow)
    ensures Blocked(t, a) <==> Conflicts(t, a)
  {
    if Conflicts(t, a) {
      var b :| b in t.attention && b.status == Open && b.kind == a.kind
               && ((a.candidateId.Some? && b.candidateId == a.candidateId)
                   || (a.thesisId.Some? && b.thesisId == a.thesisId));
      var i :| 0 <= i < |t.attention| && t.attention[i] == b;
    }
  }

  /** Raising a thesis opens its item unless one is open. */
  lemma RaiseInserts(t: Tables, symbol: string, thesis: int)
    ensures var next := Apply(t, RaiseThesis(symbol, thesis));
            var row := AttentionRow(ThesisActionable, symbol, None, Some(thesis), Open, "actionable");
            next == if Blocked(t, row) then t else t.(attention := t.attention + [row])
  {
    hide Conflicts, Blocked;
    BlockedIff(t, ThesisItem(symbol, thesis));
  }

  /** A symbol is nominated once ever: then a proposed nomination is appended and, unless that statement fails, its
      review, ready for review. */
  lemma NominateInserts(t: Tables, symbol: string, value: real, tier: int, fit: real, now: int, reviewed: bool)
    requires ReferencesResolve(t)
    ensures var next := Apply(t, NominateSymbol(symbol, value, tier, fit, now, reviewed));
            if exists i | 0 <= i < |t.candidates| ::
                 t.candidates[i].symbol == symbol && t.candidates[i].signal == "research_nomination"
            then next == t
            else next == t.(candidates := t.candidates + [CandidateRow(symbol, "research_nomination", value, tier, fit,
                                                                       now, Proposed)],
                            attention := t.attention + if reviewed
                              then [AttentionRow(CandidateReview, symbol, Some(|t.candidates|), None, Open,
                                                 "ready_for_review")]
                              else [])
  {
    hide Conflicts;
    var row := CandidateRow(symbol, NOMINATION, value, tier, fit, now, Proposed);
    ProposeNeverConflicts(t, row);
    assert EverNominated(t, symbol) <==> exists i | 0 <= i < |t.candidates| ::
      t.candidates[i].symbol == symbol && t.candidates[i].signal == NOMINATION;
  }

  // ---------- persisting a hit ----------

  /** The candidates a hit makes stale: its symbol's proposed ones named by its raw signals or by another composed
      kind. */
  function Stale(t: Tables, hit: Composed, own: string): set<int> {
    set i | 0 <= i < |t.candidates| && t.candidates[i].status == Proposed && t.candidates[i].symbol == hit.symbol
            && (t.candidates[i].signal in hit.rawSignals
                || (t.candidates[i].signal in {"early_accumulation", "breakout_confirmation", "extended_momentum",
                                               "consensus_arrival", "possible_exhaustion", "existing_thesis_trigger"}
                    && t.candidates[i].signal != own))
  }

  lemma ComposedWords(name: string)
    ensures name in COMPOSED_NAMES
       <==> name in {"early_accumulation", "breakout_confirmation", "extended_momentum", "consensus_arrival",
                     "possible_exhaustion", "existing_thesis_trigger"}
  {
    assert COMPOSED_NAMES[0] == "early_accumulation" && COMPOSED_NAMES[1] == "breakout_confirmation"
        && COMPOSED_NAMES[2] == "extended_momentum" && COMPOSED_NAMES[3] == "consensus_arrival"
        && COMPOSED_NAMES[4] == "possible_exhaustion" && COMPOSED_NAMES[5] == "existing_thesis_trigger"
        && |COMPOSED_NAMES| == 6;
  }

  lemma StaleAre(t: Tables, hit: Composed)
    ensures ProposedNamed(t, hit.symbol, hit.rawSignals + OtherNames(COMPOSED_NAMES, SignalName(hit.kind)))
         == Stale(t, hit, SignalName(hit.kind))
  {
    hide SignalName, OtherNames;
    forall i | 0 <= i < |t.candidates|
      ensures t.candidates[i].signal in hit.rawSignals + OtherNames(COMPOSED_NAMES, SignalName(hit.kind))
         <==> t.candidates[i].signal in hit.rawSignals
              || (t.candidates[i].signal in COMPOSED_NAMES && t.candidates[i].signal != SignalName(hit.kind))
    {
      OtherNamesMembers(COMPOSED_NAMES, SignalName(hit.kind), t.candidates[i].signal);
    }
    forall i | 0 <= i < |t.candidates|
      ensures t.candidates[i].signal in COMPOSED_NAMES
         <==> t.candidates[i].signal in {"early_accumulation", "breakout_confirmation", "extended_momentum",
                                         "consensus_arrival", "possible_exhaustion", "existing_thesis_trigger"}
    {
      ComposedWords(t.candidates[i].signal);
    }
  }

  /** After superseding, a hit on an actionable thesis opens the thesis's item or brings its open one back. */
  ghost predicate Triggers(cleared: Tables, next: Tables, symbol: string, thesis: int, refreshed: bool) {
    var row := AttentionRow(ThesisActionable, symbol, None, Some(thesis), Open, "actionable");
    && next.candidates == cleared.candidates && next.history == cleared.history
    && |next.attention| == |cleared.attention| + (if Blocked(cleared, row) then 0 else 1)
    && (!Blocked(cleared, row) ==> next.attention[|cleared.attention|] == row)
    && forall i | 0 <= i < |cleared.attention| ::
         var a := cleared.attention[i];
         next.attention[i]
         == if refreshed && a.kind == ThesisActionable && a.thesisId == Some(thesis) && a.status == Open
            then a.(fsm := "actionable") else a
  }

  /** After superseding, any other hit proposes its candidate, in tier two and without a fit, unless one of its name is
      proposed, and opens its review unless that statement fails. */
  ghost predicate Proposes(cleared: Tables, next: Tables, hit: Composed, own: string, now: int, reviewed: bool) {
    if exists i | 0 <= i < |cleared.candidates| ::
         cleared.candidates[i].symbol == hit.symbol && cleared.candidates[i].signal == own
         && cleared.candidates[i].status == Proposed
    then next == cleared
    else next == cleared.(candidates := cleared.candidates + [CandidateRow(hit.symbol, own, hit.value, 2, 0.0, now,
                                                                           Proposed)],
                          attention := cleared.attention + if reviewed
                            then [AttentionRow(CandidateReview, hit.symbol, Some(|cleared.candidates|), None, Open,
                                               "ready_for_review")]
                            else [])
  }

  lemma TriggerTriggers(t: Tables, symbol: string, thesis: int)
    ensures Triggers(t, InsertAttention(t, ThesisItem(symbol, thesis)), symbol, thesis, false)
    ensures Triggers(t, TriggerThesis(t, symbol, thesis), symbol, thesis, true)
  {
    hide Conflicts, Blocked;
    BlockedIff(t, ThesisItem(symbol, thesis));
  }

  lemma ProposeProposes(t: Tables, hit: Composed, own: string, now: int, reviewed: bool)
    requires ReferencesResolve(t)
    ensures var row := CandidateRow(hit.symbol, own, hit.value, 2, 0.0, now, Proposed);
            Proposes(t, if NameTaken(t, hit.symbol, own) then t else Propose(t, row, reviewed), hit, own, now, reviewed)
  {
    hide Conflicts;
    ProposeNeverConflicts(t, CandidateRow(hit.symbol, own, hit.value, 2, 0.0, now, Proposed));
    assert NameTaken(t, hit.symbol, own) <==> exists i | 0 <= i < |t.candidates| ::
      t.candidates[i].symbol == hit.symbol && t.candidates[i].signal == own && t.candidates[i].status == Proposed;
  }

  lemma DecidingResolves(t: Tables, ids: set<int>, reason: string)
    requires ReferencesResolve(t)
    ensures ReferencesResolve(Supersede(t, ids, reason))
  {
    hide MoveRows, StatusFor;
  }

  /** What persisting a hit does, wherever it stops: nothing; or it dismisses what the hit makes stale, and then
      triggers the thesis or proposes the candidate, the last statement possibly missing. */
  lemma PersistDoes(t: Tables, hit: Composed, now: int, progress: Progress)
    requires ReferencesResolve(t)
    ensures var next, own := Apply(t, PersistHit(hit, now, progress)), SignalName(hit.kind);
            if progress == Nothing then next == t
            else
              exists cleared: Tables ::
                && Decides(t, cleared, Stale(t, hit, own), Superseded, "dismissed", Dismissed,
                           "superseded_by_composed_discovery")
                && if progress == OnlySuperseded then next == cleared
                   else if hit.kind == ExistingThesisTrigger && hit.thesisId.Some? then
                     Triggers(cleared, next, hit.symbol, hit.thesisId.value, progress == Complete)
                   else Proposes(cleared, next, hit, own, now, progress == Complete)
  {
    hide Decides, Supersede, SignalName, Triggers, Proposes, Stale, TriggerThesis, InsertAttention, Propose, NameTaken,
      ProposedNamed, OtherNames, ReferencesResolve;
    var own, cleared := SignalName(hit.kind), SupersedeStale(t, hit);
    StaleAre(t, hit);
    StaleIs(t, hit);
    SupersedeIs(t, Stale(t, hit, own), BY_COMPOSED);
    DecideDecides(t, Stale(t, hit, own), Superseded, "dismissed", Dismissed, BY_COMPOSED);
    DecidingResolves(t, Stale(t, hit, own), BY_COMPOSED);
    if hit.thesisId.Some? {
      TriggerTriggers(cleared, hit.symbol, hit.thesisId.value);
    }
    ProposeProposes(cleared, hit, own, now, progress == Complete);
  }

  lemma SupersedeIs(t: Tables, ids: set<int>, reason: string)
    ensures Supersede(t, ids, reason) == Decide(t, ids, Superseded, "dismissed", reason)
  {
  }

  // ---------- scanning ----------

  /** What one scanned symbol does: a failed scan or one without signals nothing; one that composes persists its hit;
      otherwise an active ticker's proposed candidates are dismissed, or those its raw signals name. */
  lemma ScanDoes(t: Tables, s: Scan, active: set<string>)
    ensures var next := ScanSymbol(t, s, active);
            var composed := Compose(s.symbol, s.hits, s.extension,
                                    Context(s.hasOpenThesis, s.actionableThesis, s.symbol in active));
            && (s.failed || s.hits == [] ==> next == t)
            && (!s.failed && composed.Some? ==> next == Apply(t, PersistHit(composed.value, s.now, s.progress)))
            && (!s.failed && s.hits != [] && composed.None? && s.symbol in active ==>
                  next == Apply(t, SupersedeSymbols({s.symbol})))
            && (!s.failed && s.hits != [] && composed.None? && s.symbol !in active ==>
                  next == Apply(t, SupersedeRaw(s.symbol,
                                                seq(|s.hits|, i requires 0 <= i < |s.hits| => s.hits[i].name))))
  {
    hide Supersede, Persist, ProposedFor, ProposedNamed, KindOf;
    var names := seq(|s.hits|, i requires 0 <= i < |s.hits| => s.hits[i].name);
    assert Names(s.hits) == names;
  }

  /** A pass first dismisses what active tickers have proposed, and then scans its symbols one after another. */
  lemma PassDoes(t: Tables, scans: seq<Scan>, s: Scan, active: set<string>)
    ensures ScanPass(t, [], active) == Apply(t, SupersedeSymbols(active))
    ensures ScanPass(t, scans + [s], active) == ScanSymbol(ScanPass(t, scans, active), s, active)
  {
    hide ScanSymbol, Supersede;
    assert (scans + [s])[..|scans|] == scans;
  }
}
