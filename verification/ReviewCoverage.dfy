/** Which proposed candidates an operator can see: exactly when a proposed candidate has an open review. */
module ReviewCoverage {
  import opened Wrappers
  import opened Composer
  import opened Lifecycle
  import opened LifecycleSafety

  predicate IsOpenReviewOf(a: AttentionRow, id: int) {
    IsOpenReview(a) && a.candidateId == Some(id)
  }

  predicate HasOpenReview(t: Tables, id: int) {
    exists i | 0 <= i < |t.attention| :: IsOpenReviewOf(t.attention[i], id)
  }

  // ---------- statements ----------

  /** A moving statement takes away exactly the open reviews it selects and closes. */
  lemma ReviewAfterTransition(t: Tables, sel: set<int>, to: string, reason: string, id: int)
    ensures HasOpenReview(Transition(t, sel, to, reason), id)
       <==> exists i | 0 <= i < |t.attention| ::
              IsOpenReviewOf(t.attention[i], id) && (i !in sel || StatusFor(to) == Open)
  {
    hide MoveRows, StatusFor;
    var next := Transition(t, sel, to, reason);
    assert forall i | 0 <= i < |t.attention| ::
      IsOpenReviewOf(next.attention[i], id)
      <==> IsOpenReviewOf(t.attention[i], id) && (i !in sel || StatusFor(to) == Open);
  }

  /** Deciding other candidates leaves this one's review alone. */
  lemma ReviewAfterDecide(t: Tables, ids: set<int>, decided: CandidateStatus, closing: string, reason: string, id: int)
    requires id !in ids
    ensures HasOpenReview(Decide(t, ids, decided, closing, reason), id) <==> HasOpenReview(t, id)
  {
    hide MoveRows, StatusFor, Transition;
    var start := t.(candidates := SetStatus(t.candidates, ids, decided));
    ReviewAfterTransition(start, ReviewsOf(t.attention, ids), closing, reason, id);
    if HasOpenReview(t, id) {
      var i :| 0 <= i < |t.attention| && IsOpenReviewOf(t.attention[i], id);
      assert i !in ReviewsOf(t.attention, ids);
    }
  }

  lemma ReviewAfterInsert(t: Tables, a: AttentionRow, id: int)
    requires a.candidateId != Some(id)
    ensures HasOpenReview(InsertAttention(t, a), id) <==> HasOpenReview(t, id)
  {
    hide Conflicts;
    var next := InsertAttention(t, a);
    assert forall i | 0 <= i < |t.attention| :: next.attention[i] == t.attention[i];
    if HasOpenReview(t, id) {
      var i :| 0 <= i < |t.attention| && IsOpenReviewOf(t.attention[i], id);
      assert IsOpenReviewOf(next.attention[i], id);
    }
  }

  lemma ReviewAfterRefresh(t: Tables, thesis: int, id: int)
    ensures HasOpenReview(RefreshThesis(t, thesis), id) <==> HasOpenReview(t, id)
  {
    var next := RefreshThesis(t, thesis);
    assert forall i | 0 <= i < |t.attention| ::
      IsOpenReviewOf(next.attention[i], id) <==> IsOpenReviewOf(t.attention[i], id);
  }

  /** Proposing opens the new candidate's review exactly when that statement runs, and no other review. */
  lemma ReviewAfterPropose(t: Tables, row: CandidateRow, reviewed: bool, id: int)
    requires ReferencesResolve(t)
    ensures HasOpenReview(Propose(t, row, reviewed), id)
       <==> if id == |t.candidates| then reviewed else HasOpenReview(t, id)
  {
    hide Conflicts, InsertAttention;
    var inserted, review := t.(candidates := t.candidates + [row]), ReviewOf(row.symbol, |t.candidates|);
    ProposeNeverConflicts(t, row);
    NoReviewBeyond(t);
    if id != |t.candidates| {
      ReviewAfterInsert(inserted, review, id);
    } else if reviewed {
      Inserted(inserted, review);
      assert IsOpenReviewOf(InsertAttention(inserted, review).attention[|t.attention|], id);
    }
  }

  lemma Inserted(t: Tables, a: AttentionRow)
    requires !Conflicts(t, a)
    ensures InsertAttention(t, a).attention == t.attention + [a]
  {
    hide Conflicts;
  }

  lemma NoReviewBeyond(t: Tables)
    requires ReferencesResolve(t)
    ensures !HasOpenReview(t, |t.candidates|)
  {
    assert forall i | 0 <= i < |t.attention| :: Resolves(t.attention[i], |t.candidates|);
  }

  // ---------- every step ----------

  /** The step is an operator closing this candidate's open review. */
  predicate ClosesReview(t: Tables, step: Step, id: int) {
    match step
    case DismissAttention(i, note) =>
      note != Some("defer") && 0 <= i < |t.attention| && IsOpenReviewOf(t.attention[i], id)
    case TransitionAttention(i, to, _) =>
      to in ITEM_STATES && StatusFor(to) != Open && 0 <= i < |t.attention| && IsOpenReviewOf(t.attention[i], id)
    case _ => false
  }

  /** The step proposes without opening a review: the later statement failed. */
  predicate SkipsReview(step: Step) {
    match step
    case PersistHit(_, _, progress) => progress != Complete
    case NominateSymbol(_, _, _, _, _, reviewed) => !reviewed
    case _ => false
  }

  predicate StillProposed(t: Tables, id: int) {
    0 <= id < |t.candidates| && t.candidates[id].status == Proposed
  }

  /** One item moved: the review is lost exactly when that item is it and the move closes it. */
  lemma ReviewAfterMove(t: Tables, i: int, to: string, reason: string, id: int)
    requires Consistent(t)
    ensures HasOpenReview(Transition(t, {i}, to, reason), id)
       <==> HasOpenReview(t, id)
            && !(StatusFor(to) != Open && 0 <= i < |t.attention| && IsOpenReviewOf(t.attention[i], id))
  {
    hide MoveRows, StatusFor, Transition, NoClashes, NominatedOnce, HistoryComplete, OpenReviewsProposed;
    ReviewAfterTransition(t, {i}, to, reason, id);
    if HasOpenReview(t, id) {
      var k :| 0 <= k < |t.attention| && IsOpenReviewOf(t.attention[k], id);
      assert forall j | 0 <= j < |t.attention| && IsOpenReviewOf(t.attention[j], id) :: j == k;
    }
  }

  /** Items of a thesis, and deferred items coming back, are not reviews being closed. */
  lemma ReviewAfterSafeMove(t: Tables, sel: set<int>, to: string, reason: string, id: int)
    requires StatusFor(to) == Open
             || forall i | i in sel && 0 <= i < |t.attention| :: t.attention[i].kind != CandidateReview
    ensures HasOpenReview(Transition(t, sel, to, reason), id) <==> HasOpenReview(t, id)
  {
    hide MoveRows, StatusFor, Transition;
    ReviewAfterTransition(t, sel, to, reason, id);
  }

  lemma DecidedIsNotProposed(t: Tables, ids: set<int>, decided: CandidateStatus, closing: string, reason: string,
                             id: int)
    requires decided != Proposed && StillProposed(Decide(t, ids, decided, closing, reason), id)
    ensures id !in ids && StillProposed(t, id)
  {
  }

  lemma ReviewAfterPersist(t: Tables, hit: Composed, now: int, progress: Progress, id: int)
    requires Consistent(t) && StillProposed(Persist(t, hit, now, progress), id)
    ensures HasOpenReview(Persist(t, hit, now, progress), id)
       <==> if id < |t.candidates| then HasOpenReview(t, id) else progress == Complete
    ensures id < |t.candidates| ==> StillProposed(t, id)
  {
    hide Consistent, Propose, Supersede, SupersedeStale, ProposedNamed, SignalName, OtherNames, NameTaken,
      TriggerThesis, HasOpenReview;
    var names := hit.rawSignals + OtherNames(COMPOSED_NAMES, SignalName(hit.kind));
    var ids, cleared := ProposedNamed(t, hit.symbol, names), SupersedeStale(t, hit);
    StaleIs(t, hit);
    SupersededCount(t, ids, BY_COMPOSED);
    SupersedeKeeps(t, ids, BY_COMPOSED);
    var row := CandidateRow(hit.symbol, SignalName(hit.kind), hit.value, 2, 0.0, now, Proposed);
    var next := Persist(t, hit, now, progress);
    if progress != Nothing && id < |t.candidates| {
      PersistKeepsStatus(t, hit, now, progress, id);
      SupersededReview(t, ids, BY_COMPOSED, id);
    }
    if hit.thesisId.Some? {
      TriggerUnfolds(cleared, hit.symbol, hit.thesisId.value);
      var item := ThesisItem(hit.symbol, hit.thesisId.value);
      ReviewAfterInsert(cleared, item, id);
      ReviewAfterRefresh(InsertAttention(cleared, item), hit.thesisId.value, id);
      ThesisLeavesCandidates(cleared, hit.symbol, hit.thesisId.value);
    }
    ConsistentResolves(cleared);
    ReviewAfterPropose(cleared, row, progress == Complete, id);
    ProposedCount(cleared, row, progress == Complete);
  }

  lemma ConsistentResolves(t: Tables)
    requires Consistent(t)
    ensures ReferencesResolve(t)
  {
  }

  lemma SupersededCount(t: Tables, ids: set<int>, reason: string)
    ensures |Supersede(t, ids, reason).candidates| == |t.candidates|
  {
  }

  lemma SupersededReview(t: Tables, ids: set<int>, reason: string, id: int)
    requires StillProposed(Supersede(t, ids, reason), id)
    ensures HasOpenReview(Supersede(t, ids, reason), id) <==> HasOpenReview(t, id)
    ensures StillProposed(t, id)
  {
    hide HasOpenReview;
    DecidedIsNotProposed(t, ids, Superseded, "dismissed", reason, id);
    ReviewAfterDecide(t, ids, Superseded, "dismissed", reason, id);
  }

  lemma ThesisLeavesCandidates(t: Tables, symbol: string, thesis: int)
    ensures InsertAttention(t, ThesisItem(symbol, thesis)).candidates == t.candidates
    ensures TriggerThesis(t, symbol, thesis).candidates == t.candidates
  {
  }

  lemma ProposedCount(t: Tables, row: CandidateRow, reviewed: bool)
    ensures Propose(t, row, reviewed).candidates == t.candidates + [row]
  {
  }

  /** A persist leaves a candidate it does not supersede as it was. */
  lemma PersistKeepsStatus(t: Tables, hit: Composed, now: int, progress: Progress, id: int)
    requires 0 <= id < |t.candidates| && progress != Nothing
    ensures |Persist(t, hit, now, progress).candidates| >= |t.candidates| == |SupersedeStale(t, hit).candidates|
    ensures Persist(t, hit, now, progress).candidates[id] == SupersedeStale(t, hit).candidates[id]
  {
    hide Conflicts, NameTaken, ProposedNamed, SignalName, OtherNames, MoveRows;
  }

  lemma ReviewAfterNominate(t: Tables, symbol: string, value: real, tier: int, fit: real, now: int, reviewed: bool,
                            id: int)
    requires Consistent(t) && StillProposed(Nominate(t, symbol, value, tier, fit, now, reviewed), id)
    ensures HasOpenReview(Nominate(t, symbol, value, tier, fit, now, reviewed), id)
       <==> if id < |t.candidates| then HasOpenReview(t, id) else reviewed
    ensures id < |t.candidates| ==> StillProposed(t, id)
  {
    hide Consistent, Propose, EverNominated, HasOpenReview;
    var row := CandidateRow(symbol, NOMINATION, value, tier, fit, now, Proposed);
    ConsistentResolves(t);
    ReviewAfterPropose(t, row, reviewed, id);
    ProposedCount(t, row, reviewed);
  }

  /** Exactly when a candidate that is proposed after a step has no open review: it had none before, an operator closed
      it by this step, or this step proposed the candidate and failed before opening one. */
  lemma UnreviewedIff(t: Tables, step: Step, id: int)
    requires Consistent(t) && StillProposed(Apply(t, step), id)
    ensures !HasOpenReview(Apply(t, step), id)
       <==> if id < |t.candidates| then !HasOpenReview(t, id) || ClosesReview(t, step, id) else SkipsReview(step)
  {
    hide Consistent, Supersede, Persist, Nominate, OverBudget, ProposedNamed, ProposedFor, Decide, Transition,
      InsertAttention, HasOpenReview, StatusFor;
    match step
    case PersistHit(hit, now, progress) => ReviewAfterPersist(t, hit, now, progress, id);
    case NominateSymbol(symbol, value, tier, fit, now, reviewed) =>
      ReviewAfterNominate(t, symbol, value, tier, fit, now, reviewed, id);
    case SupersedeRaw(symbol, names) => SupersedeReviews(t, ProposedNamed(t, symbol, names), BY_NOISE, id);
    case SupersedeSymbols(symbols) => SupersedeReviews(t, ProposedFor(t, symbols), BY_TRACKED, id);
    case TrimNominations(keep) => SupersedeReviews(t, OverBudget(t, if keep < 0 then 0 else keep), BY_BUDGET, id);
    case ConfirmCandidate(k) => DecideReviews(t, {k}, Confirmed, "resolved", "candidate_confirmed", id);
    case RejectCandidate(k) => DecideReviews(t, {k}, Rejected, "dismissed", "candidate_rejected", id);
    case DismissAttention(i, note) =>
      ClosingStates();
      ReviewAfterMove(t, i, "operator_deferred", "defer", id);
      ReviewAfterMove(t, i, "dismissed", if GetOr(note, "") == "" then "dismissed" else note.value, id);
      MovesKeepCandidates(t, {i}, "operator_deferred", "defer");
      MovesKeepCandidates(t, {i}, "dismissed", if GetOr(note, "") == "" then "dismissed" else note.value);
    case TransitionAttention(i, to, why) =>
      ReviewAfterMove(t, i, to, why, id);
      MovesKeepCandidates(t, {i}, to, why);
    case ResurfaceDue(due) =>
      ClosingStates();
      ReviewAfterSafeMove(t, DueItems(t.attention, due), "ready_for_review", "resurfaced", id);
      MovesKeepCandidates(t, DueItems(t.attention, due), "ready_for_review", "resurfaced");
    case RaiseThesis(symbol, thesis) =>
      ReviewAfterInsert(t, ThesisItem(symbol, thesis), id);
      ThesisLeavesCandidates(t, symbol, thesis);
    case ResolveThesis(thesis, why) =>
      ReviewAfterSafeMove(t, ItemsOfThesis(t.attention, thesis), "resolved", why, id);
      MovesKeepCandidates(t, ItemsOfThesis(t.attention, thesis), "resolved", why);
  }

  lemma ClosingStates()
    ensures StatusFor("operator_deferred") == Open && StatusFor("ready_for_review") == Open
    ensures StatusFor("dismissed") == Dismissed
  {
    assert |"operator_deferred"| == 17 && |"ready_for_review"| == 16 && |"resolved"| == 8 && |"dismissed"| == 9;
  }

  lemma MovesKeepCandidates(t: Tables, sel: set<int>, to: string, reason: string)
    ensures Transition(t, sel, to, reason).candidates == t.candidates
  {
  }

  lemma DecideReviews(t: Tables, ids: set<int>, decided: CandidateStatus, closing: string, reason: string, id: int)
    requires decided != Proposed && StillProposed(Decide(t, ids, decided, closing, reason), id)
    ensures id < |t.candidates|
    ensures HasOpenReview(Decide(t, ids, decided, closing, reason), id) <==> HasOpenReview(t, id)
  {
    hide HasOpenReview;
    DecidedIsNotProposed(t, ids, decided, closing, reason, id);
    ReviewAfterDecide(t, ids, decided, closing, reason, id);
  }

  lemma SupersedeReviews(t: Tables, ids: set<int>, reason: string, id: int)
    requires StillProposed(Supersede(t, ids, reason), id)
    ensures id < |t.candidates|
    ensures HasOpenReview(Supersede(t, ids, reason), id) <==> HasOpenReview(t, id)
  {
    hide HasOpenReview;
    DecideReviews(t, ids, Superseded, "dismissed", reason, id);
  }

  // ---------- every run ----------

  lemma CandidatesStay(t: Tables, step: Step)
    ensures |t.candidates| <= |Apply(t, step).candidates|
  {
    hide MoveRows, MoveItems, ProposedNamed, ProposedFor, OverBudget, Conflicts, NameTaken, EverNominated, StatusFor,
      SignalName, OtherNames;
  }

  lemma OpenReviewIsProposed(t: Tables, id: int)
    requires Consistent(t) && HasOpenReview(t, id)
    ensures StillProposed(t, id)
  {
    hide NoClashes, NominatedOnce, HistoryComplete, OneOpenReviewEach;
  }

  lemma StepStaysUnreviewed(t: Tables, step: Step, id: int)
    requires Consistent(t) && Composable(step) && 0 <= id < |t.candidates| && !HasOpenReview(t, id)
    ensures !HasOpenReview(Apply(t, step), id)
  {
    hide Consistent, Apply, HasOpenReview, StillProposed, ClosesReview, Composable;
    ApplyKeeps(t, step);
    if HasOpenReview(Apply(t, step), id) {
      OpenReviewIsProposed(Apply(t, step), id);
      UnreviewedIff(t, step, id);
    }
  }

  /** No run ever opens a review for a candidate that is there without one. */
  lemma {:induction false} StaysUnreviewed(t: Tables, steps: seq<Step>, id: int)
    requires Consistent(t) && forall step <- steps :: Composable(step)
    requires 0 <= id < |t.candidates| && !HasOpenReview(t, id)
    ensures !HasOpenReview(Run(t, steps), id)
    decreases |steps|
  {
    hide Consistent, Apply, HasOpenReview, Composable;
    if steps != [] {
      assert steps[0] in steps;
      StepStaysUnreviewed(t, steps[0], id);
      ApplyKeeps(t, steps[0]);
      CandidatesStay(t, steps[0]);
      StaysUnreviewed(Apply(t, steps[0]), steps[1..], id);
    }
  }

  /** And while it stays proposed its name is taken: a further hit of the same kind proposes nothing. */
  lemma NameStaysTaken(t: Tables, hit: Composed, now: int, progress: Progress, id: int)
    requires StillProposed(t, id) && SignalName(hit.kind) in COMPOSED_NAMES
    requires t.candidates[id].symbol == hit.symbol && t.candidates[id].signal == SignalName(hit.kind)
    requires t.candidates[id].signal !in hit.rawSignals
    ensures var next := Persist(t, hit, now, progress);
            |next.candidates| == |t.candidates| && next.candidates[id] == t.candidates[id]
  {
    hide SignalName, SupersedeStale, Propose, TriggerThesis, InsertAttention;
    var cleared := SupersedeStale(t, hit);
    KeptByHit(t, hit, id);
    assert cleared.candidates[id] in cleared.candidates;
    if hit.thesisId.Some? {
      ThesisLeavesCandidates(cleared, hit.symbol, hit.thesisId.value);
    }
  }

  lemma KeptByHit(t: Tables, hit: Composed, id: int)
    requires 0 <= id < |t.candidates| && t.candidates[id].signal == SignalName(hit.kind)
    requires t.candidates[id].signal !in hit.rawSignals
    ensures var cleared := SupersedeStale(t, hit);
            |cleared.candidates| == |t.candidates| && cleared.candidates[id] == t.candidates[id]
  {
    hide MoveRows, SignalName, MoveItems, StatusFor, OtherNames;
    var own := SignalName(hit.kind);
    OtherNamesMembers(COMPOSED_NAMES, own, own);
  }

  /** A candidate whose review statement failed: proposed, without a review, and the next hit leaves it so. */
  lemma UnreviewedExample()
    ensures var hit := Composed("ACME", BreakoutConfirmation, 1.0, ["base_breakout"], None);
            var t := Run(EMPTY_TABLES, [PersistHit(hit, 0, AllButLast), PersistHit(hit, 1, Complete)]);
            && |t.candidates| == 1 && StillProposed(t, 0) && t.attention == []
  {
    var hit := Composed("ACME", BreakoutConfirmation, 1.0, ["base_breakout"], None);
    var first, second := PersistHit(hit, 0, AllButLast), PersistHit(hit, 1, Complete);
    RunTwo(EMPTY_TABLES, first, second);
    FirstHit(hit);
    SecondHit(hit, Apply(EMPTY_TABLES, first));
  }

  lemma FirstHit(hit: Composed)
    requires hit == Composed("ACME", BreakoutConfirmation, 1.0, ["base_breakout"], None)
    ensures var t := Apply(EMPTY_TABLES, PersistHit(hit, 0, AllButLast));
            && t.candidates == [CandidateRow("ACME", "breakout_confirmation", 1.0, 2, 0.0, 0, Proposed)]
            && t.attention == []
  {
    hide OtherNames;
  }

  lemma SecondHit(hit: Composed, t: Tables)
    requires hit == Composed("ACME", BreakoutConfirmation, 1.0, ["base_breakout"], None)
    requires t.candidates == [CandidateRow("ACME", "breakout_confirmation", 1.0, 2, 0.0, 0, Proposed)]
    requires t.attention == []
    ensures var next := Apply(t, PersistHit(hit, 1, Complete)); next.candidates == t.candidates && next.attention == []
  {
    hide OtherNames, Propose, MoveRows, SetStatus;
    assert |"base_breakout"| == 13 && |"breakout_confirmation"| == 21;
    NameIsComposed(BreakoutConfirmation);
    NameStaysTaken(t, hit, 1, Complete, 0);
    NothingToMove(t, hit);
  }

  /** With no attention items, superseding moves none. */
  lemma NothingToMove(t: Tables, hit: Composed)
    requires t.attention == [] && |t.candidates| == 1
    requires hit.kind == BreakoutConfirmation && hit.rawSignals == ["base_breakout"]
    requires hit.symbol == t.candidates[0].symbol && t.candidates[0].signal == "breakout_confirmation"
    requires t.candidates[0].status == Proposed
    ensures var cleared := SupersedeStale(t, hit);
            cleared.attention == [] && NameTaken(cleared, hit.symbol, SignalName(hit.kind))
  {
    hide OtherNames, MoveRows;
    var own := SignalName(hit.kind);
    assert own == "breakout_confirmation" && |"base_breakout"| == 13 && |own| == 21;
    OtherNamesMembers(COMPOSED_NAMES, own, own);
    var cleared := SupersedeStale(t, hit);
    assert cleared.candidates[0] == t.candidates[0] && cleared.candidates[0] in cleared.candidates;
  }
}
