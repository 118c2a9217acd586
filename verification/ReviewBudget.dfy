/** What trimming the open research nominations to a budget leaves: exactly the best ones. */
module ReviewBudget {
  import opened Sets
  import opened Text
  import opened Lifecycle
  import opened LifecycleSafety

  predicate InTable(t: Tables, s: set<int>) {
    forall i <- s :: 0 <= i < |t.candidates|
  }

  /** No two of these candidates share a symbol, so the review order never ties on them. */
  predicate DistinctSymbols(t: Tables, s: set<int>)
    requires InTable(t, s)
  {
    forall i, j | i in s && j in s && i != j :: t.candidates[i].symbol != t.candidates[j].symbol
  }

  lemma RanksStrict(a: CandidateRow, b: CandidateRow)
    requires a.symbol != b.symbol
    ensures RanksBefore(a, b) <==> !RanksBefore(b, a)
  {
    LessTotal(a.symbol, b.symbol);
  }

  lemma RanksIrreflexive(a: CandidateRow)
    ensures !RanksBefore(a, a)
  {
    LessTotal(a.symbol, a.symbol);
  }

  lemma RanksTransitive(a: CandidateRow, b: CandidateRow, c: CandidateRow)
    requires RanksBefore(a, b) && RanksBefore(b, c)
    ensures RanksBefore(a, c)
  {
    if Less(a.symbol, b.symbol) && Less(b.symbol, c.symbol) {
      LessTransitive(a.symbol, b.symbol, c.symbol);
    }
  }

  function Kept(t: Tables, s: set<int>, keep: nat): set<int>
    requires InTable(t, s)
  {
    set i | i in s && |BetterThan(t, s, i)| < keep
  }

  /** A nonempty selection has a worst member: every other ranks before it. */
  lemma {:induction false} WorstExists(t: Tables, s: set<int>) returns (w: int)
    requires InTable(t, s) && DistinctSymbols(t, s) && s != {}
    ensures w in s && BetterThan(t, s, w) == s - {w}
    decreases |s|
  {
    var x := SomeMember(s);
    RanksIrreflexive(t.candidates[x]);
    if s == {x} {
      w := x;
    } else {
      var rest := s - {x};
      var v := WorstExists(t, rest);
      RanksStrict(t.candidates[v], t.candidates[x]);
      w := if RanksBefore(t.candidates[v], t.candidates[x]) then x else v;
      RanksIrreflexive(t.candidates[w]);
      forall j | j in s && j != w
        ensures RanksBefore(t.candidates[j], t.candidates[w])
      {
        if j != x && j != v {
          assert j in BetterThan(t, rest, v);
          if w == x { RanksTransitive(t.candidates[j], t.candidates[v], t.candidates[x]); }
        }
      }
    }
  }

  /** Without the worst member everyone else keeps their place. */
  lemma RemoveWorst(t: Tables, s: set<int>, w: int, keep: nat)
    requires InTable(t, s) && DistinctSymbols(t, s) && w in s && BetterThan(t, s, w) == s - {w}
    ensures Kept(t, s, keep) == Kept(t, s - {w}, keep) + if |s| <= keep then {w} else {}
  {
    var rest := s - {w};
    assert |rest| == |s| - 1;
    forall i | i in rest
      ensures BetterThan(t, s, i) == BetterThan(t, rest, i)
    {
      assert i in BetterThan(t, s, w);
      RanksStrict(t.candidates[i], t.candidates[w]);
    }
  }

  /** Exactly min(keep, n) of n candidates have fewer than `keep` better ones. */
  lemma {:induction false} KeptCount(t: Tables, s: set<int>, keep: nat)
    requires InTable(t, s) && DistinctSymbols(t, s)
    ensures |Kept(t, s, keep)| == if |s| <= keep then |s| else keep
    decreases |s|
  {
    hide RanksBefore, BetterThan, Kept;
    if s == {} {
      KeptIsSubset(t, s, keep);
    } else {
      var w := WorstExists(t, s);
      var rest := s - {w};
      KeptCount(t, rest, keep);
      RemoveWorst(t, s, w, keep);
      KeptIsSubset(t, rest, keep);
      assert |rest| == |s| - 1;
    }
  }

  lemma KeptIsSubset(t: Tables, s: set<int>, keep: nat)
    requires InTable(t, s)
    ensures Kept(t, s, keep) <= s
  {
  }

  /** One row is reviewed before another: its tier is lower; at equal tiers its value higher; then its fit higher; then
      it was proposed later; then its symbol is smaller. */
  predicate ReviewedFirst(a: CandidateRow, b: CandidateRow) {
    || a.tier < b.tier
    || (a.tier == b.tier && a.value > b.value)
    || (a.tier == b.tier && a.value == b.value && a.fit > b.fit)
    || (a.tier == b.tier && a.value == b.value && a.fit == b.fit && a.proposedAt > b.proposedAt)
    || (a.tier == b.tier && a.value == b.value && a.fit == b.fit && a.proposedAt == b.proposedAt
        && Less(a.symbol, b.symbol))
  }

  lemma RanksByColumns(a: CandidateRow, b: CandidateRow)
    ensures RanksBefore(a, b) <==> ReviewedFirst(a, b)
  {
  }

  /** Every kept candidate is reviewed before every dropped one. */
  lemma KeptRanksFirst(t: Tables, s: set<int>, keep: nat, kept: int, dropped: int)
    requires InTable(t, s) && DistinctSymbols(t, s)
    requires kept in Kept(t, s, keep) && dropped in s - Kept(t, s, keep)
    ensures ReviewedFirst(t.candidates[kept], t.candidates[dropped])
  {
    var a, b := t.candidates[kept], t.candidates[dropped];
    RanksStrict(a, b);
    RanksByColumns(a, b);
    if !RanksBefore(a, b) {
      forall j | j in BetterThan(t, s, dropped)
        ensures j in BetterThan(t, s, kept)
      {
        RanksTransitive(t.candidates[j], b, a);
      }
      SubsetSize(BetterThan(t, s, dropped), BetterThan(t, s, kept));
    }
  }

  lemma SubsetSize(a: set<int>, b: set<int>)
    requires a <= b
    ensures |a| <= |b|
  {
    assert b == a + (b - a);
  }

  lemma NominationsDistinct(t: Tables)
    requires Consistent(t)
    ensures InTable(t, Nominations(t)) && DistinctSymbols(t, Nominations(t))
  {
  }

  /** The symbols' proposed research nominations. */
  function OpenNominations(t: Tables): set<int> {
    set i | 0 <= i < |t.candidates| && t.candidates[i].status == Proposed
            && t.candidates[i].signal == "research_nomination"
  }

  /** Trimming in a consistent state leaves exactly the best min(keep, n) of n proposed nominations: each kept one is
      reviewed before each dropped one, the dropped are superseded and no other candidate changes. */
  lemma TrimKeepsTheBest(t: Tables, keep: int)
    requires Consistent(t)
    ensures var budget := if keep < 0 then 0 else keep;
            var before, next := OpenNominations(t), Apply(t, TrimNominations(keep));
            var after := OpenNominations(next);
            && after <= before
            && |after| == (if |before| <= budget then |before| else budget)
            && (forall kept, dropped | kept in after && dropped in before - after ::
                  ReviewedFirst(t.candidates[kept], t.candidates[dropped]))
            && (forall i | 0 <= i < |t.candidates| ::
                  next.candidates[i] == if i in before - after then t.candidates[i].(status := Superseded)
                                        else t.candidates[i])
  {
    var budget := if keep < 0 then 0 else keep;
    var before, next := Nominations(t), Apply(t, TrimNominations(keep));
    NominationsDistinct(t);
    KeptCount(t, before, budget);
    assert OverBudget(t, budget) == before - Kept(t, before, budget);
    assert Nominations(next) == Kept(t, before, budget);
    assert Nominations(t) == OpenNominations(t) && Nominations(next) == OpenNominations(next);
    forall kept, dropped | kept in Nominations(next) && dropped in before - Nominations(next)
      ensures ReviewedFirst(t.candidates[kept], t.candidates[dropped])
    {
      KeptRanksFirst(t, before, budget, kept, dropped);
    }
  }
}
