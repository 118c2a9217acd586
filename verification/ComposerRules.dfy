/** What signals compose to, from the hits, how extended the price is, and what is known of the symbol. */
module ComposerRules {
  import opened Wrappers
  import opened PriceExtension
  import opened Composer

  /** Some hit has this name. */
  predicate Fired(hits: seq<SignalHit>, name: string) {
    exists i | 0 <= i < |hits| :: hits[i].name == name
  }

  /** This is the first hit of the name. */
  predicate IsFirst(hits: seq<SignalHit>, name: string, i: int) {
    0 <= i < |hits| && hits[i].name == name && forall k | 0 <= k < i :: hits[k].name != name
  }

  /** The first hit of this name is above zero. */
  predicate Rises(hits: seq<SignalHit>, name: string) {
    exists i | 0 <= i < |hits| :: IsFirst(hits, name, i) && hits[i].value > 0.0
  }

  /** The first hit of this name is below zero. */
  predicate Falls(hits: seq<SignalHit>, name: string) {
    exists i | 0 <= i < |hits| :: IsFirst(hits, name, i) && hits[i].value < 0.0
  }

  lemma IsFirstLater(hits: seq<SignalHit>, name: string, i: int)
    requires hits != [] && hits[0].name != name && IsFirst(hits[1..], name, i)
    ensures IsFirst(hits, name, i + 1) && hits[i + 1] == hits[1..][i]
  {
    forall k | 0 < k < i + 1 ensures hits[k].name != name { assert hits[1..][k - 1].name != name; }
  }

  lemma {:induction false} FirstIndex(hits: seq<SignalHit>, name: string) returns (i: int)
    requires ValueOf(hits, name).Some?
    ensures IsFirst(hits, name, i) && ValueOf(hits, name) == Some(hits[i].value)
  {
    hide IsFirst;
    if hits[0].name == name {
      i := 0;
      FirstIsFirst(hits);
    } else {
      var k := FirstIndex(hits[1..], name);
      IsFirstLater(hits, name, k);
      i := k + 1;
    }
  }

  lemma FirstIsFirst(hits: seq<SignalHit>)
    requires hits != []
    ensures IsFirst(hits, hits[0].name, 0)
  {
  }

  lemma {:induction false} NoValue(hits: seq<SignalHit>, name: string)
    requires ValueOf(hits, name).None?
    ensures !Fired(hits, name)
  {
    if hits != [] {
      NoValue(hits[1..], name);
      assert forall i | 0 < i < |hits| :: hits[i] == hits[1..][i - 1];
    }
  }

  lemma OneFirst(hits: seq<SignalHit>, name: string, i: int, j: int)
    requires IsFirst(hits, name, i) && IsFirst(hits, name, j)
    ensures i == j
  {
  }

  lemma NoneFirst(hits: seq<SignalHit>, name: string)
    requires !Fired(hits, name)
    ensures forall i :: !IsFirst(hits, name, i)
  {
  }

  lemma FirstFires(hits: seq<SignalHit>, name: string, i: int)
    requires IsFirst(hits, name, i)
    ensures 0 <= i < |hits| && Fired(hits, name)
  {
  }

  lemma SignsAre(hits: seq<SignalHit>, name: string)
    ensures Positive(ValueOf(hits, name)) <==> Rises(hits, name)
    ensures Negative(ValueOf(hits, name)) <==> Falls(hits, name)
    ensures ValueOf(hits, name).Some? <==> Fired(hits, name)
  {
    hide ValueOf, IsFirst, Fired;
    if ValueOf(hits, name).Some? {
      var i := FirstIndex(hits, name);
      FirstFires(hits, name, i);
      forall j | IsFirst(hits, name, j) ensures j == i { OneFirst(hits, name, i, j); }
    } else {
      NoValue(hits, name);
      NoneFirst(hits, name);
    }
  }

  lemma HasIff(hits: seq<SignalHit>, name: string)
    ensures Has(hits, name) <==> Fired(hits, name)
  {
    if Has(hits, name) {
      var h :| h in hits && h.name == name;
      var i :| 0 <= i < |hits| && hits[i] == h;
    }
  }

  // ---------- what the signals amount to ----------

  /** Estimates or news turn down while the price stands at sixty or more. */
  predicate Souring(hits: seq<SignalHit>, extension: Option<Extension>) {
    (Falls(hits, "estimate_revision_velocity") || Falls(hits, "news_sentiment_shift"))
    && extension.Some? && extension.value.raw >= 60.0
  }

  predicate Lifting(hits: seq<SignalHit>) {
    Rises(hits, "estimate_revision_velocity") || Rises(hits, "news_sentiment_shift")
  }

  /** A base breaks out, and the price is not known to stand at sixty-five or more. */
  predicate BreaksOut(hits: seq<SignalHit>, extension: Option<Extension>) {
    Fired(hits, "base_breakout") && (extension.Some? ==> extension.value.raw < 65.0)
  }

  /** Volume meets an extended price: seventy-five or more, or within two percent of its high with a strength of
      seventy or a price twenty percent above its average. */
  predicate RunsHot(hits: seq<SignalHit>, extension: Option<Extension>) {
    Fired(hits, "volume_anomaly") && extension.Some?
    && var e := extension.value;
       e.raw >= 75.0 || (e.pctFromHigh >= -2.0 && (e.rsi14 >= 70.0 || e.pctAboveSma >= 20.0))
  }

  lemma KindIs(hits: seq<SignalHit>, extension: Option<Extension>, ctx: Context)
    requires ctx.actionableThesis.None?
    ensures var kind, rest := KindOf(hits, extension, ctx), !Souring(hits, extension) && !BreaksOut(hits, extension);
            var hot, held := RunsHot(hits, extension), Lifting(hits) || ctx.hasOpenThesis;
            && (kind == PossibleExhaustion <==> Souring(hits, extension))
            && (kind == BreakoutConfirmation <==> !Souring(hits, extension) && BreaksOut(hits, extension))
            && (kind == ConsensusArrival <==> rest && hot && held)
            && (kind == ExtendedMomentum <==> rest && hot && !held)
            && (kind in {EarlyAccumulation, LowQualityNoise} <==> rest && !hot)
  {
    hide ValueOf, Has, Fired, Rises, Falls;
    SignsAre(hits, "volume_anomaly");
    SignsAre(hits, "estimate_revision_velocity");
    SignsAre(hits, "news_sentiment_shift");
    HasIff(hits, "base_breakout");
  }

  lemma TriggerFirst(hits: seq<SignalHit>, extension: Option<Extension>, ctx: Context)
    ensures KindOf(hits, extension, ctx) == ExistingThesisTrigger <==> ctx.actionableThesis.Some?
  {
    hide ValueOf, Has;
  }

  /** Exactly what composed signals are taken for: a trigger when an actionable thesis is there; else exhaustion when
      they turn sour; else a confirmed breakout; else, when volume meets an extended price, consensus if it is held up
      by rising estimates, news or an open thesis and momentum if not; else early accumulation. */
  lemma ComposedKindIff(symbol: string, hits: seq<SignalHit>, extension: Option<Extension>, ctx: Context)
    requires Compose(symbol, hits, extension, ctx).Some?
    ensures var kind, free := Compose(symbol, hits, extension, ctx).value.kind, ctx.actionableThesis.None?;
            var rest := free && !Souring(hits, extension) && !BreaksOut(hits, extension);
            var hot, held := RunsHot(hits, extension), Lifting(hits) || ctx.hasOpenThesis;
            && (kind == ExistingThesisTrigger <==> !free)
            && (kind == PossibleExhaustion <==> free && Souring(hits, extension))
            && (kind == BreakoutConfirmation <==> free && !Souring(hits, extension) && BreaksOut(hits, extension))
            && (kind == ConsensusArrival <==> rest && hot && held)
            && (kind == ExtendedMomentum <==> rest && hot && !held)
            && (kind == EarlyAccumulation <==> rest && !hot)
  {
    hide KindOf, Souring, BreaksOut, RunsHot, Lifting;
    TriggerFirst(hits, extension, ctx);
    if ctx.actionableThesis.None? {
      KindIs(hits, extension, ctx);
    }
  }

  lemma {:induction false} LargestIs(hits: seq<SignalHit>)
    ensures forall h <- hits :: -LargestHit(hits) <= h.value <= LargestHit(hits)
    ensures hits != [] ==> exists h <- hits :: h.value == LargestHit(hits) || h.value == -LargestHit(hits)
  {
    if hits != [] {
      LargestIs(hits[1..]);
      assert forall h :: h in hits <==> h == hits[0] || h in hits[1..];
      assert hits[0] in hits;
      if |hits| == 1 {
        assert LargestHit(hits[1..]) == 0.0;
      }
    }
  }

  /** What else a composed signal carries: the names of its hits in order, the thesis, and as its value how extended the
      price is or, when that is not known, the largest of its hits in size. */
  lemma ComposedCarries(symbol: string, hits: seq<SignalHit>, extension: Option<Extension>, ctx: Context)
    requires Compose(symbol, hits, extension, ctx).Some?
    ensures var c := Compose(symbol, hits, extension, ctx).value;
            && c.symbol == symbol && c.thesisId == ctx.actionableThesis
            && |c.rawSignals| == |hits| && (forall i | 0 <= i < |hits| :: c.rawSignals[i] == hits[i].name)
            && (extension.Some? ==> c.value == extension.value.raw)
            && (extension.None? ==>
                  && (forall h <- hits :: -c.value <= h.value <= c.value)
                  && exists h <- hits :: h.value == c.value || h.value == -c.value)
  {
    hide KindOf, LargestHit;
    LargestIs(hits);
  }

  /** The name each kind is stored under. */
  lemma StoredNames(kind: Kind)
    ensures SignalName(kind) == "early_accumulation" <==> kind == EarlyAccumulation
    ensures SignalName(kind) == "breakout_confirmation" <==> kind == BreakoutConfirmation
    ensures SignalName(kind) == "extended_momentum" <==> kind == ExtendedMomentum
    ensures SignalName(kind) == "consensus_arrival" <==> kind == ConsensusArrival
    ensures SignalName(kind) == "possible_exhaustion" <==> kind == PossibleExhaustion
    ensures SignalName(kind) == "existing_thesis_trigger" <==> kind == ExistingThesisTrigger
  {
    assert |"early_accumulation"| == 18 && |"breakout_confirmation"| == 21 && |"consensus_arrival"| == 17
        && |"extended_momentum"| == 17 && |"possible_exhaustion"| == 19 && |"existing_thesis_trigger"| == 23
        && |"low_quality_noise"| == 17;
    assert "consensus_arrival"[0] == 'c' && "extended_momentum"[0] == 'e' && "low_quality_noise"[0] == 'l';
  }
}
