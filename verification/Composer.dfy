/** What a combination of raw discovery signals is taken to mean, and when it is dropped. */
module Composer {
  import opened Numeric
  import opened Wrappers
  import opened PriceExtension

  datatype SignalHit = SignalHit(name: string, value: real)

  datatype Kind =
    | EarlyAccumulation | BreakoutConfirmation | ExtendedMomentum | ConsensusArrival | PossibleExhaustion
    | ExistingThesisTrigger | LowQualityNoise

  /** What is known of a symbol when it is scanned; the actionable flag is derived from the thesis id. */
  datatype Context = Context(hasOpenThesis: bool, actionableThesis: Option<int>, isActive: bool)

  datatype Composed = Composed(symbol: string, kind: Kind, value: real, rawSignals: seq<string>, thesisId: Option<int>)

  function SignalName(kind: Kind): string {
    match kind
    case EarlyAccumulation => "early_accumulation"
    case BreakoutConfirmation => "breakout_confirmation"
    case ExtendedMomentum => "extended_momentum"
    case ConsensusArrival => "consensus_arrival"
    case PossibleExhaustion => "possible_exhaustion"
    case ExistingThesisTrigger => "existing_thesis_trigger"
    case LowQualityNoise => "low_quality_noise"
  }

  /** The names a stored composed candidate can carry. */
  const COMPOSED_NAMES: seq<string> := [
    "early_accumulation", "breakout_confirmation", "extended_momentum", "consensus_arrival",
    "possible_exhaustion", "existing_thesis_trigger"]

  predicate Has(hits: seq<SignalHit>, name: string) {
    exists h <- hits :: h.name == name
  }

  /** The value of the first hit with this name. */
  function ValueOf(hits: seq<SignalHit>, name: string): Option<real> {
    if hits == [] then None
    else if hits[0].name == name then Some(hits[0].value)
    else ValueOf(hits[1..], name)
  }

  predicate Negative(value: Option<real>) {
    value.Some? && value.value < 0.0
  }

  predicate Positive(value: Option<real>) {
    value.Some? && value.value > 0.0
  }

  function KindOf(hits: seq<SignalHit>, extension: Option<Extension>, ctx: Context): Kind {
    var volume := ValueOf(hits, "volume_anomaly");
    var estimate := ValueOf(hits, "estimate_revision_velocity");
    var sentiment := ValueOf(hits, "news_sentiment_shift");
    var breakout := Has(hits, "base_breakout");
    if ctx.actionableThesis.Some? then ExistingThesisTrigger
    else if (Negative(estimate) || Negative(sentiment)) && extension.Some? && extension.value.raw >= 60.0 then
      PossibleExhaustion
    else if breakout && (extension.None? || extension.value.IsLowOrMid()) then BreakoutConfirmation
    else if volume.Some? && extension.Some? && extension.value.IsHigh() then
      if Positive(estimate) || Positive(sentiment) || ctx.hasOpenThesis then ConsensusArrival else ExtendedMomentum
    else if volume.Some? && extension.Some? && extension.value.IsLowOrMid()
            && (breakout || Positive(estimate) || Positive(sentiment)) then EarlyAccumulation
    else if |hits| == 1 && volume.Some? then LowQualityNoise
    else EarlyAccumulation
  }

  function LargestHit(hits: seq<SignalHit>): real {
    if hits == [] then 0.0 else Max(Abs(hits[0].value), LargestHit(hits[1..]))
  }

  function Names(hits: seq<SignalHit>): seq<string> {
    seq(|hits|, i requires 0 <= i < |hits| => hits[i].name)
  }

  function Compose(symbol: string, hits: seq<SignalHit>, extension: Option<Extension>, ctx: Context): Option<Composed> {
    if hits == [] || (ctx.isActive && ctx.actionableThesis.None?) then None
    else
      var kind := KindOf(hits, extension, ctx);
      if kind == LowQualityNoise then None
      else Some(Composed(symbol, kind, if extension.Some? then extension.value.raw else LargestHit(hits),
                         Names(hits), ctx.actionableThesis))
  }

  lemma SingleHit(hit: SignalHit, name: string)
    ensures ValueOf([hit], name) == if hit.name == name then Some(hit.value) else None
    ensures Has([hit], name) <==> hit.name == name
  {
    assert [hit][0] in [hit];
  }

  /** Exactly when hits compose to nothing: there are none, the ticker is already tracked without an
      actionable thesis, or all there is is one volume spike that is neither extended nor exhausted. */
  lemma DroppedIff(symbol: string, hits: seq<SignalHit>, extension: Option<Extension>, ctx: Context)
    ensures Compose(symbol, hits, extension, ctx).None? <==>
      || hits == []
      || (ctx.actionableThesis.None?
          && (ctx.isActive
              || (|hits| == 1 && hits[0].name == "volume_anomaly"
                  && !(extension.Some? && extension.value.IsHigh()))))
  {
    if |hits| == 1 {
      assert hits == [hits[0]];
      SingleHit(hits[0], "volume_anomaly");
      SingleHit(hits[0], "estimate_revision_velocity");
      SingleHit(hits[0], "news_sentiment_shift");
      assert |"volume_anomaly"| == 14 && |"estimate_revision_velocity"| == 26 && |"news_sentiment_shift"| == 20
          && |"base_breakout"| == 13;
    }
  }

  /** A composed signal for an active ticker is always routed to its actionable thesis. */
  lemma ActiveRoutesToThesis(symbol: string, hits: seq<SignalHit>, extension: Option<Extension>, ctx: Context)
    requires ctx.isActive && Compose(symbol, hits, extension, ctx).Some?
    ensures var c := Compose(symbol, hits, extension, ctx).value;
            c.symbol == symbol && c.kind == ExistingThesisTrigger && c.thesisId.Some?
  {
  }

  /** Stored names are the composed ones, and different kinds have different names. */
  lemma ComposedName(symbol: string, hits: seq<SignalHit>, extension: Option<Extension>, ctx: Context)
    requires Compose(symbol, hits, extension, ctx).Some?
    ensures SignalName(Compose(symbol, hits, extension, ctx).value.kind) in COMPOSED_NAMES
  {
    hide KindOf, SignalName;
    NameIsComposed(Compose(symbol, hits, extension, ctx).value.kind);
  }

  lemma NameIsComposed(kind: Kind)
    requires kind != LowQualityNoise
    ensures SignalName(kind) in COMPOSED_NAMES
  {
    assert COMPOSED_NAMES[0] in COMPOSED_NAMES && COMPOSED_NAMES[1] in COMPOSED_NAMES
        && COMPOSED_NAMES[2] in COMPOSED_NAMES && COMPOSED_NAMES[3] in COMPOSED_NAMES
        && COMPOSED_NAMES[4] in COMPOSED_NAMES && COMPOSED_NAMES[5] in COMPOSED_NAMES;
  }
}
