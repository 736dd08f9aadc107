/** The openfrag Rating `ofr-1.0.0` (crates/openfrag-domain/src/rating.rs).

    The rating is computed with checked `i64` fractions.  Proved here: whenever it succeeds it
    equals the published real-valued formula, lies in [0, 2] and is rounded half up; it is
    monotone and does not depend on the scale of the metrics; and within an explicit bound on
    the three denominators it cannot overflow. */
module Rating {
  import opened Prelude
  import opened Exact

  // ----- Inputs and results

  datatype ComponentKind = DirectDamage | FragBalance | OpeningDuels | TradeKills | Utility | ClutchConversion

  type UnitInterval = r: Ratio | Canonical(r) && 0 <= r.num <= r.den witness Ratio(0, 1)

  datatype ComponentVector = ComponentVector(
    directDamage: UnitInterval, fragBalance: UnitInterval, openingDuels: UnitInterval,
    tradeKills: UnitInterval, utility: UnitInterval, clutchConversion: UnitInterval)
  {
    function Get(kind: ComponentKind): UnitInterval {
      match kind
      case DirectDamage => directDamage
      case FragBalance => fragBalance
      case OpeningDuels => openingDuels
      case TradeKills => tradeKills
      case Utility => utility
      case ClutchConversion => clutchConversion
    }
  }

  datatype RatingMetrics = RatingMetrics(
    eligibleRounds: u32, directDamage: u32, kills: u32, deaths: u32, openingWins: u32,
    openingLosses: u32, tradeKills: u32, utilityDamage: u32, flashAssists: u32,
    clutchWins: u32, clutchOpportunities: u32)

  datatype MatchIrregularities = MatchIrregularities(
    missedLiveRound: bool, rosterImbalanced: bool, surrender: bool,
    forfeitWithoutCanonicalWinner: bool, overtime: bool)

  datatype EvidenceFailure = MissingRequiredStream | MalformedEvent | ContradictoryAttribution | FailedReconciliation

  datatype RequiredEvidenceKind =
    | EligibleRoundLedger
    | ExcludedRoundLedger
    | ComponentEvidence(kind: ComponentKind)

  /** The receipt identifiers behind the ledgers and each component. */
  datatype RatingEvidenceBundle = RatingEvidenceBundle(
    eligibleRoundLedger: seq<string>, excludedRoundLedger: seq<string>,
    directDamage: seq<string>, fragBalance: seq<string>, openingDuels: seq<string>,
    tradeKills: seq<string>, utility: seq<string>, clutchConversion: seq<string>)
  {
    function Component(kind: ComponentKind): seq<string> {
      match kind
      case DirectDamage => directDamage
      case FragBalance => fragBalance
      case OpeningDuels => openingDuels
      case TradeKills => tradeKills
      case Utility => utility
      case ClutchConversion => clutchConversion
    }

    function FirstMissing(): (r: Option<RequiredEvidenceKind>)
      ensures r.None? <==> Complete()
    {
      assert Component(DirectDamage) == directDamage && Component(FragBalance) == fragBalance;
      assert Component(OpeningDuels) == openingDuels && Component(TradeKills) == tradeKills;
      assert Component(Utility) == utility && Component(ClutchConversion) == clutchConversion;
      if eligibleRoundLedger == [] then Some(EligibleRoundLedger)
      else if excludedRoundLedger == [] then Some(ExcludedRoundLedger)
      else if directDamage == [] then Some(ComponentEvidence(DirectDamage))
      else if fragBalance == [] then Some(ComponentEvidence(FragBalance))
      else if openingDuels == [] then Some(ComponentEvidence(OpeningDuels))
      else if tradeKills == [] then Some(ComponentEvidence(TradeKills))
      else if utility == [] then Some(ComponentEvidence(Utility))
      else if clutchConversion == [] then Some(ComponentEvidence(ClutchConversion))
      else None
    }

    predicate Complete() {
      && eligibleRoundLedger != [] && excludedRoundLedger != []
      && forall kind :: Component(kind) != []
    }
  }

  datatype RatingInput = RatingInput(
    metrics: RatingMetrics, irregularities: MatchIrregularities,
    evidenceFailure: Option<EvidenceFailure>, evidence: RatingEvidenceBundle)

  datatype UnavailableReason =
    | InsufficientEligibleRounds(observed: u32, required: u32)
    | Evidence(failure: EvidenceFailure)
    | MissingRequiredEvidence(kind: RequiredEvidenceKind)
    | ForfeitWithoutCanonicalWinner

  datatype PreviewReason = ShortSample(observed: u32, trendRequired: u32) | MissedLiveRound | Surrender

  datatype TrendExclusionReason = ExcludedPreview | RosterImbalanced | ExcludedUnavailable

  datatype RatingStatus = Unavailable(reason: UnavailableReason) | Preview(reasons: seq<PreviewReason>) | Rated

  datatype ComponentReceipt = ComponentReceipt(
    kind: ComponentKind, exactNumerator: i64, exactDenominator: i64, weight: Rational, evidenceIds: seq<string>)

  /** A computed rating. */
  datatype Score = Score(
    components: ComponentVector, receipts: seq<ComponentReceipt>, exact: Rational, basisPoints: nat)

  datatype RatingReceipt = RatingReceipt(
    inputs: RatingInput, status: RatingStatus, trendExclusions: seq<TrendExclusionReason>, score: Option<Score>)
  {
    predicate TrendEligible() {
      status.Rated? && trendExclusions == []
    }
  }

  datatype RatingInputError = ClutchWinsExceedOpportunities | ExactFailure(error: ExactError)

  const MAX_BASIS_POINTS := 20_000

  // ----- The calculation

  function UnitNew(value: Rational): Result<UnitInterval, ExactError> {
    if RatLe(ZERO, value) && RatLe(value, ONE) then Ok(value) else Err(OutsideUnitInterval)
  }

  function UnitClamped(value: Rational): (r: UnitInterval)
    ensures Value(r) == ClampReal(Value(value), 0.0, 1.0)
  {
    ClampValue(value, ZERO, ONE);
    UnitIffBetween(Clamp(value, ZERO, ONE));
    Clamp(value, ZERO, ONE)
  }

  lemma UnitIffBetween(value: Rational)
    ensures 0 <= value.num <= value.den <==> 0.0 <= Value(value) <= 1.0
    ensures 0 <= value.num <= value.den <==> RatLe(ZERO, value) && RatLe(value, ONE)
  {
    CmpIsValueOrder(ZERO, value);
    CmpIsValueOrder(value, ONE);
  }

  function ClampedRatio(num: i64, den: i64): Result<UnitInterval, ExactError> {
    var value :- New(num, den);
    Ok(UnitClamped(value))
  }

  /** A share of opportunities, neutral when there were none. */
  function ShareOf(wins: u32, total: i64): Result<UnitInterval, ExactError> {
    if total == 0 then UnitNew(HALF)
    else
      var value :- New(wins, total);
      UnitNew(value)
  }

  function FragBalanceOf(kills: u32, deaths: u32, rounds: u32): Result<UnitInterval, ExactError> {
    var delta :- New(kills - deaths, 2 * rounds);
    var value :- CheckedAdd(HALF, delta);
    Ok(UnitClamped(value))
  }

  /** `value * num / den`. */
  function Weighted(value: Rational, num: i64, den: i64): Result<Rational, ExactError> {
    var weight :- New(num, den);
    CheckedMul(value, weight)
  }

  function UtilityOf(damage: u32, flashes: u32, rounds: u32): Result<UnitInterval, ExactError> {
    var utilityDamage :- ClampedRatio(damage, 30 * rounds);
    var flashAssists :- ClampedRatio(2 * flashes, rounds);
    var a :- Weighted(utilityDamage, 7, 10);
    var b :- Weighted(flashAssists, 3, 10);
    var value :- CheckedAdd(a, b);
    UnitNew(value)
  }

  function ComponentsOf(m: RatingMetrics): Result<ComponentVector, ExactError> {
    var rounds := m.eligibleRounds;
    var directDamage :- ClampedRatio(m.directDamage, 160 * rounds);
    var fragBalance :- FragBalanceOf(m.kills, m.deaths, rounds);
    var openingDuels :- ShareOf(m.openingWins, m.openingWins + m.openingLosses);
    var tradeKills :- ClampedRatio(2 * m.tradeKills, rounds);
    var utility :- UtilityOf(m.utilityDamage, m.flashAssists, rounds);
    var clutchConversion :- ShareOf(m.clutchWins, m.clutchOpportunities);
    Ok(ComponentVector(directDamage, fragBalance, openingDuels, tradeKills, utility, clutchConversion))
  }

  function WeightedRating(c: ComponentVector): Result<Rational, ExactError> {
    var t1 :- Weighted(c.directDamage, 3, 10);
    var t2 :- Weighted(c.fragBalance, 3, 10);
    var s2 :- CheckedAdd(t1, t2);
    var t3 :- Weighted(c.openingDuels, 3, 20);
    var s3 :- CheckedAdd(s2, t3);
    var t4 :- Weighted(c.tradeKills, 1, 10);
    var s4 :- CheckedAdd(s3, t4);
    var t5 :- Weighted(c.utility, 1, 10);
    var s5 :- CheckedAdd(s4, t5);
    var t6 :- Weighted(c.clutchConversion, 1, 20);
    var s6 :- CheckedAdd(s5, t6);
    CheckedMul(s6, FromInteger(2))
  }

  function ReceiptOf(c: ComponentVector, e: RatingEvidenceBundle, kind: ComponentKind, weight: Rational): ComponentReceipt {
    ComponentReceipt(kind, c.Get(kind).num, c.Get(kind).den, weight, e.Component(kind))
  }

  function ReceiptsOf(c: ComponentVector, e: RatingEvidenceBundle): Result<seq<ComponentReceipt>, ExactError> {
    var w30 :- New(3, 10);
    var w15 :- New(3, 20);
    var w10 :- New(1, 10);
    var w5 :- New(1, 20);
    Ok([ReceiptOf(c, e, DirectDamage, w30), ReceiptOf(c, e, FragBalance, w30), ReceiptOf(c, e, OpeningDuels, w15),
        ReceiptOf(c, e, TradeKills, w10), ReceiptOf(c, e, Utility, w10), ReceiptOf(c, e, ClutchConversion, w5)])
  }

  function BasisPoints(exact: Rational): Result<nat, ExactError> {
    var scaled :- CheckedMul(exact, FromInteger(10_000));
    var rounded :- RoundHalfUpNonnegative(scaled);
    if 0 <= rounded <= 0xFFFF && rounded <= MAX_BASIS_POINTS then Ok(rounded) else Err(OutsideRatingRange)
  }

  function ScoreOf(m: RatingMetrics, e: RatingEvidenceBundle): Result<Score, ExactError> {
    var components :- ComponentsOf(m);
    var receipts :- ReceiptsOf(components, e);
    var exact :- WeightedRating(components);
    var bp :- BasisPoints(exact);
    Ok(Score(components, receipts, exact, bp))
  }

  function UnavailableFor(input: RatingInput): Option<UnavailableReason> {
    if input.evidence.FirstMissing().Some? then
      Some(MissingRequiredEvidence(input.evidence.FirstMissing().value))
    else if input.evidenceFailure.Some? then Some(Evidence(input.evidenceFailure.value))
    else if input.irregularities.forfeitWithoutCanonicalWinner then Some(ForfeitWithoutCanonicalWinner)
    else if input.metrics.eligibleRounds < 8 then
      Some(InsufficientEligibleRounds(input.metrics.eligibleRounds, 8))
    else None
  }

  function PreviewReasons(input: RatingInput): seq<PreviewReason> {
    (if input.metrics.eligibleRounds < 12 then [ShortSample(input.metrics.eligibleRounds, 12)] else []) +
    (if input.irregularities.missedLiveRound then [MissedLiveRound] else []) +
    (if input.irregularities.surrender then [Surrender] else [])
  }

  function CalculateRating(input: RatingInput): Result<RatingReceipt, RatingInputError> {
    if input.metrics.clutchWins > input.metrics.clutchOpportunities then Err(ClutchWinsExceedOpportunities)
    else
      var unavailable := UnavailableFor(input);
      if unavailable.Some? then
        Ok(RatingReceipt(input, Unavailable(unavailable.value), [ExcludedUnavailable], None))
      else
        match ScoreOf(input.metrics, input.evidence)
        case Err(e) => Err(ExactFailure(e))
        case Ok(score) =>
          var reasons := PreviewReasons(input);
          var status := if reasons == [] then Rated else Preview(reasons);
          var exclusions :=
            (if status.Preview? then [ExcludedPreview] else []) +
            (if input.irregularities.rosterImbalanced then [RosterImbalanced] else []);
          Ok(RatingReceipt(input, status, exclusions, Some(score)))
  }

  // ----- The published formula, over the reals

  function ShareReal(wins: nat, total: nat): real {
    if total == 0 then 0.5 else RatioReal(wins, total)
  }

  function UtilityReal(damage: nat, flashes: nat, rounds: nat): real
    requires rounds > 0
  {
    0.7 * ClampReal(RatioReal(damage, 30 * rounds), 0.0, 1.0) +
    0.3 * ClampReal(RatioReal(2 * flashes, rounds), 0.0, 1.0)
  }

  function FragReal(kills: nat, deaths: nat, rounds: nat): real
    requires rounds > 0
  {
    ClampReal(0.5 + RatioReal(kills - deaths, 2 * rounds), 0.0, 1.0)
  }

  function RatingReal(m: RatingMetrics): real
    requires m.eligibleRounds > 0
  {
    2.0 * (0.3 * ClampReal(RatioReal(m.directDamage, 160 * m.eligibleRounds), 0.0, 1.0) +
           0.3 * FragReal(m.kills, m.deaths, m.eligibleRounds) +
           0.15 * ShareReal(m.openingWins, m.openingWins + m.openingLosses) +
           0.1 * ClampReal(RatioReal(2 * m.tradeKills, m.eligibleRounds), 0.0, 1.0) +
           0.1 * UtilityReal(m.utilityDamage, m.flashAssists, m.eligibleRounds) +
           0.05 * ShareReal(m.clutchWins, m.clutchOpportunities))
  }

  // ----- Soundness: a successful rating is the published formula

  lemma ClampedRatioValue(num: i64, den: i64)
    requires den != 0
    ensures ClampedRatio(num, den).Ok? ==>
            Value(ClampedRatio(num, den).value) == ClampReal(RatioReal(num, den), 0.0, 1.0)
  {
    NewValue(num, den);
  }

  lemma WeightedValue(value: Rational, num: i64, den: i64)
    requires den != 0
    ensures Weighted(value, num, den).Ok? ==>
            Value(Weighted(value, num, den).value) == Value(value) * RatioReal(num, den)
  {
    hide Value;
    hide RatioReal;
    hide New;
    hide CheckedMul;
    NewValue(num, den);
    if New(num, den).Ok? {
      MulIsExact(value, New(num, den).value);
    }
  }

  lemma ShareValue(wins: u32, total: i64)
    requires total >= 0
    ensures ShareOf(wins, total).Ok? ==> Value(ShareOf(wins, total).value) == ShareReal(wins, total)
  {
    if total != 0 {
      NewValue(wins, total);
    }
  }

  lemma FragValue(kills: u32, deaths: u32, rounds: u32)
    requires rounds > 0
    ensures FragBalanceOf(kills, deaths, rounds).Ok? ==>
            Value(FragBalanceOf(kills, deaths, rounds).value) == FragReal(kills, deaths, rounds)
  {
    NewValue(kills - deaths, 2 * rounds);
    if New(kills - deaths, 2 * rounds).Ok? {
      SumValue(HALF, New(kills - deaths, 2 * rounds).value);
    }
  }

  lemma UtilityValue(damage: u32, flashes: u32, rounds: u32)
    requires rounds > 0
    ensures UtilityOf(damage, flashes, rounds).Ok? ==>
            Value(UtilityOf(damage, flashes, rounds).value) == UtilityReal(damage, flashes, rounds)
  {
    Weights();
    hide Weighted;
    hide CheckedAdd;
    hide Value;
    hide RatioReal;
    hide ClampedRatio;
    hide ClampReal;
    var r := UtilityOf(damage, flashes, rounds);
    if r.Ok? {
      ClampedRatioValue(damage, 30 * rounds);
      ClampedRatioValue(2 * flashes, rounds);
      var d, f := ClampedRatio(damage, 30 * rounds).value, ClampedRatio(2 * flashes, rounds).value;
      WeightedValue(d, 7, 10);
      WeightedValue(f, 3, 10);
      SumValue(Weighted(d, 7, 10).value, Weighted(f, 3, 10).value);
    }
  }

  /** The real-valued weighted sum of six components. */
  function CombineReal(d: real, f: real, o: real, t: real, u: real, c: real): real {
    2.0 * (0.3 * d + 0.3 * f + 0.15 * o + 0.1 * t + 0.1 * u + 0.05 * c)
  }

  function WeightedReal(c: ComponentVector): real {
    CombineReal(Value(c.directDamage), Value(c.fragBalance), Value(c.openingDuels),
                Value(c.tradeKills), Value(c.utility), Value(c.clutchConversion))
  }

  lemma Weights()
    ensures RatioReal(3, 10) == 0.3 && RatioReal(3, 20) == 0.15 && RatioReal(1, 10) == 0.1
    ensures RatioReal(1, 20) == 0.05 && RatioReal(7, 10) == 0.7
  {
  }

  lemma WeightedRatingValue(c: ComponentVector)
    ensures WeightedRating(c).Ok? ==> Value(WeightedRating(c).value) == WeightedReal(c)
  {
    Weights();
    hide Weighted;
    hide CheckedAdd;
    hide CheckedMul;
    hide Value;
    hide RatioReal;
    var r := WeightedRating(c);
    if r.Ok? {
      var t1, t2 := Weighted(c.directDamage, 3, 10).value, Weighted(c.fragBalance, 3, 10).value;
      var t3, t4 := Weighted(c.openingDuels, 3, 20).value, Weighted(c.tradeKills, 1, 10).value;
      var t5, t6 := Weighted(c.utility, 1, 10).value, Weighted(c.clutchConversion, 1, 20).value;
      WeightedValue(c.directDamage, 3, 10);
      WeightedValue(c.fragBalance, 3, 10);
      WeightedValue(c.openingDuels, 3, 20);
      WeightedValue(c.tradeKills, 1, 10);
      WeightedValue(c.utility, 1, 10);
      WeightedValue(c.clutchConversion, 1, 20);
      var s2 := CheckedAdd(t1, t2).value;
      var s3 := CheckedAdd(s2, t3).value;
      var s4 := CheckedAdd(s3, t4).value;
      var s5 := CheckedAdd(s4, t5).value;
      var s6 := CheckedAdd(s5, t6).value;
      SumValue(t1, t2);
      SumValue(s2, t3);
      SumValue(s3, t4);
      SumValue(s4, t5);
      SumValue(s5, t6);
      MulIsExact(s6, FromInteger(2));
      assert Value(FromInteger(2)) == 2.0;
    }
  }

  lemma ComponentsValue(m: RatingMetrics)
    requires m.eligibleRounds > 0 && ComponentsOf(m).Ok?
    ensures WeightedReal(ComponentsOf(m).value) == RatingReal(m)
  {
    hide ComponentsOf;
    hide Value;
    hide RatioReal;
    hide ClampReal;
    hide ShareReal;
    hide FragReal;
    hide UtilityReal;
    OwnValues(m);
  }

  /** Every score is exact: the rating is the published formula, in [0, 2], and the basis points
      are its half-up rounding. */
  lemma ScoreIsFormula(m: RatingMetrics, e: RatingEvidenceBundle)
    requires m.eligibleRounds > 0 && ScoreOf(m, e).Ok?
    ensures var s := ScoreOf(m, e).value;
      && Value(s.exact) == RatingReal(m)
      && 0.0 <= Value(s.exact) <= 2.0
      && s.basisPoints as real - 0.5 <= 10000.0 * RatingReal(m) < s.basisPoints as real + 0.5
      && s.basisPoints <= MAX_BASIS_POINTS
  {
    var c := ComponentsOf(m).value;
    ComponentsValue(m);
    WeightedRatingValue(c);
    WeightedRange(c);
    BasisPointsRound(WeightedRating(c).value);
  }

  lemma WeightedRange(c: ComponentVector)
    ensures 0.0 <= WeightedReal(c) <= 2.0
  {
    UnitIffBetween(c.directDamage);
    UnitIffBetween(c.fragBalance);
    UnitIffBetween(c.openingDuels);
    UnitIffBetween(c.tradeKills);
    UnitIffBetween(c.utility);
    UnitIffBetween(c.clutchConversion);
    hide Value;
  }

  lemma BasisPointsRound(exact: Rational)
    ensures BasisPoints(exact).Ok? ==>
      && BasisPoints(exact).value <= MAX_BASIS_POINTS
      && BasisPoints(exact).value as real - 0.5 <= 10000.0 * Value(exact) < BasisPoints(exact).value as real + 0.5
  {
    MulIsExact(exact, FromInteger(10_000));
    assert Value(FromInteger(10_000)) == 10000.0;
    var scaled := CheckedMul(exact, FromInteger(10_000));
    if scaled.Ok? {
      RoundsHalfUp(scaled.value);
    }
  }

  /** Two scores of equal real value are the same rational and the same basis points. */
  lemma EqualFormulaEqualScore(m: RatingMetrics, e: RatingEvidenceBundle, m': RatingMetrics, e': RatingEvidenceBundle)
    requires m.eligibleRounds > 0 && m'.eligibleRounds > 0
    requires ScoreOf(m, e).Ok? && ScoreOf(m', e').Ok?
    requires RatingReal(m) == RatingReal(m')
    ensures ScoreOf(m, e).value.exact == ScoreOf(m', e').value.exact
    ensures ScoreOf(m, e).value.basisPoints == ScoreOf(m', e').value.basisPoints
  {
    ScoreIsFormula(m, e);
    ScoreIsFormula(m', e');
    ValueUnique(ScoreOf(m, e).value.exact, ScoreOf(m', e').value.exact);
  }

  // ----- Scale invariance

  ghost predicate ScaledBy(m: RatingMetrics, m': RatingMetrics, k: nat) {
    && m'.eligibleRounds == k * m.eligibleRounds && m'.directDamage == k * m.directDamage
    && m'.kills == k * m.kills && m'.deaths == k * m.deaths
    && m'.openingWins == k * m.openingWins && m'.openingLosses == k * m.openingLosses
    && m'.tradeKills == k * m.tradeKills && m'.utilityDamage == k * m.utilityDamage
    && m'.flashAssists == k * m.flashAssists
    && m'.clutchWins == k * m.clutchWins && m'.clutchOpportunities == k * m.clutchOpportunities
  }

  lemma PieceScale(k: nat, p: nat, a: int, a': int, q: nat, b: nat, b': nat)
    requires k > 0 && q > 0 && b > 0 && a' == k * a && b' == k * b
    ensures b' > 0 && RatioReal(p * a', q * b') == RatioReal(p * a, q * b)
  {
    MulSign(b, k);
    Commute(k, p, a);
    Commute(k, q, b);
    RatioScale(k, p * a, q * b);
  }

  lemma ShareScale(k: nat, wins: nat, wins': nat, total: nat, total': nat)
    requires k > 0 && wins' == k * wins && total' == k * total
    ensures ShareReal(wins', total') == ShareReal(wins, total)
  {
    if total != 0 {
      RatioScale(k, wins, total);
    }
  }

  lemma Commute(k: int, c: int, x: int)
    ensures c * (k * x) == k * (c * x)
  {
  }

  /** Repeating a match `k` times leaves the rating unchanged. */
  lemma RatingScaleInvariant(m: RatingMetrics, e: RatingEvidenceBundle, m': RatingMetrics, e': RatingEvidenceBundle, k: nat)
    requires k > 0 && m.eligibleRounds > 0 && m'.eligibleRounds > 0 && ScaledBy(m, m', k)
    requires ScoreOf(m, e).Ok? && ScoreOf(m', e').Ok?
    ensures ScoreOf(m, e).value.exact == ScoreOf(m', e').value.exact
    ensures ScoreOf(m, e).value.basisPoints == ScoreOf(m', e').value.basisPoints
  {
    FormulaScaleInvariant(m, m', k);
    EqualFormulaEqualScore(m, e, m', e');
  }

  lemma FormulaScaleInvariant(m: RatingMetrics, m': RatingMetrics, k: nat)
    requires k > 0 && m.eligibleRounds > 0 && m'.eligibleRounds > 0 && ScaledBy(m, m', k)
    ensures RatingReal(m) == RatingReal(m')
  {
    hide RatioReal;
    hide ClampReal;
    hide ShareReal;
    var r, r' := m.eligibleRounds, m'.eligibleRounds;
    PieceScale(k, 1, m.directDamage, m'.directDamage, 160, r, r');
    assert m'.kills - m'.deaths == k * (m.kills - m.deaths) by { MulSub(k, m.kills, m.deaths); }
    PieceScale(k, 1, m.kills - m.deaths, m'.kills - m'.deaths, 2, r, r');
    MulDistribute(m.openingWins, m.openingLosses, k);
    ShareScale(k, m.openingWins, m'.openingWins,
               m.openingWins + m.openingLosses, m'.openingWins + m'.openingLosses);
    PieceScale(k, 2, m.tradeKills, m'.tradeKills, 1, r, r');
    PieceScale(k, 1, m.utilityDamage, m'.utilityDamage, 30, r, r');
    PieceScale(k, 2, m.flashAssists, m'.flashAssists, 1, r, r');
    ShareScale(k, m.clutchWins, m'.clutchWins, m.clutchOpportunities, m'.clutchOpportunities);
  }

  // ----- Monotonicity

  /** `m'` is at least as good as `m` over the same rounds and clutch opportunities. */
  ghost predicate AtLeastAsGood(m: RatingMetrics, m': RatingMetrics) {
    && m'.eligibleRounds == m.eligibleRounds && m'.clutchOpportunities == m.clutchOpportunities
    && m'.directDamage >= m.directDamage && m'.kills >= m.kills && m'.deaths <= m.deaths
    && m'.openingWins >= m.openingWins && m'.openingLosses <= m.openingLosses
    && m'.tradeKills >= m.tradeKills && m'.utilityDamage >= m.utilityDamage
    && m'.flashAssists >= m.flashAssists && m'.clutchWins >= m.clutchWins
  }

  lemma RatioMonotone(a: int, a': int, b: int)
    requires b > 0 && a <= a'
    ensures RatioReal(a, b) <= RatioReal(a', b)
  {
    CrossCompare(a as real, b as real, a' as real, b as real);
    assert a as real * b as real <= a' as real * b as real;
  }

  lemma ShareMonotone(w: nat, l: nat, w': nat, l': nat)
    requires w <= w' && l' <= l
    ensures ShareReal(w, w + l) <= ShareReal(w', w' + l')
  {
    if w + l != 0 && w' + l' != 0 {
      MulMonotone(w, w', l');
      MulMonotone(l', l, w);
      MulDistribute(w', l', w);
      MulDistribute(w, l, w');
      MulMonotone(l', l, w');
      MulMonotone(w, w', l);
      assert w * (w' + l') <= w' * (w + l);
      RealProduct(w, w' + l');
      RealProduct(w', w + l);
      CrossCompare(w as real, (w + l) as real, w' as real, (w' + l') as real);
    } else if w + l != 0 {
      assert w == 0;
    } else if w' + l' != 0 {
      assert l' == 0;
      QuotientIs(w' as real, w' as real, 1.0);
    }
  }

  lemma ClampMonotone(x: real, y: real)
    requires x <= y
    ensures ClampReal(x, 0.0, 1.0) <= ClampReal(y, 0.0, 1.0)
  {
  }

  lemma FormulaMonotone(m: RatingMetrics, m': RatingMetrics)
    requires m.eligibleRounds > 0 && AtLeastAsGood(m, m')
    requires m'.clutchWins <= m'.clutchOpportunities
    ensures RatingReal(m) <= RatingReal(m')
  {
    hide RatioReal;
    hide ClampReal;
    hide ShareReal;
    var r: int := m.eligibleRounds;
    RatioMonotone(m.directDamage, m'.directDamage, 160 * r);
    RatioMonotone(m.kills - m.deaths, m'.kills - m'.deaths, 2 * r);
    ShareMonotone(m.openingWins, m.openingLosses, m'.openingWins, m'.openingLosses);
    RatioMonotone(2 * m.tradeKills, 2 * m'.tradeKills, r);
    RatioMonotone(m.utilityDamage, m'.utilityDamage, 30 * r);
    RatioMonotone(2 * m.flashAssists, 2 * m'.flashAssists, r);
    ShareMonotone(m.clutchWins, m.clutchOpportunities - m.clutchWins,
                  m'.clutchWins, m'.clutchOpportunities - m'.clutchWins);
    ClampMonotone(RatioReal(m.directDamage, 160 * r), RatioReal(m'.directDamage, 160 * r));
    ClampMonotone(0.5 + RatioReal(m.kills - m.deaths, 2 * r), 0.5 + RatioReal(m'.kills - m'.deaths, 2 * r));
    ClampMonotone(RatioReal(2 * m.tradeKills, r), RatioReal(2 * m'.tradeKills, r));
    ClampMonotone(RatioReal(m.utilityDamage, 30 * r), RatioReal(m'.utilityDamage, 30 * r));
    ClampMonotone(RatioReal(2 * m.flashAssists, r), RatioReal(2 * m'.flashAssists, r));
  }

  /** More damage, kills, opening wins, trades, utility, flash assists or clutch wins, and fewer
      deaths or opening losses, never lower the basis points. */
  lemma RatingMonotone(m: RatingMetrics, e: RatingEvidenceBundle, m': RatingMetrics, e': RatingEvidenceBundle)
    requires m.eligibleRounds > 0 && AtLeastAsGood(m, m') && m'.clutchWins <= m'.clutchOpportunities
    requires ScoreOf(m, e).Ok? && ScoreOf(m', e').Ok?
    ensures Value(ScoreOf(m, e).value.exact) <= Value(ScoreOf(m', e').value.exact)
    ensures ScoreOf(m, e).value.basisPoints <= ScoreOf(m', e').value.basisPoints
  {
    FormulaMonotone(m, m');
    ScoreIsFormula(m, e);
    ScoreIsFormula(m', e');
  }

  // ----- No overflow

  lemma OverClamp(x: real, den: int)
    requires Over(x, den)
    ensures Over(ClampReal(x, 0.0, 1.0), den)
  {
    assert 0.0 == RatioReal(0, den);
    QuotientIs(den as real, den as real, 1.0);
    assert 1.0 == RatioReal(den, den);
  }

  lemma OverShare(wins: nat, total: nat)
    ensures Over(ShareReal(wins, total), ShareDen(total))
  {
    assert 0.5 == RatioReal(1, 2);
  }

  /** The denominator a share contributes: 2 for the neutral half. */
  function ShareDen(total: nat): nat {
    if total == 0 then 2 else total
  }

  /** The product of the three denominators of a rating. */
  function RatingDen(m: RatingMetrics): nat {
    m.eligibleRounds * (ShareDen(m.openingWins + m.openingLosses) * ShareDen(m.clutchOpportunities))
  }

  /** The bound under which no step overflows: the scaled rating is a fraction of at most 20000
      over 24000 times the three denominators. */
  predicate WithinBound(m: RatingMetrics) {
    24_000 * RatingDen(m) * MAX_BASIS_POINTS <= I64_MAX
  }

  lemma WeightFits(num: i64, den: i64)
    requires 0 < num < den
    ensures New(num, den).Ok? && Value(New(num, den).value) == RatioReal(num, den)
  {
    FractionRepresentable(num, den);
    NewValue(num, den);
  }

  lemma ClampedFits(num: i64, den: i64)
    requires 0 <= num && 0 < den
    ensures ClampedRatio(num, den).Ok? && Over(Value(ClampedRatio(num, den).value), den)
  {
    FractionRepresentable(num, den);
    NewValue(num, den);
    OverClamp(RatioReal(num, den), den);
  }

  lemma ShareFits(wins: u32, total: i64)
    requires wins <= total
    ensures ShareOf(wins, total).Ok? && Over(Value(ShareOf(wins, total).value), ShareDen(total))
  {
    OverShare(wins, total);
    if total == 0 {
      UnitIffBetween(HALF);
    } else {
      FractionRepresentable(wins, total);
      NewValue(wins, total);
      CrossCompare(0.0, 1.0, wins as real, total as real);
      CrossCompare(wins as real, total as real, 1.0, 1.0);
      UnitIffBetween(New(wins, total).value);
    }
  }

  lemma FragFits(kills: u32, deaths: u32, rounds: u32)
    requires rounds > 0
    ensures FragBalanceOf(kills, deaths, rounds).Ok?
    ensures Over(Value(FragBalanceOf(kills, deaths, rounds).value), 2 * rounds)
  {
    var den: int := 2 * rounds as int;
    var delta: int := kills as int - deaths as int;
    HalfPlus(delta, rounds);
    FractionRepresentable(delta, den);
    NewValue(delta, den);
    FractionRepresentable(rounds + delta, den);
    hide RatioReal;
    AddIsExact(HALF, New(delta, den).value);
    assert Value(HALF) == 0.5;
    assert Over(0.5 + RatioReal(delta, den), den);
    OverClamp(0.5 + RatioReal(delta, den), den);
  }

  lemma HalfPlus(delta: int, rounds: int)
    requires rounds > 0
    ensures 0.5 + RatioReal(delta, 2 * rounds) == RatioReal(rounds + delta, 2 * rounds)
  {
    var d := (2 * rounds) as real;
    var q := RatioReal(delta, 2 * rounds);
    assert delta as real == q * d;
    assert (0.5 + q) * d == (rounds + delta) as real;
    QuotientIs((rounds + delta) as real, d, 0.5 + q);
  }

  lemma WeightedProduct(c: UnitInterval, a: int, num: i64, den: i64)
    requires Over(Value(c), a) && 0 < num < den && den * a <= I64_MAX
    ensures TermFits(Weighted(c, num, den), den * a, RatioReal(num, den))
  {
    hide RatioReal;
    hide Value;
    hide New;
    hide Over;
    UnitIffBetween(c);
    ProperRatio(num, den);
    WeightFits(num, den);
    var w := New(num, den).value;
    TermOver(c, w, a, num, den);
    ProductFits(c, w, Value(c) * Value(w), den * a);
  }

  /** The product of a unit value and a weight: between zero and the weight, over `den * a`. */
  lemma TermOver(c: Rational, w: Rational, a: int, num: int, den: int)
    requires Over(Value(c), a) && den > 0 && Value(w) == RatioReal(num, den)
    requires 0.0 <= Value(c) <= 1.0 && 0.0 <= Value(w) <= 1.0
    ensures Over(Value(c) * Value(w), den * a)
    ensures 0.0 <= Value(c) * Value(w) <= Value(w)
  {
    var x, y := Value(c), Value(w);
    ProductOver(x, y, a, num, den);
  }

  lemma ProductOver(x: real, y: real, a: int, num: int, den: int)
    requires Over(x, a) && den > 0 && y == RatioReal(num, den) && 0.0 <= x <= 1.0 && 0.0 <= y <= 1.0
    ensures Over(x * y, den * a) && 0.0 <= x * y <= y
  {
    UnitProduct(x, y);
    OverMul(x, a, num, den);
  }

  lemma ProperRatio(num: int, den: int)
    requires 0 <= num <= den && 0 < den
    ensures 0.0 <= RatioReal(num, den) <= 1.0
  {
    CrossCompare(0.0, 1.0, num as real, den as real);
    CrossCompare(num as real, den as real, 1.0, 1.0);
  }

  lemma ProductFits(a: Rational, w: Rational, x: real, den: int)
    requires x == Value(a) * Value(w) && Over(x, den) && den <= I64_MAX
    requires 0.0 <= x <= Value(w) <= 1.0
    ensures TermFits(CheckedMul(a, w), den, Value(w))
  {
    MulIsExact(a, w);
    hide CheckedMul;
    hide Over;
    hide Value;
    ExactlyFits(CheckedMul(a, w), x, den, Value(w));
  }

  lemma ExactlyFits(r: Result<Rational, ExactError>, x: real, den: int, most: real)
    requires IsExactly(r, x) && Over(x, den) && den <= I64_MAX
    requires 0.0 <= x <= most <= 1.0
    ensures TermFits(r, den, most)
  {
    OverFits(x, den, 1);
    hide Over;
    hide Value;
  }

  /** A weighted component stays a fraction over `k * (den * a)`, for any `k`. */
  lemma WeightedFits(c: UnitInterval, a: int, num: i64, den: i64, k: int)
    requires Over(Value(c), a) && 0 < num < den && k > 0
    requires k * (den * a) <= I64_MAX
    ensures TermFits(Weighted(c, num, den), k * (den * a), RatioReal(num, den))
  {
    MulSign(den, a);
    MulMonotone(1, k, den * a);
    WeightedProduct(c, a, num, den);
    hide RatioReal;
    hide Value;
    hide Weighted;
    OverWiden(Value(Weighted(c, num, den).value), den * a, k);
  }

  lemma UnitProduct(x: real, y: real)
    requires 0.0 <= x <= 1.0 && 0.0 <= y <= 1.0
    ensures 0.0 <= x * y <= y
  {
  }

  lemma SumFits(a: Rational, b: Rational, den: int)
    requires Over(Value(a), den) && Over(Value(b), den) && den <= I64_MAX
    requires 0.0 <= Value(a) + Value(b) <= 1.0
    ensures CheckedAdd(a, b).Ok? && Over(Value(CheckedAdd(a, b).value), den)
    ensures Value(CheckedAdd(a, b).value) == Value(a) + Value(b)
  {
    OverAdd(Value(a), Value(b), den);
    OverFits(Value(a) + Value(b), den, 1);
    AddIsExact(a, b);
  }

  lemma UtilityFits(damage: u32, flashes: u32, rounds: u32)
    requires rounds > 0
    ensures UtilityOf(damage, flashes, rounds).Ok?
    ensures Over(Value(UtilityOf(damage, flashes, rounds).value), 300 * rounds)
  {
    var r: int := rounds;
    ClampedFits(damage, 30 * r);
    ClampedFits(2 * flashes, r);
    Weights();
    var d, f := ClampedRatio(damage, 30 * r).value, ClampedRatio(2 * flashes, r).value;
    WeightedFits(d, 30 * r, 7, 10, 1);
    WeightedFits(f, r, 3, 10, 30);
    SumOfTwoFits(Weighted(d, 7, 10), Weighted(f, 3, 10), 300 * r, 0.7, 0.3);
    hide Weighted;
    hide ClampedRatio;
    hide CheckedAdd;
    UnitIffBetween(CheckedAdd(Weighted(d, 7, 10).value, Weighted(f, 3, 10).value).value);
  }

  lemma SumOfTwoFits(a: Result<Rational, ExactError>, b: Result<Rational, ExactError>, den: int, x: real, y: real)
    requires TermFits(a, den, x) && TermFits(b, den, y) && x + y <= 1.0 && den <= I64_MAX
    ensures TermFits(CheckedAdd(a.value, b.value), den, x + y)
  {
    SumFits(a.value, b.value, den);
  }

  /** The denominators over which the components of `c` are fractions. */
  ghost predicate ComponentsOver(c: ComponentVector, rounds: int, opening: int, clutch: int) {
    && Over(Value(c.directDamage), 160 * rounds)
    && Over(Value(c.fragBalance), 2 * rounds)
    && Over(Value(c.openingDuels), opening)
    && Over(Value(c.tradeKills), rounds)
    && Over(Value(c.utility), 300 * rounds)
    && Over(Value(c.clutchConversion), clutch)
  }

  lemma ComponentsFit(m: RatingMetrics)
    requires m.eligibleRounds > 0 && m.clutchWins <= m.clutchOpportunities
    ensures ComponentsOf(m).Ok?
    ensures ComponentsOver(ComponentsOf(m).value, m.eligibleRounds,
                           ShareDen(m.openingWins + m.openingLosses), ShareDen(m.clutchOpportunities))
  {
    hide ClampedRatio;
    hide FragBalanceOf;
    hide ShareOf;
    hide UtilityOf;
    hide Over;
    hide Value;
    hide ShareDen;
    var r: int := m.eligibleRounds;
    ClampedFits(m.directDamage, 160 * r);
    FragFits(m.kills, m.deaths, m.eligibleRounds);
    ShareFits(m.openingWins, m.openingWins + m.openingLosses);
    ClampedFits(2 * m.tradeKills, r);
    UtilityFits(m.utilityDamage, m.flashAssists, m.eligibleRounds);
    ShareFits(m.clutchWins, m.clutchOpportunities);
  }

  /** The common denominator of the weighted sum. */
  lemma CommonDenominator(r: int, o: int, c: int)
    requires r > 0 && o > 0 && c > 0
    ensures var k := 24_000 * (r * (o * c));
      && o * c > 0 && r * c > 0 && r * o > 0 && k > 0
      && (15 * (o * c)) * (10 * (160 * r)) == k
      && (1200 * (o * c)) * (10 * (2 * r)) == k
      && (1200 * (r * c)) * (20 * o) == k
      && (2400 * (o * c)) * (10 * r) == k
      && (8 * (o * c)) * (10 * (300 * r)) == k
      && (1200 * (r * o)) * (20 * c) == k
  {
    MulSign(o, c);
    MulSign(r, c);
    MulSign(r, o);
    MulSign(r, o * c);
    var x := o * c;
    assert x * r == r * x;
    assert (r * c) * o == r * x;
    assert (r * o) * c == r * x;
  }

  lemma WeightedRatingFits(v: ComponentVector, r: int, o: int, c: int)
    requires r > 0 && o > 0 && c > 0 && ComponentsOver(v, r, o, c)
    requires 24_000 * (r * (o * c)) * MAX_BASIS_POINTS <= I64_MAX
    ensures WeightedRating(v).Ok?
    ensures Over(Value(WeightedRating(v).value), 24_000 * (r * (o * c)))
    ensures 0.0 <= Value(WeightedRating(v).value) <= 2.0
  {
    CommonDenominator(r, o, c);
    Weights();
    var k := 24_000 * (r * (o * c));
    WeightedFits(v.directDamage, 160 * r, 3, 10, 15 * (o * c));
    WeightedFits(v.fragBalance, 2 * r, 3, 10, 1200 * (o * c));
    WeightedFits(v.openingDuels, o, 3, 20, 1200 * (r * c));
    WeightedFits(v.tradeKills, r, 1, 10, 2400 * (o * c));
    WeightedFits(v.utility, 300 * r, 1, 10, 8 * (o * c));
    WeightedFits(v.clutchConversion, c, 1, 20, 1200 * (r * o));
    WeightedSumFits(v, k);
  }

  ghost predicate TermFits(t: Result<Rational, ExactError>, den: int, most: real) {
    t.Ok? && Over(Value(t.value), den) && 0.0 <= Value(t.value) <= most
  }

  lemma WeightedSumFits(v: ComponentVector, k: int)
    requires 0 < k && k * MAX_BASIS_POINTS <= I64_MAX
    requires TermFits(Weighted(v.directDamage, 3, 10), k, 0.3)
    requires TermFits(Weighted(v.fragBalance, 3, 10), k, 0.3)
    requires TermFits(Weighted(v.openingDuels, 3, 20), k, 0.15)
    requires TermFits(Weighted(v.tradeKills, 1, 10), k, 0.1)
    requires TermFits(Weighted(v.utility, 1, 10), k, 0.1)
    requires TermFits(Weighted(v.clutchConversion, 1, 20), k, 0.05)
    ensures TermFits(WeightedRating(v), k, 2.0)
  {
    hide Weighted;
    hide CheckedAdd;
    hide CheckedMul;
    hide Value;
    hide Over;
    var t1, t2 := Weighted(v.directDamage, 3, 10).value, Weighted(v.fragBalance, 3, 10).value;
    var t3, t4 := Weighted(v.openingDuels, 3, 20).value, Weighted(v.tradeKills, 1, 10).value;
    var t5, t6 := Weighted(v.utility, 1, 10).value, Weighted(v.clutchConversion, 1, 20).value;
    SumFits(t1, t2, k);
    var s2 := CheckedAdd(t1, t2).value;
    SumFits(s2, t3, k);
    var s3 := CheckedAdd(s2, t3).value;
    SumFits(s3, t4, k);
    var s4 := CheckedAdd(s3, t4).value;
    SumFits(s4, t5, k);
    var s5 := CheckedAdd(s4, t5).value;
    SumFits(s5, t6, k);
    var s6 := CheckedAdd(s5, t6).value;
    TimesInteger(s6, 2, k, 1);
  }

  /** Multiplying by an integer keeps the denominator. */
  lemma TimesInteger(a: Rational, z: nat, den: int, most: nat)
    requires Over(Value(a), den) && 0.0 <= Value(a) <= most as real
    requires 0 < z <= MAX_BASIS_POINTS && 0 < den && (z * most) * den <= I64_MAX && den <= I64_MAX
    ensures CheckedMul(a, FromInteger(z)).Ok?
    ensures Over(Value(CheckedMul(a, FromInteger(z)).value), den)
    ensures Value(CheckedMul(a, FromInteger(z)).value) == z as real * Value(a)
    ensures 0.0 <= Value(CheckedMul(a, FromInteger(z)).value) <= (z * most) as real
  {
    hide Over;
    hide Value;
    hide CheckedMul;
    OverTimes(Value(a), den, z);
    RealProduct(z, most);
    ScaleBound(Value(a), most as real, z as real);
    OverFits(Value(a) * z as real, den, z * most);
    MulIsExact(a, FromInteger(z));
  }

  lemma OverTimes(x: real, den: int, z: int)
    requires Over(x, den)
    ensures Over(x * z as real, den)
  {
    var n: int :| x == RatioReal(n, den);
    RealProduct(n, z);
    assert n as real == x * den as real;
    assert (n * z) as real == (x * z as real) * den as real;
    QuotientIs((n * z) as real, den as real, x * z as real);
    assert x * z as real == RatioReal(n * z, den);
  }

  lemma ScaleBound(x: real, y: real, z: real)
    requires 0.0 <= x <= y && 0.0 <= z
    ensures 0.0 <= x * z <= z * y
  {
  }

  /** Within the bound on the denominators the score is always computed; the numerators are
      arbitrary `u32`s. */
  lemma ScoreNeverOverflows(m: RatingMetrics, e: RatingEvidenceBundle)
    requires m.eligibleRounds > 0 && m.clutchWins <= m.clutchOpportunities && WithinBound(m)
    ensures ScoreOf(m, e).Ok?
  {
    ComponentsFit(m);
    var c := ComponentsOf(m).value;
    var r, o, l := m.eligibleRounds, ShareDen(m.openingWins + m.openingLosses), ShareDen(m.clutchOpportunities);
    WeightedRatingFits(c, r, o, l);
    WeightFits(3, 10);
    WeightFits(3, 20);
    WeightFits(1, 10);
    WeightFits(1, 20);
    BasisPointsFit(WeightedRating(c).value, 24_000 * RatingDen(m));
  }

  lemma BasisPointsFit(exact: Rational, den: int)
    requires Over(Value(exact), den) && 0.0 <= Value(exact) <= 2.0 && 0 < den && den * MAX_BASIS_POINTS <= I64_MAX
    ensures BasisPoints(exact).Ok?
  {
    hide Over;
    TimesInteger(exact, 10_000, den, 2);
    RoundsHalfUp(CheckedMul(exact, FromInteger(10_000)).value);
  }

  /** In particular: 2000 rounds, 2000 opening duels and 2000 clutch opportunities. */
  lemma TwoThousandIsWithinBound(m: RatingMetrics)
    requires m.eligibleRounds <= 2000 && m.openingWins + m.openingLosses <= 2000 && m.clutchOpportunities <= 2000
    ensures WithinBound(m)
  {
    var o, c := ShareDen(m.openingWins + m.openingLosses), ShareDen(m.clutchOpportunities);
    MulMonotone(o, 2000, c);
    MulMonotone(m.eligibleRounds, 2000, o * c);
  }

  /** `calculate_rating` as a whole: with consistent clutch counts and at most 2000 rounds, opening
      duels and clutch opportunities it always returns a receipt; the receipt carries a score
      exactly when the evidence is complete and undisputed over at least eight rounds. */
  lemma CalculateRatingTotal(input: RatingInput)
    requires var m := input.metrics;
      && m.clutchWins <= m.clutchOpportunities && m.eligibleRounds <= 2000
      && m.openingWins + m.openingLosses <= 2000 && m.clutchOpportunities <= 2000
    ensures CalculateRating(input).Ok?
    ensures CalculateRating(input).value.score.Some? <==>
            && input.evidence.Complete() && input.evidenceFailure.None?
            && !input.irregularities.forfeitWithoutCanonicalWinner && input.metrics.eligibleRounds >= 8
    ensures CalculateRating(input).value.TrendEligible() <==>
            && CalculateRating(input).value.score.Some? && input.metrics.eligibleRounds >= 12
            && !input.irregularities.missedLiveRound && !input.irregularities.surrender
            && !input.irregularities.rosterImbalanced
  {
    hide ScoreOf;
    if UnavailableFor(input).None? {
      TwoThousandIsWithinBound(input.metrics);
      ScoreNeverOverflows(input.metrics, input.evidence);
    }
  }

  // ----- What a receipt says, field by field

  /** The order in which evidence is looked for. */
  const EVIDENCE_ORDER: seq<RequiredEvidenceKind> :=
    [EligibleRoundLedger, ExcludedRoundLedger, ComponentEvidence(DirectDamage), ComponentEvidence(FragBalance),
     ComponentEvidence(OpeningDuels), ComponentEvidence(TradeKills), ComponentEvidence(Utility),
     ComponentEvidence(ClutchConversion)]

  /** The identifiers behind each of these, in the same order. */
  function EvidenceLists(e: RatingEvidenceBundle): (r: seq<seq<string>>)
    ensures |r| == |EVIDENCE_ORDER|
  {
    [e.eligibleRoundLedger, e.excludedRoundLedger, e.directDamage, e.fragBalance, e.openingDuels, e.tradeKills,
     e.utility, e.clutchConversion]
  }

  /** All evidence is there. */
  predicate AllEvidence(e: RatingEvidenceBundle) {
    forall i :: 0 <= i < |EvidenceLists(e)| ==> EvidenceLists(e)[i] != []
  }

  /** The `i`-th evidence is the first that is missing. */
  predicate MissesFirst(e: RatingEvidenceBundle, i: nat) {
    && i < |EvidenceLists(e)| && EvidenceLists(e)[i] == []
    && forall j :: 0 <= j < i ==> EvidenceLists(e)[j] != []
  }

  /** Too short for a trend, incomplete or surrendered. */
  predicate Provisional(input: RatingInput) {
    input.metrics.eligibleRounds < 12 || input.irregularities.missedLiveRound || input.irregularities.surrender
  }

  predicate Scorable(input: RatingInput) {
    && AllEvidence(input.evidence) && input.evidenceFailure.None?
    && !input.irregularities.forfeitWithoutCanonicalWinner && input.metrics.eligibleRounds >= 8
  }

  /** Status and score of a returned receipt: unavailable without a score, otherwise a preview or rated. */
  lemma StatusIff(input: RatingInput)
    requires CalculateRating(input).Ok?
    ensures var r := CalculateRating(input).value;
      && r.inputs == input
      && (r.score.Some? <==> Scorable(input))
      && (r.status.Unavailable? <==> !Scorable(input))
      && (r.status.Preview? <==> Scorable(input) && Provisional(input))
      && (r.status.Rated? <==> Scorable(input) && !Provisional(input))
  {
    hide ScoreOf;
    MissingIsFirst(input.evidence);
  }

  /** The calculation fails exactly for contradictory clutch counts, or when a due score cannot be computed. */
  lemma FailsIff(input: RatingInput)
    ensures CalculateRating(input).Err? <==>
            || input.metrics.clutchWins > input.metrics.clutchOpportunities
            || (Scorable(input) && ScoreOf(input.metrics, input.evidence).Err?)
    ensures CalculateRating(input) == Err(ClutchWinsExceedOpportunities) <==>
            input.metrics.clutchWins > input.metrics.clutchOpportunities
  {
    hide ScoreOf;
    MissingIsFirst(input.evidence);
  }

  lemma MissingIsFirst(e: RatingEvidenceBundle)
    ensures e.FirstMissing().None? <==> AllEvidence(e)
    ensures forall i: nat :: MissesFirst(e, i) ==> e.FirstMissing() == Some(EVIDENCE_ORDER[i])
    ensures e.FirstMissing().Some? ==> exists i: nat :: MissesFirst(e, i)
  {
    var lists := EvidenceLists(e);
    assert AllEvidence(e) <==>
      lists[0] != [] && lists[1] != [] && lists[2] != [] && lists[3] != [] && lists[4] != [] && lists[5] != []
      && lists[6] != [] && lists[7] != [];
    forall i: nat | MissesFirst(e, i)
      ensures e.FirstMissing() == Some(EVIDENCE_ORDER[i])
    {
      assert forall j :: 0 <= j < i ==> lists[j] != [];
      assert i < 8 && lists[i] == [];
      assert (i > 0 ==> lists[0] != []) && (i > 1 ==> lists[1] != []) && (i > 2 ==> lists[2] != [])
             && (i > 3 ==> lists[3] != []) && (i > 4 ==> lists[4] != []) && (i > 5 ==> lists[5] != [])
             && (i > 6 ==> lists[6] != []);
    }
    if !AllEvidence(e) {
      var i :| 0 <= i < |lists| && lists[i] == [];
      var first := FirstEmpty(e, i);
    }
  }

  lemma {:induction false} FirstEmpty(e: RatingEvidenceBundle, i: nat) returns (first: nat)
    requires i < |EvidenceLists(e)| && EvidenceLists(e)[i] == []
    ensures MissesFirst(e, first)
  {
    if j: nat :| j < i && EvidenceLists(e)[j] == [] {
      first := FirstEmpty(e, j);
    } else {
      first := i;
    }
  }

  /** Why there is no score: missing evidence comes first, then a failure of the evidence, then a
      forfeit, then too few rounds. */
  lemma UnavailableReasonIff(input: RatingInput)
    requires CalculateRating(input).Ok? && CalculateRating(input).value.status.Unavailable?
    ensures var reason := CalculateRating(input).value.status.reason;
      && (forall i: nat :: MissesFirst(input.evidence, i) ==> reason == MissingRequiredEvidence(EVIDENCE_ORDER[i]))
      && (AllEvidence(input.evidence) && input.evidenceFailure.Some? ==> reason == Evidence(input.evidenceFailure.value))
      && (AllEvidence(input.evidence) && input.evidenceFailure.None? ==>
            reason == if input.irregularities.forfeitWithoutCanonicalWinner then ForfeitWithoutCanonicalWinner
                      else InsufficientEligibleRounds(input.metrics.eligibleRounds, 8))
      && (!AllEvidence(input.evidence) ==> exists i: nat :: MissesFirst(input.evidence, i))
  {
    hide ScoreOf;
    MissingIsFirst(input.evidence);
  }

  /** The reasons of a preview, each once and in this order: too few rounds, a missed live round, a
      surrender. */
  lemma PreviewReasonsIff(input: RatingInput)
    requires CalculateRating(input).Ok? && CalculateRating(input).value.status.Preview?
    ensures var reasons := CalculateRating(input).value.status.reasons;
      var short := ShortSample(input.metrics.eligibleRounds, 12);
      && (forall reason :: reason in reasons <==>
            || (reason == short && input.metrics.eligibleRounds < 12)
            || (reason == MissedLiveRound && input.irregularities.missedLiveRound)
            || (reason == Surrender && input.irregularities.surrender))
      && (forall i, j :: 0 <= i < j < |reasons| ==>
            (reasons[i].ShortSample? && !reasons[j].ShortSample?) || (reasons[i].MissedLiveRound? && reasons[j].Surrender?))
  {
    hide ScoreOf;
  }

  /** What excludes a receipt from trends: no score, a preview, an unbalanced roster; a preview is
      named before the roster. */
  lemma TrendExclusionsIff(input: RatingInput)
    requires CalculateRating(input).Ok?
    ensures var r := CalculateRating(input).value;
      && (forall x :: x in r.trendExclusions <==>
            || (x == ExcludedUnavailable && !Scorable(input))
            || (x == ExcludedPreview && Scorable(input) && Provisional(input))
            || (x == RosterImbalanced && Scorable(input) && input.irregularities.rosterImbalanced))
      && (forall i, j :: 0 <= i < j < |r.trendExclusions| ==>
            r.trendExclusions[i] == ExcludedPreview && r.trendExclusions[j] == RosterImbalanced)
      && (r.TrendEligible() <==> Scorable(input) && !Provisional(input) && !input.irregularities.rosterImbalanced)
  {
    hide ScoreOf;
    MissingIsFirst(input.evidence);
  }

  /** The receipt of one component: its own value, weight and evidence. */
  predicate ReceiptFor(r: ComponentReceipt, kind: ComponentKind, value: UnitInterval, num: int, den: nat, ids: seq<string>)
    requires den > 0
  {
    && r.kind == kind && r.exactNumerator == value.num && r.exactDenominator == value.den
    && r.weight.num * den == num * r.weight.den && r.evidenceIds == ids
  }

  /** The six components are those of the formula, each with a receipt of its own; the exact rating
      is the formula's and the basis points its half-up rounding. */
  ghost predicate OwnScore(s: Score, m: RatingMetrics, e: RatingEvidenceBundle)
    requires m.eligibleRounds > 0
  {
    var c := s.components;
    && Value(c.directDamage) == ClampReal(RatioReal(m.directDamage, 160 * m.eligibleRounds), 0.0, 1.0)
    && Value(c.fragBalance) == FragReal(m.kills, m.deaths, m.eligibleRounds)
    && Value(c.openingDuels) == ShareReal(m.openingWins, m.openingWins + m.openingLosses)
    && Value(c.tradeKills) == ClampReal(RatioReal(2 * m.tradeKills, m.eligibleRounds), 0.0, 1.0)
    && Value(c.utility) == UtilityReal(m.utilityDamage, m.flashAssists, m.eligibleRounds)
    && Value(c.clutchConversion) == ShareReal(m.clutchWins, m.clutchOpportunities)
    && |s.receipts| == 6
    && ReceiptFor(s.receipts[0], DirectDamage, c.directDamage, 3, 10, e.directDamage)
    && ReceiptFor(s.receipts[1], FragBalance, c.fragBalance, 3, 10, e.fragBalance)
    && ReceiptFor(s.receipts[2], OpeningDuels, c.openingDuels, 3, 20, e.openingDuels)
    && ReceiptFor(s.receipts[3], TradeKills, c.tradeKills, 1, 10, e.tradeKills)
    && ReceiptFor(s.receipts[4], Utility, c.utility, 1, 10, e.utility)
    && ReceiptFor(s.receipts[5], ClutchConversion, c.clutchConversion, 1, 20, e.clutchConversion)
    && Value(s.exact) == RatingReal(m)
    && s.basisPoints as real - 0.5 <= 10000.0 * RatingReal(m) < s.basisPoints as real + 0.5
  }

  /** A score on a receipt is the score of its inputs. */
  lemma ComponentsAreOwn(input: RatingInput)
    requires CalculateRating(input).Ok? && CalculateRating(input).value.score.Some?
    ensures input.metrics.eligibleRounds > 0
            && OwnScore(CalculateRating(input).value.score.value, input.metrics, input.evidence)
  {
    StatusIff(input);
    hide ScoreOf;
    hide OwnScore;
    ScoreIsOwn(input.metrics, input.evidence);
  }

  lemma ScoreIsOwn(m: RatingMetrics, e: RatingEvidenceBundle)
    requires m.eligibleRounds > 0 && ScoreOf(m, e).Ok?
    ensures OwnScore(ScoreOf(m, e).value, m, e)
  {
    hide ClampReal;
    hide FragReal;
    hide ShareReal;
    hide UtilityReal;
    hide RatingReal;
    hide RatioReal;
    hide Value;
    hide ComponentsOf;
    hide WeightedRating;
    hide BasisPoints;
    hide ReceiptsOf;
    hide ReceiptFor;
    ScoreIsFormula(m, e);
    OwnReceipts(ComponentsOf(m).value, e);
    OwnValues(m);
  }

  lemma OwnValues(m: RatingMetrics)
    requires m.eligibleRounds > 0 && ComponentsOf(m).Ok?
    ensures var c := ComponentsOf(m).value;
      && Value(c.directDamage) == ClampReal(RatioReal(m.directDamage, 160 * m.eligibleRounds), 0.0, 1.0)
      && Value(c.fragBalance) == FragReal(m.kills, m.deaths, m.eligibleRounds)
      && Value(c.openingDuels) == ShareReal(m.openingWins, m.openingWins + m.openingLosses)
      && Value(c.tradeKills) == ClampReal(RatioReal(2 * m.tradeKills, m.eligibleRounds), 0.0, 1.0)
      && Value(c.utility) == UtilityReal(m.utilityDamage, m.flashAssists, m.eligibleRounds)
      && Value(c.clutchConversion) == ShareReal(m.clutchWins, m.clutchOpportunities)
  {
    hide ClampedRatio;
    hide FragBalanceOf;
    hide ShareOf;
    hide UtilityOf;
    hide Value;
    hide RatioReal;
    hide ClampReal;
    hide ShareReal;
    hide FragReal;
    hide UtilityReal;
    ClampedRatioValue(m.directDamage, 160 * m.eligibleRounds);
    FragValue(m.kills, m.deaths, m.eligibleRounds);
    ShareValue(m.openingWins, m.openingWins + m.openingLosses);
    ClampedRatioValue(2 * m.tradeKills, m.eligibleRounds);
    UtilityValue(m.utilityDamage, m.flashAssists, m.eligibleRounds);
    ShareValue(m.clutchWins, m.clutchOpportunities);
  }

  lemma OwnReceipts(c: ComponentVector, e: RatingEvidenceBundle)
    requires ReceiptsOf(c, e).Ok?
    ensures var r := ReceiptsOf(c, e).value;
      && |r| == 6
      && ReceiptFor(r[0], DirectDamage, c.directDamage, 3, 10, e.directDamage)
      && ReceiptFor(r[1], FragBalance, c.fragBalance, 3, 10, e.fragBalance)
      && ReceiptFor(r[2], OpeningDuels, c.openingDuels, 3, 20, e.openingDuels)
      && ReceiptFor(r[3], TradeKills, c.tradeKills, 1, 10, e.tradeKills)
      && ReceiptFor(r[4], Utility, c.utility, 1, 10, e.utility)
      && ReceiptFor(r[5], ClutchConversion, c.clutchConversion, 1, 20, e.clutchConversion)
  {
    hide New;
    WeightIs(3, 10);
    WeightIs(3, 20);
    WeightIs(1, 10);
    WeightIs(1, 20);
  }

  lemma WeightIs(num: i64, den: i64)
    requires den > 0
    ensures New(num, den).Ok? ==> New(num, den).value.num * den == num * New(num, den).value.den
  {
    NewValue(num, den);
    if New(num, den).Ok? {
      RepresentsValue(New(num, den).value, num, den);
    }
  }
}
