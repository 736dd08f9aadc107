/** When the rating overflows (crates/openfrag-domain/src/rating.rs:340-426).  Its counters are
    arbitrary `u32`s, and with large coprime denominators a partial sum of the six weighted
    components need not be a fraction of `i64`s. */
module RatingOverflow {
  import opened Prelude
  import opened Exact
  import opened Rating

  /** The six weighted components of the formula. */
  ghost function Pieces(m: RatingMetrics): (r: seq<real>)
    requires m.eligibleRounds > 0
    ensures |r| == 6
  {
    [0.3 * ClampReal(RatioReal(m.directDamage, 160 * m.eligibleRounds), 0.0, 1.0),
     0.3 * FragReal(m.kills, m.deaths, m.eligibleRounds),
     0.15 * ShareReal(m.openingWins, m.openingWins + m.openingLosses),
     0.1 * ClampReal(RatioReal(2 * m.tradeKills, m.eligibleRounds), 0.0, 1.0),
     0.1 * UtilityReal(m.utilityDamage, m.flashAssists, m.eligibleRounds),
     0.05 * ShareReal(m.clutchWins, m.clutchOpportunities)]
  }

  /** The sums of the first two, three, four, five and six. */
  ghost function Prefixes(x: seq<real>): (r: seq<real>)
    requires |x| == 6
    ensures |r| == 5
  {
    [x[0] + x[1], x[0] + x[1] + x[2], x[0] + x[1] + x[2] + x[3], x[0] + x[1] + x[2] + x[3] + x[4],
     x[0] + x[1] + x[2] + x[3] + x[4] + x[5]]
  }

  /** The partial sums of the formula, in the order in which they are taken. */
  ghost function PartialSums(m: RatingMetrics): (r: seq<real>)
    requires m.eligibleRounds > 0
    ensures |r| == 5
  {
    Prefixes(Pieces(m))
  }

  /** The partial sums, the rating and ten thousand ratings are fractions of `i64`s. */
  ghost predicate SumsRepresentable(m: RatingMetrics)
    requires m.eligibleRounds > 0
  {
    && (forall k :: 0 <= k < 5 ==> Representable(PartialSums(m)[k]))
    && Representable(RatingReal(m))
    && Representable(10000.0 * RatingReal(m))
  }

  ghost predicate Exactly(r: Result<Rational, ExactError>, x: real) {
    r.Ok? && Value(r.value) == x
  }

  /** Every single weighted component fits, whatever the counters. */
  lemma TermExact(c: UnitInterval, a: int, num: i64, den: i64)
    requires Over(Value(c), a) && 0 < num < den && den * a <= I64_MAX
    ensures Exactly(Weighted(c, num, den), RatioReal(num, den) * Value(c))
  {
    hide Over;
    hide Weighted;
    hide Value;
    hide RatioReal;
    WeightedFits(c, a, num, den, 1);
    WeightedValue(c, num, den);
  }

  lemma TermsExact(v: ComponentVector, m: RatingMetrics)
    requires m.eligibleRounds > 0
    requires ComponentsOver(v, m.eligibleRounds, ShareDen(m.openingWins + m.openingLosses), ShareDen(m.clutchOpportunities))
    ensures Exactly(Weighted(v.directDamage, 3, 10), 0.3 * Value(v.directDamage))
    ensures Exactly(Weighted(v.fragBalance, 3, 10), 0.3 * Value(v.fragBalance))
    ensures Exactly(Weighted(v.openingDuels, 3, 20), 0.15 * Value(v.openingDuels))
    ensures Exactly(Weighted(v.tradeKills, 1, 10), 0.1 * Value(v.tradeKills))
    ensures Exactly(Weighted(v.utility, 1, 10), 0.1 * Value(v.utility))
    ensures Exactly(Weighted(v.clutchConversion, 1, 20), 0.05 * Value(v.clutchConversion))
  {
    hide Over;
    hide Exactly;
    hide Value;
    Weights();
    TermExact(v.directDamage, 160 * m.eligibleRounds, 3, 10);
    TermExact(v.fragBalance, 2 * m.eligibleRounds, 3, 10);
    TermExact(v.openingDuels, ShareDen(m.openingWins + m.openingLosses), 3, 20);
    TermExact(v.tradeKills, m.eligibleRounds, 1, 10);
    TermExact(v.utility, 300 * m.eligibleRounds, 1, 10);
    TermExact(v.clutchConversion, ShareDen(m.clutchOpportunities), 1, 20);
  }

  /** An addition succeeds exactly when the sum is representable. */
  lemma SumSucceeds(a: Rational, b: Rational)
    ensures CheckedAdd(a, b).Ok? <==> Representable(Value(a) + Value(b))
    ensures CheckedAdd(a, b).Ok? ==> Value(CheckedAdd(a, b).value) == Value(a) + Value(b)
    ensures CheckedAdd(a, b).Err? ==> CheckedAdd(a, b).error == Overflow
  {
    AddIsExact(a, b);
  }

  /** The six terms, summed in order. */
  function SumOf(t: seq<Rational>): Result<Rational, ExactError>
    requires |t| == 6
  {
    var s2 :- CheckedAdd(t[0], t[1]);
    var s3 :- CheckedAdd(s2, t[2]);
    var s4 :- CheckedAdd(s3, t[3]);
    var s5 :- CheckedAdd(s4, t[4]);
    CheckedAdd(s5, t[5])
  }

  lemma SumSucceedsIff(t: seq<Rational>, x: seq<real>)
    requires |t| == 6 && |x| == 6 && forall k :: 0 <= k < 6 ==> Value(t[k]) == x[k]
    ensures SumOf(t).Ok? <==> forall k :: 0 <= k < 5 ==> Representable(Prefixes(x)[k])
    ensures SumOf(t).Ok? ==> Value(SumOf(t).value) == Prefixes(x)[4]
    ensures SumOf(t).Err? ==> SumOf(t).error == Overflow
  {
    hide CheckedAdd;
    hide Value;
    hide Representable;
    SumSucceeds(t[0], t[1]);
    var s2 := CheckedAdd(t[0], t[1]);
    if s2.Ok? {
      SumSucceeds(s2.value, t[2]);
      var s3 := CheckedAdd(s2.value, t[2]);
      if s3.Ok? {
        SumSucceeds(s3.value, t[3]);
        var s4 := CheckedAdd(s3.value, t[3]);
        if s4.Ok? {
          SumSucceeds(s4.value, t[4]);
          var s5 := CheckedAdd(s4.value, t[4]);
          if s5.Ok? {
            SumSucceeds(s5.value, t[5]);
          }
        }
      }
    }
    var p := Prefixes(x);
    assert (forall k :: 0 <= k < 5 ==> Representable(p[k])) <==>
           Representable(p[0]) && Representable(p[1]) && Representable(p[2]) && Representable(p[3]) && Representable(p[4]);
  }

  // ----- The exact condition

  lemma PiecesValue(m: RatingMetrics)
    requires m.eligibleRounds > 0 && ComponentsOf(m).Ok?
    ensures var c := ComponentsOf(m).value;
      Pieces(m) == [0.3 * Value(c.directDamage), 0.3 * Value(c.fragBalance), 0.15 * Value(c.openingDuels),
                    0.1 * Value(c.tradeKills), 0.1 * Value(c.utility), 0.05 * Value(c.clutchConversion)]
  {
    hide ComponentsOf;
    hide Value;
    hide RatioReal;
    hide ClampReal;
    hide ShareReal;
    hide FragReal;
    hide UtilityReal;
    OwnValues(m);
  }

  lemma WeightedIsSum(v: ComponentVector, t: seq<Rational>)
    requires |t| == 6
    requires Weighted(v.directDamage, 3, 10) == Ok(t[0]) && Weighted(v.fragBalance, 3, 10) == Ok(t[1])
    requires Weighted(v.openingDuels, 3, 20) == Ok(t[2]) && Weighted(v.tradeKills, 1, 10) == Ok(t[3])
    requires Weighted(v.utility, 1, 10) == Ok(t[4]) && Weighted(v.clutchConversion, 1, 20) == Ok(t[5])
    ensures WeightedRating(v) == if SumOf(t).Ok? then CheckedMul(SumOf(t).value, FromInteger(2)) else SumOf(t)
  {
    hide Weighted;
    hide CheckedAdd;
    hide CheckedMul;
  }

  lemma DoublingSucceeds(s: Rational)
    ensures var r := CheckedMul(s, FromInteger(2));
      && (r.Ok? <==> Representable(2.0 * Value(s)))
      && (r.Ok? ==> Value(r.value) == 2.0 * Value(s))
      && (r.Err? ==> r.error == Overflow)
  {
    MulIsExact(s, FromInteger(2));
    assert Value(FromInteger(2)) == 2.0;
  }

  lemma BasisPointsSucceed(exact: Rational)
    requires 0.0 <= Value(exact) <= 2.0
    ensures BasisPoints(exact).Ok? <==> Representable(10000.0 * Value(exact))
    ensures BasisPoints(exact).Err? ==> BasisPoints(exact).error == Overflow
  {
    MulIsExact(exact, FromInteger(10_000));
    assert Value(FromInteger(10_000)) == 10000.0;
    var scaled := CheckedMul(exact, FromInteger(10_000));
    if scaled.Ok? {
      RoundsHalfUp(scaled.value);
    }
  }

  lemma RatingIsTwice(m: RatingMetrics)
    requires m.eligibleRounds > 0
    ensures RatingReal(m) == 2.0 * PartialSums(m)[4]
  {
    hide ClampReal;
    hide RatioReal;
    hide FragReal;
    hide ShareReal;
    hide UtilityReal;
  }

  lemma WeightedSucceedsIff(m: RatingMetrics)
    requires m.eligibleRounds > 0 && m.clutchWins <= m.clutchOpportunities
    ensures ComponentsOf(m).Ok?
    ensures var r := WeightedRating(ComponentsOf(m).value);
      && (r.Ok? <==> (forall k :: 0 <= k < 5 ==> Representable(PartialSums(m)[k])) && Representable(RatingReal(m)))
      && (r.Err? ==> r.error == Overflow)
  {
    hide ComponentsOf;
    hide ComponentsOver;
    hide Value;
    hide Representable;
    hide Weighted;
    hide WeightedRating;
    hide CheckedMul;
    hide SumOf;
    hide ClampReal;
    hide RatioReal;
    hide FragReal;
    hide ShareReal;
    hide UtilityReal;
    ComponentsFit(m);
    var v := ComponentsOf(m).value;
    TermsExact(v, m);
    PiecesValue(m);
    var t := [Weighted(v.directDamage, 3, 10).value, Weighted(v.fragBalance, 3, 10).value,
              Weighted(v.openingDuels, 3, 20).value, Weighted(v.tradeKills, 1, 10).value,
              Weighted(v.utility, 1, 10).value, Weighted(v.clutchConversion, 1, 20).value];
    WeightedIsSum(v, t);
    SumSucceedsIff(t, Pieces(m));
    RatingIsTwice(m);
    hide Prefixes;
    hide RatingReal;
    if SumOf(t).Ok? {
      DoublingSucceeds(SumOf(t).value);
    }
  }

  /** A score is computed exactly when the partial sums of the formula, the rating and its
      ten-thousandfold are fractions of `i64`s; otherwise an overflow is reported. */
  lemma ScoreSucceedsIff(m: RatingMetrics, e: RatingEvidenceBundle)
    requires m.eligibleRounds > 0 && m.clutchWins <= m.clutchOpportunities
    ensures ScoreOf(m, e).Ok? <==> SumsRepresentable(m)
    ensures ScoreOf(m, e).Err? ==> ScoreOf(m, e).error == Overflow
  {
    hide WeightedRating;
    hide ComponentsOf;
    hide BasisPoints;
    hide Representable;
    hide RatingReal;
    hide PartialSums;
    WeightedSucceedsIff(m);
    WeightFits(3, 10);
    WeightFits(3, 20);
    WeightFits(1, 10);
    WeightFits(1, 20);
    var c := ComponentsOf(m).value;
    if WeightedRating(c).Ok? {
      ComponentsValue(m);
      WeightedRatingValue(c);
      WeightedRange(c);
      BasisPointsSucceed(WeightedRating(c).value);
    }
  }

  // ----- The condition in integers

  /** The common denominator of the six pieces. */
  function CommonDen(m: RatingMetrics): nat {
    24_000 * RatingDen(m)
  }

  function Within(x: int, most: nat): nat {
    if x < 0 then 0 else if x > most then most else x
  }

  function ShareNum(wins: nat, total: nat): nat {
    if total == 0 then 1 else wins
  }

  /** The six pieces over the common denominator. */
  function PieceNums(m: RatingMetrics): (r: seq<nat>)
    ensures |r| == 6
  {
    var r, o, c := m.eligibleRounds, ShareDen(m.openingWins + m.openingLosses), ShareDen(m.clutchOpportunities);
    [Times(45 * Within(m.directDamage, 160 * r), Times(o, c)),
     Times(3_600 * Within(r + m.kills - m.deaths, 2 * r), Times(o, c)),
     Times(3_600 * ShareNum(m.openingWins, m.openingWins + m.openingLosses), Times(r, c)),
     Times(2_400 * Within(2 * m.tradeKills, r), Times(o, c)),
     Times(56 * Within(m.utilityDamage, 30 * r) + 720 * Within(2 * m.flashAssists, r), Times(o, c)),
     Times(1_200 * ShareNum(m.clutchWins, m.clutchOpportunities), Times(r, o))]
  }

  function Times(a: nat, b: nat): (r: nat)
  {
    MulSign(a, b);
    a * b
  }

  function SumNums(x: seq<nat>): (r: seq<nat>)
    requires |x| == 6
    ensures |r| == 5
  {
    [x[0] + x[1], x[0] + x[1] + x[2], x[0] + x[1] + x[2] + x[3], x[0] + x[1] + x[2] + x[3] + x[4],
     x[0] + x[1] + x[2] + x[3] + x[4] + x[5]]
  }

  lemma ClampRatio(n: int, d: nat)
    requires d > 0
    ensures ClampReal(RatioReal(n, d), 0.0, 1.0) == RatioReal(Within(n, d), d)
  {
    var x, rd := RatioReal(n, d), d as real;
    assert x * rd == n as real;
    if n < 0 {
      assert x < 0.0;
    } else if n > d {
      assert x > 1.0;
    }
  }

  /** `p / q` of a fraction, over a multiple of its denominator. */
  lemma Rescaled(x: real, n: int, d: nat, p: nat, q: nat, k: nat, den: nat)
    requires d > 0 && x == RatioReal(n, d) && q > 0 && k > 0 && den == k * (q * d)
    ensures den > 0 && RatioReal(p, q) * x == RatioReal(k * (p * n), den)
  {
    MulSign(q, d);
    MulSign(k, q * d);
    MulFractions(p, q, n, d);
    RatioScale(k, p * n, q * d);
  }

  /** A weighted piece over the common denominator: `k` and `p` are numerals. */
  lemma PieceOver(x: real, n: nat, d: nat, p: nat, q: nat, k: nat, rest: nat, den: nat, weight: real)
    requires d > 0 && x == RatioReal(n, d) && q > 0 && k > 0 && rest > 0 && den == (k * rest) * (q * d)
    requires weight == RatioReal(p, q)
    ensures den > 0 && weight * x == RatioReal(Times(k * p * n, rest), den)
  {
    MulSign(k, rest);
    Rescaled(x, n, d, p, q, k * rest, den);
    MulAssoc(k, p, n);
    MulAssoc(k, rest, p * n);
    MulAssoc(k, p * n, rest);
    assert (k * rest) * (p * n) == (k * p * n) * rest;
  }

  lemma FragRatio(kills: nat, deaths: nat, rounds: nat)
    requires rounds > 0
    ensures FragReal(kills, deaths, rounds) == RatioReal(Within(rounds + kills - deaths, 2 * rounds), 2 * rounds)
  {
    var delta: int := kills - deaths;
    ClampRatio(rounds + delta, 2 * rounds);
    hide ClampReal;
    HalfPlus(delta, rounds);
  }

  lemma ShareRatio(wins: nat, total: nat)
    ensures ShareReal(wins, total) == RatioReal(ShareNum(wins, total), ShareDen(total))
  {
  }

  lemma UtilityRatio(damage: nat, flashes: nat, rounds: nat)
    requires rounds > 0
    ensures UtilityReal(damage, flashes, rounds) ==
            RatioReal(7 * Within(damage, 30 * rounds) + 90 * Within(2 * flashes, rounds), 300 * rounds)
  {
    var n1, n2 := Within(damage, 30 * rounds), Within(2 * flashes, rounds);
    ClampRatio(damage, 30 * rounds);
    ClampRatio(2 * flashes, rounds);
    Weights();
    hide ClampReal;
    hide Within;
    hide RatioReal;
    assert 300 * rounds == 1 * (10 * (30 * rounds)) && 300 * rounds == 30 * (10 * rounds);
    Rescaled(RatioReal(n1, 30 * rounds), n1, 30 * rounds, 7, 10, 1, 300 * rounds);
    Rescaled(RatioReal(n2, rounds), n2, rounds, 3, 10, 30, 300 * rounds);
    ThreeTenths();
    SumRatio(7 * n1, 90 * n2, 300 * rounds);
  }

  lemma ThreeTenths()
    ensures RatioReal(3, 10) == 0.3 && RatioReal(7, 10) == 0.7
  {
  }

  /** The pieces are these integers over the common denominator. */
  lemma PiecesOver(m: RatingMetrics)
    requires m.eligibleRounds > 0
    ensures CommonDen(m) > 0
    ensures forall i :: 0 <= i < 6 ==> Pieces(m)[i] == RatioReal(PieceNums(m)[i], CommonDen(m))
  {
    var r, o, c := m.eligibleRounds as nat, ShareDen(m.openingWins + m.openingLosses), ShareDen(m.clutchOpportunities);
    Rating.CommonDenominator(r, o, c);
    Weights();
    var den := CommonDen(m);
    ClampRatio(m.directDamage, 160 * r);
    FragRatio(m.kills, m.deaths, r);
    ShareRatio(m.openingWins, m.openingWins + m.openingLosses);
    ClampRatio(2 * m.tradeKills, r);
    UtilityRatio(m.utilityDamage, m.flashAssists, r);
    ShareRatio(m.clutchWins, m.clutchOpportunities);
    hide ClampReal;
    hide FragReal;
    hide ShareReal;
    hide UtilityReal;
    hide RatioReal;
    hide Within;
    hide ShareNum;
    hide ShareDen;
    hide Times;
    PieceOver(ClampReal(RatioReal(m.directDamage, 160 * r), 0.0, 1.0), Within(m.directDamage, 160 * r), 160 * r, 3, 10, 15, o * c, den, 0.3);
    PieceOver(FragReal(m.kills, m.deaths, r), Within(r + m.kills - m.deaths, 2 * r), 2 * r, 3, 10, 1_200, o * c, den, 0.3);
    PieceOver(ShareReal(m.openingWins, m.openingWins + m.openingLosses), ShareNum(m.openingWins, m.openingWins + m.openingLosses),
              o, 3, 20, 1_200, r * c, den, 0.15);
    PieceOver(ClampReal(RatioReal(2 * m.tradeKills, r), 0.0, 1.0), Within(2 * m.tradeKills, r), r, 1, 10, 2_400, o * c, den, 0.1);
    PieceOver(UtilityReal(m.utilityDamage, m.flashAssists, r), 7 * Within(m.utilityDamage, 30 * r) + 90 * Within(2 * m.flashAssists, r),
              300 * r, 1, 10, 8, o * c, den, 0.1);
    PieceOver(ShareReal(m.clutchWins, m.clutchOpportunities), ShareNum(m.clutchWins, m.clutchOpportunities),
              c, 1, 20, 1_200, r * o, den, 0.05);
  }

  lemma SumsOver(x: seq<real>, n: seq<nat>, d: nat)
    requires |x| == 6 && |n| == 6 && d > 0 && forall i :: 0 <= i < 6 ==> x[i] == RatioReal(n[i], d)
    ensures forall k :: 0 <= k < 5 ==> Prefixes(x)[k] == RatioReal(SumNums(n)[k], d)
  {
    hide RatioReal;
    SumRatio(n[0], n[1], d);
    SumRatio(n[0] + n[1], n[2], d);
    SumRatio(n[0] + n[1] + n[2], n[3], d);
    SumRatio(n[0] + n[1] + n[2] + n[3], n[4], d);
    SumRatio(n[0] + n[1] + n[2] + n[3] + n[4], n[5], d);
  }

  lemma TimesRatio(k: nat, n: nat, d: nat)
    requires d > 0
    ensures k as real * RatioReal(n, d) == RatioReal(k * n, d)
  {
    RealProduct(k, n);
  }

  /** The five partial sums, the rating and ten thousand ratings, as integers over the common
      denominator, all fit `i64` in lowest terms. */
  predicate SumsFit(m: RatingMetrics)
    requires CommonDen(m) > 0
  {
    var sums, d := SumNums(PieceNums(m)), CommonDen(m);
    && (forall k :: 0 <= k < 5 ==> FitsReduced(sums[k], d))
    && FitsReduced(2 * sums[4], d)
    && FitsReduced(20_000 * sums[4], d)
  }

  /** A score is computed exactly when seven integers of the counters fit in lowest terms: a
      condition a caller can compute. */
  lemma ScoreSucceedsIffSumsFit(m: RatingMetrics, e: RatingEvidenceBundle)
    requires m.eligibleRounds > 0 && m.clutchWins <= m.clutchOpportunities
    ensures CommonDen(m) > 0 && (ScoreOf(m, e).Ok? <==> SumsFit(m))
  {
    hide ScoreOf;
    hide Pieces;
    hide PieceNums;
    hide FitsReduced;
    hide Representable;
    hide RatioReal;
    hide RatingReal;
    PiecesOver(m);
    hide CommonDen;
    var sums, d := SumNums(PieceNums(m)), CommonDen(m);
    SumsOver(Pieces(m), PieceNums(m), d);
    RatingIsTwice(m);
    TimesRatio(2, sums[4], d);
    TimesRatio(20_000, sums[4], d);
    hide Prefixes;
    hide SumNums;
    forall k | 0 <= k < 5 ensures Representable(PartialSums(m)[k]) <==> FitsReduced(sums[k], d) {
      RepresentableIff(sums[k], d);
    }
    RepresentableIff(2 * sums[4], d);
    RepresentableIff(20_000 * sums[4], d);
    ScoreSucceedsIff(m, e);
  }

  // ----- It does overflow

  const CROWDED := RatingMetrics(
    eligibleRounds := 0x8000_0000, directDamage := 0, kills := 1, deaths := 0, openingWins := 1,
    openingLosses := 3_486_784_400, tradeKills := 0, utilityDamage := 0, flashAssists := 0,
    clutchWins := 0, clutchOpportunities := 0)

  /** The second partial sum of `CROWDED`: three tenths of just over one half, plus a share of one
      opening duel in 3^20. */
  const CROWDED_NUM: nat := 7487812490883242897
  const CROWDED_DEN: nat := 49918749901659832320

  lemma CrowdedInLowestTerms()
    ensures Gcd(Abs(CROWDED_NUM), CROWDED_DEN) == 1
  {
    CombinationCoprime(CROWDED_NUM, CROWDED_DEN, 12767809078474179953, -1915171363212213937);
  }

  lemma CrowdedSum()
    ensures PartialSums(CROWDED)[1] == RatioReal(CROWDED_NUM, CROWDED_DEN)
  {
  }

  /** 2^31 rounds and 3^20 opening duels, all else nearly zero: the counters are consistent, yet the
      sum of the first three components has a denominator of 66 bits. */
  lemma CrowdedOverflows(e: RatingEvidenceBundle)
    ensures ScoreOf(CROWDED, e) == Err(Overflow)
  {
    CrowdedInLowestTerms();
    CrowdedSum();
    hide Gcd;
    hide PartialSums;
    hide RatioReal;
    hide Representable;
    TooFine(CROWDED_NUM, CROWDED_DEN);
    ScoreSucceedsIff(CROWDED, e);
  }
}
