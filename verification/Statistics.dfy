/** Median and median absolute deviation (crates/openfrag-domain/src/baseline.rs). */
module Statistics {
  import opened Prelude
  import opened Ordering
  import opened Exact

  datatype StatsError = EmptyStatistics | StatsExact(error: ExactError)

  datatype RobustStats = RobustStats(median: Rational, mad: Rational, lower: Rational, upper: Rational)

  function Lift(r: Result<Rational, ExactError>): Result<Rational, StatsError> {
    if r.Ok? then Ok(r.value) else Err(StatsExact(r.error))
  }

  function Average(a: Rational, b: Rational): Result<Rational, ExactError> {
    var sum :- CheckedAdd(a, b);
    CheckedDiv(sum, FromInteger(2))
  }

  function Median(values: seq<Rational>): Result<Rational, StatsError> {
    if values == [] then Err(EmptyStatistics)
    else
      var ordered := StableSort(values, RatLe);
      var middle := |ordered| / 2;
      if |ordered| % 2 == 1 then Ok(ordered[middle])
      else Lift(Average(ordered[middle - 1], ordered[middle]))
  }

  function Deviation(value: Rational, center: Rational): Result<Rational, ExactError> {
    var difference :- CheckedSub(value, center);
    CheckedAbs(difference)
  }

  /** The deviations, or the first error. */
  function Deviations(values: seq<Rational>, center: Rational): (r: Result<seq<Rational>, StatsError>)
    ensures r.Ok? ==> |r.value| == |values|
    ensures r.Ok? ==> forall i :: 0 <= i < |values| ==> Deviation(values[i], center) == Ok(r.value[i])
    ensures r.Err? ==> exists i :: 0 <= i < |values| && Deviation(values[i], center).Err? &&
                                   r.error == StatsExact(Deviation(values[i], center).error)
  {
    if values == [] then Ok([])
    else
      var first := Deviation(values[0], center);
      if first.Err? then Err(StatsExact(first.error))
      else
        var rest :- Deviations(values[1..], center);
        Ok([first.value] + rest)
  }

  function RobustStatsOf(values: seq<Rational>, minimum: Rational, maximum: Rational): Result<RobustStats, StatsError> {
    var center :- Median(values);
    var deviations :- Deviations(values, center);
    var mad :- Median(deviations);
    var spread :- Lift(CheckedMul(mad, FromInteger(2)));
    var lower :- Lift(CheckedSub(center, spread));
    var upper :- Lift(CheckedAdd(center, spread));
    Ok(RobustStats(center, mad, Clamp(lower, minimum, maximum), Clamp(upper, minimum, maximum)))
  }

  // ----- The median splits the values in halves

  function AbsReal(x: real): real {
    if x < 0.0 then -x else x
  }

  lemma AverageValue(a: Rational, b: Rational)
    ensures Average(a, b).Ok? ==> Value(Average(a, b).value) == (Value(a) + Value(b)) / 2.0
    ensures Average(a, b).Err? ==> Average(a, b).error == Overflow
  {
    hide Value;
    AddIsExact(a, b);
    if CheckedAdd(a, b).Ok? {
      DivIsExact(CheckedAdd(a, b).value, FromInteger(2));
    }
  }

  /** Where the median lies in the sorted values: at or between the two middle ones. */
  lemma {:induction false} MedianBetween(values: seq<Rational>)
    requires Median(values).Ok?
    ensures var s := StableSort(values, RatLe); var n := |values|;
      n > 0 && |s| == n && Value(s[(n - 1) / 2]) <= Value(Median(values).value) <= Value(s[n / 2])
  {
    hide StableSort;
    hide Value;
    hide RatLe;
    hide Average;
    var s := StableSort(values, RatLe);
    var n := |values|;
    var k := n / 2;
    if n % 2 == 0 {
      assert (n - 1) / 2 == k - 1;
      SortRatSorts(values);
      assert RatLe(s[k - 1], s[k]);
      MiddlesOrdered(s[k - 1], s[k]);
    } else {
      assert (n - 1) / 2 == k;
    }
  }

  lemma {:induction false} SortRatSorts(values: seq<Rational>)
    ensures Sorted(StableSort(values, RatLe), RatLe)
  {
    hide Value;
    hide RatLe;
    RatOrder();
    SortSorts(values, RatLe);
  }

  lemma MiddlesOrdered(a: Rational, b: Rational)
    requires RatLe(a, b) && Average(a, b).Ok?
    ensures Value(a) <= Value(Average(a, b).value) <= Value(b)
  {
    hide Value;
    hide Average;
    AverageValue(a, b);
    CmpIsValueOrder(a, b);
  }

  /** The median of values inside an interval lies inside it. */
  lemma MedianWithin(values: seq<Rational>, lo: real, hi: real)
    requires Median(values).Ok?
    requires forall v :: v in values ==> lo <= Value(v) <= hi
    ensures lo <= Value(Median(values).value) <= hi
  {
    hide Value;
    hide Median;
    MedianBetween(values);
    var s := StableSort(values, RatLe);
    SameElements(s, values);
    assert s[(|values| - 1) / 2] in values && s[|values| / 2] in values;
  }

  lemma {:induction false} SortedPrefixCount(s: seq<Rational>, keep: Rational -> bool, k: nat)
    requires k <= |s|
    requires forall i :: 0 <= i < k ==> keep(s[i])
    ensures |Filter(s, keep)| >= k
  {
    if k > 0 {
      SortedPrefixCount(s[1..], keep, k - 1);
    }
  }

  /** At least half of the values do not exceed the median. */
  lemma {:induction false} HalfAtMostMedian(values: seq<Rational>, keep: Rational -> bool)
    requires Median(values).Ok?
    requires forall v: Rational :: keep(v) <==> Value(v) <= Value(Median(values).value)
    ensures 2 * |Filter(values, keep)| >= |values|
  {
    hide Value;
    hide RatLe;
    hide Median;
    hide StableSort;
    var s := StableSort(values, RatLe);
    var n := |values|;
    RatOrder();
    SortRatSorts(values);
    MedianBetween(values);
    forall i | 0 <= i < (n + 1) / 2
      ensures keep(s[i])
    {
      assert i == (n - 1) / 2 || RatLe(s[i], s[(n - 1) / 2]);
    }
    SortedPrefixCount(s, keep, (n + 1) / 2);
    FilterSort(values, RatLe, keep);
  }

  // ----- Deviations

  lemma AbsValue(d: Rational)
    ensures CheckedAbs(d).Ok? ==> Value(CheckedAbs(d).value) == AbsReal(Value(d))
    ensures CheckedAbs(d).Err? ==> CheckedAbs(d).error == Overflow
  {
    CmpIsValueOrder(d, ZERO);
  }

  lemma DeviationValue(value: Rational, center: Rational)
    ensures Deviation(value, center).Ok? ==>
            Value(Deviation(value, center).value) == AbsReal(Value(value) - Value(center))
    ensures Deviation(value, center).Err? ==> Deviation(value, center).error == Overflow
  {
    hide Value;
    hide CheckedSub;
    hide CheckedAbs;
    SubIsExactIff(value, center);
    if CheckedSub(value, center).Ok? {
      AbsValue(CheckedSub(value, center).value);
    }
  }

  lemma {:induction false} FilterMatches(values: seq<Rational>, devs: seq<Rational>,
                                         near: Rational -> bool, small: Rational -> bool)
    requires |values| == |devs|
    requires forall i :: 0 <= i < |values| ==> (near(values[i]) <==> small(devs[i]))
    ensures |Filter(values, near)| == |Filter(devs, small)|
  {
    if values != [] {
      FilterMatches(values[1..], devs[1..], near, small);
    }
  }

  predicate Within(v: Rational, stats: RobustStats) {
    AbsReal(Value(v) - Value(stats.median)) <= Value(stats.mad)
  }

  /** Successful statistics: the range is ordered and inside the limits, and at least half of the
      values lie within one MAD of the median. */
  lemma RobustStatsSound(values: seq<Rational>, minimum: Rational, maximum: Rational)
    requires RobustStatsOf(values, minimum, maximum).Ok?
    requires forall v :: v in values ==> Value(minimum) <= Value(v) <= Value(maximum)
    ensures var stats := RobustStatsOf(values, minimum, maximum).value;
      && Value(minimum) <= Value(stats.lower) <= Value(stats.median) <= Value(stats.upper) <= Value(maximum)
      && 0.0 <= Value(stats.mad)
      && 2 * |Filter(values, (v: Rational) => Within(v, stats))| >= |values|
  {
    hide Value;
    hide Median;
    hide Deviation;
    hide CheckedMul;
    hide CheckedAdd;
    hide CheckedSub;
    hide Clamp;
    hide Within;
    var stats := RobustStatsOf(values, minimum, maximum).value;
    MedianWithin(values, Value(minimum), Value(maximum));
    MadNonnegative(values, stats.median);
    RangeOrdered(values, minimum, maximum);
    HalfWithinMad(values, stats);
  }

  lemma {:induction false} MadNonnegative(values: seq<Rational>, center: Rational)
    requires Deviations(values, center).Ok? && Median(Deviations(values, center).value).Ok?
    ensures 0.0 <= Value(Median(Deviations(values, center).value).value)
  {
    hide Value;
    hide Median;
    hide Deviation;
    var devs := Deviations(values, center).value;
    MedianBetween(devs);
    var s := StableSort(devs, RatLe);
    SameElements(s, devs);
    var v := s[(|devs| - 1) / 2];
    assert v in devs;
    var i :| 0 <= i < |devs| && devs[i] == v;
    DeviationValue(values[i], center);
  }

  lemma RangeOrdered(values: seq<Rational>, minimum: Rational, maximum: Rational)
    requires RobustStatsOf(values, minimum, maximum).Ok?
    requires var stats := RobustStatsOf(values, minimum, maximum).value;
      Value(minimum) <= Value(stats.median) <= Value(maximum) && 0.0 <= Value(stats.mad)
    ensures var stats := RobustStatsOf(values, minimum, maximum).value;
      Value(minimum) <= Value(stats.lower) <= Value(stats.median) <= Value(stats.upper) <= Value(maximum)
  {
    hide Value;
    hide Median;
    hide CheckedMul;
    hide CheckedSub;
    hide CheckedAdd;
    hide Clamp;
    var stats := RobustStatsOf(values, minimum, maximum).value;
    MulIsExact(stats.mad, FromInteger(2));
    var spread := CheckedMul(stats.mad, FromInteger(2)).value;
    SubIsExactIff(stats.median, spread);
    AddIsExact(stats.median, spread);
    ClampValue(CheckedSub(stats.median, spread).value, minimum, maximum);
    ClampValue(CheckedAdd(stats.median, spread).value, minimum, maximum);
  }

  lemma HalfWithinMad(values: seq<Rational>, stats: RobustStats)
    requires Deviations(values, stats.median).Ok?
    requires Median(Deviations(values, stats.median).value) == Ok(stats.mad)
    ensures 2 * |Filter(values, (v: Rational) => Within(v, stats))| >= |values|
  {
    hide Value;
    hide Median;
    hide Deviation;
    var devs := Deviations(values, stats.median).value;
    var small := (d: Rational) => Value(d) <= Value(stats.mad);
    HalfAtMostMedian(devs, small);
    forall i | 0 <= i < |values|
      ensures Within(values[i], stats) <==> small(devs[i])
    {
      DeviationValue(values[i], stats.median);
    }
    FilterMatches(values, devs, (v: Rational) => Within(v, stats), small);
  }

  // ----- Permutation invariance

  lemma {:induction false} SortRationals(values: seq<Rational>, others: seq<Rational>)
    requires multiset(values) == multiset(others)
    ensures StableSort(values, RatLe) == StableSort(others, RatLe)
  {
    hide RatLe;
    hide Value;
    RatOrder();
    AntisymmetricTies(values, RatLe);
    SortPermutation(values, others, RatLe);
  }

  lemma MedianPermutation(values: seq<Rational>, others: seq<Rational>)
    requires multiset(values) == multiset(others)
    ensures Median(values) == Median(others)
  {
    hide StableSort;
    hide Average;
    assert |multiset(values)| == |values| && |multiset(others)| == |others|;
    SortRationals(values, others);
  }

  lemma {:induction false} DeviationsPermutation(values: seq<Rational>, others: seq<Rational>, center: Rational)
    requires multiset(values) == multiset(others)
    requires Deviations(values, center).Ok? && Deviations(others, center).Ok?
    ensures multiset(Deviations(values, center).value) == multiset(Deviations(others, center).value)
  {
    hide Deviation;
    var devs: seq<Ratio> := Deviations(values, center).value;
    var devs': seq<Ratio> := Deviations(others, center).value;
    forall d: Ratio
      ensures multiset(devs)[d] == multiset(devs')[d]
    {
      var gives := (v: Rational) => Deviation(v, center).Ok? && Deviation(v, center).value == d;
      CountIsFilter(values, devs, d, gives);
      CountIsFilter(others, devs', d, gives);
      SortRationals(values, others);
      RatOrder();
      FilterSort(values, RatLe, gives);
      FilterSort(others, RatLe, gives);
    }
  }

  lemma {:induction false} CountIsFilter(values: seq<Rational>, devs: seq<Ratio>, d: Ratio, gives: Rational -> bool)
    requires |values| == |devs|
    requires forall i :: 0 <= i < |values| ==> (gives(values[i]) <==> devs[i] == d)
    ensures multiset(devs)[d] == |Filter(values, gives)|
  {
    if values != [] {
      CountIsFilter(values[1..], devs[1..], d, gives);
      assert devs == [devs[0]] + devs[1..];
    }
  }

  /** The statistics, errors included, do not depend on the order of the values. */
  lemma RobustStatsPermutation(values: seq<Rational>, others: seq<Rational>, minimum: Rational, maximum: Rational)
    requires multiset(values) == multiset(others)
    ensures RobustStatsOf(values, minimum, maximum) == RobustStatsOf(others, minimum, maximum)
  {
    hide Deviation;
    hide Median;
    MedianPermutation(values, others);
    if Median(values).Ok? {
      var center := Median(values).value;
      DeviationsFailTogether(values, others, center);
      if Deviations(values, center).Ok? {
        DeviationsPermutation(values, others, center);
        MedianPermutation(Deviations(values, center).value, Deviations(others, center).value);
      }
    }
  }

  lemma {:induction false} DeviationsFailTogether(values: seq<Rational>, others: seq<Rational>, center: Rational)
    requires multiset(values) == multiset(others)
    ensures Deviations(values, center).Ok? <==> Deviations(others, center).Ok?
    ensures Deviations(values, center).Err? ==> Deviations(values, center) == Deviations(others, center)
  {
    hide Deviation;
    SameElements(values, others);
    DeviationsError(values, center);
    DeviationsError(others, center);
    forall i | 0 <= i < |values|
      ensures values[i] in others
    {
    }
    forall i | 0 <= i < |others|
      ensures others[i] in values
    {
    }
  }

  lemma {:induction false} DeviationsError(values: seq<Rational>, center: Rational)
    ensures Deviations(values, center).Err? <==> exists v :: v in values && Deviation(v, center).Err?
    ensures Deviations(values, center).Err? ==> Deviations(values, center).error == StatsExact(Overflow)
  {
    if Deviations(values, center).Err? {
      var i :| 0 <= i < |values| && Deviation(values[i], center).Err? &&
               Deviations(values, center).error == StatsExact(Deviation(values[i], center).error);
      DeviationValue(values[i], center);
      assert values[i] in values;
    }
  }

  // ----- Statistics of ratings never overflow

  /** A value in [0, bound] that is a fraction over `den`. */
  ghost predicate Small(v: Rational, den: int, bound: nat) {
    Over(Value(v), den) && 0.0 <= Value(v) <= bound as real
  }

  lemma OverHalf(x: real, den: int)
    requires Over(x, den)
    ensures Over(x / 2.0, 2 * den)
  {
    var n: int :| x == RatioReal(n, den);
    assert n as real == x * den as real;
    QuotientIs(n as real, (2 * den) as real, x / 2.0);
    assert x / 2.0 == RatioReal(n, 2 * den);
  }

  lemma OverNegate(x: real, den: int)
    requires Over(x, den)
    ensures Over(-x, den)
  {
    var n: int :| x == RatioReal(n, den);
    assert -x == RatioReal(-n, den);
  }

  /** A result whose exact value is known and small is successful. */
  lemma ExactFits(r: Result<Rational, ExactError>, x: real, den: int, bound: nat)
    requires IsExactly(r, x) && Over(x, den) && -(bound as real) <= x <= bound as real
    requires den <= I64_MAX && bound * den <= I64_MAX
    ensures r.Ok? && Value(r.value) == x
  {
    OverFits(x, den, bound);
  }

  lemma AverageFits(a: Rational, b: Rational, den: int, bound: nat)
    requires Small(a, den, bound) && Small(b, den, bound)
    requires 2 * den <= I64_MAX && (2 * bound) * (2 * den) <= I64_MAX
    ensures Average(a, b).Ok? && Over(Value(Average(a, b).value), 2 * den)
  {
    hide Value;
    hide Over;
    hide CheckedAdd;
    hide CheckedDiv;
    var sum := Value(a) + Value(b);
    OverAdd(Value(a), Value(b), den);
    AddIsExact(a, b);
    OverDen(sum, den);
    MulMonotone(den, 2 * den, 2 * bound);
    ExactFits(CheckedAdd(a, b), sum, den, 2 * bound);
    OverHalf(sum, den);
    DivIsExact(CheckedAdd(a, b).value, FromInteger(2));
    ExactFits(CheckedDiv(CheckedAdd(a, b).value, FromInteger(2)), sum / 2.0, 2 * den, 2 * bound);
  }

  lemma OverDen(x: real, den: int)
    requires Over(x, den)
    ensures den > 0
  {
  }

  lemma MedianFits(values: seq<Rational>, den: int, bound: nat)
    requires values != [] && forall v :: v in values ==> Small(v, den, bound)
    requires 2 * den <= I64_MAX && (2 * bound) * (2 * den) <= I64_MAX
    ensures Median(values).Ok? && Small(Median(values).value, 2 * den, bound)
  {
    hide Value;
    hide Over;
    hide Average;
    var s := StableSort(values, RatLe);
    SameElements(s, values);
    var middle := |s| / 2;
    assert s[middle] in values;
    if |s| % 2 == 1 {
      OverDen(Value(s[middle]), den);
      OverWiden(Value(s[middle]), den, 2);
    } else {
      assert s[middle - 1] in values;
      AverageFits(s[middle - 1], s[middle], den, bound);
    }
    MedianWithin(values, 0.0, bound as real);
  }

  lemma NonnegativeNumerator(a: Rational)
    requires 0.0 <= Value(a)
    ensures a.num >= 0
  {
    CmpIsValueOrder(a, ZERO);
  }

  /** Subtracting a small value is defined. */
  lemma SubFits(a: Rational, b: Rational, den: int, bound: nat)
    requires Over(Value(a), den) && Over(Value(b), den) && 0.0 <= Value(b)
    requires -(bound as real) <= Value(a) - Value(b) <= bound as real
    requires den <= I64_MAX && bound * den <= I64_MAX
    ensures CheckedSub(a, b).Ok? && Value(CheckedSub(a, b).value) == Value(a) - Value(b)
    ensures Over(Value(a) - Value(b), den)
  {
    hide Value;
    hide Over;
    hide CheckedSub;
    NonnegativeNumerator(b);
    OverNegate(Value(b), den);
    OverAdd(Value(a), -Value(b), den);
    SubIsExactIff(a, b);
    ExactFits(CheckedSub(a, b), Value(a) - Value(b), den, bound);
  }

  lemma AbsFits(d: Rational, den: int, bound: nat)
    requires Over(Value(d), den) && -(bound as real) <= Value(d) <= bound as real
    requires d.num > I64_MIN
    ensures CheckedAbs(d).Ok? && Small(CheckedAbs(d).value, den, bound)
  {
    AbsValue(d);
    OverNegate(Value(d), den);
    hide Over;
    hide Value;
  }

  /** The numerator of a small fraction is small: `-2^63` is never reached. */
  lemma SmallNumerator(d: Rational, den: int, bound: nat)
    requires Over(Value(d), den) && -(bound as real) <= Value(d) <= bound as real
    requires den <= I64_MAX && bound * den <= I64_MAX
    ensures d.num > I64_MIN
  {
    var n: int :| Value(d) == RatioReal(n, den);
    RepresentsValue(d, n, den);
    SameRatio(d, n, den);
    NumeratorBound(Value(d), n, den, bound);
  }

  lemma NumeratorBound(x: real, n: int, den: int, bound: nat)
    requires den > 0 && x == RatioReal(n, den) && -(bound as real) <= x <= bound as real
    ensures Abs(n) <= bound * den
  {
    var r := den as real;
    assert n as real == x * r;
    RealProduct(bound, den);
    assert -(bound as real) * r <= x * r <= bound as real * r;
  }

  /** The canonical form of `n / den` has a numerator no larger than `n`. */
  lemma SameRatio(d: Rational, n: int, den: int)
    requires den > 0 && Represents(d, n, den)
    ensures Abs(d.num) <= Abs(n)
  {
    Reduced(n, den);
    var g := Gcd(Abs(n), den);
    var a, b := TruncDiv(n, g), TruncDiv(den, g);
    Rescale(d, a, b, g);
    SameFraction(d, a, b);
    hide Gcd;
    hide TruncDiv;
    FactorAtMost(a, g, n);
  }

  lemma DeviationFits(v: Rational, center: Rational, den: int, bound: nat)
    requires Small(v, den, bound) && Small(center, den, bound)
    requires den <= I64_MAX && bound * den <= I64_MAX
    ensures Deviation(v, center).Ok? && Small(Deviation(v, center).value, den, bound)
  {
    hide Value;
    hide Over;
    hide CheckedSub;
    hide CheckedAbs;
    SubFits(v, center, den, bound);
    var d := CheckedSub(v, center).value;
    SmallNumerator(d, den, bound);
    AbsFits(d, den, bound);
  }

  /** The statistics of whole basis points between 0 and 20000, in any number, never overflow. */
  lemma RatingStatsNeverOverflow(values: seq<Rational>, maximum: Rational)
    requires values != [] && forall v :: v in values ==> Small(v, 1, 20_000)
    ensures RobustStatsOf(values, ZERO, maximum).Ok?
  {
    hide Value;
    hide Over;
    hide Median;
    hide Deviation;
    hide CheckedMul;
    hide CheckedSub;
    hide CheckedAdd;
    MedianFits(values, 1, 20_000);
    var center := Median(values).value;
    RatingDeviationsFit(values, center);
    var devs := Deviations(values, center).value;
    MedianFits(devs, 2, 20_000);
    var mad := Median(devs).value;
    MulIsExact(mad, FromInteger(2));
    OverAdd(Value(mad), Value(mad), 4);
    var spread := CheckedMul(mad, FromInteger(2));
    ExactFits(spread, Value(mad) * 2.0, 4, 40_000);
    OverWiden(Value(center), 2, 2);
    SubFits(center, spread.value, 4, 60_000);
    AddIsExact(center, spread.value);
    OverAdd(Value(center), Value(spread.value), 4);
    ExactFits(CheckedAdd(center, spread.value), Value(center) + Value(spread.value), 4, 60_000);
  }

  lemma {:induction false} RatingDeviationsFit(values: seq<Rational>, center: Rational)
    requires values != [] && forall v :: v in values ==> Small(v, 1, 20_000)
    requires Small(center, 2, 20_000)
    ensures Deviations(values, center).Ok?
    ensures forall d :: d in Deviations(values, center).value ==> Small(d, 2, 20_000)
  {
    hide Deviation;
    forall v | v in values
      ensures Deviation(v, center).Ok? && Small(Deviation(v, center).value, 2, 20_000)
    {
      OverWiden(Value(v), 1, 2);
      DeviationFits(v, center, 2, 20_000);
    }
    hide Small;
    DeviationsError(values, center);
    var devs := Deviations(values, center).value;
    forall d | d in devs
      ensures Small(d, 2, 20_000)
    {
      var i :| 0 <= i < |devs| && devs[i] == d;
      assert values[i] in values;
    }
  }

  // ----- What the statistics are, over the reals

  ghost function Reals(values: seq<Rational>): (r: seq<real>)
    ensures |r| == |values| && forall i :: 0 <= i < |values| ==> r[i] == Value(values[i])
  {
    seq(|values|, i requires 0 <= i < |values| => Value(values[i]))
  }

  ghost function DistancesFrom(x: seq<real>, center: real): (r: seq<real>)
    ensures |r| == |x| && forall i :: 0 <= i < |x| ==> r[i] == if x[i] < center then center - x[i] else x[i] - center
  {
    seq(|x|, i requires 0 <= i < |x| => if x[i] < center then center - x[i] else x[i] - center)
  }

  ghost predicate Ascending(x: seq<real>) {
    forall i, j :: 0 <= i < j < |x| ==> x[i] <= x[j]
  }

  /** Halfway between the two middle ones of the values in ascending order; of an odd number of them
      these two are the same. */
  ghost predicate IsMedian(m: real, x: seq<real>) {
    exists s :: multiset(s) == multiset(x) && s != [] && Ascending(s) && m == (s[(|s| - 1) / 2] + s[|s| / 2]) / 2.0
  }

  lemma RealsJoin(a: seq<Rational>, b: seq<Rational>)
    ensures Reals(a + b) == Reals(a) + Reals(b)
  {
    hide Value;
    var x, y := Reals(a + b), Reals(a) + Reals(b);
    forall i | 0 <= i < |a + b|
      ensures x[i] == y[i]
    {
      if i < |a| {
        assert (a + b)[i] == a[i];
      } else {
        assert (a + b)[i] == b[i - |a|];
      }
    }
    assert x == y;
  }

  lemma Without<T>(a: seq<T>, i: nat)
    requires i < |a|
    ensures a == a[..i] + ([a[i]] + a[i + 1..])
    ensures multiset(a) == multiset(a[..i] + a[i + 1..]) + multiset{a[i]}
  {
    assert a == a[..i] + ([a[i]] + a[i + 1..]);
    assert multiset(a) == multiset(a[..i]) + multiset([a[i]] + a[i + 1..]);
  }

  lemma SameWithout<T>(a: seq<T>, b: seq<T>, i: nat)
    requires multiset(a) == multiset(b) && a != [] && i < |b| && b[i] == a[0]
    ensures multiset(a[1..]) == multiset(b[..i] + b[i + 1..])
  {
    Without(a, 0);
    Without(b, i);
    assert a[..0] + a[1..] == a[1..];
    assert multiset(a[1..]) == multiset(a) - multiset{a[0]};
    assert multiset(b[..i] + b[i + 1..]) == multiset(b) - multiset{b[i]};
  }

  lemma RealsWithout(a: seq<Rational>, i: nat)
    requires i < |a|
    ensures multiset(Reals(a)) == multiset(Reals(a[..i] + a[i + 1..])) + multiset{Value(a[i])}
  {
    hide Value;
    var rest := a[..i] + a[i + 1..];
    RealsJoin(a[..i], a[i + 1..]);
    var x := Reals(a);
    Without(x, i);
    assert Reals(rest) == x[..i] + x[i + 1..];
  }

  lemma {:induction false} RealsCount(a: seq<Rational>, b: seq<Rational>)
    requires multiset(a) == multiset(b)
    ensures multiset(Reals(a)) == multiset(Reals(b))
    decreases |a|
  {
    hide Value;
    hide Reals;
    if a == [] {
      assert |multiset(b)| == |b|;
    } else {
      assert a[0] in multiset(b);
      var i :| 0 <= i < |b| && b[i] == a[0];
      var rest := b[..i] + b[i + 1..];
      assert a[..0] + a[1..] == a[1..];
      SameWithout(a, b, i);
      RealsCount(a[1..], rest);
      RealsWithout(a, 0);
      RealsWithout(b, i);
    }
  }

  lemma {:induction false} SortedReals(values: seq<Rational>)
    requires values != []
    ensures |StableSort(values, RatLe)| == |values|
    ensures Ascending(Reals(StableSort(values, RatLe)))
    ensures multiset(Reals(StableSort(values, RatLe))) == multiset(Reals(values))
  {
    hide Value;
    hide StableSort;
    hide RatLe;
    SortRatSorts(values);
    RatOrder();
    var s := StableSort(values, RatLe);
    RealsCount(s, values);
    forall i, j | 0 <= i < j < |s|
      ensures Reals(s)[i] <= Reals(s)[j]
    {
      assert RatLe(s[i], s[j]);
    }
  }

  lemma MiddleIsMedian(m: real, x: seq<real>, s: seq<real>)
    requires multiset(s) == multiset(x) && s != [] && Ascending(s)
    requires m == (s[(|s| - 1) / 2] + s[|s| / 2]) / 2.0
    ensures IsMedian(m, x)
  {
    hide Ascending;
  }

  lemma MiddleValue(s: seq<Rational>, m: Rational)
    requires s != []
    requires if |s| % 2 == 1 then m == s[|s| / 2]
             else Average(s[|s| / 2 - 1], s[|s| / 2]) == Ok(m)
    ensures Value(m) == (Value(s[(|s| - 1) / 2]) + Value(s[|s| / 2])) / 2.0
  {
    hide Value;
    hide Average;
    if |s| % 2 == 0 {
      AverageValue(s[|s| / 2 - 1], s[|s| / 2]);
      assert (|s| - 1) / 2 == |s| / 2 - 1;
    } else {
      assert (|s| - 1) / 2 == |s| / 2;
    }
  }

  lemma MedianIs(values: seq<Rational>)
    requires Median(values).Ok?
    ensures IsMedian(Value(Median(values).value), Reals(values))
  {
    hide Value;
    hide Reals;
    hide RatLe;
    hide Average;
    hide StableSort;
    hide Ascending;
    hide IsMedian;
    var s := StableSort(values, RatLe);
    SortedReals(values);
    MiddleValue(s, Median(values).value);
    MiddleIsMedian(Value(Median(values).value), Reals(values), Reals(s));
  }

  /** The statistics are the median, the median of the distances from it, and the two points twice
      that away from it, kept inside the limits. */
  lemma RobustStatsAre(values: seq<Rational>, minimum: Rational, maximum: Rational)
    requires RobustStatsOf(values, minimum, maximum).Ok?
    ensures var stats := RobustStatsOf(values, minimum, maximum).value;
      var m, d := Value(stats.median), Value(stats.mad);
      && IsMedian(m, Reals(values)) && IsMedian(d, DistancesFrom(Reals(values), m))
      && Value(stats.lower) == ClampReal(m - 2.0 * d, Value(minimum), Value(maximum))
      && Value(stats.upper) == ClampReal(m + 2.0 * d, Value(minimum), Value(maximum))
  {
    hide Value;
    hide Median;
    hide Deviation;
    hide IsMedian;
    hide CheckedMul;
    hide CheckedAdd;
    hide CheckedSub;
    hide Clamp;
    hide ClampReal;
    var stats := RobustStatsOf(values, minimum, maximum).value;
    var devs := Deviations(values, stats.median).value;
    MedianIs(values);
    MedianIs(devs);
    forall i | 0 <= i < |values|
      ensures Reals(devs)[i] == DistancesFrom(Reals(values), Value(stats.median))[i]
    {
      DeviationValue(values[i], stats.median);
    }
    assert Reals(devs) == DistancesFrom(Reals(values), Value(stats.median));
    MulIsExact(stats.mad, FromInteger(2));
    var spread := CheckedMul(stats.mad, FromInteger(2)).value;
    SubIsExactIff(stats.median, spread);
    AddIsExact(stats.median, spread);
    ClampValue(CheckedSub(stats.median, spread).value, minimum, maximum);
    ClampValue(CheckedAdd(stats.median, spread).value, minimum, maximum);
  }
}
