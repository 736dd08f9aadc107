/** When the statistics of component values overflow (crates/openfrag-domain/src/baseline.rs:354-388).
    Component values are fractions between 0 and 1 whose denominators grow with the counters they
    come from; median and spread combine the denominators of up to four values. */
module ComponentStatistics {
  import opened Prelude
  import opened Ordering
  import opened Exact
  import opened Statistics
  import opened Baseline
  import opened Goals

  // ----- The exact condition, in integers over a common denominator

  predicate IntLe(a: int, b: int) {
    a <= b
  }

  /** The values are these numerators over `d`. */
  ghost predicate Matches(values: seq<Rational>, nums: seq<int>, d: nat)
    requires d > 0
  {
    |values| == |nums| && forall i :: 0 <= i < |nums| ==> Value(values[i]) == RatioReal(nums[i], d)
  }

  /** The sum of the two middle numerators; of an odd number of them, twice the middle one. */
  function Middles(nums: seq<int>): int
    requires nums != []
  {
    var s := StableSort(nums, IntLe);
    s[(|s| - 1) / 2] + s[|s| / 2]
  }

  /** The median of an even number of values adds the two middle ones and halves the sum. */
  predicate MedianComputable(nums: seq<int>, d: nat)
    requires nums != [] && d > 0
  {
    |nums| % 2 == 1 || (FitsReduced(Middles(nums), d) && FitsReduced(Middles(nums), 2 * d))
  }

  /** The distances from `center / (2 * d)`, over `2 * d`. */
  function Distances(nums: seq<int>, center: int): (r: seq<int>)
    ensures |r| == |nums| && forall i :: 0 <= i < |nums| ==> r[i] == Abs(2 * nums[i] - center)
  {
    seq(|nums|, i requires 0 <= i < |nums| => Abs(2 * nums[i] - center))
  }

  /** Everything the statistics compute fits `i64` in lowest terms: the median, the differences from
      it, their median, twice that, and the two ends of the range. */
  predicate StatsComputable(nums: seq<int>, d: nat)
    requires nums != [] && d > 0
  {
    var center := Middles(nums);
    var distances := Distances(nums, center);
    var spread := Middles(distances);
    && MedianComputable(nums, d)
    && (forall i :: 0 <= i < |nums| ==> FitsReduced(2 * nums[i] - center, 2 * d))
    && MedianComputable(distances, 2 * d)
    && FitsReduced(spread, 2 * d)
    && FitsReduced(center - spread, 2 * d)
    && FitsReduced(center + spread, 2 * d)
  }

  lemma OrderOverDenominator(a: Rational, b: Rational, m: int, n: int, d: nat)
    requires d > 0 && Value(a) == RatioReal(m, d) && Value(b) == RatioReal(n, d)
    ensures RatLe(a, b) <==> m <= n
  {
    hide Value;
    CmpIsValueOrder(a, b);
    SumRatio(m, n - m, d);
    RatioSign(n - m, d);
  }

  lemma RatioSign(k: int, d: nat)
    requires d > 0
    ensures RatioReal(k, d) >= 0.0 <==> k >= 0
  {
  }

  lemma {:induction false} InsertMatches(x: Rational, values: seq<Rational>, k: int, nums: seq<int>, d: nat)
    requires d > 0 && Matches(values, nums, d) && Value(x) == RatioReal(k, d)
    ensures Matches(Insert(x, values, RatLe), Insert(k, nums, IntLe), d)
    decreases |values|
  {
    hide Value;
    hide RatLe;
    hide RatioReal;
    if values != [] {
      OrderOverDenominator(x, values[0], k, nums[0], d);
      if k <= nums[0] {
        PrependMatches(x, values, k, nums, d);
      } else {
        TailMatches(values, nums, d);
        InsertMatches(x, values[1..], k, nums[1..], d);
        PrependMatches(values[0], Insert(x, values[1..], RatLe), nums[0], Insert(k, nums[1..], IntLe), d);
      }
    }
  }

  lemma PrependMatches(x: Rational, values: seq<Rational>, k: int, nums: seq<int>, d: nat)
    requires d > 0 && Matches(values, nums, d) && Value(x) == RatioReal(k, d)
    ensures Matches([x] + values, [k] + nums, d)
  {
    hide Value;
    hide RatioReal;
  }

  lemma TailMatches(values: seq<Rational>, nums: seq<int>, d: nat)
    requires d > 0 && Matches(values, nums, d) && values != []
    ensures Matches(values[1..], nums[1..], d)
  {
    hide Value;
    hide RatioReal;
  }

  lemma {:induction false} SortMatches(values: seq<Rational>, nums: seq<int>, d: nat)
    requires d > 0 && Matches(values, nums, d)
    ensures Matches(StableSort(values, RatLe), StableSort(nums, IntLe), d)
  {
    hide Value;
    hide RatLe;
    hide RatioReal;
    if values != [] {
      SortMatches(values[1..], nums[1..], d);
      InsertMatches(values[0], StableSort(values[1..], RatLe), nums[0], StableSort(nums[1..], IntLe), d);
    }
  }

  lemma AverageSucceedsIff(a: Rational, b: Rational)
    ensures Average(a, b).Ok? <==>
            Representable(Value(a) + Value(b)) && Representable((Value(a) + Value(b)) / 2.0)
  {
    hide Value;
    hide Representable;
    AddIsExact(a, b);
    if CheckedAdd(a, b).Ok? {
      DivIsExact(CheckedAdd(a, b).value, FromInteger(2));
    }
  }

  lemma HalfRatio(n: int, d: nat)
    requires d > 0
    ensures RatioReal(n, d) / 2.0 == RatioReal(n, 2 * d) && RatioReal(n, d) == RatioReal(2 * n, 2 * d)
  {
    RatioScale(2, n, d);
    QuotientIs(n as real, (2 * d) as real, RatioReal(n, d) / 2.0);
  }

  /** The median exists exactly when the sum of the two middle values and its half are representable. */
  lemma MedianSucceedsIff(values: seq<Rational>, nums: seq<int>, d: nat)
    requires values != [] && d > 0 && Matches(values, nums, d)
    ensures Median(values).Ok? <==> MedianComputable(nums, d)
    ensures Median(values).Ok? ==> Value(Median(values).value) == RatioReal(Middles(nums), 2 * d)
    ensures Median(values).Err? ==> Median(values).error == StatsExact(Overflow)
  {
    hide Value;
    hide RatLe;
    hide RatioReal;
    hide StableSort;
    hide Average;
    hide Representable;
    hide FitsReduced;
    SortMatches(values, nums, d);
    var s, t := StableSort(values, RatLe), StableSort(nums, IntLe);
    if |s| % 2 == 1 {
      HalfRatio(t[|s| / 2], d);
    } else {
      AverageOver(s[|s| / 2 - 1], s[|s| / 2], t[|s| / 2 - 1], t[|s| / 2], d);
    }
  }

  lemma AverageOver(a: Rational, b: Rational, m: int, n: int, d: nat)
    requires d > 0 && Value(a) == RatioReal(m, d) && Value(b) == RatioReal(n, d)
    ensures Average(a, b).Ok? <==> FitsReduced(m + n, d) && FitsReduced(m + n, 2 * d)
    ensures Average(a, b).Ok? ==> Value(Average(a, b).value) == RatioReal(m + n, 2 * d)
    ensures Average(a, b).Err? ==> Average(a, b).error == Overflow
  {
    hide Value;
    hide RatioReal;
    hide Average;
    hide Representable;
    hide FitsReduced;
    SumRatio(m, n, d);
    HalfRatio(m + n, d);
    AverageSucceedsIff(a, b);
    AverageValue(a, b);
    RepresentableIff(m + n, d);
    RepresentableIff(m + n, 2 * d);
  }

  // ----- Unit values: deviations and spread

  ghost predicate Unit(v: Rational) {
    0.0 <= Value(v) <= 1.0
  }

  lemma UnitNumerator(v: Rational)
    requires Unit(v)
    ensures 0 <= v.num <= v.den
  {
    CmpIsValueOrder(ZERO, v);
    CmpIsValueOrder(v, ONE);
  }

  lemma DifferenceOver(v: Rational, center: Rational, n: int, c: int, d: nat)
    requires d > 0 && Value(v) == RatioReal(n, d) && Value(center) == RatioReal(c, 2 * d)
    ensures Value(v) - Value(center) == RatioReal(2 * n - c, 2 * d)
    ensures AbsReal(Value(v) - Value(center)) == RatioReal(Abs(2 * n - c), 2 * d)
  {
    hide Value;
    hide RatioReal;
    var k, e := 2 * n - c, 2 * d;
    HalfRatio(n, d);
    SumRatio(k, c, e);
    RatioSign(k, e);
    SumRatio(k, -k, e);
    NoRatio(e);
  }

  lemma NoRatio(d: nat)
    requires d > 0
    ensures RatioReal(0, d) == 0.0
  {
  }

  lemma DeviationSucceedsIff(v: Rational, center: Rational, n: int, c: int, d: nat)
    requires d > 0 && Value(v) == RatioReal(n, d) && Value(center) == RatioReal(c, 2 * d)
    requires Unit(v) && Unit(center)
    ensures Deviation(v, center).Ok? <==> FitsReduced(2 * n - c, 2 * d)
    ensures Deviation(v, center).Ok? ==> Value(Deviation(v, center).value) == RatioReal(Abs(2 * n - c), 2 * d)
    ensures Deviation(v, center).Ok? ==> Unit(Deviation(v, center).value)
  {
    UnitNumerator(center);
    hide Value;
    hide RatioReal;
    hide Representable;
    hide CheckedSub;
    SubIsExactIff(v, center);
    DifferenceOver(v, center, n, c, d);
    RepresentableIff(2 * n - c, 2 * d);
    DeviationValue(v, center);
    if CheckedSub(v, center).Ok? {
      var diff := CheckedSub(v, center).value;
      AboveMinusOne(diff);
    }
  }

  lemma AboveMinusOne(v: Rational)
    requires -1.0 <= Value(v)
    ensures v.num > I64_MIN
  {
    CmpIsValueOrder(Ratio(-1, 1), v);
  }

  lemma {:induction false} DeviationsSucceedIff(values: seq<Rational>, nums: seq<int>, d: nat, center: Rational, c: int)
    requires d > 0 && Matches(values, nums, d) && Value(center) == RatioReal(c, 2 * d)
    requires Unit(center) && forall v :: v in values ==> Unit(v)
    ensures Deviations(values, center).Ok? <==> forall i :: 0 <= i < |nums| ==> FitsReduced(2 * nums[i] - c, 2 * d)
    ensures Deviations(values, center).Ok? ==>
              && Matches(Deviations(values, center).value, Distances(nums, c), 2 * d)
              && forall v :: v in Deviations(values, center).value ==> Unit(v)
  {
    hide Value;
    hide RatioReal;
    hide Deviation;
    hide FitsReduced;
    hide Unit;
    forall i | 0 <= i < |values|
      ensures Deviation(values[i], center).Ok? <==> FitsReduced(2 * nums[i] - c, 2 * d)
      ensures Deviation(values[i], center).Ok? ==>
                Unit(Deviation(values[i], center).value) &&
                Value(Deviation(values[i], center).value) == RatioReal(Distances(nums, c)[i], 2 * d)
    {
      assert values[i] in values;
      DeviationSucceedsIff(values[i], center, nums[i], c, d);
    }
    DeviationsError(values, center);
  }

  /** The spread and the two ends of the range around `c / (2 * d)`. */
  lemma RangeSucceedsIff(center: Rational, mad: Rational, c: int, m: int, d: nat)
    requires d > 0 && Value(center) == RatioReal(c, 2 * d) && Value(mad) == RatioReal(m, 2 * (2 * d)) && Unit(mad)
    ensures var spread := CheckedMul(mad, FromInteger(2));
      && (spread.Ok? <==> FitsReduced(m, 2 * d))
      && (spread.Ok? ==> (CheckedSub(center, spread.value).Ok? <==> FitsReduced(c - m, 2 * d)))
      && (spread.Ok? ==> (CheckedAdd(center, spread.value).Ok? <==> FitsReduced(c + m, 2 * d)))
  {
    hide Value;
    hide Representable;
    hide CheckedMul;
    hide CheckedSub;
    hide CheckedAdd;
    hide FitsReduced;
    MulIsExact(mad, FromInteger(2));
    HalfRatio(m, 2 * d);
    var k := 2 * d;
    hide RatioReal;
    RepresentableIff(m, k);
    var spread := CheckedMul(mad, FromInteger(2));
    if spread.Ok? {
      NonnegativeNumerator(spread.value);
      SubIsExactIff(center, spread.value);
      AddIsExact(center, spread.value);
      SumRatio(c, m, k);
      SumRatio(c - m, m, k);
      RepresentableIff(c - m, k);
      RepresentableIff(c + m, k);
    }
  }

  /** The statistics of unit values exist exactly when everything they compute fits. */
  lemma StatsSucceedIff(values: seq<Rational>, nums: seq<int>, d: nat, maximum: Rational)
    requires values != [] && d > 0 && Matches(values, nums, d) && forall v :: v in values ==> Unit(v)
    ensures RobustStatsOf(values, ZERO, maximum).Ok? <==> StatsComputable(nums, d)
    ensures RobustStatsOf(values, ZERO, maximum).Err? ==> RobustStatsOf(values, ZERO, maximum).error == StatsExact(Overflow)
  {
    hide Value;
    hide RatioReal;
    hide Median;
    hide Deviations;
    hide MedianComputable;
    hide Middles;
    hide FitsReduced;
    hide CheckedMul;
    hide CheckedSub;
    hide CheckedAdd;
    hide Matches;
    SameSize(values, nums, d);
    MedianSucceedsIff(values, nums, d);
    if Median(values).Ok? {
      var center, c := Median(values).value, Middles(nums);
      MedianWithin(values, 0.0, 1.0);
      DeviationsSucceedIff(values, nums, d, center, c);
      DeviationsError(values, center);
      if Deviations(values, center).Ok? {
        var devs, distances := Deviations(values, center).value, Distances(nums, c);
        SameSize(devs, distances, 2 * d);
        MedianSucceedsIff(devs, distances, 2 * d);
        if Median(devs).Ok? {
          MedianWithin(devs, 0.0, 1.0);
          RangeSucceedsIff(center, Median(devs).value, c, Middles(distances), d);
          RangeErrors(center, Median(devs).value);
        }
      }
    }
  }

  lemma SameSize(values: seq<Rational>, nums: seq<int>, d: nat)
    requires d > 0 && Matches(values, nums, d)
    ensures |values| == |nums|
  {
  }

  lemma RangeErrors(center: Rational, mad: Rational)
    ensures var spread := CheckedMul(mad, FromInteger(2));
      && (spread.Err? ==> spread.error == Overflow)
      && (spread.Ok? && CheckedSub(center, spread.value).Err? ==> CheckedSub(center, spread.value).error == Overflow)
      && (spread.Ok? && CheckedAdd(center, spread.value).Err? ==> CheckedAdd(center, spread.value).error == Overflow)
  {
    hide CheckedMul;
    hide CheckedSub;
    hide CheckedAdd;
    hide Representable;
    hide Value;
    MulIsExact(mad, FromInteger(2));
    var spread := CheckedMul(mad, FromInteger(2));
    if spread.Ok? {
      SubIsExactIff(center, spread.value);
      AddIsExact(center, spread.value);
    }
  }

  // ----- A common denominator of any values

  /** The product of the denominators. */
  function Den(values: seq<Rational>): (d: nat)
    ensures d > 0
  {
    if values == [] then 1
    else
      MulSign(values[0].den, Den(values[1..]));
      values[0].den * Den(values[1..])
  }

  /** The numerators over that product. */
  function Numerators(values: seq<Rational>): (r: seq<int>)
    ensures |r| == |values|
  {
    if values == [] then []
    else [values[0].num * Den(values[1..])] + Scaled(values[0].den, Numerators(values[1..]))
  }

  function Scaled(k: int, nums: seq<int>): (r: seq<int>)
    ensures |r| == |nums| && forall i :: 0 <= i < |nums| ==> r[i] == k * nums[i]
  {
    seq(|nums|, i requires 0 <= i < |nums| => k * nums[i])
  }

  lemma {:induction false} NumeratorsMatch(values: seq<Rational>)
    ensures Matches(values, Numerators(values), Den(values))
  {
    hide RatioReal;
    if values != [] {
      var rest, d, v := Numerators(values[1..]), Den(values[1..]), values[0];
      NumeratorsMatch(values[1..]);
      MulSign(v.den, d);
      RatioScale(d, v.num, v.den);
      assert d * v.num == v.num * d && d * v.den == v.den * d;
      assert Value(v) == RatioReal(v.num * d, v.den * d) by { assert Value(v) == RatioReal(v.num, v.den) by { ValueIsRatio(v); } }
      hide Value;
      forall i | 0 < i < |values|
        ensures Value(values[i]) == RatioReal(Numerators(values)[i], v.den * d)
      {
        assert values[i] == values[1..][i - 1];
        RatioScale(v.den, rest[i - 1], d);
      }
    }
  }

  lemma ValueIsRatio(v: Rational)
    ensures Value(v) == RatioReal(v.num, v.den)
  {
  }

  // ----- Baselines and goals exist exactly when

  /** The values a component baseline is made of. */
  function BaselineValues(history: seq<HistoryMatch>, query: BaselineQuery, side: Option<Side>): seq<Rational>
    requires query.field.ComponentField?
  {
    Values(Selection(Admissions(history, JudgeWith(query, side))))
  }

  function GoalValues(goal: Goal, history: seq<HistoryMatch>): seq<Rational> {
    Values(GoalSelection(Admissions(history, JudgeForGoal(goal))))
  }

  /** A component baseline, also of one side, exists exactly when fewer than ten values are selected
      or everything their statistics compute fits; otherwise an overflow is reported. */
  lemma ComponentBaselineIff(history: seq<HistoryMatch>, query: BaselineQuery, side: Option<Side>)
    requires query.field.ComponentField?
    ensures var v := BaselineValues(history, query, side);
      && (Lens(history, query, side).Ok? <==>
            |v| < BASELINE_MINIMUM_MATCHES || StatsComputable(Numerators(v), Den(v)))
      && (Lens(history, query, side).Err? ==> Lens(history, query, side).error == Stats(StatsExact(Overflow)))
  {
    hide Selection;
    hide Admissions;
    hide StatsComputable;
    hide RobustStatsOf;
    hide Unit;
    hide Matches;
    var v := BaselineValues(history, query, side);
    BaselineUnits(history, query, side);
    if |v| >= BASELINE_MINIMUM_MATCHES {
      NumeratorsMatch(v);
      StatsSucceedIff(v, Numerators(v), Den(v), ONE);
    }
  }

  lemma BaselineUnits(history: seq<HistoryMatch>, query: BaselineQuery, side: Option<Side>)
    requires query.field.ComponentField?
    ensures forall x :: x in BaselineValues(history, query, side) ==> Unit(x)
  {
    var cs := Admissions(history, JudgeWith(query, side));
    var chosen := Selection(cs);
    SelectedFromAdmissions(cs);
    hide Selection;
    hide Admissions;
    forall x | x in Values(chosen)
      ensures Unit(x)
    {
      var i :| 0 <= i < |chosen| && chosen[i].value == x;
      assert chosen[i] in chosen;
      ComponentAdmission(history, query, side, chosen[i]);
      UnitValue(x);
    }
  }

  lemma SelectedFromAdmissions(cs: seq<Selected>)
    ensures forall s :: s in Selection(cs) ==> s in cs
  {
    hide Selection;
    SelectionIsLatest(cs);
  }

  /** An active goal is evaluated exactly when nothing is selected or the median of what is selected
      can be computed; otherwise an overflow is reported. */
  lemma GoalEvaluatedIff(goal: Goal, activeSeries: string, history: seq<HistoryMatch>)
    requires !goal.cancelled && goal.series == activeSeries
    ensures var v := GoalValues(goal, history);
      && (Evaluate(goal, activeSeries, history).Ok? <==> v == [] || MedianComputable(Numerators(v), Den(v)))
      && (Evaluate(goal, activeSeries, history).Err? ==> Evaluate(goal, activeSeries, history).error == StatsExact(Overflow))
  {
    var v := GoalValues(goal, history);
    hide GoalSelection;
    hide Admissions;
    hide MedianComputable;
    hide Median;
    if v != [] {
      NumeratorsMatch(v);
      MedianSucceedsIff(v, Numerators(v), Den(v));
    }
  }

  // ----- Sufficient bounds on the denominators

  /** Baselines: twelve times the fourth power still fits `i64`. */
  const BASELINE_DENOMINATOR_BOUND := 29_606

  /** Goals: four times the square does. */
  const GOAL_DENOMINATOR_BOUND := 1_518_500_249

  /** A fraction in [0, 1] over `k * c` for some `k` up to `b`. */
  ghost predicate UnitOver(v: Rational, c: int, b: int) {
    exists k: int :: 1 <= k <= b && Small(v, k * c, 1)
  }

  lemma Square(k1: int, k2: int, b: int)
    requires 1 <= k1 <= b && 1 <= k2 <= b
    ensures 1 <= k1 * k2 <= b * b
  {
    MulMonotone(k1, b, k2);
    MulMonotone(k2, b, b);
    MulMonotone(1, k1, k2);
    assert k2 * b == b * k2;
  }

  /** Two values over multiples of `c`, brought to one denominator. */
  lemma CommonDenominator(v: Rational, c: int, k: int, other: int)
    requires Small(v, k * c, 1) && other >= 1
    ensures Small(v, (k * other) * c, 1)
  {
    OverWiden(Value(v), k * c, other);
    assert other * (k * c) == (k * other) * c;
  }

  lemma MiddleOver(a: Rational, b: Rational, c: int, bound: int) returns (k: int)
    requires c >= 1 && bound >= 1 && UnitOver(a, c, bound) && UnitOver(b, c, bound)
    requires 4 * ((bound * bound) * c) <= I64_MAX
    ensures 1 <= k <= bound * bound && Average(a, b).Ok? && Over(Value(Average(a, b).value), 2 * (k * c))
  {
    hide Average;
    var k1: int :| 1 <= k1 <= bound && Small(a, k1 * c, 1);
    var k2: int :| 1 <= k2 <= bound && Small(b, k2 * c, 1);
    hide Small;
    k := k1 * k2;
    Square(k1, k2, bound);
    CommonDenominator(a, c, k1, k2);
    CommonDenominator(b, c, k2, k1);
    assert k2 * k1 == k1 * k2;
    MulMonotone(k, bound * bound, c);
    AverageFits(a, b, k * c, 1);
  }

  /** The median of unit values over multiples of `c` up to `bound` exists, over twice a multiple up
      to its square. */
  lemma MedianOver(values: seq<Rational>, c: int, bound: int) returns (k: int)
    requires values != [] && c >= 1 && bound >= 1 && 4 * ((bound * bound) * c) <= I64_MAX
    requires forall v :: v in values ==> UnitOver(v, c, bound)
    ensures 1 <= k <= bound * bound && Median(values).Ok? && Small(Median(values).value, 2 * (k * c), 1)
  {
    hide Average;
    hide Value;
    var s := StableSort(values, RatLe);
    SameElements(s, values);
    var middle := |s| / 2;
    assert s[middle] in values;
    if |s| % 2 == 1 {
      k :| 1 <= k <= bound && Small(s[middle], k * c, 1);
      OverWiden(Value(s[middle]), k * c, 2);
      Square(k, 1, bound);
    } else {
      assert s[middle - 1] in values;
      k := MiddleOver(s[middle - 1], s[middle], c, bound);
    }
    forall v | v in values ensures 0.0 <= Value(v) <= 1.0 {
      assert UnitOver(v, c, bound);
    }
    MedianWithin(values, 0.0, 1.0);
  }

  lemma DeviationOver(v: Rational, center: Rational, c: int, bound: int)
    requires UnitOver(v, 1, bound) && c >= 1 && Small(center, c, 1) && bound * c <= I64_MAX
    ensures Deviation(v, center).Ok? && UnitOver(Deviation(v, center).value, c, bound)
  {
    var k: int :| 1 <= k <= bound && Small(v, k * 1, 1);
    hide Deviation;
    MulMonotone(k, bound, c);
    OverWiden(Value(v), k, c);
    OverWiden(Value(center), c, k);
    assert c * k == k * c;
    DeviationFits(v, center, k * c, 1);
  }

  lemma {:induction false} DeviationsOver(values: seq<Rational>, center: Rational, c: int, bound: int)
    requires forall v :: v in values ==> UnitOver(v, 1, bound)
    requires c >= 1 && Small(center, c, 1) && bound * c <= I64_MAX
    ensures Deviations(values, center).Ok?
    ensures forall d :: d in Deviations(values, center).value ==> UnitOver(d, c, bound)
  {
    hide Deviation;
    hide UnitOver;
    hide Small;
    forall v | v in values ensures Deviation(v, center).Ok? && UnitOver(Deviation(v, center).value, c, bound) {
      DeviationOver(v, center, c, bound);
    }
    DeviationsError(values, center);
    var devs := Deviations(values, center).value;
    forall d | d in devs ensures UnitOver(d, c, bound) {
      var i :| 0 <= i < |devs| && devs[i] == d;
      assert values[i] in values;
    }
  }

  /** The spread around the median, over one denominator `den`. */
  lemma SpreadFits(center: Rational, mad: Rational, den: int)
    requires Small(center, den, 1) && Small(mad, den, 1) && 3 * den <= I64_MAX
    ensures CheckedMul(mad, FromInteger(2)).Ok?
    ensures var spread := CheckedMul(mad, FromInteger(2)).value;
      CheckedSub(center, spread).Ok? && CheckedAdd(center, spread).Ok?
  {
    hide Value;
    hide Over;
    hide CheckedMul;
    hide CheckedSub;
    hide CheckedAdd;
    MulIsExact(mad, FromInteger(2));
    TwoIsTwo();
    OverAdd(Value(mad), Value(mad), den);
    OverDen(Value(mad), den);
    var spread := CheckedMul(mad, FromInteger(2));
    ExactFits(spread, Value(mad) * 2.0, den, 2);
    SubFits(center, spread.value, den, 3);
    AddIsExact(center, spread.value);
    OverAdd(Value(center), Value(spread.value), den);
    ExactFits(CheckedAdd(center, spread.value), Value(center) + Value(spread.value), den, 3);
  }

  lemma TwoIsTwo()
    ensures Value(FromInteger(2)) == 2.0
  {
  }

  lemma Twice(x: int, y: int)
    ensures x * (2 * y) == 2 * (x * y) && x * y == y * x
  {
  }

  lemma FourthPower(k1: int, k2: int, b: int)
    requires 1 <= k1 <= b * b && 1 <= k2 <= b * b && 1 <= b
    ensures 1 <= 2 * k1 && b * (2 * k1) <= 2 * ((b * b) * b)
    ensures (b * b) * (2 * k1) <= 2 * ((b * b) * (b * b))
    ensures 1 <= k2 * (2 * k1) <= 2 * ((b * b) * (b * b))
  {
    var q := b * b;
    Square(k2, k1, q);
    Twice(k2, k1);
    Twice(b, k1);
    Twice(q, k1);
    MulMonotone(k1, q, b);
    MulMonotone(k1, q, q);
  }

  /** Statistics of any number of component values with denominators up to the bound exist. */
  lemma ComponentStatsExist(values: seq<Rational>, maximum: Rational)
    requires values != [] && forall v :: v in values ==> UnitOver(v, 1, BASELINE_DENOMINATOR_BOUND)
    ensures RobustStatsOf(values, ZERO, maximum).Ok?
  {
    hide UnitOver;
    hide Median;
    hide Deviations;
    hide CheckedMul;
    hide CheckedSub;
    hide CheckedAdd;
    var b := BASELINE_DENOMINATOR_BOUND;
    var k := MedianOver(values, 1, b);
    var c := 2 * k;
    FourthPower(k, 1, b);
    var center := Median(values).value;
    DeviationsOver(values, center, c, b);
    var devs := Deviations(values, center).value;
    SameCount(values, center);
    var k' := MedianOver(devs, c, b);
    FourthPower(k, k', b);
    var mad, den := Median(devs).value, 2 * (k' * c);
    OverWiden(Value(center), c, 2 * k');
    assert (2 * k') * c == den;
    hide Value;
    SpreadFits(center, mad, den);
  }

  lemma {:induction false} SameCount(values: seq<Rational>, center: Rational)
    requires Deviations(values, center).Ok?
    ensures |Deviations(values, center).value| == |values|
  {
  }

  lemma UnitValueOver(v: Rational, bound: int)
    requires 0 <= v.num <= v.den <= bound
    ensures UnitOver(v, 1, bound)
  {
    UnitValue(v);
    assert Value(v) == RatioReal(v.num, v.den);
    var k: int := v.den;
    assert 1 <= k <= bound && Small(v, k * 1, 1);
  }

  lemma UnitValue(v: Rational)
    requires 0 <= v.num <= v.den
    ensures 0.0 <= Value(v) <= 1.0
  {
    CmpIsValueOrder(ZERO, v);
    CmpIsValueOrder(v, ONE);
  }

  // ----- Baselines and goals

  lemma {:induction false} ComponentAdmission(history: seq<HistoryMatch>, query: BaselineQuery, side: Option<Side>, s: Selected)
    requires query.field.ComponentField? && s in Admissions(history, JudgeWith(query, side))
    ensures 0 <= s.value.num <= s.value.den
  {
    AdmissionsAre(history, JudgeWith(query, side));
  }

  /** A component baseline, also of one side, exists when no eligible value has a denominator beyond
      the bound. */
  lemma {:induction false} ComponentBaselineExists(history: seq<HistoryMatch>, query: BaselineQuery, side: Option<Side>)
    requires query.field.ComponentField?
    requires forall s :: s in Admissions(history, JudgeWith(query, side)) ==> s.value.den <= BASELINE_DENOMINATOR_BOUND
    ensures Lens(history, query, side).Ok?
  {
    var cs := Admissions(history, JudgeWith(query, side));
    var chosen := Selection(cs);
    SelectionIsLatest(cs);
    hide Selection;
    hide UnitOver;
    hide Admissions;
    forall v | v in Values(chosen) ensures UnitOver(v, 1, BASELINE_DENOMINATOR_BOUND) {
      var i :| 0 <= i < |chosen| && chosen[i].value == v;
      assert chosen[i] in chosen;
      ComponentAdmission(history, query, side, chosen[i]);
      UnitValueOver(v, BASELINE_DENOMINATOR_BOUND);
    }
    if |chosen| >= BASELINE_MINIMUM_MATCHES {
      ComponentStatsExist(Values(chosen), ONE);
    }
  }

  /** The same for the median of a component goal, with a far larger bound. */
  lemma {:induction false} ComponentGoalEvaluated(goal: Goal, activeSeries: string, history: seq<HistoryMatch>)
    requires goal.field.ComponentField?
    requires forall s :: s in Admissions(history, JudgeForGoal(goal)) ==> s.value.den <= GOAL_DENOMINATOR_BOUND
    ensures Evaluate(goal, activeSeries, history).Ok?
  {
    var cs := Admissions(history, JudgeForGoal(goal));
    var chosen := GoalSelection(cs);
    SelectedFrom(cs);
    AdmissionsAre(history, JudgeForGoal(goal));
    hide GoalSelection;
    hide UnitOver;
    hide Admissions;
    forall v | v in Values(chosen) ensures UnitOver(v, 1, GOAL_DENOMINATOR_BOUND) {
      var i :| 0 <= i < |chosen| && chosen[i].value == v;
      assert chosen[i] in chosen;
      UnitValueOver(v, GOAL_DENOMINATOR_BOUND);
    }
    if chosen != [] {
      var k := MedianOver(Values(chosen), 1, GOAL_DENOMINATOR_BOUND);
    }
  }

  // ----- Beyond the bounds

  /** One opening duel won of 2^32, and one of 3^20. */
  const ONE_OF_EVEN: Rational := Ratio(1, 0x1_0000_0000)

  const ONE_OF_ODD: Rational := Ratio(1, 3_486_784_401)

  lemma RareSumIsTooFine()
    ensures CheckedAdd(ONE_OF_EVEN, ONE_OF_ODD) == Err(Overflow)
  {
    var n, d := 7_781_751_697, 14_975_624_970_497_949_696;
    CombinationCoprime(n, d, 3974375272382596465, -2065196049);
    hide Gcd;
    TooFine(n, d);
    AddIsExact(ONE_OF_EVEN, ONE_OF_ODD);
    assert Value(ONE_OF_EVEN) + Value(ONE_OF_ODD) == RatioReal(n, d);
  }

  function TenValues(): (s: seq<Rational>)
    ensures |s| == 10 && forall i :: 0 <= i < 10 ==> s[i] == if i < 5 then ONE_OF_EVEN else ONE_OF_ODD
  {
    seq(10, i => if i < 5 then ONE_OF_EVEN else ONE_OF_ODD)
  }

  lemma TenSorted()
    ensures Sorted(TenValues(), RatLe)
  {
    assert RatLe(ONE_OF_EVEN, ONE_OF_EVEN) && RatLe(ONE_OF_EVEN, ONE_OF_ODD) && RatLe(ONE_OF_ODD, ONE_OF_ODD);
    hide RatLe;
  }

  /** Ten values, five of each, in any order: the median overflows. */
  lemma TenValuesOverflow(values: seq<Rational>, minimum: Rational, maximum: Rational)
    requires multiset(values) == multiset(TenValues())
    ensures Median(values) == Err(StatsExact(Overflow)) && RobustStatsOf(values, minimum, maximum) == Err(StatsExact(Overflow))
  {
    hide RatLe;
    hide StableSort;
    hide Deviations;
    RareSumIsTooFine();
    TenSorted();
    SortKeepsSorted(TenValues(), RatLe);
    MedianPermutation(values, TenValues());
    assert Average(ONE_OF_EVEN, ONE_OF_ODD) == Err(Overflow);
  }

  // ----- A history of ten such matches

  const OPENINGS := ComponentField(Rating.OpeningDuels)

  const RARE_QUERY := BaselineQuery("series", 200, OPENINGS, AllMaps)

  const RARE_GOAL := Goal("goal", 1, "series", OPENINGS, AllMaps, ONE, false)

  function Strokes(n: nat): (s: string)
    ensures |s| == n
  {
    seq(n, _ => '|')
  }

  function RareVector(i: nat): Rating.ComponentVector {
    Rating.ComponentVector(ZERO, HALF, if i < 5 then ONE_OF_EVEN else ONE_OF_ODD, ZERO, ZERO, ONE)
  }

  /** Starts ascend and ends descend, so the goal and the baseline list the matches in this order. */
  function RareMatch(i: nat): HistoryMatch
    requires i < 10
  {
    HistoryMatch(Strokes(i), Strokes(i), "run", "series", true, Known("map"), Some(MatchInterval(2 + i, 100 - i)),
                 None, Some(RareVector(i)), map[], None)
  }

  function RareHistory(): (r: seq<HistoryMatch>)
    ensures |r| == 10 && forall i :: 0 <= i < 10 ==> r[i] == RareMatch(i)
  {
    seq(10, i requires 0 <= i < 10 => RareMatch(i))
  }

  function RareSelection(): (r: seq<Selected>)
    ensures |r| == 10 && forall i :: 0 <= i < 10 ==> r[i] == Selected(RareMatch(i), TenValues()[i])
  {
    seq(10, i requires 0 <= i < 10 => Selected(RareMatch(i), TenValues()[i]))
  }

  lemma {:induction false} AllAdmitted(history: seq<HistoryMatch>, chosen: seq<Selected>, judge: HistoryMatch -> Verdict)
    requires |chosen| == |history|
    requires forall i :: 0 <= i < |history| ==> chosen[i].item == history[i] && judge(history[i]) == Admitted(chosen[i].value)
    ensures Admissions(history, judge) == chosen
  {
    if history != [] {
      AllAdmitted(history[1..], chosen[1..], judge);
      assert chosen == [chosen[0]] + chosen[1..];
      assert chosen[0] == Selected(history[0], chosen[0].value);
    }
  }

  lemma {:induction false} DistinctStay(cs: seq<Selected>, seen: set<string>)
    requires forall i :: 0 <= i < |cs| ==> cs[i].item.demoHash !in seen
    requires forall i, j :: 0 <= i < j < |cs| ==> cs[i].item.demoHash != cs[j].item.demoHash
    ensures FirstPerDemo(cs, seen) == cs
  {
    if cs != [] {
      DistinctStay(cs[1..], seen + {cs[0].item.demoHash});
      assert cs == [cs[0]] + cs[1..];
    }
  }

  lemma RareSelected()
    ensures GoalSelection(RareSelection()) == RareSelection()
    ensures Selection(RareSelection()) == RareSelection()
  {
    hide StrLe;
    hide RareVector;
    hide FirstPerDemo;
    hide StableSort;
    var cs := RareSelection();
    SortKeepsSorted(cs, EarlierLe);
    SortKeepsSorted(cs, LaterLe);
    forall i, j | 0 <= i < j < 10
      ensures cs[i].item.demoHash != cs[j].item.demoHash
    {
      assert |cs[i].item.demoHash| == i && |cs[j].item.demoHash| == j;
    }
    DistinctStay(cs, {});
  }

  lemma RareAdmitted()
    ensures Admissions(RareHistory(), JudgeForGoal(RARE_GOAL)) == RareSelection()
    ensures Admissions(RareHistory(), JudgeWith(RARE_QUERY, None)) == RareSelection()
  {
    AllAdmitted(RareHistory(), RareSelection(), JudgeForGoal(RARE_GOAL));
    AllAdmitted(RareHistory(), RareSelection(), JudgeWith(RARE_QUERY, None));
  }

  /** Ten qualifying matches for which neither the goal nor the baseline can be computed. */
  lemma RareHistoryOverflows()
    ensures Evaluate(RARE_GOAL, "series", RareHistory()) == Err(StatsExact(Overflow))
    ensures Lens(RareHistory(), RARE_QUERY, None) == Err(Stats(StatsExact(Overflow)))
  {
    hide Admissions;
    hide GoalSelection;
    hide Selection;
    hide Median;
    hide RobustStatsOf;
    RareAdmitted();
    RareSelected();
    assert Values(RareSelection()) == TenValues();
    TenValuesOverflow(TenValues(), ZERO, ONE);
  }
}
