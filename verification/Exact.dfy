/** Checked rational arithmetic (crates/openfrag-domain/src/exact.rs).

    A `Rational` holds two `i64`s; intermediate results are `i128`s.  The arithmetic is exact:
    an operation succeeds precisely when its mathematical result has a canonical form that
    fits, and no intermediate value leaves `i128`. */
module Exact {
  import opened Prelude
  import opened Ordering

  const I64_MAX: int := 0x7FFF_FFFF_FFFF_FFFF
  const I64_MIN: int := -0x8000_0000_0000_0000
  const I128_MAX: int := 0x7FFF_FFFF_FFFF_FFFF_FFFF_FFFF_FFFF_FFFF
  const I128_MIN: int := -0x8000_0000_0000_0000_0000_0000_0000_0000

  predicate FitsI64(x: int) {
    I64_MIN <= x <= I64_MAX
  }

  predicate FitsI128(x: int) {
    I128_MIN <= x <= I128_MAX
  }

  type i64 = x: int | I64_MIN <= x <= I64_MAX
  type i128 = x: int | I128_MIN <= x <= I128_MAX

  datatype ExactError = ZeroDenominator | Overflow | DivisionByZero | OutsideUnitInterval | OutsideRatingRange

  datatype Ratio = Ratio(num: int, den: int)

  function Abs(x: int): nat {
    if x < 0 then -x else x
  }

  /** A positive denominator and no common factor. */
  predicate Canonical(r: Ratio) {
    FitsI64(r.num) && 0 < r.den <= I64_MAX && Gcd(Abs(r.num), r.den) == 1
  }

  /** Every `Rational` the program can build: all its operations return this type. */
  type Rational = r: Ratio | Canonical(r) witness Ratio(0, 1)

  const ZERO: Rational := Ratio(0, 1)
  const ONE: Rational := Ratio(1, 1)
  const HALF: Rational := Ratio(1, 2)

  function FromInteger(value: i64): (r: Rational)
    ensures Value(r) == value as real
  {
    GcdOne(Abs(value));
    Ratio(value, 1)
  }

  function Value(r: Rational): real {
    r.num as real / r.den as real
  }

  // ----- gcd

  function Gcd(a: nat, b: nat): (g: nat)
    ensures g > 0
    decreases b
  {
    if b == 0 then (if a == 0 then 1 else a) else Gcd(b, a % b)
  }

  method GcdLoop(a: nat, b: nat) returns (g: nat)
    ensures g == Gcd(a, b)
  {
    var left, right := a, b;
    while right != 0
      invariant Gcd(left, right) == Gcd(a, b)
      decreases right
    {
      var remainder := left % right;
      left := right;
      right := remainder;
    }
    g := if left == 0 then 1 else left;
  }

  lemma {:induction false} GcdOne(a: nat)
    ensures Gcd(a, 1) == 1
  {
    assert a % 1 == 0;
    assert Gcd(1, 0) == 1;
  }

  /** The gcd is a common factor, with its cofactors. */
  lemma {:induction false} GcdDivides(a: nat, b: nat) returns (p: nat, q: nat)
    ensures a == p * Gcd(a, b) && b == q * Gcd(a, b)
    decreases b
  {
    if b == 0 {
      p, q := if a == 0 then 0 else 1, 0;
    } else {
      var k, rest := DivMod(a, b);
      var q', r := GcdDivides(b, a % b);
      p := DivideStep(a, b, k, rest, q', r, Gcd(a, b));
      q := q';
    }
  }

  lemma DivideStep(a: nat, b: nat, k: nat, rest: nat, q: nat, r: nat, g: nat) returns (p: nat)
    requires a == k * b + rest && b == q * g && rest == r * g
    ensures a == p * g
  {
    if k > 0 { MulSign(k, q); }
    MulAssoc(k, q, g);
    MulDistribute(k * q, r, g);
    p := k * q + r;
  }

  /** Bezout: the gcd is an integer combination, hence every common factor divides it. */
  lemma {:induction false} Bezout(a: nat, b: nat) returns (x: int, y: int)
    requires a != 0 || b != 0
    ensures x * a + y * b == Gcd(a, b)
    decreases b
  {
    if b == 0 {
      x, y := 1, 0;
    } else {
      var k, rest := DivMod(a, b);
      var x', y' := Bezout(b, a % b);
      x, y := y', x' - y' * k;
      BezoutStep(a, b, k, rest, x', y');
    }
  }

  lemma BezoutStep(a: int, b: int, k: int, rest: int, x: int, y: int)
    requires a == k * b + rest
    ensures y * a + (x - y * k) * b == x * b + y * rest
  {
    MulDistribute(x, 0 - y * k, b);
    MulAssoc(y, k, b);
    MulSub(y, a, k * b);
  }

  lemma DivMod(x: nat, m: nat) returns (q: nat, r: nat)
    requires m > 0
    ensures q == x / m && r == x % m && x == q * m + r && r < m
  {
    q, r := x / m, x % m;
  }

  lemma MulAssoc(a: int, b: int, c: int)
    ensures (a * b) * c == a * (b * c)
  {
  }

  lemma MulDistribute(a: int, b: int, c: int)
    ensures (a + b) * c == a * c + b * c
  {
  }

  lemma MulSub(a: int, b: int, c: int)
    ensures a * b - a * c == a * (b - c)
  {
  }

  lemma MulCancel(a: int, b: int, k: int)
    requires k != 0 && a * k == b * k
    ensures a == b
  {
    MulDistribute(a, -b, k);
    assert (a - b) * k == 0;
  }

  lemma MulSign(a: int, h: nat)
    ensures a >= 1 ==> a * h >= h
    ensures a <= 0 ==> a * h <= 0
  {
  }

  lemma UnitFactor(a: int, h: nat)
    requires a * h == 1
    ensures h == 1
  {
    MulSign(a, h);
  }

  lemma FactorBound(q: nat, g: nat, b: nat)
    requires b == q * g && b > 0
    ensures q > 0 && g <= b
  {
    if q > 1 { assert q * g >= g; }
  }

  // ----- normalize

  /** Rust's truncating division by a positive divisor. */
  function TruncDiv(n: int, d: nat): int
    requires d > 0
  {
    if n >= 0 then n / d else -((-n) / d)
  }

  /** What `normalize` does once the sign is on the numerator. */
  function Reduce(n: i128, d: i128): (r: Result<Rational, ExactError>)
    requires d > 0
  {
    var divisor := Gcd(Abs(n), d);
    if !FitsI128(divisor) then Err(Overflow)
    else
      Reduced(n, d);
      var num, den := TruncDiv(n, divisor), TruncDiv(d, divisor);
      if !FitsI64(num) || !FitsI64(den) then Err(Overflow) else Ok(Ratio(num, den))
  }

  function Normalize(n: i128, d: i128): (r: Result<Rational, ExactError>)
  {
    if d == 0 then Err(ZeroDenominator)
    else if d < 0 then
      if !FitsI128(0 - n) || !FitsI128(0 - d) then Err(Overflow) else Reduce(0 - n, 0 - d)
    else Reduce(n, d)
  }

  lemma NatDivExact(p: nat, g: nat)
    requires g > 0
    ensures (p * g) / g == p
  {
    var q := (p * g) / g;
    var r := (p * g) % g;
    assert p * g == q * g + r;
    MulDistribute(p, 0 - q, g);
    MulSign(p - q, g);
  }

  lemma DivExact(p: int, g: nat)
    requires g > 0
    ensures TruncDiv(p * g, g) == p
  {
    MulSign(p, g);
    if p >= 0 {
      NatDivExact(p, g);
    } else {
      assert -(p * g) == (0 - p) * g;
      NatDivExact(0 - p, g);
    }
  }

  /** Dividing by the gcd is exact and leaves no common factor. */
  lemma {:induction false} Reduced(n: int, d: int)
    requires d > 0
    ensures var g := Gcd(Abs(n), d); var a := TruncDiv(n, g); var b := TruncDiv(d, g);
      g <= d && n == a * g && d == b * g && b > 0 && Gcd(Abs(a), b) == 1
  {
    var g := Gcd(Abs(n), d);
    var p, q := GcdDivides(Abs(n), d);
    var a := if n < 0 then -(p as int) else p;
    assert n == a * g;
    DivExact(a, g);
    DivExact(q, g);
    FactorBound(q, g, d);
    var x, y := Bezout(Abs(n), d);
    calc {
      g;
      x * (p * g) + y * (q * g);
      { MulAssoc(x, p, g); MulAssoc(y, q, g); MulDistribute(x * p, y * q, g); }
      (x * p + y * q) * g;
    }
    MulCancel(x * p + y * q, 1, g);
    CombinationCoprime(p, q, x, y);
  }

  lemma {:induction false} CombinationCoprime(p: nat, q: nat, x: int, y: int)
    requires x * p + y * q == 1
    ensures Gcd(p, q) == 1
  {
    var h := Gcd(p, q);
    var p', q' := GcdDivides(p, q);
    calc {
      1;
      x * (p' * h) + y * (q' * h);
      { MulAssoc(x, p', h); MulAssoc(y, q', h); MulDistribute(x * p', y * q', h); }
      (x * p' + y * q') * h;
    }
    UnitFactor(x * p' + y * q', h);
  }

  // ----- Canonical forms are unique

  /** Euclid's lemma: a denominator coprime to `n` that divides `n * k` divides `k`. */
  lemma CoprimeDivides(n: int, d: nat, k: int, m: int) returns (c: int)
    requires d > 0 && Gcd(Abs(n), d) == 1
    requires n * k == m * d
    ensures k == c * d
  {
    var x, y := Bezout(Abs(n), d);
    var x' := if n < 0 then -x else x;
    assert x' * n == x * Abs(n);
    c := x' * m + y * k;
    calc {
      k;
      (x' * n + y * d) * k;
      { MulDistribute(x' * n, y * d, k); MulAssoc(x', n, k); }
      x' * (m * d) + (y * d) * k;
      { MulAssoc(x', m, d); MulAssoc(y, d, k); MulAssoc(y, k, d); }
      (x' * m) * d + (y * k) * d;
      { MulDistribute(x' * m, y * k, d); }
      c * d;
    }
  }

  lemma MutualFactors(a: nat, b: nat, c: int, c': int)
    requires a > 0 && b > 0 && b == c * a && a == c' * b
    ensures a == b
  {
    MulSign(c, a);
    MulSign(c', b);
  }

  /** Equal as fractions means equal as values of the datatype. */
  lemma CanonicalUnique(p: Rational, q: Rational)
    requires p.num * q.den == q.num * p.den
    ensures p == q
  {
    var c := CoprimeDivides(p.num, p.den, q.den, q.num);
    var c' := CoprimeDivides(q.num, q.den, p.den, p.num);
    MutualFactors(p.den, q.den, c, c');
    MulCancel(p.num, q.num, p.den);
  }

  /** `q` is the value of the fraction `n / d`. */
  predicate Represents(q: Rational, n: int, d: int) {
    q.num * d == n * q.den
  }

  lemma Rescale(q: Rational, a: int, b: int, g: nat)
    requires g > 0
    ensures Represents(q, a, b) <==> Represents(q, a * g, b * g)
  {
    MulAssoc(q.num, b, g);
    calc {
      (a * g) * q.den;
      (a * q.den) * g;
    }
    if Represents(q, a * g, b * g) {
      MulCancel(q.num * b, a * q.den, g);
    }
  }

  /** `normalize` succeeds exactly when the fraction has an `i64` form, and then returns it. */
  lemma ReduceExact(n: i128, d: i128)
    requires d > 0
    ensures Reduce(n, d).Ok? ==> Represents(Reduce(n, d).value, n, d)
    ensures forall q: Rational :: Represents(q, n, d) ==> Reduce(n, d) == Ok(q)
    ensures Reduce(n, d).Err? ==> Reduce(n, d).error == Overflow
  {
    var g := Gcd(Abs(n), d);
    var a, b := TruncDiv(n, g), TruncDiv(d, g);
    Reduced(n, d);
    hide TruncDiv;
    LowestTerms(n, d, a, b, g);
  }

  /** The fractions equal to `n / d` are those equal to its lowest terms `a / b`. */
  lemma {:induction false} LowestTerms(n: int, d: int, a: int, b: int, g: nat)
    requires g > 0 && b > 0 && Gcd(Abs(a), b) == 1 && n == a * g && d == b * g
    ensures forall q: Rational :: Represents(q, n, d) ==> q == Ratio(a, b)
    ensures Canonical(Ratio(a, b)) ==> Represents(Ratio(a, b), n, d)
  {
    hide Gcd;
    forall q: Rational | Represents(q, n, d)
      ensures q == Ratio(a, b)
    {
      Rescale(q, a, b, g);
      SameFraction(q, a, b);
    }
    if Canonical(Ratio(a, b)) {
      Rescale(Ratio(a, b), a, b, g);
    }
  }

  lemma {:induction false} SameFraction(q: Rational, a: int, b: int)
    requires b > 0 && Gcd(Abs(a), b) == 1 && Represents(q, a, b)
    ensures q == Ratio(a, b)
  {
    var c := CoprimeDivides(q.num, q.den, b, a);
    var c' := CoprimeDivides(a, b, q.den, q.num);
    MutualFactors(q.den, b, c, c');
    MulCancel(q.num, a, b);
  }

  lemma NormalizeExact(n: i128, d: i128)
    requires d != 0 && n != I128_MIN && d != I128_MIN
    ensures Normalize(n, d).Ok? ==> Represents(Normalize(n, d).value, n, d)
    ensures forall q: Rational :: Represents(q, n, d) ==> Normalize(n, d) == Ok(q)
    ensures Normalize(n, d).Err? ==> Normalize(n, d).error == Overflow
  {
    if d < 0 {
      ReduceExact(0 - n, 0 - d);
      forall q: Rational
        ensures Represents(q, n, d) <==> Represents(q, 0 - n, 0 - d)
      {
        assert q.num * (0 - d) == -(q.num * d) && (0 - n) * q.den == -(n * q.den);
      }
    } else {
      ReduceExact(n, d);
    }
  }

  // ----- Fractions as real numbers

  lemma CrossMultiply(a: real, b: real, c: real, d: real)
    requires b != 0.0 && d != 0.0
    ensures a / b == c / d <==> a * d == c * b
  {
    var x, y := a / b, c / d;
    assert a == x * b && c == y * d;
    assert a * d == x * (b * d) && c * b == y * (b * d);
    if a * d == c * b {
      assert (x - y) * (b * d) == 0.0;
    }
  }

  lemma CrossCompare(a: real, b: real, c: real, d: real)
    requires b > 0.0 && d > 0.0
    ensures a / b <= c / d <==> a * d <= c * b
  {
    var x, y := a / b, c / d;
    assert a == x * b && c == y * d;
    assert a * d == x * (b * d) && c * b == y * (b * d);
    assert b * d > 0.0;
    if x <= y {
      assert (y - x) * (b * d) >= 0.0;
    } else {
      assert (x - y) * (b * d) > 0.0;
    }
  }

  /** `Represents` is equality of real values. */
  lemma RepresentsValue(q: Rational, n: int, d: int)
    requires d != 0
    ensures Represents(q, n, d) <==> Value(q) == n as real / d as real
  {
    CrossMultiply(q.num as real, q.den as real, n as real, d as real);
    assert (q.num * d) as real == q.num as real * d as real;
    assert (n * q.den) as real == n as real * q.den as real;
  }

  lemma ValueUnique(p: Rational, q: Rational)
    ensures Value(p) == Value(q) <==> p == q
  {
    RepresentsValue(p, q.num, q.den);
    if Value(p) == Value(q) {
      CanonicalUnique(p, q);
    }
  }

  /** Some canonical `i64` fraction has the value `x`. */
  ghost predicate Representable(x: real) {
    exists q: Rational :: Value(q) == x
  }

  /** The result of an operation is exact: it is the rational of value `x` if there is one,
      and an overflow otherwise. */
  ghost predicate IsExactly(r: Result<Rational, ExactError>, x: real) {
    if Representable(x) then r.Ok? && Value(r.value) == x else r == Err(Overflow)
  }

  lemma NormalizeIsExact(n: i128, d: i128, x: real)
    requires d != 0 && n != I128_MIN && d != I128_MIN
    requires x == n as real / d as real
    ensures IsExactly(Normalize(n, d), x)
  {
    NormalizeExact(n, d);
    var r := Normalize(n, d);
    if r.Ok? {
      RepresentsValue(r.value, n, d);
    }
    if q: Rational :| Value(q) == x {
      RepresentsValue(q, n, d);
    }
  }

  // ----- The operations

  function New(num: i64, den: i64): Result<Rational, ExactError> {
    Normalize(num, den)
  }

  lemma MulMonotone(a: int, b: int, k: nat)
    requires a <= b
    ensures a * k <= b * k
  {
    MulSign(b - a, k);
    MulDistribute(b, 0 - a, k);
    if a < b {
      MulSign(b - a, k);
    }
  }

  lemma ProductRange(a: int, b: int)
    requires FitsI64(a) && 0 < b <= I64_MAX
    ensures I64_MIN * I64_MAX <= a * b <= I64_MAX * I64_MAX
  {
    MulMonotone(a, I64_MAX, b);
    MulMonotone(I64_MIN, a, b);
  }

  lemma NumeratorRange(a: int, b: int)
    requires FitsI64(a) && FitsI64(b)
    ensures -(I64_MIN * I64_MIN) <= a * b <= I64_MIN * I64_MIN
  {
    MulMonotone(Abs(a), -I64_MIN, Abs(b));
    MulMonotone(0, Abs(a), Abs(b));
    if a < 0 && b < 0 {
      assert a * b == Abs(a) * Abs(b);
    } else if a < 0 {
      assert a * b == -(Abs(a) * Abs(b));
    } else if b < 0 {
      assert a * b == -(Abs(a) * Abs(b));
    }
  }

  function CheckedAdd(a: Rational, b: Rational): Result<Rational, ExactError> {
    ProductRange(a.num, b.den);
    ProductRange(b.num, a.den);
    ProductRange(a.den, b.den);
    Normalize(a.num * b.den + b.num * a.den, a.den * b.den)
  }

  function CheckedNeg(a: Rational): Result<Rational, ExactError> {
    if a.num == I64_MIN then Err(Overflow) else Ok(Ratio(-a.num, a.den))
  }

  function CheckedSub(a: Rational, b: Rational): Result<Rational, ExactError> {
    var negated :- CheckedNeg(b);
    CheckedAdd(a, negated)
  }

  function CheckedMul(a: Rational, b: Rational): Result<Rational, ExactError> {
    NumeratorRange(a.num, b.num);
    ProductRange(a.den, b.den);
    Normalize(a.num * b.num, a.den * b.den)
  }

  function CheckedDiv(a: Rational, b: Rational): Result<Rational, ExactError> {
    if b.num == 0 then Err(DivisionByZero)
    else
      ProductRange(a.num, b.den);
      ProductRange(b.num, a.den);
      Normalize(a.num * b.den, a.den * b.num)
  }

  function CheckedAbs(a: Rational): Result<Rational, ExactError> {
    if a.num < 0 then CheckedNeg(a) else Ok(a)
  }

  /** A nonzero quotient is characterised by multiplication. */
  lemma QuotientIs(a: real, b: real, q: real)
    requires b != 0.0 && a == q * b
    ensures a / b == q
  {
  }

  lemma NonzeroProduct(b: real, d: real)
    requires b != 0.0 && d != 0.0
    ensures b * d != 0.0
  {
  }

  lemma RealProduct(a: int, b: int)
    ensures (a * b) as real == a as real * b as real
  {
  }

  lemma AddFractions(a: int, b: int, c: int, d: int)
    requires b != 0 && d != 0
    ensures b * d != 0
    ensures (a * d + c * b) as real / (b * d) as real == a as real / b as real + c as real / d as real
  {
    var x, y := a as real / b as real, c as real / d as real;
    var rb, rd := b as real, d as real;
    assert a as real == x * rb && c as real == y * rd;
    RealProduct(a, d);
    RealProduct(c, b);
    RealProduct(b, d);
    NonzeroProduct(rb, rd);
    assert (x * rb) * rd + (y * rd) * rb == (x + y) * (rb * rd);
    QuotientIs((a * d + c * b) as real, (b * d) as real, x + y);
  }

  lemma MulFractions(a: int, b: int, c: int, d: int)
    requires b != 0 && d != 0
    ensures b * d != 0
    ensures (a * c) as real / (b * d) as real == (a as real / b as real) * (c as real / d as real)
  {
    var x, y := a as real / b as real, c as real / d as real;
    var rb, rd := b as real, d as real;
    assert a as real == x * rb && c as real == y * rd;
    RealProduct(a, c);
    RealProduct(b, d);
    NonzeroProduct(rb, rd);
    assert (x * rb) * (y * rd) == (x * y) * (rb * rd);
    QuotientIs((a * c) as real, (b * d) as real, x * y);
  }

  lemma AddIsExact(a: Rational, b: Rational)
    ensures IsExactly(CheckedAdd(a, b), Value(a) + Value(b))
  {
    ProductRange(a.num, b.den);
    ProductRange(b.num, a.den);
    ProductRange(a.den, b.den);
    AddFractions(a.num, a.den, b.num, b.den);
    NormalizeIsExact(a.num * b.den + b.num * a.den, a.den * b.den, Value(a) + Value(b));
  }

  lemma MulIsExact(a: Rational, b: Rational)
    ensures IsExactly(CheckedMul(a, b), Value(a) * Value(b))
  {
    NumeratorRange(a.num, b.num);
    ProductRange(a.den, b.den);
    MulFractions(a.num, a.den, b.num, b.den);
    NormalizeIsExact(a.num * b.num, a.den * b.den, Value(a) * Value(b));
  }

  lemma FlipFraction(c: int, d: int)
    requires c != 0 && d != 0
    ensures d as real / c as real == 1.0 / (c as real / d as real)
  {
    var y := c as real / d as real;
    assert c as real == y * d as real;
    assert y != 0.0;
    assert d as real == (1.0 / y) * c as real;
    QuotientIs(d as real, c as real, 1.0 / y);
  }

  lemma ValueZero(a: Rational)
    ensures Value(a) == 0.0 <==> a.num == 0
  {
    RepresentsValue(a, 0, 1);
  }

  lemma DivIsExact(a: Rational, b: Rational)
    ensures Value(b) == 0.0 ==> CheckedDiv(a, b) == Err(DivisionByZero)
    ensures Value(b) != 0.0 ==> IsExactly(CheckedDiv(a, b), Value(a) / Value(b))
  {
    ValueZero(b);
    if b.num != 0 {
      ProductRange(a.num, b.den);
      ProductRange(b.num, a.den);
      MulFractions(a.num, a.den, b.den, b.num);
      FlipFraction(b.num, b.den);
      NormalizeIsExact(a.num * b.den, a.den * b.num, Value(a) / Value(b));
    }
  }

  /** Subtraction is exact except for one family of arguments: it fails for every subtrahend whose
      numerator is the least `i64`, because that numerator has no negation. */
  lemma SubIsExactIff(a: Rational, b: Rational)
    ensures b.num != I64_MIN ==> IsExactly(CheckedSub(a, b), Value(a) - Value(b))
    ensures b.num == I64_MIN ==> CheckedSub(a, b) == Err(Overflow)
    ensures CheckedSub(a, b).Ok? <==> b.num != I64_MIN && Representable(Value(a) - Value(b))
  {
    if b.num != I64_MIN {
      var n: Rational := Ratio(-b.num, b.den);
      assert Value(n) == -Value(b);
      AddIsExact(a, n);
    }
  }

  /** A representable difference that `checked_sub` refuses: -1 - (-2^63) is the largest `i64`. */
  lemma SubRefusesRepresentable()
    ensures var a, b := FromInteger(-1), FromInteger(I64_MIN);
      Representable(Value(a) - Value(b)) && CheckedSub(a, b) == Err(Overflow)
  {
    assert Value(FromInteger(I64_MAX)) == Value(FromInteger(-1)) - Value(FromInteger(I64_MIN));
  }

  // ----- Order

  datatype Ordering3 = Less | Equal | Greater

  function Cmp(a: Rational, b: Rational): Ordering3 {
    var l, r := a.num * b.den, b.num * a.den;
    if l < r then Less else if l == r then Equal else Greater
  }

  predicate RatLe(a: Rational, b: Rational) {
    Cmp(a, b) != Greater
  }

  /** The comparison is the order of real values, and `Equal` is structural equality. */
  lemma CmpIsValueOrder(a: Rational, b: Rational)
    ensures Cmp(a, b) == Less <==> Value(a) < Value(b)
    ensures Cmp(a, b) == Equal <==> a == b
    ensures Cmp(a, b) == Equal <==> Value(a) == Value(b)
    ensures Cmp(a, b) == Greater <==> Value(a) > Value(b)
  {
    CrossCompare(a.num as real, a.den as real, b.num as real, b.den as real);
    CrossCompare(b.num as real, b.den as real, a.num as real, a.den as real);
    assert (a.num * b.den) as real == a.num as real * b.den as real;
    assert (b.num * a.den) as real == b.num as real * a.den as real;
    ValueUnique(a, b);
  }

  lemma RatOrder()
    ensures Preorder(RatLe) && Antisymmetric(RatLe)
    ensures forall a: Rational, b: Rational :: RatLe(a, b) <==> Value(a) <= Value(b)
  {
    forall a: Rational, b: Rational
      ensures RatLe(a, b) <==> Value(a) <= Value(b)
      ensures RatLe(a, b) && RatLe(b, a) ==> a == b
    {
      CmpIsValueOrder(a, b);
    }
  }

  function RatMax(a: Rational, b: Rational): Rational {
    if RatLe(a, b) then b else a
  }

  function RatMin(a: Rational, b: Rational): Rational {
    if RatLe(a, b) then a else b
  }

  function Clamp(a: Rational, minimum: Rational, maximum: Rational): Rational {
    RatMin(RatMax(a, minimum), maximum)
  }

  function ClampReal(x: real, lo: real, hi: real): real {
    var m := if x < lo then lo else x;
    if m > hi then hi else m
  }

  lemma ClampValue(a: Rational, minimum: Rational, maximum: Rational)
    ensures Value(Clamp(a, minimum, maximum)) == ClampReal(Value(a), Value(minimum), Value(maximum))
  {
    CmpIsValueOrder(a, minimum);
    CmpIsValueOrder(RatMax(a, minimum), maximum);
  }

  // ----- Rounding

  function RoundHalfUpNonnegative(a: Rational): (r: Result<i64, ExactError>)
  {
    if a.num < 0 then Err(OutsideRatingRange)
    else
      var rounded := (a.num * 2 + a.den) / (a.den * 2);
      if FitsI64(rounded) then Ok(rounded) else Err(Overflow)
  }

  /** Half-up rounding of a nonnegative value never overflows: the result `v` is the one integer
      with `v - 1/2 <= value < v + 1/2`. */
  lemma RoundsHalfUp(a: Rational)
    ensures RoundHalfUpNonnegative(a).Ok? <==> Value(a) >= 0.0
    ensures var r := RoundHalfUpNonnegative(a);
      r.Ok? ==> r.value >= 0 && r.value as real - 0.5 <= Value(a) < r.value as real + 0.5
  {
    CmpIsValueOrder(a, ZERO);
    if a.num >= 0 {
      RoundQuotient(a.num, a.den);
    }
  }

  lemma RoundQuotient(n: nat, d: nat)
    requires n <= I64_MAX && 0 < d
    ensures var v := (n * 2 + d) / (d * 2);
      0 <= v <= I64_MAX && v as real - 0.5 <= n as real / d as real < v as real + 0.5
  {
    var v, rest := DivMod(n * 2 + d, d * 2);
    RoundBound(n, d, v, rest);
    RoundNearest(n, d, v, rest);
  }

  lemma RoundBound(n: nat, d: nat, v: nat, rest: nat)
    requires n <= I64_MAX && 0 < d && n * 2 + d == v * (d * 2) + rest
    ensures v <= I64_MAX
  {
    MulDistribute(v - n, n, 2 * d);
    MulSign(v - n, 2 * d);
    MulSign(d, 2 * n);
  }

  lemma RoundNearest(n: nat, d: nat, v: nat, rest: nat)
    requires 0 < d && n * 2 + d == v * (d * 2) + rest && rest < d * 2
    ensures v as real - 0.5 <= n as real / d as real < v as real + 0.5
  {
    var x, rd := n as real / d as real, d as real;
    assert x * rd == n as real;
    assert v * (d * 2) == 2 * (v * d);
    RealProduct(v, d);
    var z := x - v as real + 0.5;
    assert z * rd == x * rd - v as real * rd + 0.5 * rd;
    assert z * rd == rest as real / 2.0;
    QuotientRange(z, rd, rest as real / 2.0);
  }

  lemma QuotientRange(z: real, d: real, r: real)
    requires d > 0.0 && z * d == r && 0.0 <= r < d
    ensures 0.0 <= z < 1.0
  {
  }

  /** Rounding is monotone. */
  lemma RoundMonotone(a: Rational, b: Rational)
    requires 0.0 <= Value(a) <= Value(b)
    ensures RoundHalfUpNonnegative(a).Ok? && RoundHalfUpNonnegative(b).Ok?
    ensures RoundHalfUpNonnegative(a).value <= RoundHalfUpNonnegative(b).value
  {
    RoundsHalfUp(a);
    RoundsHalfUp(b);
  }

  function RatioReal(num: int, den: int): real
    requires den != 0
  {
    num as real / den as real
  }

  lemma NewValue(num: i64, den: i64)
    requires den != 0
    ensures IsExactly(New(num, den), RatioReal(num, den))
  {
    NormalizeIsExact(num, den, RatioReal(num, den));
  }

  lemma SumValue(a: Rational, b: Rational)
    ensures CheckedAdd(a, b).Ok? ==> Value(CheckedAdd(a, b).value) == Value(a) + Value(b)
  {
    AddIsExact(a, b);
  }

  lemma RatioScale(k: int, a: int, b: int)
    requires k > 0 && b > 0
    ensures k * b > 0 && RatioReal(k * a, k * b) == RatioReal(a, b)
  {
    MulSign(b, k);
    RealProduct(k, a);
    RealProduct(k, b);
    var q := RatioReal(a, b);
    assert a as real == q * b as real;
    assert (k * a) as real == q * (k * b) as real;
    QuotientIs((k * a) as real, (k * b) as real, q);
  }

  lemma SumRatio(a: int, b: int, d: nat)
    requires d > 0
    ensures RatioReal(a, d) + RatioReal(b, d) == RatioReal(a + b, d)
  {
  }

  // ----- Fractions over a known denominator fit

  /** `x` is a fraction over `den`, not necessarily in lowest terms. */
  ghost predicate Over(x: real, den: int) {
    den > 0 && exists n: int :: x == RatioReal(n, den)
  }

  lemma FractionRepresentable(n: int, den: int)
    requires -I64_MAX <= n <= I64_MAX && 0 < den <= I64_MAX
    ensures Representable(RatioReal(n, den))
  {
    NewValue(n, den);
    Reduced(n, den);
    FactorAtMost(TruncDiv(n, Gcd(Abs(n), den)), Gcd(Abs(n), den), n);
    FactorAtMost(TruncDiv(den, Gcd(Abs(n), den)), Gcd(Abs(n), den), den);
    assert New(n, den).Ok? by { hide TruncDiv; hide Gcd; }
  }

  lemma FactorAtMost(a: int, g: nat, n: int)
    requires g > 0 && n == a * g
    ensures Abs(a) <= Abs(n)
  {
    MulSign(a, g);
    MulSign(0 - a, g);
    assert (0 - a) * g == 0 - n;
    if a >= 1 {
      MulMonotone(1, g, a);
    } else if a <= -1 {
      MulMonotone(1, g, 0 - a);
    }
  }

  /** A fraction over `den` of absolute value at most `bound` fits when `bound * den` does. */
  lemma OverFits(x: real, den: int, bound: nat)
    requires Over(x, den) && -(bound as real) <= x <= bound as real
    requires den <= I64_MAX && bound * den <= I64_MAX
    ensures Representable(x)
  {
    var n: int :| x == RatioReal(n, den);
    var d := den as real;
    assert n as real == x * d;
    assert -(bound as real) * d <= x * d <= bound as real * d;
    RealProduct(bound, den);
    FractionRepresentable(n, den);
  }

  lemma OverWiden(x: real, den: int, k: int)
    requires Over(x, den) && k > 0
    ensures Over(x, k * den)
  {
    var n: int :| x == RatioReal(n, den);
    RatioScale(k, n, den);
    assert x == RatioReal(k * n, k * den);
  }

  lemma OverAdd(x: real, y: real, den: int)
    requires Over(x, den) && Over(y, den)
    ensures Over(x + y, den)
  {
    var n: int :| x == RatioReal(n, den);
    var m: int :| y == RatioReal(m, den);
    assert x + y == RatioReal(n + m, den);
  }

  lemma OverMul(x: real, a: int, p: int, b: int)
    requires Over(x, a) && b > 0
    ensures Over(x * RatioReal(p, b), b * a)
  {
    var n: int :| x == RatioReal(n, a);
    MulSign(a, b);
    MulFractions(n, a, p, b);
    assert x * RatioReal(p, b) == RatioReal(n * p, a * b);
  }

  // ----- Representability in integers

  /** In lowest terms numerator and denominator fit `i64`. */
  predicate FitsReduced(n: int, d: nat)
    requires d > 0
  {
    var g := Gcd(Abs(n), d);
    FitsI64(TruncDiv(n, g)) && TruncDiv(d, g) <= I64_MAX
  }

  lemma RepresentableIff(n: int, d: nat)
    requires d > 0
    ensures Representable(RatioReal(n, d)) <==> FitsReduced(n, d)
  {
    var g := Gcd(Abs(n), d);
    Reduced(n, d);
    var a, b := TruncDiv(n, g), TruncDiv(d, g);
    hide Gcd;
    hide TruncDiv;
    LowestTerms(n, d, a, b, g);
    if FitsReduced(n, d) {
      var q: Rational := Ratio(a, b);
      RepresentsValue(q, n, d);
    }
    if q: Rational :| Value(q) == RatioReal(n, d) {
      RepresentsValue(q, n, d);
    }
  }

  /** A fraction in lowest terms with a denominator beyond `i64` has no representation. */
  lemma {:induction false} TooFine(n: int, d: nat)
    requires d > I64_MAX && Gcd(Abs(n), d) == 1
    ensures !Representable(RatioReal(n, d))
  {
    if q: Rational :| Value(q) == RatioReal(n, d) {
      RepresentsValue(q, n, d);
      var c := CoprimeDivides(n, d, q.den, q.num);
      AtLeastOnce(q.den, c, d);
    }
  }

  lemma AtLeastOnce(x: int, c: int, d: nat)
    requires x > 0 && x == c * d
    ensures x >= d
  {
    MulSign(c, d);
  }
}
