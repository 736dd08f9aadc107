/** Durations as text: the printer and parser of the clip exporter
    (crates/openfrag-clips/src/derivative.rs:727-729, 818-852) and the parser of the recorder
    supervisor (crates/openfrag-capture/src/lib.rs:633-656). */
module Durations {
  import opened Prelude
  import opened Text

  datatype ClipError = MalformedOutput | NonPositiveDuration

  datatype ProbeError = NotDecimal | TooLarge | NotPositive

  // ----- Printing

  /** `{:03}` */
  function Padded(n: nat): string {
    var digits := Decimal(n);
    if |digits| == 1 then "00" + digits else if |digits| == 2 then "0" + digits else digits
  }

  function FormatMilliseconds(ms: u64): string {
    Decimal(ms / 1_000) + "." + Padded(ms % 1_000)
  }

  // ----- The library calls both parsers make

  /** The parts around the first dot; without a dot, the whole text and nothing. */
  function SplitDot(s: string): (string, string) {
    if s == [] then ([], [])
    else if s[0] == '.' then ([], s[1..])
    else
      var (whole, fraction) := SplitDot(s[1..]);
      ([s[0]] + whole, fraction)
  }

  /** Rust's `str::parse::<u64>`, which takes a leading plus sign. */
  function ParseU64(s: string): Option<u64> {
    var digits := if s != [] && s[0] == '+' then s[1..] else s;
    if digits == [] || !AllDigits(digits) || ValueOf(digits) > U64_MAX then None else Some(ValueOf(digits))
  }

  function SatMul(a: u64, b: u64): u64 {
    if a * b <= U64_MAX then a * b else U64_MAX
  }

  // ----- What the fraction means

  /** The digit at position `i`, zero when the fraction is shorter. */
  function DigitAt(fraction: string, i: nat): nat
    requires AllDigits(fraction)
  {
    if i < |fraction| then DigitOf(fraction[i]) else 0
  }

  /** Tenths, hundredths and thousandths; the rest is cut off. */
  function FractionMillis(fraction: string): (ms: nat)
    requires AllDigits(fraction)
    ensures ms < 1_000
  {
    100 * DigitAt(fraction, 0) + 10 * DigitAt(fraction, 1) + DigitAt(fraction, 2)
  }

  // ----- The exporter's parser

  function ParseClip(s: string): Result<u64, ClipError> {
    var (whole, fraction) := SplitDot(s);
    var seconds := ParseU64(whole);
    if seconds.None? || !AllDigits(fraction) then Err(MalformedOutput)
    else
      var ms := seconds.value * 1_000 + FractionMillis(fraction);
      if ms > U64_MAX then Err(MalformedOutput) else if ms == 0 then Err(NonPositiveDuration) else Ok(ms)
  }

  method ParseSecondsAsMilliseconds(s: string) returns (r: Result<u64, ClipError>)
    ensures r == ParseClip(s)
  {
    var (whole, fraction) := SplitDot(s);
    var seconds := ParseU64(whole);
    if seconds.None? {
      return Err(MalformedOutput);
    }
    if !AllDigits(fraction) {
      return Err(MalformedOutput);
    }
    var fractionMs: u64, digits := 0, 0;
    while digits < 3 && digits < |fraction|
      invariant 0 <= digits <= 3 && digits <= |fraction|
      invariant fractionMs == (if digits == 0 then 0
                               else if digits == 1 then DigitAt(fraction, 0)
                               else if digits == 2 then 10 * DigitAt(fraction, 0) + DigitAt(fraction, 1)
                               else FractionMillis(fraction))
    {
      fractionMs := SatAdd(SatMul(fractionMs, 10), DigitOf(fraction[digits]));
      digits := digits + 1;
    }
    while digits < 3
      invariant 0 <= digits <= 3
      invariant |fraction| <= digits || digits == 3
      invariant fractionMs == (if digits == 0 then 0
                               else if digits == 1 then DigitAt(fraction, 0)
                               else if digits == 2 then 10 * DigitAt(fraction, 0) + DigitAt(fraction, 1)
                               else FractionMillis(fraction))
    {
      fractionMs := SatMul(fractionMs, 10);
      digits := digits + 1;
    }
    var ms := seconds.value as int * 1_000;
    if ms > U64_MAX || ms + fractionMs > U64_MAX {
      return Err(MalformedOutput);
    }
    if ms + fractionMs == 0 {
      return Err(NonPositiveDuration);
    }
    return Ok(ms + fractionMs);
  }

  // ----- The supervisor's parser

  function ParseProbe(s: string): Result<u64, ProbeError> {
    var (whole, fraction) := SplitDot(s);
    if whole == [] || !AllDigits(whole) || !AllDigits(fraction) then Err(NotDecimal)
    else if ParseU64(whole).None? then Err(TooLarge)
    else
      var ms := ParseU64(whole).value * 1_000 + FractionMillis(fraction);
      if ms > U64_MAX then Err(TooLarge) else if ms == 0 then Err(NotPositive) else Ok(ms)
  }

  method ParseDurationMs(s: string) returns (r: Result<u64, ProbeError>)
    ensures r == ParseProbe(s)
  {
    var (whole, fraction) := SplitDot(s);
    if whole == [] || !AllDigits(whole) || !AllDigits(fraction) {
      return Err(NotDecimal);
    }
    var seconds := ParseU64(whole);
    if seconds.None? {
      return Err(TooLarge);
    }
    var milliseconds: u64, index := 0, 0;
    while index < 3 && index < |fraction|
      invariant 0 <= index <= 3 && index <= |fraction|
      invariant milliseconds == (if index > 0 then 100 * DigitAt(fraction, 0) else 0)
                              + (if index > 1 then 10 * DigitAt(fraction, 1) else 0)
                              + (if index > 2 then DigitAt(fraction, 2) else 0)
    {
      assert milliseconds <= 990;
      milliseconds := SatAdd(milliseconds, DigitOf(fraction[index]) * [100, 10, 1][index]);
      index := index + 1;
    }
    var ms := seconds.value as int * 1_000;
    if ms > U64_MAX || ms + milliseconds > U64_MAX {
      return Err(TooLarge);
    }
    if ms + milliseconds == 0 {
      return Err(NotPositive);
    }
    return Ok(ms + milliseconds);
  }

  // ----- Printing and parsing undo each other

  lemma {:induction false} SplitAtDot(digits: string, fraction: string)
    requires AllDigits(digits)
    ensures SplitDot(digits + "." + fraction) == (digits, fraction)
  {
    var s := digits + "." + fraction;
    if digits == [] {
      assert s[1..] == fraction;
    } else {
      assert IsDigit(digits[0]) && s[0] == digits[0];
      assert s[1..] == digits[1..] + "." + fraction;
      SplitAtDot(digits[1..], fraction);
      assert [digits[0]] + digits[1..] == digits;
    }
  }

  lemma PaddedMillis(n: nat)
    requires n < 1_000
    ensures AllDigits(Padded(n)) && FractionMillis(Padded(n)) == n
  {
    if n >= 100 {
      assert Decimal(n) == Decimal(n / 100) + [DigitChar(n / 10 % 10)] + [DigitChar(n % 10)];
    } else if n >= 10 {
      assert Decimal(n) == [DigitChar(n / 10)] + [DigitChar(n % 10)];
    }
  }

  lemma {:induction false} DigitsParse(n: u64)
    ensures ParseU64(Decimal(n)) == Some(n)
  {
    DecimalDenotes(n);
    assert IsDigit(Decimal(n)[0]);
  }

  /** Both parsers read back what the printer wrote; zero is printed but refused by both. */
  lemma FormatParses(ms: u64)
    ensures ms > 0 ==> ParseClip(FormatMilliseconds(ms)) == Ok(ms) && ParseProbe(FormatMilliseconds(ms)) == Ok(ms)
    ensures ms == 0 ==> ParseClip(FormatMilliseconds(ms)) == Err(NonPositiveDuration)
                        && ParseProbe(FormatMilliseconds(ms)) == Err(NotPositive)
  {
    hide Decimal;
    hide Padded;
    hide SplitDot;
    hide ParseU64;
    hide FractionMillis;
    SplitAtDot(Decimal(ms / 1_000), Padded(ms % 1_000));
    PaddedMillis(ms % 1_000);
    DigitsParse(ms / 1_000);
  }

  // ----- The two parsers

  /** Same value, or both refuse. */
  ghost predicate Agree(s: string) {
    && (ParseClip(s).Ok? <==> ParseProbe(s).Ok?)
    && (ParseClip(s).Ok? ==> ParseClip(s).value == ParseProbe(s).value)
  }

  /** On text whose part before the first dot is a nonempty run of digits the parsers agree, also
      on which refusals are for a zero duration. */
  lemma {:induction false} AgreeOnDigits(s: string)
    requires SplitDot(s).0 != [] && AllDigits(SplitDot(s).0)
    ensures Agree(s)
    ensures ParseClip(s) == Err(NonPositiveDuration) <==> ParseProbe(s) == Err(NotPositive)
  {
  }

  /** They differ on exactly one family: a plus sign in front of something the supervisor's parser
      accepts.  The exporter's parser takes it, the supervisor's does not. */
  lemma AgreeUnlessSigned(s: string)
    ensures Agree(s) <==> !(s != [] && s[0] == '+' && ParseProbe(s[1..]).Ok?)
  {
    var (whole, fraction) := SplitDot(s);
    if s != [] && s[0] == '+' {
      assert whole[0] == '+' && whole[1..] == SplitDot(s[1..]).0 && fraction == SplitDot(s[1..]).1;
      assert !AllDigits(whole);
      var digits := whole[1..];
      assert ParseU64(whole) == if digits == [] || !AllDigits(digits) || ValueOf(digits) > U64_MAX then None else Some(ValueOf(digits));
      assert AllDigits(digits) && digits != [] ==> digits[0] != '+' && ParseU64(digits) == ParseU64(whole);
    } else if whole == [] || !AllDigits(whole) {
      assert whole != [] ==> whole[0] == s[0];
      assert ParseU64(whole).None?;
    }
  }

  /** The shortest such text. */
  lemma SignedDiffers()
    ensures ParseClip("+1") == Ok(1_000) && ParseProbe("+1") == Err(NotDecimal)
  {
    var s, t := "+1", "1";
    assert s[1..] == t && t[1..] == "" && t[..0] == "";
    assert SplitDot(t) == (t, "") by {
      assert SplitDot(t[1..]) == ("", "") && ['1'] + "" == t;
    }
    assert SplitDot(s) == (s, "") by {
      assert SplitDot(s[1..]) == (t, "") && ['+'] + t == s;
    }
    assert ValueOf(t) == 1;
  }

  // ----- The value is the floor

  function Pow10(k: nat): (p: nat)
    ensures p > 0
  {
    if k == 0 then 1 else 10 * Pow10(k - 1)
  }

  lemma {:induction false} ThousandthsFloor(fraction: string)
    requires AllDigits(fraction) && |fraction| >= 3
    ensures var p, f := Pow10(|fraction| - 3), FractionMillis(fraction);
      f * p <= ValueOf(fraction) < (f + 1) * p
  {
    var k := |fraction|;
    var shorter, d := fraction[..k - 1], DigitOf(fraction[k - 1]);
    if k == 3 {
      assert fraction[..2][..1] == fraction[..1] && fraction[..1][..0] == [];
      assert ValueOf(fraction[..1]) == DigitOf(fraction[0]);
      assert ValueOf(fraction[..2]) == 10 * DigitOf(fraction[0]) + DigitOf(fraction[1]);
    } else {
      ThousandthsFloor(shorter);
      assert FractionMillis(shorter) == FractionMillis(fraction);
      var q, f, v := Pow10(k - 4), FractionMillis(fraction), ValueOf(shorter);
      FloorStep(f, q, v, d);
    }
  }

  lemma FloorStep(f: nat, q: nat, v: nat, d: nat)
    requires f * q <= v < (f + 1) * q && d < 10
    ensures f * (10 * q) <= 10 * v + d < (f + 1) * (10 * q)
  {
    assert f * (10 * q) == 10 * (f * q);
    assert (f + 1) * (10 * q) == 10 * ((f + 1) * q);
  }

  lemma {:induction false} ZeroesAppended(fraction: string, n: nat)
    requires AllDigits(fraction)
    ensures AllDigits(fraction + Zeroes(n)) && ValueOf(fraction + Zeroes(n)) == ValueOf(fraction) * Pow10(n)
  {
    if n == 0 {
      assert fraction + [] == fraction;
    } else {
      var longer := fraction + Zeroes(n);
      assert Zeroes(n)[..n - 1] == Zeroes(n - 1);
      assert longer[..|longer| - 1] == fraction + Zeroes(n - 1);
      ZeroesAppended(fraction, n - 1);
    }
  }

  function Zeroes(n: nat): (s: string)
    ensures |s| == n && AllDigits(s)
    ensures forall i :: 0 <= i < n ==> s[i] == '0'
  {
    if n == 0 then [] else Zeroes(n - 1) + "0"
  }

  /** The milliseconds of a fraction are its exact value in thousandths, rounded down. */
  lemma {:induction false} FractionFloor(fraction: string)
    requires AllDigits(fraction)
    ensures var p, f := Pow10(|fraction|), FractionMillis(fraction);
      f * p <= 1_000 * ValueOf(fraction) < (f + 1) * p
  {
    hide ValueOf;
    var padded := fraction + Zeroes(3);
    ZeroesAppended(fraction, 3);
    Thousand();
    PaddingIsSilent(fraction);
    hide Pow10;
    hide FractionMillis;
    ThousandthsFloor(padded);
  }

  lemma Thousand()
    ensures Pow10(3) == 1_000
  {
  }

  lemma PaddingIsSilent(fraction: string)
    requires AllDigits(fraction) && AllDigits(fraction + Zeroes(3))
    ensures FractionMillis(fraction + Zeroes(3)) == FractionMillis(fraction)
  {
    var padded := fraction + Zeroes(3);
    assert forall i :: 0 <= i < 3 ==> DigitAt(padded, i) == DigitAt(fraction, i);
  }

  /** An accepted text is worth the floor of its exact decimal value in milliseconds:
      `n * 10^k <= 1000 * (whole * 10^k + fraction) < (n + 1) * 10^k` for k fraction digits. */
  lemma {:induction false} ParsesToFloor(s: string)
    requires ParseProbe(s).Ok?
    ensures var (whole, fraction) := SplitDot(s);
      AllDigits(whole) && AllDigits(fraction) &&
      var n, p := ParseProbe(s).value as int, Pow10(|fraction|);
      n * p <= 1_000 * (ValueOf(whole) * p + ValueOf(fraction)) < (n + 1) * p
  {
    hide ParseProbe;
    hide FractionMillis;
    hide ValueOf;
    hide Pow10;
    hide SplitDot;
    var (whole, fraction) := SplitDot(s);
    hide AllDigits;
    WholeParses(s);
    FractionFloor(fraction);
    Scaled(ParseProbe(s).value, ValueOf(whole), FractionMillis(fraction), Pow10(|fraction|), ValueOf(fraction));
  }

  lemma {:induction false} WholeParses(s: string)
    requires ParseProbe(s).Ok?
    ensures var (whole, fraction) := SplitDot(s);
      AllDigits(whole) && AllDigits(fraction) && ParseProbe(s).value == 1_000 * ValueOf(whole) + FractionMillis(fraction)
  {
    assert IsDigit(SplitDot(s).0[0]);
  }

  lemma Scaled(n: int, w: nat, f: nat, p: nat, v: nat)
    requires n == 1_000 * w + f
    requires f * p <= 1_000 * v < (f + 1) * p
    ensures n * p <= 1_000 * (w * p + v) < (n + 1) * p
  {
    assert (1_000 * w + f) * p == 1_000 * (w * p) + f * p;
    assert (1_000 * w + f + 1) * p == 1_000 * (w * p) + (f + 1) * p;
  }

  // ----- Which texts are accepted

  /** Digits, and possibly a dot and more digits. */
  ghost predicate Spelled(s: string, whole: string, fraction: string) {
    && whole != [] && AllDigits(whole) && AllDigits(fraction)
    && (s == whole + "." + fraction || (fraction == [] && s == whole))
  }

  /** The whole milliseconds in `whole.fraction` seconds. */
  ghost predicate Worth(whole: string, fraction: string, n: nat)
    requires AllDigits(whole) && AllDigits(fraction)
  {
    var p := Pow10(|fraction|);
    n * p <= 1_000 * (ValueOf(whole) * p + ValueOf(fraction)) < (n + 1) * p
  }

  lemma {:induction false} SplitNoDot(digits: string)
    requires AllDigits(digits)
    ensures SplitDot(digits) == (digits, [])
  {
    if digits != [] {
      assert IsDigit(digits[0]);
      SplitNoDot(digits[1..]);
      assert [digits[0]] + digits[1..] == digits;
    }
  }

  lemma SplitSpelled(s: string, whole: string, fraction: string)
    requires Spelled(s, whole, fraction)
    ensures SplitDot(s) == (whole, fraction)
  {
    hide SplitDot;
    if s == whole + "." + fraction {
      SplitAtDot(whole, fraction);
    } else {
      SplitNoDot(whole);
    }
  }

  lemma Cancelled(a: int, b: int, p: nat)
    requires a * p < b * p
    ensures a < b
  {
    assert b * p - a * p == (b - a) * p;
  }

  lemma FloorUnique(n: nat, m: nat, p: nat, x: nat)
    requires n * p <= x < (n + 1) * p && m * p <= x < (m + 1) * p
    ensures n == m
  {
    Cancelled(n, m + 1, p);
    Cancelled(m, n + 1, p);
  }

  lemma WorthIs(whole: string, fraction: string, n: nat)
    requires AllDigits(whole) && AllDigits(fraction) && Worth(whole, fraction, n)
    ensures n == 1_000 * ValueOf(whole) + FractionMillis(fraction)
  {
    hide ValueOf;
    hide FractionMillis;
    hide Pow10;
    FractionFloor(fraction);
    var ms, p := 1_000 * ValueOf(whole) + FractionMillis(fraction), Pow10(|fraction|);
    Scaled(ms, ValueOf(whole), FractionMillis(fraction), p, ValueOf(fraction));
    FloorUnique(n, ms, p, 1_000 * (ValueOf(whole) * p + ValueOf(fraction)));
  }

  /** The supervisor's parser takes exactly the decimals that are worth between one millisecond and the
      largest u64, and says what is wrong with any other text. */
  lemma ProbeIs(s: string, whole: string, fraction: string, n: nat)
    requires Spelled(s, whole, fraction) && Worth(whole, fraction, n)
    ensures ParseProbe(s) == if n > U64_MAX then Err(TooLarge) else if n == 0 then Err(NotPositive) else Ok(n)
  {
    hide SplitDot;
    hide ValueOf;
    hide FractionMillis;
    hide Worth;
    SplitSpelled(s, whole, fraction);
    WorthIs(whole, fraction, n);
    assert IsDigit(whole[0]);
  }

  lemma ProbeRefuses(s: string)
    ensures ParseProbe(s) == Err(NotDecimal) <==> forall whole, fraction :: !Spelled(s, whole, fraction)
  {
    var (whole, fraction) := SplitDot(s);
    SplitJoins(s);
    if ParseProbe(s) == Err(NotDecimal) {
      forall w: string, f: string
        ensures !Spelled(s, w, f)
      {
        if Spelled(s, w, f) {
          SplitSpelled(s, w, f);
        }
      }
    } else {
      assert Spelled(s, whole, fraction);
    }
  }

  lemma {:induction false} SplitJoins(s: string)
    ensures var (whole, fraction) := SplitDot(s); s == whole + "." + fraction || (fraction == [] && s == whole)
  {
    if s != [] && s[0] != '.' {
      SplitJoins(s[1..]);
    }
  }
}
