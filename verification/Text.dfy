/** Decimal numerals and identifiers built from them. */
module Text {

  predicate IsDigit(c: char) {
    '0' <= c <= '9'
  }

  predicate AllDigits(s: string) {
    forall i :: 0 <= i < |s| ==> IsDigit(s[i])
  }

  function DigitChar(d: nat): (c: char)
    requires d < 10
    ensures IsDigit(c) && DigitOf(c) == d
  {
    ('0' as int + d) as char
  }

  function DigitOf(c: char): (d: nat)
    requires IsDigit(c)
    ensures d < 10
  {
    c as int - '0' as int
  }

  /** What `{}` prints for an unsigned integer. */
  function Decimal(n: nat): (s: string)
    ensures s != [] && AllDigits(s)
  {
    if n < 10 then [DigitChar(n)] else Decimal(n / 10) + [DigitChar(n % 10)]
  }

  /** The number a string of digits denotes. */
  function ValueOf(s: string): nat
    requires AllDigits(s)
  {
    if s == [] then 0 else 10 * ValueOf(s[..|s| - 1]) + DigitOf(s[|s| - 1])
  }

  lemma {:induction false} DecimalDenotes(n: nat)
    ensures ValueOf(Decimal(n)) == n
  {
    if n < 10 {
      assert Decimal(n)[..0] == [];
    } else {
      DecimalDenotes(n / 10);
      assert Decimal(n)[..|Decimal(n)| - 1] == Decimal(n / 10);
    }
  }

  /** The separator is the last character that is not a digit. */
  lemma SeparatorPosition(a: string, digits: string, b: string, digits': string)
    requires AllDigits(digits) && AllDigits(digits')
    requires a + ":" + digits == b + ":" + digits'
    ensures a == b && digits == digits'
  {
    var s := a + ":" + digits;
    assert s[|a|] == ':' && s[|b|] == ':';
    assert forall k :: |a| < k < |s| ==> s[k] == digits[k - |a| - 1];
    assert forall k :: |b| < k < |s| ==> s[k] == digits'[k - |b| - 1];
    assert |a| == |b|;
    assert a == s[..|a|] && b == s[..|b|];
    assert digits == s[|a| + 1..] && digits' == s[|b| + 1..];
  }

  /** `{prefix}:{number}` determines the prefix and the number, even if the prefix has colons. */
  lemma {:induction false} NumberedIsInjective(a: string, m: nat, b: string, n: nat)
    requires a + ":" + Decimal(m) == b + ":" + Decimal(n)
    ensures a == b && m == n
  {
    SeparatorPosition(a, Decimal(m), b, Decimal(n));
    DecimalDenotes(m);
    DecimalDenotes(n);
  }
}
