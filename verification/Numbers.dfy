// scripts/merge-mac-update-manifests.ts:64-66 and 238-243: the numbers of a manifest, read from decimal text and
// printed as Number::toString prints them (section 6.1.6.1.20 of ECMA-262, 14th edition).
module Numbers {
  import opened Prelude
  import opened Text

  // units / 10^scale, not rounded.
  datatype Number = Number(units: int, scale: nat)

  predicate IsNormal(n: Number) {
    n.scale > 0 ==> n.units % 10 != 0
  }

  function Normal(units: int, scale: nat): (n: Number)
    ensures IsNormal(n)
    ensures IsNormal(Number(units, scale)) ==> n == Number(units, scale)
    decreases scale
  {
    if scale > 0 && units % 10 == 0 then Normal(units / 10, scale - 1) else Number(units, scale)
  }

  // --- Reading ---

  function WithoutSign(s: string): string {
    if s != [] && s[0] == '-' then s[1..] else s
  }

  // /^-?\d+(?:\.\d+)?$/
  predicate IsNumber(s: string) {
    var t := WithoutSign(s);
    var i := IndexOf(t, '.');
    IsDigits(t[..i]) && (i < |t| ==> IsDigits(t[i + 1..]))
  }

  // The digits after the point.
  function Fraction(s: string): string {
    var t := WithoutSign(s);
    var i := IndexOf(t, '.');
    if i < |t| then t[i + 1..] else []
  }

  // The number with its point moved behind the last digit.
  function Units(s: string): int
    requires IsNumber(s)
  {
    var t := WithoutSign(s);
    var n: int := DecimalValue(t[..IndexOf(t, '.')] + Fraction(s));
    if s[0] == '-' then -n else n
  }

  function NumberOf(s: string): (n: Number)
    requires IsNumber(s)
    ensures IsNormal(n)
  {
    Normal(Units(s), |Fraction(s)|)
  }

  lemma NumberCharacters(s: string)
    requires IsNumber(s)
    ensures s != [] && forall i :: 0 <= i < |s| ==> IsDigit(s[i]) || s[i] == '-' || s[i] == '.'
    ensures IsDigit(s[|s| - 1])
  {
    var t := WithoutSign(s);
    var i := IndexOf(t, '.');
    forall k | 0 <= k < |t| ensures IsDigit(t[k]) || t[k] == '.' {
      if k < i {
        assert IsDigit(t[..i][k]);
      } else if k > i {
        assert IsDigit(t[i + 1..][k - i - 1]);
      }
    }
    assert s == t || s == "-" + t;
    assert IsDigit(t[|t| - 1]) by {
      if i < |t| {
        assert t[|t| - 1] == t[i + 1..][|t| - i - 2];
      } else {
        assert t[..i] == t;
      }
    }
  }

  // --- Two numbers are the same exactly if they are equal ---

  function Power(n: nat): (p: nat)
    ensures p > 0
  {
    if n == 0 then 1 else 10 * Power(n - 1)
  }

  ghost predicate Equal(a: Number, b: Number) {
    a.units * Power(b.scale) == b.units * Power(a.scale)
  }

  lemma TenTimes(a: int, n: nat)
    ensures a * Power(n + 1) == 10 * (a * Power(n))
  {
  }

  lemma {:induction false} NormalEquals(units: int, scale: nat, b: Number)
    ensures Equal(Normal(units, scale), b) <==> Equal(Number(units, scale), b)
    decreases scale
  {
    if scale > 0 && units % 10 == 0 {
      NormalEquals(units / 10, scale - 1, b);
      TenTimes(b.units, scale - 1);
      TensMove(units / 10, Power(b.scale));
    }
  }

  lemma TensMove(a: int, p: int)
    ensures (10 * a) * p == 10 * (a * p)
  {
  }

  lemma {:induction false} Cancel(a: int, b: int, n: nat, d: nat)
    requires a * Power(n + d) == b * Power(n)
    ensures a * Power(d) == b
    decreases n
  {
    if n > 0 {
      TenTimes(a, n - 1 + d);
      TenTimes(b, n - 1);
      Cancel(a, b, n - 1, d);
    }
  }

  lemma EqualIsSame(a: Number, b: Number)
    requires IsNormal(a) && IsNormal(b) && Equal(a, b) && a.scale <= b.scale
    ensures a == b
  {
    hide Power;
    var d := b.scale - a.scale;
    Cancel(a.units, b.units, a.scale, d);
    if d > 0 {
      TenTimes(a.units, d - 1);
    } else {
      PowerOfZero();
    }
  }

  lemma PowerOfZero()
    ensures Power(0) == 1
  {
  }

  // Texts that name equal numbers, such as 1.0 and 1, are read alike; others are not.
  lemma ReadByValue(s: string, t: string)
    requires IsNumber(s) && IsNumber(t)
    ensures NumberOf(s) == NumberOf(t) <==> Equal(Number(Units(s), |Fraction(s)|), Number(Units(t), |Fraction(t)|))
  {
    hide Units, Fraction, Equal, IsNumber;
    var a, b := NumberOf(s), NumberOf(t);
    EqualIsSymmetric(a, Number(Units(t), |Fraction(t)|));
    NormalEquals(Units(s), |Fraction(s)|, Number(Units(t), |Fraction(t)|));
    NormalEquals(Units(t), |Fraction(t)|, a);
    EqualIsSymmetric(a, b);
    if Equal(a, b) {
      if a.scale <= b.scale {
        EqualIsSame(a, b);
      } else {
        EqualIsSame(b, a);
      }
    }
    EqualIsReflexive(a);
  }

  lemma EqualIsSymmetric(a: Number, b: Number)
    ensures Equal(a, b) <==> Equal(b, a)
  {
  }

  lemma EqualIsReflexive(a: Number)
    ensures Equal(a, a)
  {
  }

  // --- Printing ---

  function Magnitude(n: int): nat {
    if n < 0 then -n else n
  }

  function Sign(n: int): string {
    if n < 0 then "-" else ""
  }

  // Zeros in front make at least `length` digits.
  function Padded(digits: string, length: nat): (s: string)
    requires IsDigits(digits)
    ensures IsDigits(s) && |s| >= length
    decreases length
  {
    if |digits| >= length then digits else "0" + Padded(digits, length - 1)
  }

  function WithoutZeros(digits: string): (s: string)
    requires IsDigits(digits)
    ensures IsDigits(s)
  {
    if |digits| > 1 && digits[|digits| - 1] == '0' then WithoutZeros(digits[..|digits| - 1]) else digits
  }

  // The place of the first digit, counted from the point.
  function Exponent(n: Number): int {
    |Decimal(Magnitude(n.units))| - n.scale
  }

  // From 0.000001 up to below 1e21 a number is printed without an exponent.
  predicate HasPlainForm(n: Number) {
    -6 < Exponent(n) <= 21
  }

  function WithPoint(p: string, whole: nat): string
    requires whole <= |p|
  {
    p[..whole] + if whole == |p| then "" else "." + p[whole..]
  }

  function PlainForm(n: Number): string {
    var p := Padded(Decimal(Magnitude(n.units)), n.scale + 1);
    Sign(n.units) + WithPoint(p, |p| - n.scale)
  }

  function ExponentForm(n: Number): string {
    var d, e := WithoutZeros(Decimal(Magnitude(n.units))), Exponent(n) - 1;
    Sign(n.units) + d[..1] + (if |d| == 1 then "" else "." + d[1..]) + (if e < 0 then "e-" else "e+")
    + Decimal(Magnitude(e))
  }

  function Print(n: Number): string {
    if HasPlainForm(n) then PlainForm(n) else ExponentForm(n)
  }

  lemma {:induction false} ZeroInFront(s: string)
    requires forall i :: 0 <= i < |s| ==> IsDigit(s[i])
    ensures DecimalValue("0" + s) == DecimalValue(s)
    decreases |s|
  {
    var t := "0" + s;
    if s == [] {
      assert DecimalValue(t) == 10 * DecimalValue([]) + DigitValue('0');
    } else {
      assert t[..|t| - 1] == "0" + s[..|s| - 1] && t[|t| - 1] == s[|s| - 1];
      ZeroInFront(s[..|s| - 1]);
    }
  }

  lemma {:induction false} PaddedValue(digits: string, length: nat)
    requires IsDigits(digits)
    ensures DecimalValue(Padded(digits, length)) == DecimalValue(digits)
    ensures |Padded(digits, length)| == if |digits| >= length then |digits| else length
    decreases length
  {
    hide DecimalValue;
    if |digits| < length {
      PaddedValue(digits, length - 1);
      ZeroInFront(Padded(digits, length - 1));
    }
  }

  lemma SignIsRead(p: string, whole: nat, sign: string)
    requires IsDigits(p) && 0 < whole <= |p| && (sign == "" || sign == "-")
    ensures var s := sign + WithPoint(p, whole);
      && IsNumber(s) && |Fraction(s)| == |p| - whole
      && Units(s) == (if sign == "-" then -1 else 1) * DecimalValue(p)
  {
    hide DecimalValue, IndexOf, WithPoint, IsDigits, IsDigit, WithoutSign;
    PointOf(p, whole);
    SignOf(WithPoint(p, whole), sign);
  }

  lemma SignOf(t: string, sign: string)
    requires t != [] && t[0] != '-' && (sign == "" || sign == "-")
    ensures WithoutSign(sign + t) == t && ((sign + t)[0] == '-' <==> sign == "-")
  {
  }

  // A number printed without an exponent is read back.
  lemma PlainFormIsRead(n: Number)
    requires IsNormal(n)
    ensures IsNumber(PlainForm(n)) && NumberOf(PlainForm(n)) == n
  {
    hide Decimal, DecimalValue, Padded, IsNumber, Units, Fraction, WithPoint;
    var m := Magnitude(n.units);
    var p := Padded(Decimal(m), n.scale + 1);
    PaddedValue(Decimal(m), n.scale + 1);
    DecimalRoundTrip(m);
    SignIsRead(p, |p| - n.scale, Sign(n.units));
  }

  lemma PointOf(p: string, whole: nat)
    requires IsDigits(p) && 0 < whole <= |p|
    ensures var t := WithPoint(p, whole);
      var fraction := if whole < |t| then t[whole + 1..] else "";
      && t != [] && t[0] != '-' && IndexOf(t, '.') == whole && IsDigits(t[..whole])
      && (whole < |t| ==> IsDigits(fraction))
      && t[..whole] + fraction == p && |fraction| == |p| - whole
  {
    var t := WithPoint(p, whole);
    assert t[..whole] == p[..whole];
    assert forall k :: 0 <= k < whole ==> t[k] == p[k] && t[k] != '.';
    if whole < |p| {
      assert t[whole] == '.' && t[whole + 1..] == p[whole..];
    } else {
      assert t == p;
    }
    assert p[..whole] + p[whole..] == p;
  }

  predicate HasNumberCharacters(s: string) {
    s != [] && forall i :: 0 <= i < |s| ==> IsDigit(s[i]) || s[i] in ['-', '+', '.', 'e']
  }

  // What is printed with an exponent is not a number to the reader.
  lemma ExponentFormIsNoNumber(n: Number)
    ensures HasNumberCharacters(ExponentForm(n)) && !IsNumber(ExponentForm(n))
  {
    hide Decimal, WithoutZeros, IsNumber;
    var d, e, s := WithoutZeros(Decimal(Magnitude(n.units))), Exponent(n) - 1, ExponentForm(n);
    var front := Sign(n.units) + d[..1] + if |d| == 1 then "" else "." + d[1..];
    assert s == front + (if e < 0 then "e-" else "e+") + Decimal(Magnitude(e));
    assert s[|front|] == 'e';
    if IsNumber(s) {
      NumberCharacters(s);
    }
  }

  // A number comes back from print exactly if it has no exponent there.
  lemma PrintIsRead(n: Number)
    requires IsNormal(n)
    ensures HasNumberCharacters(Print(n))
    ensures IsNumber(Print(n)) <==> HasPlainForm(n)
    ensures HasPlainForm(n) ==> NumberOf(Print(n)) == n
  {
    hide IsNumber, NumberOf, PlainForm, ExponentForm, HasPlainForm;
    if HasPlainForm(n) {
      PlainFormIsRead(n);
      NumberCharacters(PlainForm(n));
    } else {
      ExponentFormIsNoNumber(n);
    }
  }

  // --- Whole numbers ---

  // The first whole number that is printed with an exponent, 1e21.
  const EXPONENT_FROM: nat := 1_000_000_000_000_000_000_000

  lemma {:induction false} DecimalLength(n: nat, k: nat)
    requires k > 0
    ensures |Decimal(n)| <= k <==> n < Power(k)
    decreases k
  {
    hide DecimalValue;
    if n < 10 {
      assert Power(k) >= 10 * Power(0);
    } else if k > 1 {
      DecimalLength(n / 10, k - 1);
    } else {
      assert Power(1) == 10 * Power(0);
    }
  }

  lemma PowerOf21()
    ensures Power(21) == EXPONENT_FROM
  {
    assert Power(7) == 10_000_000;
    assert Power(14) == 10_000_000 * Power(7);
    assert Power(21) == 10_000_000 * Power(14);
  }

  // Below 1e21 a whole number is printed as its digits, and from there on as no digits.
  lemma WholeForm(n: nat)
    ensures HasPlainForm(Number(n, 0)) <==> n < EXPONENT_FROM
    ensures n < EXPONENT_FROM ==> Print(Number(n, 0)) == Decimal(n)
    ensures n >= EXPONENT_FROM ==> HasNumberCharacters(Print(Number(n, 0))) && !IsDigits(Print(Number(n, 0)))
  {
    hide Decimal, IsNumber, ExponentForm, WithoutZeros;
    DecimalLength(n, 21);
    PowerOf21();
    if n < EXPONENT_FROM {
      assert Padded(Decimal(n), 1) == Decimal(n);
    } else {
      ExponentFormIsNoNumber(Number(n, 0));
      DigitsAreNumber(ExponentForm(Number(n, 0)));
    }
  }

  // Plain are exactly the numbers from 0.000001 up to below 1e21, and 0.
  lemma PlainInRange(n: Number)
    ensures HasPlainForm(n) <==>
      if n.units == 0 then n.scale <= 6
      else Power(n.scale) <= Magnitude(n.units) * Power(6) && Magnitude(n.units) < Power(n.scale + 21)
  {
    hide Decimal, Power;
    var m := Magnitude(n.units);
    DecimalLength(m, n.scale + 21);
    PowerAtLeast(n.scale, 6, m);
    if n.scale > 6 {
      DecimalLength(m, n.scale - 6);
    }
    if n.units == 0 {
      ZeroIsOneDigit();
    }
  }

  lemma ZeroIsOneDigit()
    ensures |Decimal(0)| == 1
  {
  }

  lemma PowerAtLeast(scale: nat, k: nat, m: nat)
    ensures m > 0 && scale <= k ==> Power(scale) <= m * Power(k)
    ensures scale > k ==> (Power(scale) <= m * Power(k) <==> Power(scale - k) <= m)
  {
    hide Power;
    if scale > k {
      PowerSum(scale - k, k);
      if Power(scale - k) <= m {
        MultiplyGrows(Power(scale - k), m, Power(k));
      } else {
        MultiplyGrows(m + 1, Power(scale - k), Power(k));
      }
    } else if m > 0 {
      PowerSum(k - scale, scale);
      MultiplyGrows(1, Power(k - scale), Power(scale));
      MultiplyGrows(1, m, Power(k));
    }
  }

  lemma MultiplyGrows(a: nat, b: nat, p: nat)
    requires a <= b
    ensures a * p <= b * p
  {
  }

  lemma {:induction false} PowerSum(a: nat, b: nat)
    ensures Power(a + b) == Power(a) * Power(b)
    decreases a
  {
    if a > 0 {
      PowerSum(a - 1, b);
      assert Power(a + b) == 10 * (Power(a - 1) * Power(b));
    }
  }

  // The digits before an exponent are those of the number without the zeros at its end.
  lemma {:induction false} WithoutZerosExact(digits: string)
    requires IsDigits(digits)
    ensures var d := WithoutZeros(digits);
      && |d| <= |digits| && DecimalValue(digits) == DecimalValue(d) * Power(|digits| - |d|)
      && (|d| > 1 ==> d[|d| - 1] != '0')
    decreases |digits|
  {
    if |digits| > 1 && digits[|digits| - 1] == '0' {
      var init := digits[..|digits| - 1];
      WithoutZerosExact(init);
      var d := WithoutZeros(init);
      TenTimes(DecimalValue(d), |init| - |d|);
    }
  }

  lemma DigitsAreNumber(s: string)
    ensures IsDigits(s) ==> IsNumber(s)
  {
    if IsDigits(s) {
      assert WithoutSign(s) == s;
      assert s[..|s|] == s;
    }
  }
}
