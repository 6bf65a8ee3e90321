/** PHP's conversion of a float to a string. A float undergoes it when it is
    passed to a `string` parameter (`setX(string $x)` and `setY(string $y)`
    of src/PHP/Types/AbstractPoint.php) or printed with `%s`: the value is
    rounded to 14 significant digits (the `precision` setting) and laid out
    by zend_gcvt, in plain notation when the decimal point falls at most
    four places before the first digit and at most 14 places after it, and
    in `d.dddE+x` notation otherwise.

    As everywhere in this model, a float is a multiple of 10^-8 held as an
    integer (see Coordinates). */
module PhpFloats {
  import opened Strings
  import opened Coordinates
  import opened Sequences

  /** The default of PHP's `precision` setting: the significant digits a
      float is printed with. */
  const Precision: nat := 14

  /** `n` zeros. */
  function Zeros(n: nat): (r: string)
    ensures |r| == n && forall i :: 0 <= i < n ==> r[i] == '0'
  {
    seq(n, _ => '0')
  }

  /* ---------- rounding to 14 significant digits ---------- */

  /** The magnitude `a` (in units of 10^-8) rounded to 14 significant
      digits, a half rounded up: a value with at most 14 digits in all is
      kept, any other ends up within half a unit of its 14th digit (and is
      kept exactly when the digits after its 14th are zeros, as
      `SignificantKept` shows). */
  function RoundedMagnitude(a: nat): (r: nat)
    ensures |NatToDecimal(a)| <= Precision ==> r == a
    ensures |NatToDecimal(a)| > Precision ==>
      var unit := Pow10(|NatToDecimal(a)| - Precision);
      2 * (r - a) <= unit && 2 * (a - r) < unit
  {
    var length := |NatToDecimal(a)|;
    if length <= Precision then a
    else RoundToUnit(a, length - Precision)
  }

  /** `a` rounded to a multiple of 10^k, a half rounded up: the last `k`
      digits are dropped, and 10^k added when they make at least half of
      it. The value is kept exactly when those digits are all zero. */
  function RoundToUnit(a: nat, k: nat): (r: nat)
    ensures 2 * (r - a) <= Pow10(k) && 2 * (a - r) < Pow10(k)
    ensures r == a <==> LastDigits(a, k) == 0
  {
    var m := LastDigits(a, k);
    if 2 * m >= Pow10(k) then a - m + Pow10(k) else a - m
  }

  /** The number the last `k` decimal digits of `a` make, taken one digit
      at a time: `a` modulo 10^k. */
  function LastDigits(a: nat, k: nat): (m: nat)
    ensures m < Pow10(k) && m <= a
  {
    if k == 0 then 0 else LastDigits(a / 10, k - 1) * 10 + a % 10
  }

  /** A coordinate as PHP's string conversion keeps it. */
  function Rounded(c: Coord): (r: Coord)
    ensures Abs(r) == RoundedMagnitude(Abs(c))
    ensures r < 0 <==> c < 0
  {
    var m: int := RoundedMagnitude(Abs(c));
    RoundedBounds(Abs(c));
    if c < 0 then -m else m
  }

  /** The values printed in plain notation: zero, and those between 10^-4
      and 10^14 after rounding. */
  predicate PlainRange(c: Coord)
  {
    c == 0 || (10000 <= Abs(c) && RoundedMagnitude(Abs(c)) < Pow10(22))
  }

  /* ---------- zend_gcvt ---------- */

  /** zend_dtoa's digit string: the rounded magnitude's digits without
      trailing zeros. */
  function SignificantDigits(r: nat): string
  {
    RTrim(NatToDecimal(r), '0')
  }

  /** zend_dtoa's `decpt`: the decimal point comes after this many of the
      digits (before the first one when it is zero or negative). */
  function PointPosition(r: nat): int
  {
    |NatToDecimal(r)| - 8
  }

  /** `d.dddE+x`: the first digit, a point, the other digits or `0`, and
      the signed exponent. */
  function Exponential(digits: string, exponent: int): string
    requires digits != []
  {
    [digits[0]] + "." + (if |digits| == 1 then "0" else digits[1..]) + "E" +
    (if exponent < 0 then "-" else "+") + NatToDecimal(Abs(exponent))
  }

  /** zend_gcvt's layout of the significant digits with the decimal point
      `point` places in. */
  function Layout(digits: string, point: int): string
    requires digits != []
  {
    if point < -3 || point > Precision then Exponential(digits, point - 1)
    else if point <= 0 then "0." + Zeros(-point) + digits
    else if |digits| <= point then digits + Zeros(point - |digits|)
    else digits[..point] + "." + digits[point..]
  }

  /** `(string) $float`: the sign, then the layout of the value rounded to
      14 significant digits; zero prints as `0`. */
  function FloatText(c: Coord): (t: string)
    ensures t != []
  {
    var r := RoundedMagnitude(Abs(c));
    if r == 0 then "0"
    else
      ZeroDigits(NatToDecimal(r));
      Sign(c) + Layout(SignificantDigits(r), PointPosition(r))
  }

  /* ---------- digit strings ---------- */

  lemma {:induction false} Pow10Monotone(i: nat, j: nat)
    requires i <= j
    ensures Pow10(i) <= Pow10(j)
    decreases j
  {
    if i < j {
      Pow10Monotone(i, j - 1);
    }
  }

  /** A decimal of `k` digits lies between 10^(k-1) and 10^k. */
  lemma {:induction false} DecimalLength(n: nat)
    ensures n < Pow10(|NatToDecimal(n)|)
    ensures n >= 1 ==> Pow10(|NatToDecimal(n)| - 1) <= n
    decreases n
  {
    if n >= 10 {
      DecimalLength(n / 10);
    }
  }

  /** The number of digits of `n` is the `k` with 10^(k-1) <= n < 10^k. */
  lemma DigitCount(n: nat, k: nat)
    requires 1 <= k && Pow10(k - 1) <= n < Pow10(k)
    ensures |NatToDecimal(n)| == k
  {
    DecimalLength(n);
    var length := |NatToDecimal(n)|;
    if length < k {
      Pow10Monotone(length, k - 1);
    } else if length > k {
      Pow10Monotone(k, length - 1);
    }
  }

  /** Below 10^k a number has at most `k` digits, from 10^k on more. */
  lemma DigitCountBounds(n: nat, k: nat)
    requires k >= 1
    ensures n < Pow10(k) ==> |NatToDecimal(n)| <= k
    ensures n >= Pow10(k) ==> |NatToDecimal(n)| > k
  {
    DecimalLength(n);
    var length := |NatToDecimal(n)|;
    if n < Pow10(k) && length > k {
      Pow10Monotone(k, length - 1);
    }
    if n >= Pow10(k) && length <= k {
      Pow10Monotone(length, k);
    }
  }

  /** `q * 10p + rem` is `q * p` with the digits of `rem` shifted in. */
  lemma ShiftProduct(q: nat, p: nat, rem: nat)
    requires q >= 1 && p >= 1
    ensures q * p >= 1
    ensures q * (10 * p) + rem == (q * p + rem / 10) * 10 + rem % 10
  {
    TimesTen(q, p);
  }

  /** Appending a digit to a positive number appends it to its digits. */
  lemma AppendDigit(m: nat, d: nat)
    requires m >= 1 && d < 10
    ensures NatToDecimal(m * 10 + d) == NatToDecimal(m) + [DigitChar(d)]
  {
    var n := m * 10 + d;
    assert n / 10 == m && n % 10 == d;
  }

  lemma PadStep(n: nat, k: nat)
    requires k >= 1 && n < Pow10(k)
    ensures n / 10 < Pow10(k - 1)
    ensures PadDigits(n, k) == PadDigits(n / 10, k - 1) + [DigitChar(n % 10)]
  {
  }

  /** The digits of `n = q * 10^k + rem` are those of `q` followed by
      `rem` padded to `k` digits. */
  lemma {:induction false} DecimalSplitAt(n: nat, q: nat, rem: nat, k: nat)
    requires q >= 1 && rem < Pow10(k) && n == q * Pow10(k) + rem
    ensures NatToDecimal(n) == NatToDecimal(q) + PadDigits(rem, k)
    decreases k
  {
    if k == 0 {
      assert rem == 0 && n == q by { assert Pow10(k) == 1; }
      assert PadDigits(rem, k) == [];
      AppendEmpty(NatToDecimal(q));
    } else {
      var m := q * Pow10(k - 1) + rem / 10;
      ShiftAt(n, q, rem, k);
      DecimalSplitAt(m, q, rem / 10, k - 1);
      JoinDigit(n, m, rem % 10, NatToDecimal(q), PadDigits(rem / 10, k - 1));
      PadStep(rem, k);
    }
  }

  /** Taking the last digit off `q * 10^k + rem` takes it off `rem`. */
  lemma ShiftAt(n: nat, q: nat, rem: nat, k: nat)
    requires k >= 1 && q >= 1 && rem < Pow10(k) && n == q * Pow10(k) + rem
    ensures rem / 10 < Pow10(k - 1)
    ensures n == (q * Pow10(k - 1) + rem / 10) * 10 + rem % 10
    ensures q * Pow10(k - 1) + rem / 10 >= 1
  {
    ShiftProduct(q, Pow10(k - 1), rem);
  }

  /** A digit appended to `m`, whose digits are `a + b`, is appended to
      `b`. */
  lemma JoinDigit(n: nat, m: nat, d: nat, a: string, b: string)
    requires m >= 1 && d < 10 && n == m * 10 + d
    requires NatToDecimal(m) == a + b
    ensures NatToDecimal(n) == a + (b + [DigitChar(d)])
  {
    AppendDigit(m, d);
    AppendAssoc(a, b, [DigitChar(d)]);
  }

  lemma {:induction false} PadZero(k: nat)
    ensures PadDigits(0, k) == Zeros(k)
    decreases k
  {
    if k > 0 {
      PadZero(k - 1);
      assert Zeros(k) == Zeros(k - 1) + [DigitChar(0)];
    }
  }

  /** Padding a positive number writes zeros before its own digits. */
  lemma {:induction false} PadDecimal(n: nat, k: nat)
    requires 1 <= n < Pow10(k)
    ensures |NatToDecimal(n)| <= k
    ensures PadDigits(n, k) == Zeros(k - |NatToDecimal(n)|) + NatToDecimal(n)
    decreases k
  {
    if n < 10 {
      PadSingle(n, k);
    } else {
      PadStep(n, k);
      PadDecimal(n / 10, k - 1);
      LastDigit(n);
      PadAppend(n, k, NatToDecimal(n / 10), DigitChar(n % 10));
    }
  }

  lemma LastDigit(n: nat)
    requires n >= 10
    ensures NatToDecimal(n) == NatToDecimal(n / 10) + [DigitChar(n % 10)]
  {
  }

  /** A single digit padded to `k` places. */
  lemma PadSingle(n: nat, k: nat)
    requires 1 <= n < 10 && n < Pow10(k)
    ensures |NatToDecimal(n)| == 1 <= k
    ensures PadDigits(n, k) == Zeros(k - 1) + NatToDecimal(n)
  {
    PadStep(n, k);
    PadZero(k - 1);
    assert n / 10 == 0 && n % 10 == n;
  }

  /** The padding of `n` is that of `n / 10` with the last digit `c`
      appended. */
  lemma PadAppend(n: nat, k: nat, head: string, c: char)
    requires 1 <= k && n < Pow10(k) && n / 10 < Pow10(k - 1)
    requires |head| <= k - 1
    requires PadDigits(n / 10, k - 1) == Zeros(k - 1 - |head|) + head
    requires PadDigits(n, k) == PadDigits(n / 10, k - 1) + [c]
    requires NatToDecimal(n) == head + [c]
    ensures |NatToDecimal(n)| <= k
    ensures PadDigits(n, k) == Zeros(k - |NatToDecimal(n)|) + NatToDecimal(n)
  {
    AppendAssoc(Zeros(k - 1 - |head|), head, [c]);
  }

  lemma ZerosTrimmed(k: nat)
    ensures RTrim(Zeros(k), '0') == []
  {
  }

  /** The trailing zeros put back after trimming give the text again. */
  lemma ZerosRestored(s: string)
    ensures s == RTrim(s, '0') + Zeros(|s| - |RTrim(s, '0')|)
  {
    var t := RTrim(s, '0');
    var u := t + Zeros(|s| - |t|);
    assert |u| == |s|;
    forall i | 0 <= i < |s| ensures u[i] == s[i] {
      if i < |t| { assert u[i] == t[i]; }
    }
  }

  /* ---------- the rounded value ---------- */

  /** Rounding keeps a positive magnitude positive and one of at least
      10^-4 at least 10^-4. */
  lemma RoundedBounds(a: nat)
    ensures a > 0 ==> RoundedMagnitude(a) > 0
    ensures a >= 10000 ==> RoundedMagnitude(a) >= 10000
  {
    var length := |NatToDecimal(a)|;
    if a > 0 && length > Precision {
      var unit := Pow10(length - Precision);
      LongBounds(a, length);
      MoreThanHalf(a, RoundedMagnitude(a), unit);
    }
  }

  /** A magnitude of more than 14 digits is at least 10^14 units and at
      least the unit it is rounded to. */
  lemma LongBounds(a: nat, length: nat)
    requires length == |NatToDecimal(a)| > Precision
    ensures Pow10(length - Precision) <= a && 100000000000000 <= a
  {
    DecimalLength(a);
    Pow10Monotone(length - Precision, length - 1);
    Pow10Monotone(Precision, length - 1);
    assert Pow10(Precision) == 100000000000000;
  }

  lemma MoreThanHalf(a: int, r: int, unit: int)
    requires 2 * (a - r) < unit <= a
    ensures 2 * r > a
  {
  }

  /** The last `k` digits of `a`, counted by `LastDigits`, are the number
      the last `k` characters of its decimal text make. */
  lemma LastDigitsText(a: nat, k: nat)
    requires k <= |NatToDecimal(a)|
    ensures LastDigits(a, k) == DigitsValue(NatToDecimal(a)[|NatToDecimal(a)| - k..])
  {
    LastDigitsOf(NatToDecimal(a), a, k);
  }

  /** The same for any digit string that denotes `a`, leading zeros
      allowed. */
  lemma {:induction false} LastDigitsOf(s: string, a: nat, k: nat)
    requires AllDigits(s) && DigitsValue(s) == a && k <= |s|
    ensures LastDigits(a, k) == DigitsValue(s[|s| - k..])
    decreases k
  {
    if k == 0 {
      assert s[|s|..] == [];
    } else {
      var t := s[..|s| - 1];
      var d := DigitValue(s[|s| - 1]);
      var u := t[|t| - (k - 1)..];
      LastDigitsOf(t, DigitsValue(t), k - 1);
      LastDigitStep(s, t, u, d, k);
      LastDigitsJoin(a, DigitsValue(t), d, k);
      SameShift(LastDigits(a, k), DigitsValue(s[|s| - k..]), LastDigits(DigitsValue(t), k - 1), DigitsValue(u), d);
    }
  }

  lemma SameShift(x: int, y: int, p: int, q: int, d: int)
    requires x == p * 10 + d && y == q * 10 + d && p == q
    ensures x == y
  {
  }

  lemma LastDigitsJoin(a: nat, m: nat, d: nat, k: nat)
    requires k >= 1 && d < 10 && a == m * 10 + d
    ensures LastDigits(a, k) == LastDigits(m, k - 1) * 10 + d
  {
    assert a / 10 == m && a % 10 == d;
  }

  /** Extending a digit string by the digit `d` extends each of its
      suffixes by it. */
  lemma LastDigitStep(s: string, t: string, u: string, d: nat, k: nat)
    requires d < 10 && AllDigits(t) && 1 <= k <= |t| + 1
    requires s == t + [DigitChar(d)] && u == t[|t| - (k - 1)..]
    ensures AllDigits(u) && AllDigits(s[|s| - k..])
    ensures DigitsValue(s[|s| - k..]) == DigitsValue(u) * 10 + d
  {
    var v := s[|s| - k..];
    assert v == u + [DigitChar(d)];
    assert v[..|v| - 1] == u;
  }

  /** Rounding to 14 significant digits keeps a value exactly when it has
      at most 14 significant digits, trailing zeros not counted. */
  lemma SignificantKept(a: nat)
    ensures RoundedMagnitude(a) == a <==> |SignificantDigits(a)| <= Precision
  {
    var s := NatToDecimal(a);
    if |s| > Precision {
      var k := |s| - Precision;
      assert RoundedMagnitude(a) == RoundToUnit(a, k);
      var suffix := s[Precision..];
      assert LastDigits(a, k) == DigitsValue(suffix) by { LastDigitsText(a, k); }
      ZerosAfter(s, suffix);
    }
  }

  /** A digit string longer than 14 has at most 14 significant digits
      exactly when the digits after its 14th denote zero. */
  lemma ZerosAfter(s: string, suffix: string)
    requires AllDigits(s) && |s| > Precision && suffix == s[Precision..]
    ensures AllDigits(suffix)
    ensures DigitsValue(suffix) == 0 <==> |RTrim(s, '0')| <= Precision
  {
    var prefix := s[..Precision];
    assert s == prefix + suffix;
    assert AllDigits(suffix) by {
      forall i | 0 <= i < |suffix| ensures IsDigit(suffix[i]) {
        assert suffix[i] == s[Precision + i];
      }
    }
    RTrimAppend(prefix, suffix, '0');
    ZeroDigits(suffix);
  }


  /* ---------- the two notations ---------- */

  /** Between 10^-4 and 10^14 the conversion writes the rounded value as
      `%.8F` with its trailing zeros and point stripped would, so a value
      of at most 14 significant digits is printed exactly as a coordinate
      of the inner text. */
  lemma FloatTextPlain(c: Coord)
    requires PlainRange(c)
    ensures FloatText(c) == CoordText(Rounded(c))
    ensures Rounded(c) == c ==> FloatText(c) == CoordText(c)
  {
    if c == 0 {
      CoordTextForm(0);
      assert CoordText(0) == "" + "0" + "";
    } else {
      var r := RoundedMagnitude(Abs(c));
      var rc := Rounded(c);
      RoundedBounds(Abs(c));
      ZeroDigits(NatToDecimal(r));
      var digits := SignificantDigits(r);
      var point := PointPosition(r);
      assert FloatText(c) == Sign(rc) + Layout(digits, point);
      PlainTail(r, rc, digits, point);
      CoordTextForm(rc);
      AppendAssoc(Sign(rc), WholeDigits(rc), FractionSuffix(rc));
    }
  }

  /** Past the sign, the layout of a rounded value between 10^-4 and 10^14
      is the whole digits and the fraction suffix of the coordinate text. */
  lemma PlainTail(r: nat, rc: Coord, digits: string, point: int)
    requires 10000 <= r < Pow10(22) && Abs(rc) == r
    requires digits == SignificantDigits(r) && point == PointPosition(r)
    ensures digits != []
    ensures Layout(digits, point) == WholeDigits(rc) + FractionSuffix(rc)
  {
    ScaleIsPow10();
    assert FractionDigits(rc) == PadDigits(r % Scale, 8);
    if r >= Scale {
      PlainWhole(r, digits, point);
    } else {
      PlainFraction(r, digits, point);
    }
  }

  /** The layout of a value of at least 1: the whole digits, then `.` and
      the fraction digits up to the last non-zero one. */
  lemma PlainWhole(r: nat, digits: string, point: int)
    requires Scale <= r < Pow10(22)
    requires digits == SignificantDigits(r) && point == PointPosition(r)
    ensures digits != []
    ensures Layout(digits, point) ==
      NatToDecimal(r / Scale) +
      (if r % Scale == 0 then "" else "." + RTrim(PadDigits(r % Scale, 8), '0'))
  {
    var w := NatToDecimal(r / Scale);
    var f := PadDigits(r % Scale, 8);
    WholeSplit(r);
    ZeroDigits(w);
    ZeroDigits(f);
    WholeLayout(w, f, digits, point);
  }

  /** The digits of a value of at least 1 are its whole digits, at most
      14 of them, followed by its eight fraction digits. */
  lemma WholeSplit(r: nat)
    requires Scale <= r < Pow10(22)
    ensures r % Scale < Pow10(8) && r / Scale >= 1
    ensures NatToDecimal(r) == NatToDecimal(r / Scale) + PadDigits(r % Scale, 8)
    ensures PointPosition(r) == |NatToDecimal(r / Scale)| <= Precision
  {
    ScaleSplit(r);
    DecimalSplitAt(r, r / Scale, r % Scale, 8);
    DigitCountBounds(r, 22);
  }

  /** The point after the whole digits `w`: the trimmed fraction `f`, if
      any of it is left, follows a `.`; otherwise the zeros trimmed off
      the whole digits come back. */
  lemma WholeLayout(w: string, f: string, digits: string, point: int)
    requires RTrim(w, '0') != [] && point == |w| <= Precision
    requires digits == RTrim(w + f, '0')
    ensures digits != []
    ensures Layout(digits, point) ==
      w + (if RTrim(f, '0') == [] then "" else "." + RTrim(f, '0'))
  {
    RTrimAppend(w, f, '0');
    if RTrim(f, '0') == [] {
      ZerosRestored(w);
      AppendEmpty(w);
    } else {
      assert digits[..point] == w && digits[point..] == RTrim(f, '0');
      AppendAssoc(w, ".", RTrim(f, '0'));
    }
  }

  lemma ScaleSplit(r: nat)
    ensures r % Scale < Pow10(8) && (r / Scale) * Pow10(8) + r % Scale == r
  {
    ScaleIsPow10();
  }

  /** The layout of a value between 10^-4 and 1: `0.`, the zeros after the
      point, then the digits up to the last non-zero one. */
  lemma PlainFraction(r: nat, digits: string, point: int)
    requires 10000 <= r < Scale
    requires digits == SignificantDigits(r) && point == PointPosition(r)
    ensures digits != []
    ensures r / Scale == 0 && r % Scale == r
    ensures Layout(digits, point) == NatToDecimal(0) + ("." + RTrim(PadDigits(r, 8), '0'))
  {
    FractionPadded(r);
    ZeroDigits(NatToDecimal(r));
    FractionLayout(NatToDecimal(r), digits, point);
  }

  /** A value between 10^-4 and 1 has five to eight digits, and padding it
      to eight puts the missing zeros in front. */
  lemma FractionPadded(r: nat)
    requires 10000 <= r < Scale
    ensures r < Pow10(8) && r / Scale == 0 && r % Scale == r
    ensures -3 <= PointPosition(r) <= 0
    ensures PadDigits(r, 8) == Zeros(-PointPosition(r)) + NatToDecimal(r)
  {
    ScaleIsPow10();
    assert Pow10(4) == 10000;
    DigitCountBounds(r, 4);
    DigitCountBounds(r, 8);
    assert 4 < |NatToDecimal(r)| <= 8;
    PadDecimal(r, 8);
  }

  /** `0.`, the zeros of the padding, then the trimmed digits `d`. */
  lemma FractionLayout(d: string, digits: string, point: int)
    requires -3 <= point <= 0 && digits == RTrim(d, '0') && digits != []
    ensures Layout(digits, point) == NatToDecimal(0) + ("." + RTrim(Zeros(-point) + d, '0'))
  {
    RTrimAppend(Zeros(-point), d, '0');
    assert NatToDecimal(0) == "0";
    AppendAssoc("0", ".", Zeros(-point) + digits);
    AppendAssoc(".", Zeros(-point), digits);
    AppendAssoc("0.", Zeros(-point), digits);
  }

  /** The exponent notation is used exactly for non-zero values below
      10^-4 and for those that round to 10^14 or more. */
  lemma FloatTextExponent(c: Coord)
    ensures 'E' in FloatText(c) <==> !PlainRange(c)
  {
    if !PlainRange(c) {
      ExponentText(c);
    } else if c != 0 {
      PlainHasNoMark(c);
    }
  }

  /** Inside the plain range the text is a numeral, which has no `E`. */
  lemma PlainHasNoMark(c: Coord)
    requires 10000 <= Abs(c) && RoundedMagnitude(Abs(c)) < Pow10(22)
    ensures 'E' !in FloatText(c)
  {
    var t := CoordText(Rounded(c));
    assert 'E' !in t by {
      CoordTextChars(Rounded(c));
      NumeralsHaveNoMark(t);
    }
    assert FloatText(c) == t by { FloatTextPlain(c); }
  }

  lemma NumeralsHaveNoMark(t: string)
    requires forall i :: 0 <= i < |t| ==> NumeralChar(t[i])
    ensures 'E' !in t
  {
    forall i | 0 <= i < |t| ensures t[i] != 'E' {
      assert NumeralChar(t[i]);
    }
  }

  /** Outside the plain range the text is the exponent notation. */
  lemma ExponentText(c: Coord)
    requires c != 0 && (Abs(c) < 10000 || RoundedMagnitude(Abs(c)) >= Pow10(22))
    ensures 'E' in FloatText(c)
  {
    var r := RoundedMagnitude(Abs(c));
    assert r > 0 by { RoundedBounds(Abs(c)); }
    var digits := SignificantDigits(r);
    var point := PointPosition(r);
    assert digits != [] by { ZeroDigits(NatToDecimal(r)); }
    assert point < -3 || point > Precision by { ExponentPoint(Abs(c)); }
    ExponentMark(digits, point - 1);
    FloatTextLaid(c);
  }

  /** A non-zero value is printed as its sign and the layout of its
      significant digits. */
  lemma FloatTextLaid(c: Coord)
    ensures var r := RoundedMagnitude(Abs(c));
      r > 0 ==>
        SignificantDigits(r) != [] &&
        FloatText(c) == Sign(c) + Layout(SignificantDigits(r), PointPosition(r))
  {
    ZeroDigits(NatToDecimal(RoundedMagnitude(Abs(c))));
  }

  /** Below 10^-4 the point falls more than three places before the first
      digit; from 10^14 on, more than fourteen places after it. */
  lemma ExponentPoint(a: nat)
    requires a > 0 && (a < 10000 || RoundedMagnitude(a) >= Pow10(22))
    ensures PointPosition(RoundedMagnitude(a)) < -3 || PointPosition(RoundedMagnitude(a)) > Precision
  {
    if a < 10000 {
      assert Pow10(4) == 10000;
      DigitCountBounds(a, 4);
    } else {
      DigitCountBounds(RoundedMagnitude(a), 22);
    }
  }

  lemma ExponentMark(digits: string, exponent: int)
    requires digits != []
    ensures 'E' in Exponential(digits, exponent)
  {
    var head := [digits[0]] + "." + (if |digits| == 1 then "0" else digits[1..]);
    assert Exponential(digits, exponent)[|head|] == 'E';
  }

  /* ---------- the values of the point tests and of the notations ---------- */

  /** `0.00001` prints as `1.0E-5`. */
  lemma FloatTextTiny(c: Coord)
    requires c == 1000
    ensures FloatText(c) == "1.0E-5"
  {
    assert NatToDecimal(c) == "1000";
    assert RTrim("1000", '0') == "1";
    TinyExponential("1");
  }

  lemma TinyExponential(digits: string)
    requires digits == "1"
    ensures Layout(digits, -4) == "1.0E-5"
  {
    assert NatToDecimal(5) == "5";
  }

  /** `1.0E+14`: 10^14 has fifteen digits before its point. */
  lemma FloatTextHuge(c: Coord)
    requires c == Pow10(22)
    ensures FloatText(c) == "1.0E+14"
  {
    HugeRounded(c);
    PowerDigits(22);
    HugeExponential(SignificantDigits(c));
  }

  /** 10^k is 1 followed by k zeros: one significant digit, and the point
      k - 7 places in. */
  lemma PowerDigits(k: nat)
    ensures SignificantDigits(Pow10(k)) == "1" && PointPosition(Pow10(k)) == k - 7
  {
    var n := Pow10(k);
    DecimalSplitAt(n, 1, 0, k);
    PadZero(k);
    assert NatToDecimal(1) == "1";
    RTrimAppend("1", Zeros(k), '0');
    ZerosTrimmed(k);
    assert RTrim("1", '0') == "1";
  }

  /** 10^22 has fifteen digits but one significant digit, so rounding
      keeps it. */
  lemma HugeRounded(c: nat)
    requires c == Pow10(22)
    ensures RoundedMagnitude(c) == c
  {
    PowerDigits(22);
    SignificantKept(c);
  }

  lemma {:induction false} Pow10Add(i: nat, j: nat)
    ensures Pow10(i + j) == Pow10(i) * Pow10(j)
    decreases j
  {
    if j > 0 {
      Pow10Add(i, j - 1);
      TimesTen(Pow10(i), Pow10(j - 1));
    }
  }

  lemma HugeExponential(digits: string)
    requires digits == "1"
    ensures Layout(digits, 15) == "1.0E+14"
  {
    assert NatToDecimal(14) == NatToDecimal(1) + [DigitChar(4)];
  }

  /** 1234567.12345678 has fifteen significant digits and comes back as
      1234567.1234568. */
  lemma FifteenDigitsRounded(c: Coord)
    requires c == 123456712345678
    ensures Rounded(c) == 123456712345680
  {
    DigitCount(c, 15);
    assert Pow10(1) == 10;
  }
}
