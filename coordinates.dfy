/** Coordinates and the way a single coordinate is printed in the inner
    coordinate text: `sprintf('%.8F', $n)`, then trailing `0`s stripped, then a
    trailing `.` stripped (src/PHP/Types/AbstractGeometry.php, toStringPoint).

    A coordinate is held as a fixed-point number with eight decimals: the
    integer `c` stands for c / 10^8. On this grid `%.8F` is exact, so the
    printing can be stated and inverted precisely. */
module Coordinates {
  import opened Strings
  import opened Results
  import opened Sequences

  type Coord = int

  /** 10^8: one unit in the last of the eight printed decimals. */
  const Scale: nat := 100000000

  function Abs(c: int): nat { if c < 0 then -c else c }

  function Sign(c: Coord): string { if c < 0 then "-" else "" }

  /** The digits `%.8F` prints before the decimal point. */
  function WholeDigits(c: Coord): string { NatToDecimal(Abs(c) / Scale) }

  lemma ScaleIsPow10()
    ensures Pow10(8) == Scale
  {
  }

  /** The eight digits `%.8F` prints after the decimal point. */
  function FractionDigits(c: Coord): (r: string)
    ensures |r| == 8 && AllDigits(r)
    ensures DigitsValue(r) == Abs(c) % Scale
  {
    ScaleIsPow10();
    PadDigits(Abs(c) % Scale, 8)
  }

  /** `sprintf('%.8F', $number)`. */
  function Fixed8(c: Coord): string
  {
    Sign(c) + WholeDigits(c) + "." + FractionDigits(c)
  }

  /** `$removeTrailingZeroAfterDecimalPoint`: when the text has a `.`,
      `rtrim` the `0`s and then the `.`. */
  function TrimFraction(s: string): string
  {
    if '.' in s then RTrim(RTrim(s, '0'), '.') else s
  }

  /** The text of one coordinate, as `toStringPoint` prints it. */
  function CoordText(c: Coord): string
  {
    TrimFraction(Fixed8(c))
  }

  /** What follows the whole digits in CoordText: nothing for a whole
      number, otherwise `.` and the fraction digits up to the last non-zero
      one. */
  function FractionSuffix(c: Coord): string
  {
    if Abs(c) % Scale == 0 then "" else "." + RTrim(FractionDigits(c), '0')
  }

  /* ---------- the shape of the printed text ---------- */

  lemma LastDigitBound(s: string)
    requires AllDigits(s) && s != []
    ensures DigitsValue(s) >= DigitValue(s[|s| - 1])
  {
  }

  /** A digit string is all zeros exactly when its value is zero. */
  lemma ZeroDigits(s: string)
    requires AllDigits(s)
    ensures RTrim(s, '0') == [] <==> DigitsValue(s) == 0
  {
    TrailingZerosScale(s);
    var t := RTrim(s, '0');
    if t != [] {
      LastDigitBound(t);
      assert DigitValue(t[|t| - 1]) >= 1;
    }
  }

  lemma RTrimNoop(s: string, c: char)
    requires s == [] || s[|s| - 1] != c
    ensures RTrim(s, c) == s
  {
  }

  /** Trimming `head.f` when the fraction is all zeros leaves `head`. */
  lemma TrimZeroFraction(head: string, f: string)
    requires head != [] && IsDigit(head[|head| - 1])
    requires RTrim(f, '0') == []
    ensures TrimFraction(head + "." + f) == head
  {
    var s := head + "." + f;
    assert s[|head|] == '.';
    RTrimAppend(head + ".", f, '0');
    RTrimNoop(head + ".", '0');
    assert RTrim(s, '0') == head + ".";
    RTrimAppend(head, ".", '.');
    assert ".."[..0] == [];
    assert RTrim(".", '.') == [];
    RTrimNoop(head, '.');
  }

  /** Trimming `head.f` when the fraction has a non-zero digit keeps the
      point and the fraction up to that digit. */
  lemma TrimNonZeroFraction(head: string, f: string)
    requires AllDigits(f)
    requires RTrim(f, '0') != []
    ensures TrimFraction(head + "." + f) == head + ("." + RTrim(f, '0'))
  {
    var t := RTrim(f, '0');
    PointBetween(head, f);
    RTrimAppend(head + ".", f, '0');
    TrimmedDigitsEnd(f);
    RTrimNoop((head + ".") + t, '.');
    AppendAssoc(head, ".", t);
  }

  lemma PointBetween(head: string, f: string)
    ensures '.' in head + "." + f
  {
    assert (head + "." + f)[|head|] == '.';
  }

  /** A digit string with its trailing zeros removed ends in a digit. */
  lemma TrimmedDigitsEnd(f: string)
    requires AllDigits(f) && RTrim(f, '0') != []
    ensures var t := RTrim(f, '0'); IsDigit(t[|t| - 1])
  {
    var t := RTrim(f, '0');
    assert t[|t| - 1] == f[|t| - 1];
  }

  /** CoordText is the sign, every whole digit, and then the fraction with
      its trailing zeros (and a bare point) removed. */
  lemma {:induction false} CoordTextForm(c: Coord)
    ensures CoordText(c) == Sign(c) + WholeDigits(c) + FractionSuffix(c)
  {
    var head := Sign(c) + WholeDigits(c);
    var w := WholeDigits(c);
    var f := FractionDigits(c);
    assert Fixed8(c) == head + "." + f;
    assert head[|head| - 1] == w[|w| - 1];
    ZeroDigits(f);
    if Abs(c) % Scale == 0 {
      TrimZeroFraction(head, f);
    } else {
      TrimNonZeroFraction(head, f);
    }
  }

  /** A point-free head followed by nothing, or by `.` and digits that do
      not end in `0`: the shape the stripping leaves. */
  lemma NumeralShape(head: string, t: string)
    requires head != [] && '.' !in head
    requires AllDigits(t) && (t == [] || t[|t| - 1] != '0')
    ensures var r := head + (if t == [] then "" else "." + t);
      && r != []
      && r[|r| - 1] != '.'
      && ('.' in r ==> r[|r| - 1] != '0')
      && |head| <= |r| && r[..|head|] == head
      && ('.' in r <==> t != [])
  {
    if t == [] {
      assert head + "" == head;
    } else {
      var r := head + ("." + t);
      assert r[|head|] == '.';
      assert r[|r| - 1] == t[|t| - 1];
      assert r[..|head|] == head;
      assert '.' !in t by {
        forall i | 0 <= i < |t| ensures t[i] != '.' { assert IsDigit(t[i]); }
      }
    }
  }

  /** The sign and the whole digits hold no decimal point. */
  lemma HeadHasNoPoint(c: Coord)
    ensures '.' !in Sign(c) + WholeDigits(c)
  {
    var head := Sign(c) + WholeDigits(c);
    var w := WholeDigits(c);
    forall i | 0 <= i < |head| ensures head[i] != '.' {
      if c < 0 && i == 0 { } else {
        assert head[i] == w[i - |Sign(c)|];
      }
    }
  }

  /** The printed text never ends in `.`, never ends in `0` once it has a
      decimal point, and keeps every digit before the decimal point. */
  lemma CoordTextShape(c: Coord)
    ensures var r := CoordText(c);
      && r != []
      && r[|r| - 1] != '.'
      && ('.' in r ==> r[|r| - 1] != '0')
      && |Sign(c) + WholeDigits(c)| <= |r|
      && r[..|Sign(c) + WholeDigits(c)|] == Sign(c) + WholeDigits(c)
      && (Abs(c) % Scale == 0 <==> '.' !in r)
  {
    CoordTextForm(c);
    var head := Sign(c) + WholeDigits(c);
    HeadHasNoPoint(c);
    var f := FractionDigits(c);
    ZeroDigits(f);
    TrailingZerosScale(f);
    var t := if Abs(c) % Scale == 0 then "" else RTrim(f, '0');
    assert FractionSuffix(c) == if t == [] then "" else "." + t;
    NumeralShape(head, t);
  }

  /** The characters a coordinate text can contain. */
  predicate NumeralChar(ch: char) { IsDigit(ch) || ch == '-' || ch == '.' }

  /** A coordinate text holds only a sign, digits and a decimal point, so
      it never contains the separators of the coordinate text grammar. */
  lemma CoordTextChars(c: Coord)
    ensures forall i :: 0 <= i < |CoordText(c)| ==> NumeralChar(CoordText(c)[i])
  {
    CoordTextForm(c);
    var head := Sign(c) + WholeDigits(c);
    var suffix := FractionSuffix(c);
    assert forall i :: 0 <= i < |head| ==> NumeralChar(head[i]) by {
      forall i | 0 <= i < |head| ensures NumeralChar(head[i]) {
        if i >= |Sign(c)| { assert head[i] == WholeDigits(c)[i - |Sign(c)|]; }
      }
    }
    if Abs(c) % Scale != 0 {
      var t := RTrim(FractionDigits(c), '0');
      assert suffix == "." + t;
      assert forall i :: 0 <= i < |t| ==> IsDigit(t[i]) by {
        forall i | 0 <= i < |t| ensures IsDigit(t[i]) { assert t[i] == FractionDigits(c)[i]; }
      }
    }
    var r := CoordText(c);
    assert r == head + suffix;
    forall i | 0 <= i < |r| ensures NumeralChar(r[i]) {
      if i >= |head| { assert r[i] == suffix[i - |head|]; }
    }
  }

  /** Stripping is idempotent on any text with at most one decimal point,
      which includes every output of `%.8F`. */
  lemma TrimFractionIdempotent(s: string)
    requires forall i, j :: 0 <= i < j < |s| ==> !(s[i] == '.' && s[j] == '.')
    ensures TrimFraction(TrimFraction(s)) == TrimFraction(s)
  {
    if '.' in s {
      var u := RTrim(s, '0');
      var t := RTrim(u, '.');
      var d :| 0 <= d < |s| && s[d] == '.';
      assert d < |u|;
      if '.' in t {
        var e :| 0 <= e < |t| && t[e] == '.';
        assert e == d;
        assert t == u;
        RTrimNoop(t, '0');
        RTrimNoop(t, '.');
      }
    }
  }

  /** The stripping is not idempotent on text with two decimal points,
      so the property above needs its precondition. */
  lemma TrimFractionTwoPoints(s: string, t: string)
    requires s == "1.0.0" && t == "1.0"
    ensures TrimFraction(s) == t
    ensures TrimFraction(t) == "1"
  {
    assert s[1] == '.' && t[1] == '.';
    var u := s[..4];
    assert u[3] == '.';
    RTrimNoop(u, '0');
    assert RTrim(s, '0') == u;
    assert u[..3] == t;
    RTrimNoop(t, '.');
    assert RTrim(u, '.') == t;
    var v := t[..2];
    assert v[1] == '.';
    RTrimNoop(v, '0');
    assert RTrim(t, '0') == v;
    RTrimNoop(v[..1], '.');
    assert RTrim(v, '.') == v[..1];
  }

  /* ---------- reading a coordinate back ---------- */

  /** Reads an optional `-`, whole digits and at most eight fraction digits
      after an optional `.`: the numerals CoordText produces. */
  function ParseCoord(s: string): Option<Coord>
  {
    var negative := |s| > 0 && s[0] == '-';
    match ParseMagnitude(if negative then s[1..] else s)
    case None => None
    case Some(m) =>
      var v: Coord := m;
      Some(if negative then -v else v)
  }

  /** The unsigned part of ParseCoord: split at the first `.`. */
  function ParseMagnitude(body: string): Option<nat>
  {
    var k := FirstIndex(body, '.');
    if k < |body| then ParseParts(body[..k], body[k + 1..]) else ParseParts(body, "")
  }

  function ParseParts(whole: string, fraction: string): Option<nat>
  {
    if whole != [] && AllDigits(whole) && AllDigits(fraction) && |fraction| <= 8
    then Some(Magnitude(whole, fraction))
    else None
  }

  /** The value of `whole.fraction`, in units of 10^-8. */
  function Magnitude(whole: string, fraction: string): nat
    requires AllDigits(whole) && AllDigits(fraction) && |fraction| <= 8
  {
    DigitsValue(whole) * Scale + DigitsValue(fraction) * Pow10(8 - |fraction|)
  }

  lemma DigitsHaveNoPoint(s: string)
    requires AllDigits(s)
    ensures '.' !in s
  {
  }

  /** A whole number is read back from its whole digits alone. */
  lemma WholeRoundTrip(w: string)
    requires AllDigits(w) && w != []
    ensures ParseMagnitude(w) == Some(DigitsValue(w) * Scale)
  {
    DigitsHaveNoPoint(w);
    assert FirstIndex(w, '.') == |w|;
    assert DigitsValue("") == 0;
    assert Magnitude(w, "") == DigitsValue(w) * Scale;
  }

  /** Whole digits, a point and fraction digits are read back as such. */
  lemma FractionRoundTrip(w: string, t: string)
    requires AllDigits(w) && w != [] && AllDigits(t) && |t| <= 8
    ensures ParseMagnitude(w + "." + t) == Some(Magnitude(w, t))
  {
    DigitsHaveNoPoint(w);
    var body := w + "." + t;
    assert body == w + ['.'] + t;
    FirstIndexAfter(w, '.', t);
    assert body[..|w|] == w;
    assert body[|w| + 1..] == t;
  }

  /** The fraction digits left after trimming, read at their place, are
      the fractional part of the coordinate. */
  lemma TrimmedFractionValue(c: Coord)
    ensures AllDigits(RTrim(FractionDigits(c), '0')) && |RTrim(FractionDigits(c), '0')| <= 8
    ensures Magnitude(WholeDigits(c), RTrim(FractionDigits(c), '0')) == Abs(c)
  {
    var f := FractionDigits(c);
    var t := RTrim(f, '0');
    TrailingZerosScale(f);
    assert DigitsValue(t) * Pow10(8 - |t|) == Abs(c) % Scale;
    assert DigitsValue(WholeDigits(c)) == Abs(c) / Scale;
  }

  /** Reading the unsigned part of the printed text gives the magnitude. */
  lemma MagnitudeRoundTrip(c: Coord)
    ensures ParseMagnitude(WholeDigits(c) + FractionSuffix(c)) == Some(Abs(c))
  {
    var w := WholeDigits(c);
    if Abs(c) % Scale == 0 {
      assert w + FractionSuffix(c) == w;
      WholeRoundTrip(w);
      assert DigitsValue(w) == Abs(c) / Scale;
    } else {
      var t := RTrim(FractionDigits(c), '0');
      TrimmedFractionValue(c);
      assert w + FractionSuffix(c) == w + "." + t;
      FractionRoundTrip(w, t);
    }
  }

  /** A sign in front of a magnitude the parser reads is read as a sign. */
  lemma SignedRoundTrip(c: Coord, body: string)
    requires body != [] && body[0] != '-'
    requires ParseMagnitude(body) == Some(Abs(c))
    ensures ParseCoord(Sign(c) + body) == Some(c)
  {
    if c < 0 {
      assert (Sign(c) + body)[0] == '-';
      assert (Sign(c) + body)[1..] == body;
    } else {
      assert Sign(c) + body == body;
    }
  }

  /** Reading the printed text gives back the coordinate. */
  lemma CoordRoundTrip(c: Coord)
    ensures ParseCoord(CoordText(c)) == Some(c)
  {
    CoordTextForm(c);
    MagnitudeRoundTrip(c);
    var body := WholeDigits(c) + FractionSuffix(c);
    assert body[0] == WholeDigits(c)[0];
    SignedRoundTrip(c, body);
    AppendAssoc(Sign(c), WholeDigits(c), FractionSuffix(c));
  }

  /** Distinct coordinates print differently. */
  lemma CoordTextInjective(a: Coord, b: Coord)
    requires CoordText(a) == CoordText(b)
    ensures a == b
  {
    CoordRoundTrip(a);
    CoordRoundTrip(b);
  }

  /** Whole multiples of the scale have no fraction. */
  lemma ScaledWhole(n: nat)
    ensures Abs(n * Scale) / Scale == n && Abs(n * Scale) % Scale == 0
  {
  }

  /** A whole number prints as its decimal digits, with no point. */
  lemma WholeCoordText(n: nat)
    ensures CoordText(n * Scale) == NatToDecimal(n)
  {
    CoordTextForm(n * Scale);
    ScaledWhole(n);
    AppendEmpty(NatToDecimal(n));
  }

  /** `1.0` prints as `1`, `1.5` as `1.5` and `10.0` as `10`, the texts
      the coordinate-text tests expect. */
  lemma CoordTextOne()
    ensures CoordText(100000000) == "1"
  {
    WholeCoordText(1);
    assert NatToDecimal(1) == "1";
  }

  lemma CoordTextTen(c: Coord)
    requires c == 1000000000
    ensures CoordText(c) == "10"
  {
    WholeCoordText(10);
    assert NatToDecimal(10) == NatToDecimal(1) + [DigitChar(0)];
  }

  lemma SevenZeros()
    ensures RTrim("0000000", '0') == [] && DigitsValue("0000000") == 0
  {
    ZeroDigits("0000000");
  }

  lemma FiftyMillionDigits()
    ensures DigitsValue("50000000") == 50000000
    ensures RTrim("50000000", '0') == "5"
  {
    var zeros := "0000000";
    SevenZeros();
    DigitsValueAppend("5", zeros);
    assert Pow10(7) == 10000000;
    assert "5" + zeros == "50000000";
    RTrimAppend("5", zeros, '0');
  }

  lemma OneAndAHalfWhole(c: Coord)
    requires c == 150000000
    ensures Sign(c) == "" && WholeDigits(c) == "1"
    ensures Abs(c) % Scale == 50000000
  {
    assert Abs(c) / Scale == 1;
  }

  lemma OneAndAHalfFraction(c: Coord, f: string)
    requires Abs(c) % Scale == 50000000 && f == FractionDigits(c)
    ensures RTrim(f, '0') == "5"
  {
    FiftyMillionDigits();
    DigitsUnique(f, "50000000");
  }

  lemma OneAndAHalfJoin(sign: string, whole: string, suffix: string)
    requires sign == "" && whole == "1" && suffix == "." + "5"
    ensures sign + whole + suffix == "1.5"
  {
  }

  lemma CoordTextOneAndAHalf(c: Coord)
    requires c == 150000000
    ensures CoordText(c) == "1.5"
  {
    CoordTextForm(c);
    OneAndAHalfWhole(c);
    OneAndAHalfFraction(c, FractionDigits(c));
    assert FractionSuffix(c) == "." + "5";
    OneAndAHalfJoin(Sign(c), WholeDigits(c), FractionSuffix(c));
  }
}
