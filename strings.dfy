/** The PHP string built-ins the geometry layer relies on, as functions on
    `seq<char>`: implode/explode-style joining and splitting, `rtrim` with one
    character, ASCII `strtoupper`/`strtolower`, `strrpos`, `substr`, and the
    decimal digit strings that `sprintf` produces. */
module Strings {
  import opened Sequences

  /* ---------- searching ---------- */

  /** Position of the first `c` in `s`, or `|s|` when there is none. */
  function FirstIndex(s: string, c: char): (k: nat)
    ensures k <= |s|
    ensures k < |s| ==> s[k] == c
    ensures forall j :: 0 <= j < k ==> s[j] != c
    ensures k == |s| <==> c !in s
  {
    if s == [] then 0
    else if s[0] == c then 0
    else 1 + FirstIndex(s[1..], c)
  }

  lemma {:induction false} FirstIndexAfter(a: string, c: char, b: string)
    requires c !in a
    ensures FirstIndex(a + [c] + b, c) == |a|
  {
    var s := a + [c] + b;
    var k := FirstIndex(s, c);
    assert s[|a|] == c;
  }

  /** `strrpos($s, $c)`: the position of the last `c`, or -1 standing for
      PHP's `false`. */
  function LastIndex(s: string, c: char): (k: int)
    ensures -1 <= k < |s|
    ensures k >= 0 ==> s[k] == c
    ensures forall j :: k < j < |s| ==> s[j] != c
    ensures k == -1 <==> c !in s
  {
    if s == [] then -1
    else if s[|s| - 1] == c then |s| - 1
    else LastIndex(s[..|s| - 1], c)
  }

  lemma LastIndexBefore(a: string, c: char, b: string)
    requires c !in b
    ensures LastIndex(a + [c] + b, c) == |a|
  {
    var s := a + [c] + b;
    var k := LastIndex(s, c);
    assert s[|a|] == c;
  }

  /** PHP's `substr($s, $offset, $length)` for a non-negative offset: a
      negative length leaves that many characters off the end, and an empty
      string results when the window is empty. */
  function Substr(s: string, offset: nat, length: int): (r: string)
    ensures offset <= |s| && 0 <= length && offset + length <= |s| ==> r == s[offset..offset + length]
    ensures offset <= |s| && length < 0 && offset <= |s| + length ==> r == s[offset..|s| + length]
    ensures offset > |s| ==> r == ""
  {
    if offset > |s| then ""
    else
      var end := if length < 0 then |s| + length else offset + length;
      if end < offset then ""
      else if end > |s| then s[offset..]
      else s[offset..end]
  }

  /* ---------- implode / explode ---------- */

  /** `implode($sep, $parts)`. */
  function Join(sep: string, parts: seq<string>): (r: string)
    ensures |parts| == 0 ==> r == ""
    ensures |parts| == 1 ==> r == parts[0]
    ensures |parts| >= 1 && parts[0] != [] ==> r != [] && r[0] == parts[0][0]
  {
    if |parts| == 0 then ""
    else if |parts| == 1 then parts[0]
    else parts[0] + sep + Join(sep, parts[1..])
  }

  /** A character of a joined text comes from a part or the separator, and
      the text is empty only when every part is and there is at most one. */
  lemma {:induction false} JoinChars(sep: string, parts: seq<string>)
    ensures forall c :: c in Join(sep, parts) ==> c in sep || exists i :: 0 <= i < |parts| && c in parts[i]
    ensures |parts| >= 1 && parts[0] != [] ==> Join(sep, parts) != []
    decreases |parts|
  {
    if |parts| >= 2 {
      JoinChars(sep, parts[1..]);
      var r := Join(sep, parts);
      assert r == parts[0] + sep + Join(sep, parts[1..]);
      forall c | c in r ensures c in sep || exists i :: 0 <= i < |parts| && c in parts[i] {
        if c in parts[0] {
        } else if c in sep {
        } else {
          assert c in Join(sep, parts[1..]);
          var i :| 0 <= i < |parts[1..]| && c in parts[1..][i];
          assert c in parts[i + 1];
        }
      }
    }
  }

  lemma JoinTwo(sep: string, a: string, b: string)
    ensures Join(sep, [a, b]) == a + sep + b
  {
    assert [a, b][1..] == [b];
  }

  lemma JoinThree(sep: string, a: string, b: string, c: string)
    ensures Join(sep, [a, b, c]) == a + sep + b + sep + c
  {
    JoinTwo(sep, b, c);
    assert [a, b, c][1..] == [b, c];
    assert Join(sep, [a, b, c]) == a + sep + (b + sep + c);
  }

  lemma JoinFour(sep: string, a: string, b: string, c: string, d: string)
    ensures Join(sep, [a, b, c, d]) == a + sep + b + sep + c + sep + d
  {
    JoinThree(sep, b, c, d);
    assert [a, b, c, d][1..] == [b, c, d];
    assert Join(sep, [a, b, c, d]) == a + sep + (b + sep + c + sep + d);
  }

  lemma JoinFive(sep: string, a: string, b: string, c: string, d: string, e: string)
    ensures Join(sep, [a, b, c, d, e]) == a + sep + b + sep + c + sep + d + sep + e
  {
    JoinFour(sep, b, c, d, e);
    assert [a, b, c, d, e][1..] == [b, c, d, e];
    assert Join(sep, [a, b, c, d, e]) == a + sep + (b + sep + c + sep + d + sep + e);
  }

  lemma JoinFourParts(sep: string, ts: seq<string>)
    requires |ts| == 4
    ensures Join(sep, ts) == ts[0] + sep + ts[1] + sep + ts[2] + sep + ts[3]
  {
    assert ts == [ts[0], ts[1], ts[2], ts[3]];
    JoinFour(sep, ts[0], ts[1], ts[2], ts[3]);
  }

  lemma JoinFiveParts(sep: string, ts: seq<string>)
    requires |ts| == 5
    ensures Join(sep, ts) == ts[0] + sep + ts[1] + sep + ts[2] + sep + ts[3] + sep + ts[4]
  {
    assert ts == [ts[0], ts[1], ts[2], ts[3], ts[4]];
    JoinFive(sep, ts[0], ts[1], ts[2], ts[3], ts[4]);
  }

  /** Splitting at every `c` (`explode` with a one-character separator). */
  function Split(s: string, c: char): (r: seq<string>)
    ensures |r| >= 1
    ensures forall i :: 0 <= i < |r| ==> c !in r[i]
    decreases |s|
  {
    var k := FirstIndex(s, c);
    if k == |s| then [s]
    else
      assert c !in s[..k] by {
        forall j | 0 <= j < k ensures s[..k][j] != c { }
      }
      [s[..k]] + Split(s[k + 1..], c)
  }

  /** Splitting at the first separator. */
  lemma SplitAt(head: string, c: char, rest: string)
    requires c !in head
    ensures Split(head + [c] + rest, c) == [head] + Split(rest, c)
  {
    FirstIndexAfter(head, c, rest);
    AroundElement(head, c, rest);
  }

  /** Splitting undoes joining when no part contains the separator. */
  lemma {:induction false} SplitJoin(parts: seq<string>, c: char)
    requires |parts| >= 1
    requires forall i :: 0 <= i < |parts| ==> c !in parts[i]
    ensures Split(Join([c], parts), c) == parts
    decreases |parts|
  {
    if |parts| == 1 {
      assert c !in parts[0];
      assert FirstIndex(parts[0], c) == |parts[0]|;
    } else {
      assert c !in parts[0];
      SplitAt(parts[0], c, Join([c], parts[1..]));
      assert forall i :: 0 <= i < |parts[1..]| ==> c !in parts[1..][i] by {
        forall i | 0 <= i < |parts[1..]| ensures c !in parts[1..][i] {
          assert parts[1..][i] == parts[i + 1];
        }
      }
      SplitJoin(parts[1..], c);
      HeadTail(parts);
    }
  }

  /** Joining a part in front of at least one other puts the separator
      between them. */
  lemma JoinCons(sep: string, x: string, parts: seq<string>)
    requires |parts| >= 1
    ensures Join(sep, [x] + parts) == x + sep + Join(sep, parts)
  {
    ConsTail(x, parts);
  }

  /** Joining undoes splitting. */
  lemma {:induction false} JoinSplit(s: string, c: char)
    ensures Join([c], Split(s, c)) == s
    decreases |s|
  {
    var k := FirstIndex(s, c);
    if k < |s| {
      var head, rest := s[..k], s[k + 1..];
      JoinSplit(rest, c);
      assert Split(s, c) == [head] + Split(rest, c);
      JoinCons([c], head, Split(rest, c));
      SplitAround(s, k);
    }
  }

  /* ---------- rtrim ---------- */

  /** `rtrim($s, $c)` for a single character: the longest prefix of `s`
      that does not end in `c` and leaves only `c`s behind. */
  function RTrim(s: string, c: char): (r: string)
    ensures |r| <= |s| && r == s[..|r|]
    ensures r == [] || r[|r| - 1] != c
    ensures forall i :: |r| <= i < |s| ==> s[i] == c
    decreases |s|
  {
    if |s| > 0 && s[|s| - 1] == c then RTrim(s[..|s| - 1], c) else s
  }

  /** Trimming a concatenation trims the tail first and reaches into the
      head only when the tail is all `c`. */
  lemma {:induction false} RTrimAppend(a: string, b: string, c: char)
    ensures RTrim(a + b, c) == if RTrim(b, c) == [] then RTrim(a, c) else a + RTrim(b, c)
    decreases |b|
  {
    if b == [] {
      assert a + b == a;
    } else if b[|b| - 1] == c {
      assert (a + b)[..|a + b| - 1] == a + b[..|b| - 1];
      RTrimAppend(a, b[..|b| - 1], c);
    }
  }

  /* ---------- ASCII case mapping ---------- */

  function UpperChar(ch: char): char
  {
    if 'a' <= ch <= 'z' then (ch as int - 32) as char else ch
  }

  function LowerChar(ch: char): char
  {
    if 'A' <= ch <= 'Z' then (ch as int + 32) as char else ch
  }

  predicate IsAsciiLetter(ch: char)
  {
    'a' <= ch <= 'z' || 'A' <= ch <= 'Z'
  }

  /** `strtoupper`: ASCII letters only, length kept. */
  function Upper(s: string): (r: string)
    ensures |r| == |s|
    ensures forall i :: 0 <= i < |s| ==> r[i] == UpperChar(s[i])
  {
    seq(|s|, i requires 0 <= i < |s| => UpperChar(s[i]))
  }

  /** `strtolower`: ASCII letters only, length kept. */
  function Lower(s: string): (r: string)
    ensures |r| == |s|
    ensures forall i :: 0 <= i < |s| ==> r[i] == LowerChar(s[i])
  {
    seq(|s|, i requires 0 <= i < |s| => LowerChar(s[i]))
  }

  /** Upper-casing is idempotent and forgets the original case, which is
      what makes a lookup keyed on `strtoupper` case-insensitive. */
  lemma UpperForgetsCase(s: string)
    ensures Upper(Upper(s)) == Upper(s)
    ensures Upper(Lower(s)) == Upper(s)
  {
  }

  /* ---------- decimal digits ---------- */

  predicate IsDigit(ch: char) { '0' <= ch <= '9' }

  predicate AllDigits(s: string) { forall i :: 0 <= i < |s| ==> IsDigit(s[i]) }

  function DigitChar(d: nat): (ch: char)
    requires d < 10
    ensures IsDigit(ch)
  {
    ('0' as int + d) as char
  }

  function DigitValue(ch: char): (d: nat)
    requires IsDigit(ch)
    ensures d < 10 && DigitChar(d) == ch
  {
    ch as int - '0' as int
  }

  function Pow10(k: nat): (r: nat)
    ensures r >= 1
  {
    if k == 0 then 1 else 10 * Pow10(k - 1)
  }

  /** The number a string of decimal digits denotes. */
  function DigitsValue(s: string): nat
    requires AllDigits(s)
  {
    if s == [] then 0 else DigitsValue(s[..|s| - 1]) * 10 + DigitValue(s[|s| - 1])
  }

  /** The decimal representation of `n`, without leading zeros. */
  function NatToDecimal(n: nat): (r: string)
    ensures |r| >= 1 && AllDigits(r)
    ensures DigitsValue(r) == n
    ensures |r| > 1 ==> r[0] != '0'
  {
    if n < 10 then [DigitChar(n)]
    else
      var r := NatToDecimal(n / 10) + [DigitChar(n % 10)];
      assert r[..|r| - 1] == NatToDecimal(n / 10);
      r
  }

  /** `n` written with exactly `width` decimal digits, zero-padded on the
      left (the fraction field of `%.8F`). */
  function PadDigits(n: nat, width: nat): (r: string)
    requires n < Pow10(width)
    ensures |r| == width && AllDigits(r)
    ensures DigitsValue(r) == n
  {
    if width == 0 then ""
    else
      var r := PadDigits(n / 10, width - 1) + [DigitChar(n % 10)];
      assert r[..|r| - 1] == PadDigits(n / 10, width - 1);
      r
  }

  lemma {:induction false} DigitsValueAppend(a: string, b: string)
    requires AllDigits(a) && AllDigits(b)
    ensures AllDigits(a + b)
    ensures DigitsValue(a + b) == DigitsValue(a) * Pow10(|b|) + DigitsValue(b)
    decreases |b|
  {
    assert AllDigits(a + b) by {
      forall i | 0 <= i < |a + b| ensures IsDigit((a + b)[i]) {
        if i < |a| { assert (a + b)[i] == a[i]; } else { assert (a + b)[i] == b[i - |a|]; }
      }
    }
    if b == [] {
      assert a + b == a;
    } else {
      var b' := b[..|b| - 1];
      var d := DigitValue(b[|b| - 1]);
      assert (a + b)[..|a + b| - 1] == a + b';
      assert (a + b)[|a + b| - 1] == b[|b| - 1];
      assert DigitsValue(a + b) == DigitsValue(a + b') * 10 + d;
      assert DigitsValue(b) == DigitsValue(b') * 10 + d;
      DigitsValueAppend(a, b');
      ShiftDigit(DigitsValue(a), Pow10(|b'|), DigitsValue(b'), d);
    }
  }

  lemma ShiftDigit(x: nat, p: nat, y: nat, d: nat)
    ensures (x * p + y) * 10 + d == x * (10 * p) + (y * 10 + d)
  {
  }

  /** Digit strings of one length are equal exactly when their values are. */
  lemma {:induction false} DigitsUnique(a: string, b: string)
    requires AllDigits(a) && AllDigits(b) && |a| == |b|
    requires DigitsValue(a) == DigitsValue(b)
    ensures a == b
    decreases |a|
  {
    if a != [] {
      var n := |a| - 1;
      assert DigitValue(a[n]) == DigitValue(b[n]);
      DigitsUnique(a[..n], b[..n]);
      assert a == a[..n] + [a[n]] && b == b[..n] + [b[n]];
    }
  }

  lemma TimesTen(x: nat, y: nat)
    ensures (x * y) * 10 == x * (10 * y)
  {
  }

  /** Trailing zeros of a digit string only scale its value. */
  lemma {:induction false} TrailingZerosScale(s: string)
    requires AllDigits(s)
    ensures AllDigits(RTrim(s, '0'))
    ensures DigitsValue(s) == DigitsValue(RTrim(s, '0')) * Pow10(|s| - |RTrim(s, '0')|)
    decreases |s|
  {
    var t := RTrim(s, '0');
    if |s| > 0 && s[|s| - 1] == '0' {
      var p := s[..|s| - 1];
      TrailingZerosScale(p);
      assert t == RTrim(p, '0');
      assert DigitsValue(s) == DigitsValue(p) * 10;
      var m := |p| - |t|;
      assert Pow10(m + 1) == 10 * Pow10(m);
      TimesTen(DigitsValue(t), Pow10(m));
    } else {
      assert t == s;
    }
  }
}
