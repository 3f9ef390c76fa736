/** The few PHP string and number primitives the query classes rely on:
    truthiness of strings, integer-to-string conversion, `str_pad` and
    `implode`, plus the numeric value of a string of decimal digits, which is
    how timestamps compare. */
module Php {

  /** PHP truthiness of a string: only "" and "0" are false. */
  predicate TruthyString(s: string) {
    s != "" && s != "0"
  }

  function Pow10(k: nat): (p: nat)
    ensures p >= 1
  {
    if k == 0 then 1 else 10 * Pow10(k - 1)
  }

  predicate IsDigit(c: char) {
    '0' <= c <= '9'
  }

  predicate IsDigits(s: string) {
    forall i :: 0 <= i < |s| ==> IsDigit(s[i])
  }

  function DigitChar(d: nat): (c: char)
    requires d < 10
    ensures IsDigit(c) && DigitValue(c) == d
  {
    ('0' as int + d) as char
  }

  function DigitValue(c: char): nat {
    if IsDigit(c) then c as int - '0' as int else 0
  }

  /** The decimal rendering PHP gives a non-negative integer ("0", "7", "2010"). */
  function Decimal(n: nat): (s: string)
    ensures 1 <= |s| && IsDigits(s)
    decreases n
  {
    if n < 10 then [DigitChar(n)] else Decimal(n / 10) + [DigitChar(n % 10)]
  }

  /** The number a string of decimal digits denotes, most significant first. */
  function Value(s: string): nat {
    if s == [] then 0 else Value(s[..|s| - 1]) * 10 + DigitValue(s[|s| - 1])
  }

  function Repeat(c: char, k: nat): (r: string)
    ensures |r| == k && forall i :: 0 <= i < k ==> r[i] == c
  {
    seq(k, _ => c)
  }

  /** `str_pad($s, $n, $c, STR_PAD_LEFT)` with a one-character pad string. */
  function PadLeft(s: string, n: nat, c: char): (r: string)
    ensures |s| >= n ==> r == s
    ensures |s| < n ==> |r| == n && r[n - |s|..] == s
    ensures forall i :: 0 <= i < |r| - |s| ==> r[i] == c
  {
    if |s| >= n then s else Repeat(c, n - |s|) + s
  }

  /** `str_pad($s, $n, $c, STR_PAD_RIGHT)` with a one-character pad string. */
  function PadRight(s: string, n: nat, c: char): (r: string)
    ensures |s| >= n ==> r == s
    ensures |s| < n ==> |r| == n && r[..|s|] == s
    ensures forall i :: |s| <= i < |r| ==> r[i] == c
  {
    if |s| >= n then s else s + Repeat(c, n - |s|)
  }

  /** `implode($sep, $parts)`. */
  function Implode(sep: string, parts: seq<string>): (r: string)
    ensures |parts| == 1 ==> r == parts[0]
    decreases |parts|
  {
    if |parts| == 0 then ""
    else if |parts| == 1 then parts[0]
    else Implode(sep, parts[..|parts| - 1]) + sep + parts[|parts| - 1]
  }

  lemma {:induction false} ValueAppend(s: string, t: string)
    ensures Value(s + t) == Value(s) * Pow10(|t|) + Value(t)
    decreases |t|
  {
    if t == [] {
      assert s + t == s;
    } else {
      var t' := t[..|t| - 1];
      var c := t[|t| - 1];
      var st := s + t;
      assert st[..|st| - 1] == s + t';
      assert st[|st| - 1] == c;
      assert Value(st) == Value(s + t') * 10 + DigitValue(c);
      assert Value(t) == Value(t') * 10 + DigitValue(c);
      ValueAppend(s, t');
      MulShift(Value(s), Pow10(|t'|), Value(t'));
    }
  }

  /** (a * p + v) * 10 == a * (p * 10) + v * 10, kept apart from the sequence reasoning. */
  lemma MulShift(a: nat, p: nat, v: nat)
    ensures (a * p + v) * 10 == a * (p * 10) + v * 10
  {
  }

  lemma {:induction false} ValueBound(s: string)
    ensures Value(s) < Pow10(|s|)
    decreases |s|
  {
    if s != [] {
      var s' := s[..|s| - 1];
      ValueBound(s');
      assert DigitValue(s[|s| - 1]) <= 9;
      assert Value(s) <= (Pow10(|s'|) - 1) * 10 + 9;
    }
  }

  lemma {:induction false} ValueOfZeros(k: nat)
    ensures Value(Repeat('0', k)) == 0
  {
    if k > 0 {
      assert Repeat('0', k)[..k - 1] == Repeat('0', k - 1);
      ValueOfZeros(k - 1);
    }
  }

  lemma {:induction false} DecimalValue(n: nat)
    ensures Value(Decimal(n)) == n
    decreases n
  {
    if n >= 10 {
      var d := Decimal(n / 10) + [DigitChar(n % 10)];
      assert d[..|d| - 1] == Decimal(n / 10);
      DecimalValue(n / 10);
    }
  }

  /** A number below 10^k is written with at most k digits. */
  lemma {:induction false} DecimalShort(n: nat, k: nat)
    requires 1 <= k && n < Pow10(k)
    ensures |Decimal(n)| <= k
    decreases n
  {
    if n >= 10 {
      DecimalShort(n / 10, k - 1);
    }
  }

  /** A number of at least 10^k is written with more than k digits. */
  lemma {:induction false} DecimalLong(n: nat, k: nat)
    requires n >= Pow10(k)
    ensures |Decimal(n)| > k
    decreases n
  {
    if k > 0 {
      DecimalLong(n / 10, k - 1);
    }
  }

  /** Zero-padding on the left keeps the value of a digit string. */
  lemma PadLeftValue(s: string, n: nat)
    requires IsDigits(s)
    ensures IsDigits(PadLeft(s, n, '0'))
    ensures Value(PadLeft(s, n, '0')) == Value(s)
  {
    if |s| < n {
      ValueAppend(Repeat('0', n - |s|), s);
      ValueOfZeros(n - |s|);
    }
  }

  /** Zero-padding on the right to width n multiplies by 10^(n - |s|). */
  lemma PadRightValue(s: string, n: nat)
    requires IsDigits(s) && |s| <= n
    ensures IsDigits(PadRight(s, n, '0')) && |PadRight(s, n, '0')| == n
    ensures Value(PadRight(s, n, '0')) == Value(s) * Pow10(n - |s|)
  {
    if |s| < n {
      ValueAppend(s, Repeat('0', n - |s|));
      ValueOfZeros(n - |s|);
    }
  }

  /** Byte-wise (lexicographic) string order, as the database compares the
      14-character timestamp strings. */
  predicate LexLess(a: string, b: string)
    decreases |a|
  {
    b != [] && (a == [] || a[0] < b[0] || (a[0] == b[0] && LexLess(a[1..], b[1..])))
  }

  /** Multiplication distributes over a sum: (x + d) * p == x * p + d * p. */
  lemma MulSplit(y: nat, x: nat, d: nat, p: nat)
    requires y == x + d
    ensures y * p == x * p + d * p
  {
  }

  /** x * p + u < y * p + v whenever x < y and u is a remainder below p. */
  lemma BlockLess(x: nat, y: nat, u: nat, v: nat, p: nat)
    requires x < y && u < p
    ensures x * p + u < y * p + v
  {
    var d: nat := y - x - 1;
    MulSplit(y, x, d + 1, p);
    MulSplit(d + 1, d, 1, p);
    assert d * p >= 0;
  }

  /** On digit strings of equal length, lexicographic order is numeric order. */
  lemma {:induction false} LexLessValue(a: string, b: string)
    requires IsDigits(a) && IsDigits(b) && |a| == |b|
    ensures LexLess(a, b) <==> Value(a) < Value(b)
    decreases |a|
  {
    if |a| > 0 {
      var a', b' := a[1..], b[1..];
      assert a == [a[0]] + a';
      assert b == [b[0]] + b';
      ValueAppend([a[0]], a');
      ValueAppend([b[0]], b');
      assert Value([a[0]]) == DigitValue(a[0]) by { assert [a[0]][..0] == []; }
      assert Value([b[0]]) == DigitValue(b[0]) by { assert [b[0]][..0] == []; }
      ValueBound(a');
      ValueBound(b');
      var p := Pow10(|a'|);
      if a[0] < b[0] {
        BlockLess(DigitValue(a[0]), DigitValue(b[0]), Value(a'), Value(b'), p);
      } else if b[0] < a[0] {
        BlockLess(DigitValue(b[0]), DigitValue(a[0]), Value(b'), Value(a'), p);
      } else {
        LexLessValue(a', b');
      }
    }
  }
}
