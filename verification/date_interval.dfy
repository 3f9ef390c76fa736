/** `WikilogQuery::partialDateToInterval`: a partial calendar date (year,
    month, day; any of them may be missing) becomes a half-open interval
    [start, end) of 14-digit timestamps. There is no calendar arithmetic:
    the most specific unit given is incremented in place, so December gives
    month "13" and day 31 gives day "32"; both still sort after every real
    timestamp of that month or day. */
module DateInterval {
  import opened Wrappers
  import opened Php

  /** The current UTC date the source reads with `gmdate('Y')` and `gmdate('n')`. */
  datatype Today = Today(year: int, month: int)

  predicate ValidToday(t: Today) {
    1 <= t.year <= 9999 && 1 <= t.month <= 12
  }

  /** The normalised date a query stores once the interval exists (`mDate`). */
  datatype DateSpec = DateSpec(year: int, month: Option<int>, day: Option<int>, start: string, end: string)

  const TimestampWidth: nat := 14

  /** `($x > 0 && $x <= $max) ? $x : false` */
  function InRange(x: int, max: int): Option<int> {
    if 0 < x <= max then Some(x) else None
  }

  /** The parts an interval is built from, after normalisation. */
  predicate ValidParts(y: int, m: Option<int>, d: Option<int>) {
    0 <= y <= 9999 && (m.Some? ==> 1 <= m.value <= 12) && (d.Some? ==> 1 <= d.value <= 31)
  }

  /** `str_pad($n, $width, '0', STR_PAD_LEFT)` */
  function Pad(n: nat, width: nat): string {
    PadLeft(Decimal(n), width, '0')
  }

  /** YYYY, YYYYMM or YYYYMMDD; a day without a month is not used. */
  function StartPrefix(y: nat, m: Option<int>, d: Option<int>): string
    requires ValidParts(y, m, d)
  {
    if m.None? then Pad(y, 4)
    else if d.None? then Pad(y, 4) + Pad(m.value, 2)
    else Pad(y, 4) + Pad(m.value, 2) + Pad(d.value, 2)
  }

  /** The start prefix with its last unit incremented, without carry. */
  function EndPrefix(y: nat, m: Option<int>, d: Option<int>): string
    requires ValidParts(y, m, d)
  {
    if m.None? then Pad(y + 1, 4)
    else if d.None? then Pad(y, 4) + Pad(m.value + 1, 2)
    else Pad(y, 4) + Pad(m.value, 2) + Pad(d.value + 1, 2)
  }

  /** The interval as (start, end), both right-padded with '0' to 14 characters. */
  function Interval(y: nat, m: Option<int>, d: Option<int>): (r: (string, string))
    requires ValidParts(y, m, d)
    ensures |r.0| == TimestampWidth && |r.1| == TimestampWidth
    ensures IsDigits(r.0) && IsDigits(r.1)
  {
    PrefixShape(y, m, d);
    (PadRight(StartPrefix(y, m, d), TimestampWidth, '0'),
     PadRight(EndPrefix(y, m, d), TimestampWidth, '0'))
  }

  /** How many leading digits the interval fixes: 4 (year), 6 (month) or 8 (day). */
  function UnitDigits(m: Option<int>, d: Option<int>): nat {
    if m.None? then 4 else if d.None? then 6 else 8
  }

  /** The value of those leading digits for every timestamp in the interval. */
  function UnitIndex(y: nat, m: Option<int>, d: Option<int>): nat
    requires ValidParts(y, m, d)
  {
    if m.None? then y
    else if d.None? then y * 100 + m.value
    else (y * 100 + m.value) * 100 + d.value
  }

  /** The year-only interval of year 9999 is the one whose end overflows four digits. */
  predicate Y10k(y: int, m: Option<int>) {
    m.None? && y == 9999
  }

  lemma PadFacts(n: nat, width: nat)
    requires 1 <= width && n < Pow10(width)
    ensures |Pad(n, width)| == width && IsDigits(Pad(n, width)) && Value(Pad(n, width)) == n
  {
    DecimalShort(n, width);
    DecimalValue(n);
    PadLeftValue(Decimal(n), width);
  }

  lemma YearPrefixFacts(y: nat, d: Option<int>)
    requires ValidParts(y, None, d)
    ensures var s, e := StartPrefix(y, None, d), EndPrefix(y, None, d);
      && IsDigits(s) && |s| == 4 && Value(s) == y
      && IsDigits(e) && 4 <= |e| <= 5
      && (y < 9999 ==> |e| == 4 && Value(e) == y + 1)
  {
    assert Pow10(4) == 10000;
    PadFacts(y, 4);
    if y < 9999 {
      PadFacts(y + 1, 4);
    } else {
      assert Pow10(5) == 100000;
      PadFacts(y + 1, 5);
      DecimalLong(y + 1, 4);
    }
  }

  lemma MonthPrefixFacts(y: nat, m: int)
    requires y <= 9999 && 1 <= m <= 12
    ensures var s, e := StartPrefix(y, Some(m), None), EndPrefix(y, Some(m), None);
      && IsDigits(s) && |s| == 6 && Value(s) == y * 100 + m
      && IsDigits(e) && |e| == 6 && Value(e) == y * 100 + m + 1
  {
    assert Pow10(2) == 100;
    assert Pow10(4) == 10000;
    PadFacts(y, 4);
    PadFacts(m, 2);
    PadFacts(m + 1, 2);
    ValueAppend(Pad(y, 4), Pad(m, 2));
    ValueAppend(Pad(y, 4), Pad(m + 1, 2));
  }

  lemma DayPrefixFacts(y: nat, m: int, d: int)
    requires y <= 9999 && 1 <= m <= 12 && 1 <= d <= 31
    ensures var s, e := StartPrefix(y, Some(m), Some(d)), EndPrefix(y, Some(m), Some(d));
      && IsDigits(s) && |s| == 8 && Value(s) == (y * 100 + m) * 100 + d
      && IsDigits(e) && |e| == 8 && Value(e) == (y * 100 + m) * 100 + d + 1
  {
    MonthPrefixFacts(y, m);
    var ym := StartPrefix(y, Some(m), None);
    assert Pow10(2) == 100;
    PadFacts(d, 2);
    PadFacts(d + 1, 2);
    ValueAppend(ym, Pad(d, 2));
    ValueAppend(ym, Pad(d + 1, 2));
  }

  lemma PrefixFacts(y: nat, m: Option<int>, d: Option<int>)
    requires ValidParts(y, m, d)
    ensures IsDigits(StartPrefix(y, m, d)) && |StartPrefix(y, m, d)| == UnitDigits(m, d)
    ensures Value(StartPrefix(y, m, d)) == UnitIndex(y, m, d)
    ensures IsDigits(EndPrefix(y, m, d)) && |EndPrefix(y, m, d)| <= TimestampWidth
    ensures !Y10k(y, m) ==> |EndPrefix(y, m, d)| == UnitDigits(m, d)
    ensures !Y10k(y, m) ==> Value(EndPrefix(y, m, d)) == UnitIndex(y, m, d) + 1
  {
    if m.None? {
      YearPrefixFacts(y, d);
    } else if d.None? {
      MonthPrefixFacts(y, m.value);
    } else {
      DayPrefixFacts(y, m.value, d.value);
    }
  }

  /** Both ends are digit strings that fit in a timestamp. */
  lemma PrefixShape(y: nat, m: Option<int>, d: Option<int>)
    requires ValidParts(y, m, d)
    ensures IsDigits(StartPrefix(y, m, d)) && |StartPrefix(y, m, d)| <= TimestampWidth
    ensures IsDigits(EndPrefix(y, m, d)) && |EndPrefix(y, m, d)| <= TimestampWidth
  {
    PrefixFacts(y, m, d);
  }

  /** Both ends as numbers: the unit index shifted to 14 digits, and one
      shifted unit more. */
  lemma IntervalValues(y: nat, m: Option<int>, d: Option<int>)
    requires ValidParts(y, m, d) && !Y10k(y, m)
    ensures Value(Interval(y, m, d).0) == UnitIndex(y, m, d) * Pow10(TimestampWidth - UnitDigits(m, d))
    ensures Value(Interval(y, m, d).1) == Value(Interval(y, m, d).0) + Pow10(TimestampWidth - UnitDigits(m, d))
  {
    PrefixFacts(y, m, d);
    ShiftedValues(StartPrefix(y, m, d), EndPrefix(y, m, d), UnitIndex(y, m, d), UnitDigits(m, d));
  }

  /** Right-padding two k-digit strings that read u and u + 1 to timestamp
      width gives u shifted, and that plus one shifted unit. */
  lemma ShiftedValues(s: string, e: string, u: nat, k: nat)
    requires IsDigits(s) && IsDigits(e) && |s| == k && |e| == k && k <= TimestampWidth
    requires Value(s) == u && Value(e) == u + 1
    ensures Value(PadRight(s, TimestampWidth, '0')) == u * Pow10(TimestampWidth - k)
    ensures Value(PadRight(e, TimestampWidth, '0')) == Value(PadRight(s, TimestampWidth, '0')) + Pow10(TimestampWidth - k)
  {
    PadRightValue(s, TimestampWidth);
    PadRightValue(e, TimestampWidth);
    MulSplit(u + 1, u, 1, Pow10(TimestampWidth - k));
  }

  /** k * p <= v * p + r < k * p + p holds exactly when v == k. */
  lemma BlockContains(lo: nat, t: nat, k: nat, v: nat, r: nat, p: nat)
    requires r < p && lo == k * p && t == v * p + r
    ensures lo <= t < lo + p <==> v == k
  {
    if v < k {
      BlockLess(v, k, r, 0, p);
    } else if k < v {
      BlockLess(k, v, p - 1, r, p);
    }
  }

  /** A digit string is its first k digits shifted left, plus a remainder below the shift. */
  lemma SplitValue(ts: string, k: nat)
    requires k <= |ts|
    ensures Value(ts) == Value(ts[..k]) * Pow10(|ts| - k) + Value(ts[k..])
    ensures Value(ts[k..]) < Pow10(|ts| - k)
  {
    assert ts == ts[..k] + ts[k..];
    ValueAppend(ts[..k], ts[k..]);
    ValueBound(ts[k..]);
  }

  /** A digit string lies in [u * p, (u + 1) * p), p being 10 to the number
      of digits after the first k, exactly when its first k digits read u. */
  lemma PrefixBlock(ts: string, k: nat, lo: nat, u: nat, p: nat)
    requires k <= |ts| && p == Pow10(|ts| - k) && lo == u * p
    ensures lo <= Value(ts) < lo + p <==> Value(ts[..k]) == u
  {
    SplitValue(ts, k);
    BlockContains(lo, Value(ts), u, Value(ts[..k]), Value(ts[k..]), p);
  }

  /** The interval holds exactly the timestamps whose leading year, year-month
      or year-month-day digits are the requested ones. */
  lemma IntervalContains(y: nat, m: Option<int>, d: Option<int>, ts: string)
    requires ValidParts(y, m, d) && !Y10k(y, m)
    requires |ts| == TimestampWidth && IsDigits(ts)
    ensures Value(Interval(y, m, d).0) <= Value(ts) < Value(Interval(y, m, d).1)
        <==> Value(ts[..UnitDigits(m, d)]) == UnitIndex(y, m, d)
  {
    IntervalValues(y, m, d);
    PrefixBlock(ts, UnitDigits(m, d), Value(Interval(y, m, d).0), UnitIndex(y, m, d),
                Pow10(TimestampWidth - UnitDigits(m, d)));
  }

  /** start < end, as numbers and as strings, except for the year-only query of 9999. */
  lemma IntervalOrdered(y: nat, m: Option<int>, d: Option<int>)
    requires ValidParts(y, m, d) && !Y10k(y, m)
    ensures Value(Interval(y, m, d).0) < Value(Interval(y, m, d).1)
    ensures LexLess(Interval(y, m, d).0, Interval(y, m, d).1)
  {
    IntervalValues(y, m, d);
    LexLessValue(Interval(y, m, d).0, Interval(y, m, d).1);
  }

  /** The acknowledged "Y10k bug": the year-only interval of 9999 ends before it starts. */
  lemma Y10kInterval()
    ensures Interval(9999, None, None) == ("99990000000000", "10000000000000")
    ensures Value(Interval(9999, None, None).1) < Value(Interval(9999, None, None).0)
    ensures LexLess(Interval(9999, None, None).1, Interval(9999, None, None).0)
  {
    Y10kStrings();
    var start, end := "99990000000000", "10000000000000";
    assert LexLess(end, start) by {
      assert end[0] == '1' && start[0] == '9';
    }
    LexLessValue(end, start);
  }

  /** The two strings of the year-only interval of 9999. */
  lemma Y10kStrings()
    ensures Interval(9999, None, None) == ("99990000000000", "10000000000000")
  {
    assert Decimal(9999) == "9999";
    assert Decimal(10000) == "10000";
    assert StartPrefix(9999, None, None) == "9999";
    assert EndPrefix(9999, None, None) == "10000";
    assert Repeat('0', 10) == "0000000000";
    assert Repeat('0', 9) == "000000000";
    assert PadRight("9999", 14, '0') == "99990000000000";
    assert PadRight("10000", 14, '0') == "10000000000000";
  }

  /** The year a month without a year refers to: the current year, or the
      previous one when that month is still to come this year. */
  function ImpliedYear(month: int, today: Today): int {
    if month > today.month then today.year - 1 else today.year
  }

  /** The date filter `setDate(year, month, day)` stores, or None when neither
      the year nor the month is usable (then the filter is left unchanged).
      Zero stands for PHP's `false`, the default of month and day. */
  function ResolveDate(year: int, month: int, day: int, today: Today): (r: Option<DateSpec>)
    requires ValidToday(today)
    ensures r.None? <==> !(1 <= year <= 9999) && !(1 <= month <= 12)
    ensures r.Some? ==> r.value.year == (if 1 <= year <= 9999 then year else ImpliedYear(month, today))
    ensures r.Some? ==> (r.value.month.Some? <==> 1 <= month <= 12) && (r.value.month.Some? ==> r.value.month.value == month)
    ensures r.Some? ==> (r.value.day.Some? <==> 1 <= day <= 31) && (r.value.day.Some? ==> r.value.day.value == day)
    ensures r.Some? ==> ValidParts(r.value.year, r.value.month, r.value.day)
    ensures r.Some? ==> (r.value.start, r.value.end) == Interval(r.value.year, r.value.month, r.value.day)
    ensures r.Some? ==> |r.value.start| == TimestampWidth && |r.value.end| == TimestampWidth
    ensures r.Some? && !Y10k(r.value.year, r.value.month) ==> LexLess(r.value.start, r.value.end)
  {
    var y, m, d := InRange(year, 9999), InRange(month, 12), InRange(day, 31);
    if y.None? && m.None? then None
    else
      var yy := if y.Some? then y.value else ImpliedYear(month, today);
      var iv := Interval(yy, m, d);
      IntervalOrderedWhenValid(yy, m, d);
      Some(DateSpec(yy, m, d, iv.0, iv.1))
  }

  lemma IntervalOrderedWhenValid(y: nat, m: Option<int>, d: Option<int>)
    requires ValidParts(y, m, d)
    ensures !Y10k(y, m) ==> LexLess(Interval(y, m, d).0, Interval(y, m, d).1)
  {
    if !Y10k(y, m) {
      IntervalOrdered(y, m, d);
    }
  }

  /** PHP's `$x ?: 0` for a stored month or day: the value a navigation link
      carries back (`false` reads as 0). */
  function OrZero(x: Option<int>): int {
    if x.Some? then x.value else 0
  }

  /** Normalisation is idempotent: feeding a stored date back through
      `setDate`, as navigation links do, stores the same date again, whatever
      the current date then is. */
  lemma ResolveDateIdempotent(year: int, month: int, day: int, today: Today, later: Today)
    requires ValidToday(today) && ValidToday(later)
    requires ResolveDate(year, month, day, today).Some?
    requires ResolveDate(year, month, day, today).value.year >= 1
    ensures var r := ResolveDate(year, month, day, today).value;
      ResolveDate(r.year, OrZero(r.month), OrZero(r.day), later) == Some(r)
  {
  }

  /** `partialDateToInterval(&$year, &$month, &$day)`: the three arguments are
      passed by reference and overwritten with their normalised values (None
      for `false`), and the interval is returned, or None for `false`. */
  method PartialDateToInterval(year: int, month: int, day: int, today: Today)
    returns (yearOut: Option<int>, monthOut: Option<int>, dayOut: Option<int>, interval: Option<(string, string)>)
    requires ValidToday(today)
    ensures monthOut == InRange(month, 12) && dayOut == InRange(day, 31)
    ensures interval.None? <==> ResolveDate(year, month, day, today).None?
    ensures interval.None? ==> yearOut.None?
    ensures interval.Some? ==>
      var r := ResolveDate(year, month, day, today).value;
      yearOut == Some(r.year) && interval.value == (r.start, r.end)
  {
    yearOut := if 0 < year <= 9999 then Some(year) else None;
    monthOut := if 0 < month <= 12 then Some(month) else None;
    dayOut := if 0 < day <= 31 then Some(day) else None;

    if yearOut.None? && monthOut.None? {
      return yearOut, monthOut, dayOut, None;
    }

    if yearOut.None? {
      var y := today.year;
      if month > today.month {
        y := y - 1;
      }
      yearOut := Some(y);
    }

    var y: nat := yearOut.value;
    var iv := BuildInterval(y, monthOut, dayOut);
    interval := Some(iv);
  }

  /** The string-building half of `partialDateToInterval`: `$date_start`
      and `$date_end` are reassigned as each unit is appended. */
  method BuildInterval(y: nat, m: Option<int>, d: Option<int>) returns (interval: (string, string))
    requires ValidParts(y, m, d)
    ensures interval == Interval(y, m, d)
  {
    var dateEnd := Pad(y + 1, 4);
    var dateStart := Pad(y, 4);
    if m.Some? {
      dateEnd := dateStart + Pad(m.value + 1, 2);
      dateStart := dateStart + Pad(m.value, 2);
      if d.Some? {
        dateEnd := dateStart + Pad(d.value + 1, 2);
        dateStart := dateStart + Pad(d.value, 2);
      }
    }
    interval := (PadRight(dateStart, TimestampWidth, '0'), PadRight(dateEnd, TimestampWidth, '0'));
  }
}
