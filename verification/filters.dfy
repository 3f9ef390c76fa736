/** Pieces shared by the item and comment queries: the author and date
    setters (identical in both classes), the date-window conditions, and
    the navigation-link parameter arrays. */
module Filters {
  import opened Wrappers
  import opened Php
  import opened Externals
  import opened Sql
  import opened DateInterval

  /** A string-or-false slot (`mAuthor`, `mTag`, `mThread`) that `if ( $x )`
      accepts: set, and neither "" nor "0". */
  predicate HasText(s: Option<string>) {
    s.Some? && TruthyString(s.value)
  }

  /** `setAuthor($author)` for a string argument (Some) or null (None): the
      text is made a user page title; if that fails the filter is kept,
      otherwise it becomes the canonical user name, which may be `false`. */
  function AuthorAfter(current: Option<string>, author: Option<string>, wiki: Wiki): Option<string> {
    if author.None? then current
    else
      match wiki.makeTitleSafe(NsUser, author.value)
      case None => current
      case Some(t) => wiki.canonicalName(t.text)
  }

  /** The two conditions of a date filter on a timestamp column:
      `column >= start` and `column < end`. */
  function DateConds(column: string, date: Option<DateSpec>): seq<Cond> {
    if date.None? then []
    else [Raw(Compare(column, ">=", Timestamp(date.value.start))),
          Raw(Compare(column, "<", Timestamp(date.value.end)))]
  }

  /** A navigation-link parameter value: text, a number, or `false`. */
  datatype Param = PText(s: string) | PInt(n: int) | PFalse

  /** A stored month or day as a parameter: the number or `false`. */
  function DateParam(x: Option<int>): Param {
    if x.Some? then PInt(x.value) else PFalse
  }

  /** The number a "month"/"day" parameter feeds back into `setDate`. */
  function ParamInt(p: Option<Param>): int {
    if p.Some? && p.value.PInt? then p.value.n else 0
  }

  /** `$query[key] = value` on a fresh key, or nothing when there is no value. */
  function Entry(key: string, p: Option<Param>): seq<(string, Param)> {
    if p.Some? then [(key, p.value)] else []
  }

  /** An author, tag or similar text filter as a parameter, when it is set
      and truthy. */
  function TextParam(s: Option<string>): Option<Param> {
    if HasText(s) then Some(PText(s.value)) else None
  }

  /** The "year", "month" and "day" entries of a date filter. */
  function DateEntries(date: Option<DateSpec>): seq<(string, Param)> {
    if date.None? then []
    else [("year", PInt(date.value.year)), ("month", DateParam(date.value.month)),
          ("day", DateParam(date.value.day))]
  }

  /** `$query[$key]` of a parameter array, None when unset. */
  function ParamLookup(q: seq<(string, Param)>, key: string): Option<Param> {
    if q == [] then None
    else if q[0].0 == key then Some(q[0].1)
    else ParamLookup(q[1..], key)
  }

  /** Looking a key up in two arrays written one after the other finds it in
      the first when it is set there, else in the second. */
  lemma {:induction false} ParamLookupAppend(a: seq<(string, Param)>, b: seq<(string, Param)>, key: string)
    ensures ParamLookup(a + b, key) == if ParamLookup(a, key).Some? then ParamLookup(a, key) else ParamLookup(b, key)
    decreases |a|
  {
    if a != [] {
      assert (a + b)[0] == a[0];
      assert (a + b)[1..] == a[1..] + b;
      ParamLookupAppend(a[1..], b, key);
    } else {
      assert a + b == b;
    }
  }

  /** An entry holds its own key and no other. */
  lemma EntryLookup(k: string, p: Option<Param>, key: string)
    ensures ParamLookup(Entry(k, p), key) == if key == k then p else None
  {
    if p.Some? {
      assert Entry(k, p)[1..] == [];
    }
  }

  /** The date entries hold the year, and the month and day or `false`. */
  lemma DateEntriesLookup(date: Option<DateSpec>, key: string)
    ensures ParamLookup(DateEntries(date), key) ==
      if date.None? || (key != "year" && key != "month" && key != "day") then None
      else if key == "year" then Some(PInt(date.value.year))
      else if key == "month" then Some(DateParam(date.value.month))
      else Some(DateParam(date.value.day))
  {
    if date.Some? {
      var q := DateEntries(date);
      assert q[1..] == [("month", DateParam(date.value.month)), ("day", DateParam(date.value.day))];
      assert q[1..][1..] == [("day", DateParam(date.value.day))];
      assert q[1..][1..][1..] == [];
      assert ParamLookup(q[1..][1..], key) == if key == "day" then Some(DateParam(date.value.day)) else None;
    }
  }

  /** `if ( $x ) $query[key] = $x;` for an author or tag filter. */
  method AddTextEntry(query: seq<(string, Param)>, key: string, s: Option<string>)
    returns (q: seq<(string, Param)>)
    ensures q == query + Entry(key, TextParam(s))
  {
    q := query;
    if s.Some? && TruthyString(s.value) {
      q := q + [(key, PText(s.value))];
    }
  }

  /** The "year", "month" and "day" entries appended when a date is set. */
  method AddDateEntries(query: seq<(string, Param)>, date: Option<DateSpec>)
    returns (q: seq<(string, Param)>)
    ensures q == query + DateEntries(date)
  {
    q := query;
    if date.Some? {
      q := q + [("year", PInt(date.value.year)), ("month", DateParam(date.value.month)),
                ("day", DateParam(date.value.day))];
    } else {
      assert q == query + [];
    }
  }

  /** The two timestamp conditions appended when a date is set. */
  method AddDateConds(conds: seq<Cond>, column: string, date: Option<DateSpec>)
    returns (r: seq<Cond>)
    ensures r == conds + DateConds(column, date)
  {
    r := conds;
    if date.Some? {
      r := r + [Raw(Compare(column, ">=", Timestamp(date.value.start)))];
      r := r + [Raw(Compare(column, "<", Timestamp(date.value.end)))];
    } else {
      assert r == conds + [];
    }
  }
}
