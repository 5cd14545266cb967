/**
  Calendar dates as the application stores them: `YYYY-MM-DD` strings, on
  their own (birth dates, growth records, ledger dates) or as the prefix of a
  `datetime-local` value `YYYY-MM-DDTHH:MM`.  The parser reads the three
  fields the `Date` getters report; the formatter is its inverse, and on
  well-formed strings the character order that `localeCompare` and the
  IndexedDB index use agrees with calendar order.
 */
module Dates {
  import opened Types
  import opened Text

  /** Year, month (1-12) and day of month. */
  datatype CalendarDate = CalendarDate(year: nat, month: nat, day: nat)

  predicate ValidDate(d: CalendarDate)
  {
    d.year < 10000 && 1 <= d.month <= 12 && 1 <= d.day <= 31
  }

  /** Calendar order: by year, then month, then day. */
  predicate DateLe(a: CalendarDate, b: CalendarDate)
  {
    || a.year < b.year
    || (a.year == b.year && a.month < b.month)
    || (a.year == b.year && a.month == b.month && a.day <= b.day)
  }

  /** Four digits, a dash, two digits, a dash, two digits, then the end or a `T`. */
  predicate IsoShape(s: string)
  {
    && |s| >= 10
    && AllDigits(s[0..4]) && s[4] == '-'
    && AllDigits(s[5..7]) && s[7] == '-'
    && AllDigits(s[8..10])
    && (|s| == 10 || s[10] == 'T')
  }

  /** The calendar fields of an ISO date string, or `None` when it is not one. */
  function ParseIsoDate(s: string): (r: Option<CalendarDate>)
    ensures r.Some? ==> ValidDate(r.value)
    ensures r.Some? <==>
      IsoShape(s) && 1 <= DigitsValue(s[5..7]) <= 12 && 1 <= DigitsValue(s[8..10]) <= 31
  {
    if IsoShape(s) then
      DigitsValueBound(s[0..4]);
      var d := CalendarDate(DigitsValue(s[0..4]), DigitsValue(s[5..7]), DigitsValue(s[8..10]));
      if 1 <= d.month <= 12 && 1 <= d.day <= 31 then Some(d) else None
    else None
  }

  /** The zero-padded `YYYY-MM-DD` rendering of a date. */
  function FormatIsoDate(d: CalendarDate): (r: string)
    requires ValidDate(d)
    ensures |r| == 10
  {
    Digits(d.year, 4) + (['-'] + (Digits(d.month, 2) + (['-'] + Digits(d.day, 2))))
  }

  lemma FormatPieces(d: CalendarDate)
    requires ValidDate(d)
    ensures FormatIsoDate(d)[0..4] == Digits(d.year, 4)
    ensures FormatIsoDate(d)[4] == '-' && FormatIsoDate(d)[7] == '-'
    ensures FormatIsoDate(d)[5..7] == Digits(d.month, 2)
    ensures FormatIsoDate(d)[8..10] == Digits(d.day, 2)
  {
  }

  /** Parsing a formatted date gives the date back. */
  lemma ParseFormat(d: CalendarDate)
    requires ValidDate(d)
    ensures ParseIsoDate(FormatIsoDate(d)) == Some(d)
  {
    assert Pow10(4) == 10000 && Pow10(2) == 100;
    FormatPieces(d);
    DigitsRoundTrip(d.year, 4);
    DigitsRoundTrip(d.month, 2);
    DigitsRoundTrip(d.day, 2);
  }

  /** A ten-character string the parser accepts is the formatting of what it parses to. */
  lemma FormatParse(s: string)
    requires |s| == 10 && ParseIsoDate(s).Some?
    ensures FormatIsoDate(ParseIsoDate(s).value) == s
  {
    var d := ParseIsoDate(s).value;
    ValueRoundTrip(s[0..4]);
    ValueRoundTrip(s[5..7]);
    ValueRoundTrip(s[8..10]);
    var f := FormatIsoDate(d);
    FormatPieces(d);
    assert f == s by {
      forall i | 0 <= i < 10
        ensures f[i] == s[i]
      {
        if i < 4 {
          assert f[i] == f[0..4][i] && s[i] == s[0..4][i];
        } else if 5 <= i < 7 {
          assert f[i] == f[5..7][i - 5] && s[i] == s[5..7][i - 5];
        } else if 8 <= i {
          assert f[i] == f[8..10][i - 8] && s[i] == s[8..10][i - 8];
        }
      }
    }
  }

  /** Formatted dates compare as strings exactly as they compare on the calendar. */
  lemma FormatOrder(a: CalendarDate, b: CalendarDate)
    requires ValidDate(a) && ValidDate(b)
    ensures StrLe(FormatIsoDate(a), FormatIsoDate(b)) <==> DateLe(a, b)
  {
    assert Pow10(4) == 10000 && Pow10(2) == 100;
    var ya, yb := Digits(a.year, 4), Digits(b.year, 4);
    var ma, mb := Digits(a.month, 2), Digits(b.month, 2);
    var da, db := Digits(a.day, 2), Digits(b.day, 2);
    DigitsOrder(a.year, b.year, 4);
    DigitsOrder(b.year, a.year, 4);
    DigitsOrder(a.month, b.month, 2);
    DigitsOrder(b.month, a.month, 2);
    DigitsOrder(a.day, b.day, 2);
    DigitsRoundTrip(a.year, 4);
    DigitsRoundTrip(b.year, 4);
    DigitsRoundTrip(a.month, 2);
    DigitsRoundTrip(b.month, 2);
    var ra, rb := ['-'] + (ma + (['-'] + da)), ['-'] + (mb + (['-'] + db));
    StrLeConcat(ya, ra, yb, rb);
    StrLeConcat(['-'], ma + (['-'] + da), ['-'], mb + (['-'] + db));
    StrLeConcat(ma, ['-'] + da, mb, ['-'] + db);
    StrLeConcat(['-'], da, ['-'], db);
  }

  /** On well-formed `YYYY-MM-DD` strings, string order is calendar order. */
  lemma IsoStringOrder(s: string, t: string)
    requires |s| == 10 && |t| == 10
    requires ParseIsoDate(s).Some? && ParseIsoDate(t).Some?
    ensures StrLe(s, t) <==> DateLe(ParseIsoDate(s).value, ParseIsoDate(t).value)
  {
    FormatParse(s);
    FormatParse(t);
    FormatOrder(ParseIsoDate(s).value, ParseIsoDate(t).value);
  }

  /** Months since year 0: the quantity month differences are taken on. */
  function MonthIndex(d: CalendarDate): int
  {
    d.year * 12 + (d.month - 1)
  }

  /** Calendar order and the order of month indices agree up to the day. */
  lemma MonthIndexMonotone(a: CalendarDate, b: CalendarDate)
    requires ValidDate(a) && ValidDate(b)
    ensures DateLe(a, b) ==> MonthIndex(a) <= MonthIndex(b)
    ensures MonthIndex(a) < MonthIndex(b) ==> DateLe(a, b)
  {
  }
}
