/** Calendar dates as Python's `datetime.date` handles them: proleptic
    Gregorian, years 1 to 9999, day ordinals (1 January of year 1 is day 1),
    adding a number of days, and the text form '%Y-%m-%d' in both directions
    (`strftime` and `strptime`). */
module Dates {
  import opened Common

  datatype Date = Date(year: int, month: int, day: int)

  const MinYear: int := 1
  const MaxYear: int := 9999
  /** The ordinal of 9999-12-31, the last date Python represents. */
  const MaxOrdinal: int := 3652059

  predicate IsLeap(y: int) {
    y % 4 == 0 && (y % 100 != 0 || y % 400 == 0)
  }

  function DaysInYear(y: int): int {
    if IsLeap(y) then 366 else 365
  }

  function DaysInMonth(y: int, m: int): int
    requires 1 <= m <= 12
  {
    if m == 2 then (if IsLeap(y) then 29 else 28)
    else if m == 4 || m == 6 || m == 9 || m == 11 then 30
    else 31
  }

  predicate ValidDate(d: Date) {
    && MinYear <= d.year <= MaxYear
    && 1 <= d.month <= 12
    && 1 <= d.day <= DaysInMonth(d.year, d.month)
  }

  /** Days in the years before year `y`. */
  function DaysBeforeYear(y: int): int
    requires y >= 1
  {
    var p := y - 1;
    p * 365 + p / 4 - p / 100 + p / 400
  }

  /** Days in the months of year `y` before month `m`. */
  function DaysBeforeMonth(y: int, m: int): int
    requires 1 <= m <= 12
  {
    [0, 31, 59, 90, 120, 151, 181, 212, 243, 273, 304, 334][m - 1]
      + (if m > 2 && IsLeap(y) then 1 else 0)
  }

  /** `date.toordinal()`. */
  function ToOrdinal(d: Date): int
    requires ValidDate(d)
  {
    DaysBeforeYear(d.year) + DaysBeforeMonth(d.year, d.month) + d.day
  }

  lemma {:induction false} NextYear(y: int)
    requires y >= 1
    ensures DaysBeforeYear(y + 1) == DaysBeforeYear(y) + DaysInYear(y)
  {
    var p := y - 1;
    assert (p + 1) / 4 == p / 4 + (if y % 4 == 0 then 1 else 0);
    assert (p + 1) / 100 == p / 100 + (if y % 100 == 0 then 1 else 0);
    assert (p + 1) / 400 == p / 400 + (if y % 400 == 0 then 1 else 0);
  }

  lemma MonthStep(y: int, m: int)
    requires 1 <= m <= 12
    ensures m < 12 ==> DaysBeforeMonth(y, m + 1) == DaysBeforeMonth(y, m) + DaysInMonth(y, m)
    ensures m == 12 ==> DaysBeforeMonth(y, m) + DaysInMonth(y, m) == DaysInYear(y)
  {
  }

  /** The year whose days include ordinal `n`, searched upward from `y`. */
  function YearOfOrdinal(n: int, y: int): (r: int)
    requires MinYear <= y <= MaxYear && DaysBeforeYear(y) < n <= MaxOrdinal
    ensures y <= r <= MaxYear
    ensures DaysBeforeYear(r) < n <= DaysBeforeYear(r) + DaysInYear(r)
    decreases MaxYear - y
  {
    NextYear(y);
    if n <= DaysBeforeYear(y) + DaysInYear(y) then y
    else YearOfOrdinal(n, y + 1)
  }

  /** The month of year `y` that holds day-of-year `r`, searched upward from `m`. */
  function MonthOfDay(y: int, r: int, m: int): (k: int)
    requires 1 <= m <= 12 && DaysBeforeMonth(y, m) < r <= DaysInYear(y)
    ensures m <= k <= 12
    ensures DaysBeforeMonth(y, k) < r <= DaysBeforeMonth(y, k) + DaysInMonth(y, k)
    decreases 12 - m
  {
    MonthStep(y, m);
    if r <= DaysBeforeMonth(y, m) + DaysInMonth(y, m) then m
    else MonthOfDay(y, r, m + 1)
  }

  /** `date.fromordinal(n)`. */
  function FromOrdinal(n: int): (d: Date)
    requires 1 <= n <= MaxOrdinal
    ensures ValidDate(d) && ToOrdinal(d) == n
  {
    var y := YearOfOrdinal(n, MinYear);
    var r := n - DaysBeforeYear(y);
    MonthStep(y, 1);
    var m := MonthOfDay(y, r, 1);
    Date(y, m, r - DaysBeforeMonth(y, m))
  }

  lemma {:induction false} YearsAreOrdered(a: int, b: int)
    requires 1 <= a < b
    ensures DaysBeforeYear(a) + DaysInYear(a) <= DaysBeforeYear(b)
    decreases b - a
  {
    NextYear(a);
    if a + 1 < b {
      YearsAreOrdered(a + 1, b);
      NextYear(a + 1);
    }
  }

  lemma {:induction false} MonthsAreOrdered(y: int, a: int, b: int)
    requires 1 <= a < b <= 12
    ensures DaysBeforeMonth(y, a) + DaysInMonth(y, a) <= DaysBeforeMonth(y, b)
    decreases b - a
  {
    MonthStep(y, a);
    if a + 1 < b {
      MonthsAreOrdered(y, a + 1, b);
    }
  }

  /** The day of a valid date lies inside its year's span of ordinals. */
  lemma OrdinalInYear(d: Date)
    requires ValidDate(d)
    ensures DaysBeforeYear(d.year) < ToOrdinal(d) <= DaysBeforeYear(d.year) + DaysInYear(d.year)
  {
    if d.month < 12 {
      MonthsAreOrdered(d.year, d.month, 12);
    }
    MonthStep(d.year, 12);
  }

  /** Distinct valid dates have distinct ordinals. */
  lemma {:induction false} OrdinalInjective(a: Date, b: Date)
    requires ValidDate(a) && ValidDate(b) && ToOrdinal(a) == ToOrdinal(b)
    ensures a == b
  {
    OrdinalInYear(a);
    OrdinalInYear(b);
    if a.year < b.year {
      YearsAreOrdered(a.year, b.year);
    } else if b.year < a.year {
      YearsAreOrdered(b.year, a.year);
    }
    assert a.year == b.year;
    if a.month < b.month {
      MonthsAreOrdered(a.year, a.month, b.month);
    } else if b.month < a.month {
      MonthsAreOrdered(a.year, b.month, a.month);
    }
  }

  lemma OrdinalRoundTrip(d: Date)
    requires ValidDate(d)
    ensures 1 <= ToOrdinal(d) <= MaxOrdinal
    ensures FromOrdinal(ToOrdinal(d)) == d
  {
    OrdinalInYear(d);
    if d.year < MaxYear {
      YearsAreOrdered(d.year, MaxYear);
    }
    OrdinalInjective(FromOrdinal(ToOrdinal(d)), d);
  }

  /** `d + timedelta(days=k)`; `None` where Python raises OverflowError
      because the result falls outside years 1 to 9999. */
  function AddDays(d: Date, k: int): (r: Option<Date>)
    requires ValidDate(d)
    ensures r.Some? <==> 1 <= ToOrdinal(d) + k <= MaxOrdinal
    ensures r.Some? ==> ValidDate(r.value) && ToOrdinal(r.value) == ToOrdinal(d) + k
  {
    var n := ToOrdinal(d) + k;
    if 1 <= n <= MaxOrdinal then Some(FromOrdinal(n)) else None
  }

  /** `(end - start).days` for two dates taken at midnight. */
  function DaysBetween(start: Date, end: Date): (days: int)
    requires ValidDate(start) && ValidDate(end)
    ensures AddDays(start, days) == Some(end)
  {
    OrdinalRoundTrip(end);
    ToOrdinal(end) - ToOrdinal(start)
  }

  // ---------------------------------------------------------------------
  // Decimal text

  predicate IsDigit(c: char) {
    '0' <= c <= '9'
  }

  function DigitValue(c: char): int
    requires IsDigit(c)
  {
    c as int - '0' as int
  }

  function DigitChar(v: int): (c: char)
    requires 0 <= v <= 9
    ensures IsDigit(c) && DigitValue(c) == v
  {
    ('0' as int + v) as char
  }

  predicate AllDigits(s: string) {
    forall i :: 0 <= i < |s| ==> IsDigit(s[i])
  }

  /** The value of a string of decimal digits. */
  function DecimalValue(s: string): nat
    requires AllDigits(s)
  {
    if s == [] then 0 else DecimalValue(s[..|s| - 1]) * 10 + DigitValue(s[|s| - 1])
  }

  /** `str(n)` for a natural number. */
  function NatToDecimal(n: nat): (s: string)
    ensures |s| >= 1 && AllDigits(s)
    ensures |s| > 1 ==> s[0] != '0'
  {
    if n < 10 then [DigitChar(n)] else NatToDecimal(n / 10) + [DigitChar(n % 10)]
  }

  lemma {:induction false} DecimalRoundTrip(n: nat)
    ensures DecimalValue(NatToDecimal(n)) == n
  {
    if n >= 10 {
      DecimalRoundTrip(n / 10);
      var s := NatToDecimal(n);
      assert s[..|s| - 1] == NatToDecimal(n / 10);
    }
  }

  /** `str(i)` for an integer: a minus sign before the digits of a negative one. */
  function IntToDecimal(i: int): (s: string)
    ensures |s| >= 1
    ensures i < 0 <==> s[0] == '-'
    ensures i >= 0 ==> AllDigits(s) && DecimalValue(s) == i
    ensures i < 0 ==> AllDigits(s[1..]) && DecimalValue(s[1..]) == -i
  {
    if i < 0 then
      DecimalRoundTrip(-i);
      var d := NatToDecimal(-i);
      assert ("-" + d)[1..] == d;
      "-" + d
    else
      DecimalRoundTrip(i);
      NatToDecimal(i)
  }

  // ---------------------------------------------------------------------
  // '%Y-%m-%d'

  /** `d.strftime('%Y-%m-%d')`: four-digit year, two-digit month and day. */
  function FormatYmd(d: Date): (s: string)
    requires ValidDate(d)
    ensures |s| == 10 && s[4] == '-' && s[7] == '-'
  {
    var y, m, dd := d.year, d.month, d.day;
    [DigitChar(y / 1000), DigitChar(y / 100 % 10), DigitChar(y / 10 % 10), DigitChar(y % 10), '-',
     DigitChar(m / 10), DigitChar(m % 10), '-',
     DigitChar(dd / 10), DigitChar(dd % 10)]
  }

  /** The month field of `strptime`'s '%m' followed by '-': the pattern
      `1[0-2]|0[1-9]|[1-9]`, so one or two digits; yields the month and the
      text after the '-'. */
  function MonthField(t: string): (r: Option<(int, string)>)
    ensures r.Some? ==> 1 <= r.value.0 <= 12 && |r.value.1| < |t|
  {
    if |t| >= 3 && t[2] == '-'
       && ((t[0] == '1' && '0' <= t[1] <= '2') || (t[0] == '0' && '1' <= t[1] <= '9'))
    then Some((DigitValue(t[0]) * 10 + DigitValue(t[1]), t[3..]))
    else if |t| >= 2 && '1' <= t[0] <= '9' && t[1] == '-'
    then Some((DigitValue(t[0]), t[2..]))
    else None
  }

  /** `strptime`'s '%d' at the end of the text: the pattern
      `3[01]|[12]\d|0[1-9]|[1-9]| [1-9]` must consume all that is left. */
  function DayField(t: string): (r: Option<int>)
    ensures r.Some? ==> 1 <= r.value <= 31
  {
    if |t| == 2 && ((t[0] == '3' && '0' <= t[1] <= '1')
                    || ('1' <= t[0] <= '2' && IsDigit(t[1]))
                    || (t[0] == '0' && '1' <= t[1] <= '9'))
    then Some(DigitValue(t[0]) * 10 + DigitValue(t[1]))
    else if |t| == 2 && t[0] == ' ' && '1' <= t[1] <= '9'
    then Some(DigitValue(t[1]))
    else if |t| == 1 && '1' <= t[0] <= '9'
    then Some(DigitValue(t[0]))
    else None
  }

  /** `datetime.strptime(s, '%Y-%m-%d')` as a date; `None` where it raises
      ValueError (no match, text left over, year 0, or a day past the end of
      the month). */
  function ParseYmd(s: string): (r: Option<Date>)
    ensures r.Some? ==> ValidDate(r.value)
  {
    if |s| < 5 || !AllDigits(s[..4]) || s[4] != '-' then None
    else
      var year := DigitValue(s[0]) * 1000 + DigitValue(s[1]) * 100 + DigitValue(s[2]) * 10 + DigitValue(s[3]);
      match MonthField(s[5..])
      case None => None
      case Some((month, rest)) =>
        match DayField(rest)
        case None => None
        case Some(day) =>
          if MinYear <= year && day <= DaysInMonth(year, month) then Some(Date(year, month, day))
          else None
  }

  lemma FourDigits(y: int)
    requires 0 <= y <= 9999
    ensures var s := [DigitChar(y / 1000), DigitChar(y / 100 % 10), DigitChar(y / 10 % 10), DigitChar(y % 10)];
            DigitValue(s[0]) * 1000 + DigitValue(s[1]) * 100 + DigitValue(s[2]) * 10 + DigitValue(s[3]) == y
  {
    var q1 := y / 10;
    var q2 := q1 / 10;
    var q3 := q2 / 10;
    assert y == 10 * q1 + y % 10;
    assert q1 == 10 * q2 + q1 % 10;
    assert q2 == 10 * q3 + q2 % 10;
    assert q2 == y / 100 && q3 == y / 1000;
  }

  lemma TwoDigitMonth(m: int, rest: string)
    requires 1 <= m <= 12
    ensures MonthField([DigitChar(m / 10), DigitChar(m % 10), '-'] + rest) == Some((m, rest))
  {
    var t := [DigitChar(m / 10), DigitChar(m % 10), '-'] + rest;
    assert t[3..] == rest;
  }

  lemma TwoDigitDay(d: int)
    requires 1 <= d <= 31
    ensures DayField([DigitChar(d / 10), DigitChar(d % 10)]) == Some(d)
  {
  }

  /** What `strftime` writes, `strptime` reads back. */
  lemma FormatParseRoundTrip(d: Date)
    requires ValidDate(d)
    ensures ParseYmd(FormatYmd(d)) == Some(d)
  {
    var s := FormatYmd(d);
    var dayText := [DigitChar(d.day / 10), DigitChar(d.day % 10)];
    assert s[..4] == s[0..4];
    FourDigits(d.year);
    assert s[5..] == [DigitChar(d.month / 10), DigitChar(d.month % 10), '-'] + dayText;
    TwoDigitMonth(d.month, dayText);
    TwoDigitDay(d.day);
  }
}
