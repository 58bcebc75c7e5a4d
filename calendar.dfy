/**
 * Civil (proleptic Gregorian) dates as Python's `datetime` treats them:
 * day arithmetic (`timedelta(days=n)`), the one-month step of
 * `relativedelta(months=1)`, the ordering of datetimes, and the
 * `"%Y-%m-%d"` text form read by `strptime` and written by `strftime`.
 */
module Calendar {
  import opened Common

  datatype Date = Date(year: int, month: int, day: int)

  predicate IsLeapYear(y: int) {
    y % 4 == 0 && (y % 100 != 0 || y % 400 == 0)
  }

  function DaysInMonth(y: int, m: int): int
    requires 1 <= m <= 12
  {
    if m == 2 then (if IsLeapYear(y) then 29 else 28)
    else if m == 4 || m == 6 || m == 9 || m == 11 then 30
    else 31
  }

  function YearLength(y: int): int {
    if IsLeapYear(y) then 366 else 365
  }

  /** A date that exists in the calendar. */
  predicate ValidDate(d: Date) {
    1 <= d.month <= 12 && 1 <= d.day <= DaysInMonth(d.year, d.month)
  }

  /** Chronological order: the order in which Python compares dates. */
  predicate Less(a: Date, b: Date) {
    a.year < b.year ||
    (a.year == b.year && (a.month < b.month || (a.month == b.month && a.day < b.day)))
  }

  predicate LessEq(a: Date, b: Date) {
    Less(a, b) || a == b
  }

  /** Months elapsed since January of year 0. */
  function MonthIndex(d: Date): int {
    d.year * 12 + d.month - 1
  }

  // ---------------------------------------------------------------------------
  // Day numbers

  /** Days of year `y` that precede the first of month `m` (13 stands for the next January). */
  function DaysBeforeMonth(y: int, m: int): int
    requires 1 <= m <= 13
  {
    var leap := if IsLeapYear(y) then 1 else 0;
    if m == 1 then 0
    else if m == 2 then 31
    else leap + (if m == 3 then 59 else if m == 4 then 90 else if m == 5 then 120
                 else if m == 6 then 151 else if m == 7 then 181 else if m == 8 then 212
                 else if m == 9 then 243 else if m == 10 then 273 else if m == 11 then 304
                 else if m == 12 then 334 else 365)
  }

  /** Days from 0001-01-01 to the first of January of year `y` (negative before year 1). */
  function DaysBeforeYear(y: int): int
    decreases if y >= 1 then y - 1 else 1 - y
  {
    if y == 1 then 0
    else if y > 1 then DaysBeforeYear(y - 1) + YearLength(y - 1)
    else DaysBeforeYear(y + 1) - YearLength(y)
  }

  /** The day number of `d`, with 0001-01-01 as day 1 (Python's `date.toordinal`). */
  function Ordinal(d: Date): int
    requires ValidDate(d)
  {
    DaysBeforeYear(d.year) + DaysBeforeMonth(d.year, d.month) + d.day
  }

  lemma MonthStep(y: int, m: int)
    requires 1 <= m <= 12
    ensures DaysBeforeMonth(y, m + 1) == DaysBeforeMonth(y, m) + DaysInMonth(y, m)
  {
  }

  lemma YearStep(y: int)
    ensures DaysBeforeYear(y + 1) == DaysBeforeYear(y) + YearLength(y)
  {
    if y < 1 {
      assert DaysBeforeYear(y) == DaysBeforeYear(y + 1) - YearLength(y);
    }
  }

  /** A month ends no later than any later month begins. */
  lemma {:induction false} MonthsAscend(y: int, m1: int, m2: int)
    requires 1 <= m1 < m2 <= 13
    ensures DaysBeforeMonth(y, m1) + DaysInMonth(y, m1) <= DaysBeforeMonth(y, m2)
    decreases m2
  {
    MonthStep(y, m1);
    if m1 + 1 < m2 {
      MonthsAscend(y, m1, m2 - 1);
      MonthStep(y, m2 - 1);
    }
  }

  /** A year ends no later than any later year begins. */
  lemma {:induction false} YearsAscend(y1: int, y2: int)
    requires y1 < y2
    ensures DaysBeforeYear(y1) + YearLength(y1) <= DaysBeforeYear(y2)
    decreases y2 - y1
  {
    YearStep(y1);
    if y1 + 1 < y2 {
      YearsAscend(y1 + 1, y2);
    }
  }

  /** Chronological order and day numbers agree. */
  lemma {:induction false} LessIffOrdinal(a: Date, b: Date)
    requires ValidDate(a) && ValidDate(b)
    ensures Less(a, b) <==> Ordinal(a) < Ordinal(b)
    ensures a == b <==> Ordinal(a) == Ordinal(b)
  {
    if Less(a, b) {
      LessOrdinal(a, b);
    } else if Less(b, a) {
      LessOrdinal(b, a);
    }
  }

  lemma {:induction false} LessOrdinal(a: Date, b: Date)
    requires ValidDate(a) && ValidDate(b) && Less(a, b)
    ensures Ordinal(a) < Ordinal(b)
  {
    if a.year < b.year {
      MonthsAscend(a.year, a.month, 13);
      YearsAscend(a.year, b.year);
    } else if a.month < b.month {
      MonthsAscend(a.year, a.month, b.month);
    }
  }

  lemma LessTransitive(a: Date, b: Date, c: Date)
    requires Less(a, b) && Less(b, c)
    ensures Less(a, c)
  {
  }

  // ---------------------------------------------------------------------------
  // Day arithmetic: timedelta(days = n)

  /** The following calendar day. */
  function NextDay(d: Date): (r: Date)
    requires ValidDate(d)
    ensures ValidDate(r) && Less(d, r)
  {
    if d.day < DaysInMonth(d.year, d.month) then Date(d.year, d.month, d.day + 1)
    else if d.month < 12 then Date(d.year, d.month + 1, 1)
    else Date(d.year + 1, 1, 1)
  }

  /** The next day is one day number on: no date lies between a day and the next. */
  lemma OrdinalNextDay(d: Date)
    requires ValidDate(d)
    ensures Ordinal(NextDay(d)) == Ordinal(d) + 1
  {
    if d.day < DaysInMonth(d.year, d.month) {
      assert NextDay(d) == Date(d.year, d.month, d.day + 1);
    } else if d.month < 12 {
      assert NextDay(d) == Date(d.year, d.month + 1, 1);
      MonthStep(d.year, d.month);
    } else {
      assert NextDay(d) == Date(d.year + 1, 1, 1);
      YearStep(d.year);
      assert DaysBeforeMonth(d.year, 12) + d.day == YearLength(d.year);
    }
  }

  /** The preceding calendar day. */
  function PrevDay(d: Date): (r: Date)
    requires ValidDate(d)
    ensures ValidDate(r) && NextDay(r) == d
  {
    if d.day > 1 then Date(d.year, d.month, d.day - 1)
    else if d.month > 1 then Date(d.year, d.month - 1, DaysInMonth(d.year, d.month - 1))
    else Date(d.year - 1, 12, 31)
  }

  /**
   * `d + timedelta(days=n)`: `n` steps forward, or `-n` steps back. (`d` in
   * the decreases clause keeps the verifier from unrolling a call whose day
   * count is a literal, such as the 14 of a biweekly rule.)
   */
  function AddDays(d: Date, n: int): (r: Date)
    requires ValidDate(d)
    ensures ValidDate(r)
    decreases if n < 0 then -n else n, d
  {
    if n == 0 then d
    else if n > 0 then AddDays(NextDay(d), n - 1)
    else AddDays(PrevDay(d), n + 1)
  }

  /** Adding `n` days moves the day number by exactly `n`. */
  lemma {:induction false} AddDaysOrdinal(d: Date, n: int)
    requires ValidDate(d)
    ensures Ordinal(AddDays(d, n)) == Ordinal(d) + n
    decreases if n < 0 then -n else n
  {
    if n > 0 {
      OrdinalNextDay(d);
      AddDaysOrdinal(NextDay(d), n - 1);
    } else if n < 0 {
      OrdinalNextDay(PrevDay(d));
      AddDaysOrdinal(PrevDay(d), n + 1);
    }
  }

  lemma AddDaysLater(d: Date, n: int)
    requires ValidDate(d) && n > 0
    ensures Less(d, AddDays(d, n))
  {
    AddDaysOrdinal(d, n);
    LessIffOrdinal(d, AddDays(d, n));
  }

  /** Two valid dates with the same day number are the same date. */
  lemma OrdinalInjective(a: Date, b: Date)
    requires ValidDate(a) && ValidDate(b) && Ordinal(a) == Ordinal(b)
    ensures a == b
  {
    LessIffOrdinal(a, b);
  }

  lemma AddDaysAdditive(d: Date, m: int, n: int)
    requires ValidDate(d)
    ensures AddDays(AddDays(d, m), n) == AddDays(d, m + n)
  {
    AddDaysOrdinal(d, m);
    AddDaysOrdinal(AddDays(d, m), n);
    AddDaysOrdinal(d, m + n);
    OrdinalInjective(AddDays(AddDays(d, m), n), AddDays(d, m + n));
  }

  // ---------------------------------------------------------------------------
  // Month arithmetic: relativedelta(months = 1)

  /**
   * The same day of the next calendar month, clamped to that month's last
   * day when it is shorter (January 31 becomes February 28 or 29).
   */
  function AddOneMonth(d: Date): (r: Date)
    requires ValidDate(d)
    ensures ValidDate(r) && Less(d, r)
    ensures MonthIndex(r) == MonthIndex(d) + 1
    ensures r.day <= d.day && (r.day == d.day || r.day == DaysInMonth(r.year, r.month))
  {
    var y := if d.month == 12 then d.year + 1 else d.year;
    var m := if d.month == 12 then 1 else d.month + 1;
    Date(y, m, if d.day <= DaysInMonth(y, m) then d.day else DaysInMonth(y, m))
  }

  /**
   * A one-month step covers exactly the days of the month it leaves, less
   * whatever the clamp cut off: never a fixed 30 days.
   */
  lemma AddOneMonthLength(d: Date)
    requires ValidDate(d)
    ensures Ordinal(AddOneMonth(d)) == Ordinal(d) + DaysInMonth(d.year, d.month) - (d.day - AddOneMonth(d).day)
  {
    if d.month < 12 {
      MonthStep(d.year, d.month);
    } else {
      YearStep(d.year);
    }
  }

  // ---------------------------------------------------------------------------
  // Datetimes

  const MicrosPerDay: int := 86_400_000_000

  /** A `datetime`: a date and the microseconds elapsed since its midnight. */
  datatype Timestamp = Timestamp(date: Date, micros: int)

  predicate ValidTimestamp(t: Timestamp) {
    ValidDate(t.date) && 0 <= t.micros < MicrosPerDay
  }

  /** What `strptime` yields for a date: its midnight. */
  function Midnight(d: Date): Timestamp {
    Timestamp(d, 0)
  }

  /** Python's `a < b` on datetimes. */
  predicate Earlier(a: Timestamp, b: Timestamp) {
    Less(a.date, b.date) || (a.date == b.date && a.micros < b.micros)
  }

  /** Python's `a <= b` on datetimes. */
  predicate AtOrBefore(a: Timestamp, b: Timestamp) {
    Earlier(a, b) || a == b
  }

  // ---------------------------------------------------------------------------
  // The "%Y-%m-%d" text form

  predicate IsDigit(c: char) {
    '0' <= c <= '9'
  }

  predicate AllDigits(s: string) {
    forall i :: 0 <= i < |s| ==> IsDigit(s[i])
  }

  function DigitValue(c: char): int
    requires IsDigit(c)
  {
    c as int - '0' as int
  }

  function DigitChar(n: int): (c: char)
    requires 0 <= n <= 9
    ensures IsDigit(c) && DigitValue(c) == n
  {
    ('0' as int + n) as char
  }

  /** The decimal number a run of digits spells. */
  function DigitsValue(s: string): nat
    requires AllDigits(s)
  {
    if s == [] then 0 else DigitsValue(s[..|s| - 1]) * 10 + DigitValue(s[|s| - 1])
  }

  lemma TwoDigitsValue(s: string)
    requires |s| == 2 && AllDigits(s)
    ensures DigitsValue(s) == 10 * DigitValue(s[0]) + DigitValue(s[1])
  {
    assert DigitsValue(s[..1]) == DigitsValue(s[..1][..0]) * 10 + DigitValue(s[0]);
  }

  lemma FourDigitsValue(s: string)
    requires |s| == 4 && AllDigits(s)
    ensures DigitsValue(s) == 1000 * DigitValue(s[0]) + 100 * DigitValue(s[1]) + 10 * DigitValue(s[2]) + DigitValue(s[3])
    ensures DigitsValue(s) <= 9999
  {
    assert s[..3][..2] == s[..2];
    TwoDigitsValue(s[..2]);
  }

  /** `%m`: one or two digits naming a month 1..12. */
  function ParseMonthField(s: string): (r: Option<int>)
    ensures r.Some? ==> 1 <= r.value <= 12
  {
    if 1 <= |s| <= 2 && AllDigits(s) && 1 <= DigitsValue(s) <= 12 then Some(DigitsValue(s)) else None
  }

  /** `%d`: one or two digits naming a day 1..31, or a space and one non-zero digit. */
  function ParseDayField(s: string): (r: Option<int>)
    ensures r.Some? ==> 1 <= r.value <= 31
  {
    if 1 <= |s| <= 2 && AllDigits(s) && 1 <= DigitsValue(s) <= 31 then Some(DigitsValue(s))
    else if |s| == 2 && s[0] == ' ' && '1' <= s[1] <= '9' then Some(DigitValue(s[1]))
    else None
  }

  /**
   * `datetime.strptime(s, "%Y-%m-%d")`: four digits of year, a dash, the
   * month field, a dash and the day field, which must end the text, then
   * the calendar check of the `datetime` constructor. `None` is the
   * `ValueError` it raises.
   */
  function ParseIsoDate(s: string): (r: Option<Date>)
    ensures r.Some? ==> ValidDate(r.value) && 1 <= r.value.year <= 9999
  {
    if |s| < 5 || !AllDigits(s[..4]) || s[4] != '-' then None
    else
      var rest := s[5..];
      var monthLen := if |rest| >= 2 && rest[1] == '-' then 1
                      else if |rest| >= 3 && rest[2] == '-' then 2
                      else 0;
      if monthLen == 0 then None
      else
        FourDigitsValue(s[..4]);
        var year := DigitsValue(s[..4]);
        match (ParseMonthField(rest[..monthLen]), ParseDayField(rest[monthLen + 1..]))
        case (Some(month), Some(day)) =>
          if 1 <= year && ValidDate(Date(year, month, day)) then Some(Date(year, month, day)) else None
        case _ => None
  }

  /** Two zero-padded digits. */
  function Pad2(n: int): (s: string)
    requires 0 <= n <= 99
    ensures |s| == 2 && AllDigits(s) && DigitsValue(s) == n
  {
    var s := [DigitChar(n / 10), DigitChar(n % 10)];
    TwoDigitsValue(s);
    s
  }

  /** Four zero-padded digits. */
  function Pad4(n: int): (s: string)
    requires 0 <= n <= 9999
    ensures |s| == 4 && AllDigits(s) && DigitsValue(s) == n
  {
    var tens := n / 10;
    var hundreds := tens / 10;
    var s := [DigitChar(hundreds / 10), DigitChar(hundreds % 10), DigitChar(tens % 10), DigitChar(n % 10)];
    FourDigitsValue(s);
    s
  }

  /** `strftime("%Y-%m-%d")` for a four-digit year: zero-padded fields. */
  function FormatIso(d: Date): (s: string)
    requires ValidDate(d) && 1 <= d.year <= 9999
  {
    Pad4(d.year) + "-" + Pad2(d.month) + "-" + Pad2(d.day)
  }

  /** Reading back a formatted date gives the date. */
  lemma ParseFormatRoundTrip(d: Date)
    requires ValidDate(d) && 1 <= d.year <= 9999
    ensures ParseIsoDate(FormatIso(d)) == Some(d)
  {
    var s := FormatIso(d);
    var rest := s[5..];
    assert s[..4] == Pad4(d.year);
    assert rest[..2] == Pad2(d.month);
    assert rest[3..] == Pad2(d.day);
    assert ParseMonthField(rest[..2]) == Some(d.month);
    assert ParseDayField(rest[3..]) == Some(d.day);
  }
}
