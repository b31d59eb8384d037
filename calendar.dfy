/** Calendar dates as pandas stores them (`datetime64[ns]`): a civil date of
    the proleptic Gregorian calendar within the years pandas can represent,
    a day number for day arithmetic, a month index for `to_period('M')`, and
    the `YYYY-MM` / `YYYY-MM-DD` texts that `strftime` and `astype(str)`
    produce. An issue date or credit-note date is a date at midnight; "now"
    is a date with a time of day, given in seconds. */
module Calendar {
  import opened Strings

  datatype CivilDate = CivilDate(year: int, month: int, day: int)

  /** The whole years inside the range of a pandas timestamp
      (1677-09-21 .. 2262-04-11). */
  const MinYear := 1678
  const MaxYear := 2261

  predicate IsLeapYear(y: int) {
    y % 4 == 0 && (y % 100 != 0 || y % 400 == 0)
  }

  function DaysInYear(y: int): (n: int)
    ensures n == 365 || n == 366
  {
    if IsLeapYear(y) then 366 else 365
  }

  function DaysInMonth(y: int, m: int): (n: int)
    requires 1 <= m <= 12
    ensures 28 <= n <= 31
  {
    if m == 2 then (if IsLeapYear(y) then 29 else 28)
    else if m == 4 || m == 6 || m == 9 || m == 11 then 30
    else 31
  }

  /** Days of year `y` before the first of month `m` (`m == 13`: the whole year). */
  function DaysBeforeMonth(y: int, m: int): (n: int)
    requires 1 <= m <= 13
    ensures m == 1 ==> n == 0
    ensures m == 13 ==> n == DaysInYear(y)
  {
    var common :=
      if m == 1 then 0 else if m == 2 then 31 else if m == 3 then 59
      else if m == 4 then 90 else if m == 5 then 120 else if m == 6 then 151
      else if m == 7 then 181 else if m == 8 then 212 else if m == 9 then 243
      else if m == 10 then 273 else if m == 11 then 304 else if m == 12 then 334
      else 365;
    common + (if m > 2 && IsLeapYear(y) then 1 else 0)
  }

  predicate ValidDate(d: CivilDate) {
    && MinYear <= d.year <= MaxYear
    && 1 <= d.month <= 12
    && 1 <= d.day <= DaysInMonth(d.year, d.month)
  }

  type Date = d: CivilDate | ValidDate(d) witness CivilDate(1970, 1, 1)

  /** Days from 1970-01-01 to January 1 of year `y`. */
  function YearStart(y: int): int
    decreases if y >= 1970 then y - 1970 else 1970 - y
  {
    if y == 1970 then 0
    else if y > 1970 then YearStart(y - 1) + DaysInYear(y - 1)
    else YearStart(y + 1) - DaysInYear(y)
  }

  /** Days from 1970-01-01 to `d` (negative before 1970). */
  function DayNumber(d: Date): int {
    YearStart(d.year) + DaysBeforeMonth(d.year, d.month) + d.day - 1
  }

  /** Chronological order: by year, then month, then day. */
  predicate DateLess(a: Date, b: Date) {
    || a.year < b.year
    || (a.year == b.year && a.month < b.month)
    || (a.year == b.year && a.month == b.month && a.day < b.day)
  }

  predicate DateLe(a: Date, b: Date) {
    a == b || DateLess(a, b)
  }

  lemma YearStartStep(y: int)
    ensures YearStart(y + 1) == YearStart(y) + DaysInYear(y)
  {
  }

  lemma {:induction false} YearStartGap(y: int, z: int)
    requires y < z
    ensures YearStart(y) + DaysInYear(y) <= YearStart(z)
    decreases z - y
  {
    YearStartStep(y);
    if y + 1 < z {
      YearStartGap(y + 1, z);
    }
  }

  lemma MonthGap(y: int, m: int, n: int)
    requires 1 <= m < n <= 13
    ensures DaysBeforeMonth(y, m) + DaysInMonth(y, m) <= DaysBeforeMonth(y, n)
  {
    DaysInMonthSpan(y, m);
  }

  /** A month's days are the days between its first and the next month's first. */
  lemma DaysInMonthSpan(y: int, m: int)
    requires 1 <= m <= 12
    ensures DaysInMonth(y, m) == DaysBeforeMonth(y, m + 1) - DaysBeforeMonth(y, m)
  {
  }

  /** Day numbers follow the calendar: an earlier date has a smaller day
      number, and only the same date has the same day number. */
  lemma DayNumberOrder(a: Date, b: Date)
    ensures DateLess(a, b) <==> DayNumber(a) < DayNumber(b)
    ensures a == b <==> DayNumber(a) == DayNumber(b)
  {
    forall x: Date, z: Date | DateLess(x, z) ensures DayNumber(x) < DayNumber(z) {
      if x.year < z.year {
        YearStartGap(x.year, z.year);
        MonthGap(x.year, x.month, 13);
      } else if x.month < z.month {
        MonthGap(x.year, x.month, z.month);
      }
    }
  }

  // ---------------------------------------------------------------------
  // Months (`to_period('M')`)

  /** The month of `d` as a running count of months: consecutive months
      have consecutive indices. */
  function MonthIndex(d: Date): int {
    d.year * 12 + d.month - 1
  }

  function FirstOfMonth(d: Date): (r: Date)
    ensures MonthIndex(r) == MonthIndex(d) && r.day == 1
  {
    CivilDate(d.year, d.month, 1)
  }

  function FirstOfYear(d: Date): (r: Date)
    ensures r.year == d.year && r.month == 1 && r.day == 1
  {
    CivilDate(d.year, 1, 1)
  }

  /** A date is on or after the first of a month exactly when its month is
      that month or a later one. */
  lemma OnOrAfterMonthStart(first: Date, d: Date)
    requires first.day == 1
    ensures DayNumber(first) <= DayNumber(d) <==> MonthIndex(first) <= MonthIndex(d)
  {
    DayNumberOrder(d, first);
  }

  /** `MonthIndex` read back as year and month. */
  lemma MonthIndexParts(d: Date)
    ensures MonthIndex(d) / 12 == d.year && MonthIndex(d) % 12 + 1 == d.month
  {
  }

  /** `strftime('%Y-%m')` of the month with index `mi`. */
  function MonthLabel(mi: int): (r: string)
    requires 0 <= mi < 120000
    ensures |r| == 7 && r[4] == '-'
  {
    Pad(mi / 12, 4) + ("-" + Pad(mi % 12 + 1, 2))
  }

  lemma MonthIndexSplit(a: int, b: int)
    requires 0 <= a && 0 <= b
    ensures a < b <==> a / 12 < b / 12 || (a / 12 == b / 12 && a % 12 < b % 12)
    ensures a == b <==> a / 12 == b / 12 && a % 12 == b % 12
  {
    assert a == 12 * (a / 12) + a % 12 && b == 12 * (b / 12) + b % 12;
  }

  /** Month labels sort as text in the order of their months, and two
      months share a label only when they are the same month. */
  lemma MonthLabelOrder(a: int, b: int)
    requires 0 <= a < 120000 && 0 <= b < 120000
    ensures StrLess(MonthLabel(a), MonthLabel(b)) <==> a < b
    ensures MonthLabel(a) == MonthLabel(b) <==> a == b
  {
    MonthIndexSplit(a, b);
    YearMonthLabelOrder(a / 12, a % 12 + 1, b / 12, b % 12 + 1);
  }

  /** `YYYY-MM` text sorts as its year and month sort. */
  lemma YearMonthLabelOrder(ya: int, ma: int, yb: int, mb: int)
    requires 0 <= ya < 10000 && 0 <= yb < 10000 && 1 <= ma <= 12 && 1 <= mb <= 12
    ensures var la, lb := Pad(ya, 4) + ("-" + Pad(ma, 2)), Pad(yb, 4) + ("-" + Pad(mb, 2));
      && (StrLess(la, lb) <==> ya < yb || (ya == yb && ma < mb))
      && (la == lb <==> ya == yb && ma == mb)
  {
    assert Pow10(4) == 10000 && Pow10(2) == 100;
    var pa, pb := Pad(ma, 2), Pad(mb, 2);
    PadThen(ya, yb, 4, "-" + pa, "-" + pb);
    SeparatorThen('-', pa, pb);
    PadOrder(ma, mb, 2);
  }

  /** `strftime('%Y-%m-%d')`. */
  function DateLabel(d: Date): (r: string)
    ensures |r| == 10 && r[4] == '-' && r[7] == '-'
  {
    Pad(d.year, 4) + ("-" + (Pad(d.month, 2) + ("-" + Pad(d.day, 2))))
  }

  /** Date labels sort as text in calendar order and identify their date. */
  lemma DateLabelOrder(a: Date, b: Date)
    ensures StrLess(DateLabel(a), DateLabel(b)) <==> DateLess(a, b)
    ensures DateLabel(a) == DateLabel(b) <==> a == b
  {
    var da, db := Pad(a.day, 2), Pad(b.day, 2);
    var ra, rb := Pad(a.month, 2) + ("-" + da), Pad(b.month, 2) + ("-" + db);
    PadThen(a.year, b.year, 4, "-" + ra, "-" + rb);
    SeparatorThen('-', ra, rb);
    PadThen(a.month, b.month, 2, "-" + da, "-" + db);
    SeparatorThen('-', da, db);
    PadOrder(a.day, b.day, 2);
  }

  // ---------------------------------------------------------------------
  // Instants ("now") and elapsed days

  /** A moment: a date and the seconds elapsed since its midnight. */
  datatype Moment = Moment(date: Date, second: int)

  type Instant = t: Moment | 0 <= t.second < 86400 witness Moment(CivilDate(1970, 1, 1), 0)

  /** Seconds since 1970-01-01 00:00. */
  function Seconds(t: Instant): int {
    DayNumber(t.date) * 86400 + t.second
  }

  function MidnightSeconds(d: Date): int {
    DayNumber(d) * 86400
  }

  /** `(now - issued_at).days`: the whole days from the midnight of `d` to
      `now`, rounded down; the time of day of `now` never adds a day. */
  function ElapsedDays(now: Instant, d: Date): (n: int)
    ensures n == DayNumber(now.date) - DayNumber(d)
  {
    var k := DayNumber(now.date) - DayNumber(d);
    assert Seconds(now) - MidnightSeconds(d) == k * 86400 + now.second;
    DivideWhole(k, now.second);
    (Seconds(now) - MidnightSeconds(d)) / 86400
  }

  lemma DivideWhole(k: int, s: int)
    requires 0 <= s < 86400
    ensures (k * 86400 + s) / 86400 == k
  {
  }

  /** A midnight lies inside `[lo, now]` (in seconds) ... */
  lemma MidnightNotAfter(d: Date, now: Instant)
    ensures MidnightSeconds(d) <= Seconds(now) <==> DayNumber(d) <= DayNumber(now.date)
  {
  }

  /** `now - pd.DateOffset(years=1)`: the same month and day a year
      earlier, with February 29 becoming February 28. */
  function YearBefore(d: Date): (r: Date)
    requires d.year > MinYear
    ensures r.year == d.year - 1 && r.month == d.month
    ensures r.day == d.day || (d.month == 2 && d.day == 29 && r.day == 28)
  {
    var last := DaysInMonth(d.year - 1, d.month);
    CivilDate(d.year - 1, d.month, if d.day <= last then d.day else last)
  }

  /** `start_of_month - pd.DateOffset(months=1)`: the first of the previous month. */
  function PreviousMonthStart(d: Date): (r: Date)
    requires d.year > MinYear
    ensures r.day == 1 && MonthIndex(r) == MonthIndex(d) - 1
  {
    if d.month == 1 then CivilDate(d.year - 1, 12, 1) else CivilDate(d.year, d.month - 1, 1)
  }
}
