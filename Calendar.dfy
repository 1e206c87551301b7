/** Timestamps as pandas holds them: a proleptic-Gregorian calendar date plus a time
    of day in nanoseconds, with no time zone. */
module Calendar {

  const NanosPerDay: int := 86_400_000_000_000

  datatype DateTime = DateTime(year: int, month: int, day: int, nanos: int)

  predicate IsLeapYear(y: int) {
    y % 4 == 0 && (y % 100 != 0 || y % 400 == 0)
  }

  function DaysInMonth(y: int, m: int): (n: int)
    requires 1 <= m <= 12
    ensures 28 <= n <= 31
    ensures n == 29 <==> m == 2 && IsLeapYear(y)
  {
    if m == 2 then (if IsLeapYear(y) then 29 else 28)
    else if m == 4 || m == 6 || m == 9 || m == 11 then 30
    else 31
  }

  predicate Valid(t: DateTime) {
    1 <= t.month <= 12 && 1 <= t.day <= DaysInMonth(t.year, t.month) && 0 <= t.nanos < NanosPerDay
  }

  /** Timestamp comparison `a <= b`: lexicographic on year, month, day and time of day. */
  predicate AtOrBefore(a: DateTime, b: DateTime) {
    a.year < b.year ||
    (a.year == b.year && (a.month < b.month ||
    (a.month == b.month && (a.day < b.day ||
    (a.day == b.day && a.nanos <= b.nanos)))))
  }

  /** Days from 0001-01-01 to January 1 of year `y`. */
  function DaysBeforeYear(y: int): int {
    365 * (y - 1) + (y - 1) / 4 - (y - 1) / 100 + (y - 1) / 400
  }

  /** Days from January 1 of year `y` to the first day of month `m`. */
  function DaysBeforeMonth(y: int, m: int): int
    requires 1 <= m <= 12
  {
    var cumulative := [0, 31, 59, 90, 120, 151, 181, 212, 243, 273, 304, 334];
    cumulative[m - 1] + if m > 2 && IsLeapYear(y) then 1 else 0
  }

  /** Days since 0001-01-01, a Monday (Python's `date.toordinal() - 1`). */
  function Ordinal(t: DateTime): int
    requires Valid(t)
  {
    DaysBeforeYear(t.year) + DaysBeforeMonth(t.year, t.month) + t.day - 1
  }

  /** The instant as nanoseconds since 0001-01-01 00:00. */
  function Instant(t: DateTime): int
    requires Valid(t)
  {
    Ordinal(t) * NanosPerDay + t.nanos
  }

  /** `(later - earlier).days`: the whole days of the difference, rounded down as a
      `Timedelta` does (Dafny's `/` rounds down for a positive divisor). */
  function DaysBetween(later: DateTime, earlier: DateTime): int
    requires Valid(later) && Valid(earlier)
  {
    (Instant(later) - Instant(earlier)) / NanosPerDay
  }

  /** Day of the week, Monday = 0 (`Series.dt.dayofweek`). */
  function DayOfWeek(t: DateTime): (d: int)
    requires Valid(t)
    ensures 0 <= d < 7
  {
    Ordinal(t) % 7
  }

  function Min(a: int, b: int): int { if a <= b then a else b }

  /** `t - pd.DateOffset(months=n)`: move back n calendar months, keep the time of day and
      the day of the month, clamping the day to the length of the target month. */
  function MonthsBefore(t: DateTime, n: nat): DateTime
    requires Valid(t)
  {
    var index := t.year * 12 + (t.month - 1) - n;
    var y := index / 12;
    var m := index % 12 + 1;
    DateTime(y, m, Min(t.day, DaysInMonth(y, m)), t.nanos)
  }

  /** The start of the 12-month window anchored at `t`. */
  function WindowStart(t: DateTime): (s: DateTime)
    requires Valid(t)
    ensures Valid(s)
    ensures s.year == t.year - 1 && s.month == t.month && s.nanos == t.nanos
    ensures s.day == if t.month == 2 && t.day == 29 then 28 else t.day
    ensures AtOrBefore(s, t) && s != t
  {
    var index := t.year * 12 + (t.month - 1) - 12;
    assert index == (t.year - 1) * 12 + (t.month - 1);
    assert index / 12 == t.year - 1 && index % 12 == t.month - 1;
    assert t.month == 2 && t.day == 29 ==> IsLeapYear(t.year) && !IsLeapYear(t.year - 1);
    MonthsBefore(t, 12)
  }

  lemma YearLength(y: int)
    ensures DaysBeforeYear(y + 1) == DaysBeforeYear(y) + if IsLeapYear(y) then 366 else 365
  {
    DivStep(y - 1);
  }

  lemma DivStep(x: int)
    ensures (x + 1) / 4 == x / 4 + if (x + 1) % 4 == 0 then 1 else 0
    ensures (x + 1) / 100 == x / 100 + if (x + 1) % 100 == 0 then 1 else 0
    ensures (x + 1) / 400 == x / 400 + if (x + 1) % 400 == 0 then 1 else 0
  {
  }

  lemma {:induction false} DaysBeforeYearMonotone(a: int, b: int)
    requires a <= b
    ensures DaysBeforeYear(a) + 365 * (b - a) <= DaysBeforeYear(b)
    decreases b - a
  {
    if a < b {
      YearLength(a);
      DaysBeforeYearMonotone(a + 1, b);
    }
  }

  lemma MonthInYear(y: int, m: int)
    requires 1 <= m <= 12
    ensures DaysBeforeMonth(y, m) + DaysInMonth(y, m) <= if IsLeapYear(y) then 366 else 365
  {
  }

  lemma MonthsMonotone(y: int, m: int, m': int)
    requires 1 <= m < m' <= 12
    ensures DaysBeforeMonth(y, m) + DaysInMonth(y, m) <= DaysBeforeMonth(y, m')
  {
  }

  /** Timestamp order agrees with the order of the instants: a later timestamp never
      lies at an earlier instant, for any pair of valid timestamps. */
  lemma InstantMonotone(a: DateTime, b: DateTime)
    requires Valid(a) && Valid(b) && AtOrBefore(a, b)
    ensures Instant(a) <= Instant(b)
  {
    if a.year < b.year {
      MonthInYear(a.year, a.month);
      YearLength(a.year);
      DaysBeforeYearMonotone(a.year + 1, b.year);
      assert Ordinal(a) < Ordinal(b);
    } else if a.month < b.month {
      MonthsMonotone(a.year, a.month, b.month);
      assert Ordinal(a) < Ordinal(b);
    }
  }

  /** The whole days from an earlier to a later timestamp are never negative. */
  lemma DaysBetweenNonNegative(later: DateTime, earlier: DateTime)
    requires Valid(later) && Valid(earlier) && AtOrBefore(earlier, later)
    ensures DaysBetween(later, earlier) >= 0
  {
    InstantMonotone(earlier, later);
  }

  /** The 12-month window spans exactly 365 or 366 whole days, the time of day being kept. */
  lemma WindowSpan(t: DateTime)
    requires Valid(t)
    ensures var s := WindowStart(t);
      var d := Ordinal(t) - Ordinal(s);
      (d == 365 || d == 366) && Instant(t) - Instant(s) == d * NanosPerDay
  {
    var s := WindowStart(t);
    YearLength(t.year - 1);
    assert t.year - 1 + 1 == t.year;
  }

  /** A date inside the window that ends at `latest` is at most 366 days before it. */
  lemma WithinWindow(latest: DateTime, t: DateTime)
    requires Valid(latest) && Valid(t)
    requires AtOrBefore(WindowStart(latest), t) && AtOrBefore(t, latest)
    ensures 0 <= DaysBetween(latest, t) <= 366
  {
    var s := WindowStart(latest);
    InstantMonotone(s, t);
    InstantMonotone(t, latest);
    WindowSpan(latest);
    var x := Instant(latest) - Instant(t);
    assert 0 <= x <= 366 * NanosPerDay;
    assert x / NanosPerDay <= 366;
  }
}
