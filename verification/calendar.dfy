/** Calendar dates as Python's datetime.date holds them (proleptic
    Gregorian), the one-day step `date + timedelta(days=1)`, and
    `time.strftime('%Y%m%d', ...)`. */
module Calendar {
  import opened Text

  datatype Date = Date(year: int, month: int, day: int)

  /** datetime.MAXYEAR: adding a day past the last day of this year raises
      OverflowError. */
  const MaxYear := 9999

  predicate IsLeapYear(y: int) {
    y % 4 == 0 && (y % 100 != 0 || y % 400 == 0)
  }

  function DaysInMonth(y: int, m: int): (n: int)
    requires 1 <= m <= 12
    ensures 28 <= n <= 31
  {
    if m == 2 then (if IsLeapYear(y) then 29 else 28)
    else if m == 4 || m == 6 || m == 9 || m == 11 then 30
    else 31
  }

  function DaysInYear(y: int): int {
    if IsLeapYear(y) then 366 else 365
  }

  /** A real calendar day from year 1 on. */
  predicate Valid(d: Date) {
    1 <= d.year && 1 <= d.month <= 12 && 1 <= d.day <= DaysInMonth(d.year, d.month)
  }

  /** The years Python 2's time.strftime formats as four digits. */
  predicate Printable(d: Date) {
    1900 <= d.year <= MaxYear
  }

  /** The calendar day after `d`, rolling over the month and the year. */
  function NextDay(d: Date): (r: Date)
    requires Valid(d)
    ensures Valid(r)
  {
    if d.day < DaysInMonth(d.year, d.month) then Date(d.year, d.month, d.day + 1)
    else if d.month < 12 then Date(d.year, d.month + 1, 1)
    else Date(d.year + 1, 1, 1)
  }

  /** The next day stays in the year, except from December 31st. */
  lemma NextDayYear(d: Date)
    requires Valid(d)
    ensures NextDay(d).year == d.year || (d.month == 12 && d.day == 31 && NextDay(d).year == d.year + 1)
  {
  }

  /** Days in the years before `y`. */
  function DaysBeforeYear(y: int): nat
    requires 1 <= y
  {
    if y == 1 then 0 else DaysBeforeYear(y - 1) + DaysInYear(y - 1)
  }

  /** Days in the months of year `y` before month `m`. */
  function DaysBeforeMonth(y: int, m: int): nat
    requires 1 <= m <= 12
  {
    if m == 1 then 0 else DaysBeforeMonth(y, m - 1) + DaysInMonth(y, m - 1)
  }

  /** Python's `date.toordinal()`: 0001-01-01 is day 1, each day one more. */
  function Ordinal(d: Date): int
    requires Valid(d)
  {
    DaysBeforeYear(d.year) + DaysBeforeMonth(d.year, d.month) + d.day
  }

  /** The eleven months before December hold all the year's days but 31. */
  lemma DaysBeforeDecember(y: int)
    ensures DaysBeforeMonth(y, 12) + 31 == DaysInYear(y)
  {
    assert DaysBeforeMonth(y, 2) == 31;
    assert DaysBeforeMonth(y, 3) == 31 + DaysInMonth(y, 2);
    assert DaysBeforeMonth(y, 4) == 62 + DaysInMonth(y, 2);
    assert DaysBeforeMonth(y, 5) == 92 + DaysInMonth(y, 2);
    assert DaysBeforeMonth(y, 6) == 123 + DaysInMonth(y, 2);
    assert DaysBeforeMonth(y, 7) == 153 + DaysInMonth(y, 2);
    assert DaysBeforeMonth(y, 8) == 184 + DaysInMonth(y, 2);
    assert DaysBeforeMonth(y, 9) == 215 + DaysInMonth(y, 2);
    assert DaysBeforeMonth(y, 10) == 245 + DaysInMonth(y, 2);
    assert DaysBeforeMonth(y, 11) == 276 + DaysInMonth(y, 2);
    assert DaysBeforeMonth(y, 12) == 306 + DaysInMonth(y, 2);
  }

  /** NextDay is exactly one day later: `date + timedelta(days=1)`. */
  lemma NextDayIsSuccessor(d: Date)
    requires Valid(d)
    ensures Ordinal(NextDay(d)) == Ordinal(d) + 1
  {
    if d.day == DaysInMonth(d.year, d.month) && d.month == 12 {
      DaysBeforeDecember(d.year);
    }
  }

  /** Ordinals grow with the date: later years, later months and later days
      give larger ordinals. */
  lemma {:induction false} DaysBeforeYearMonotone(y1: int, y2: int)
    requires 1 <= y1 <= y2
    ensures DaysBeforeYear(y1) + 365 * (y2 - y1) <= DaysBeforeYear(y2)
    decreases y2 - y1
  {
    if y1 < y2 {
      DaysBeforeYearMonotone(y1, y2 - 1);
    }
  }

  lemma {:induction false} DaysBeforeMonthBound(y: int, m: int)
    requires 1 <= m <= 12
    ensures DaysBeforeMonth(y, m) + DaysInMonth(y, m) <= DaysInYear(y)
    decreases 12 - m
  {
    if m == 12 {
      DaysBeforeDecember(y);
    } else {
      DaysBeforeMonthBound(y, m + 1);
    }
  }

  lemma {:induction false} DaysBeforeMonthMonotone(y: int, m1: int, m2: int)
    requires 1 <= m1 < m2 <= 12
    ensures DaysBeforeMonth(y, m1) + DaysInMonth(y, m1) <= DaysBeforeMonth(y, m2)
    decreases m2 - m1
  {
    if m1 + 1 < m2 {
      DaysBeforeMonthMonotone(y, m1, m2 - 1);
    }
  }

  /** Different valid dates have different ordinals, so Ordinal numbers the
      days one to one and NextDay(d) is the only date one day after d. */
  lemma OrdinalInjective(d1: Date, d2: Date)
    requires Valid(d1) && Valid(d2) && d1 != d2
    ensures Ordinal(d1) != Ordinal(d2)
  {
    if d1.year != d2.year {
      var (a, b) := if d1.year < d2.year then (d1, d2) else (d2, d1);
      DaysBeforeMonthBound(a.year, a.month);
      DaysBeforeYearMonotone(a.year + 1, b.year);
      assert Ordinal(a) < Ordinal(b);
    } else if d1.month != d2.month {
      var (a, b) := if d1.month < d2.month then (d1, d2) else (d2, d1);
      DaysBeforeMonthMonotone(a.year, a.month, b.month);
      assert Ordinal(a) < Ordinal(b);
    }
  }

  /** `time.strftime('%Y%m%d', d.timetuple())`: eight digits, from which the
      year, the month and the day read back. */
  function FormatYmd(d: Date): (r: string)
    requires Valid(d) && Printable(d)
    ensures |r| == 8 && AllDigits(r)
    ensures DigitsValue(r[..4]) == d.year && DigitsValue(r[4..6]) == d.month && DigitsValue(r[6..]) == d.day
  {
    var y, m, dd := ZeroPad(d.year, 4), ZeroPad(d.month, 2), ZeroPad(d.day, 2);
    var r := y + m + dd;
    assert r[..4] == y && r[4..6] == m && r[6..] == dd;
    r
  }

  /** Different dates print differently. */
  lemma FormatYmdInjective(d1: Date, d2: Date)
    requires Valid(d1) && Printable(d1) && Valid(d2) && Printable(d2)
    requires FormatYmd(d1) == FormatYmd(d2)
    ensures d1 == d2
  {
  }
}
