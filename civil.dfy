/**
 * Proleptic-Gregorian calendar dates and UTC date-times as chrono's
 * `Date<Utc>` and `DateTime<Utc>` provide them, with the count of seconds
 * since 1970-01-01T00:00:00Z that chrono's `%s` specifier prints.
 */
module Civil {

  datatype YearMonthDay = YearMonthDay(year: int, month: int, day: int)

  /** Gregorian leap-year rule, extended to all years (year 0 is a leap year). */
  predicate IsLeapYear(y: int) {
    y % 4 == 0 && (y % 100 != 0 || y % 400 == 0)
  }

  function DaysInYear(y: int): (n: int)
    ensures n == 365 || n == 366
    ensures n == 366 <==> IsLeapYear(y)
  {
    if IsLeapYear(y) then 366 else 365
  }

  function DaysInMonth(y: int, m: int): (n: int)
    requires 1 <= m <= 12
    ensures 28 <= n <= 31
    ensures n == 29 <==> m == 2 && IsLeapYear(y)
  {
    if m == 2 then (if IsLeapYear(y) then 29 else 28)
    else if m == 4 || m == 6 || m == 9 || m == 11 then 30
    else 31
  }

  predicate IsValidDate(d: YearMonthDay) {
    1 <= d.month <= 12 && 1 <= d.day <= DaysInMonth(d.year, d.month)
  }

  /** A calendar date that exists; chrono's `Date` cannot hold any other. */
  type Date = d: YearMonthDay | IsValidDate(d) witness YearMonthDay(1970, 1, 1)

  datatype NaiveDateTime = At(date: Date, hour: int, minute: int, second: int)

  predicate IsValidTime(t: NaiveDateTime) {
    0 <= t.hour < 24 && 0 <= t.minute < 60 && 0 <= t.second < 60
  }

  /** A UTC instant with whole-second precision (sub-seconds are zero everywhere they are made). */
  type DateTime = t: NaiveDateTime | IsValidTime(t) witness At(YearMonthDay(1970, 1, 1), 0, 0, 0)

  /** chrono's `Date::and_hms`: the given date at the given wall-clock time in UTC. */
  function AndHms(d: Date, hour: int, minute: int, second: int): (t: DateTime)
    requires 0 <= hour < 24 && 0 <= minute < 60 && 0 <= second < 60
    ensures t.date == d && t.hour == hour && t.minute == minute && t.second == second
  {
    At(d, hour, minute, second)
  }

  /** Days in the months of year `y` that come before month `m`. */
  function DaysBeforeMonth(y: int, m: int): (n: int)
    requires 1 <= m <= 13
    ensures 0 <= n <= 31 * (m - 1)
    ensures m > 1 ==> n >= 28 * (m - 1)
  {
    if m == 1 then 0 else DaysBeforeMonth(y, m - 1) + DaysInMonth(y, m - 1)
  }

  /** POSIX `tm_yday`: the zero-based day of the year. */
  function DayOfYear(d: Date): (n: int)
    ensures 0 <= n < DaysInYear(d.year)
  {
    DaysInYearSum(d.year);
    DaysBeforeMonthMonotone(d.year, d.month + 1, 13);
    DaysBeforeMonth(d.year, d.month) + d.day - 1
  }

  /** Days from 1970-01-01 to the first of January of year `y` (negative before 1970). */
  function DaysBeforeYear(y: int): int
    decreases if y < 1970 then 1970 - y else y - 1970
  {
    if y == 1970 then 0
    else if y > 1970 then DaysBeforeYear(y - 1) + DaysInYear(y - 1)
    else DaysBeforeYear(y + 1) - DaysInYear(y)
  }

  /** Days from 1970-01-01 to `d` in the proleptic Gregorian calendar. */
  function DaysFromCivil(d: Date): int {
    DaysBeforeYear(d.year) + DayOfYear(d)
  }

  /** Seconds since the Epoch: whole days times 86400 plus the time of day. */
  function EpochSeconds(t: DateTime): (s: int)
    ensures DaysFromCivil(t.date) * 86400 <= s < DaysFromCivil(t.date) * 86400 + 86400
  {
    DaysFromCivil(t.date) * 86400 + t.hour * 3600 + t.minute * 60 + t.second
  }

  /**
   * The "Seconds Since the Epoch" expression of section 4.16 of POSIX.1-2017
   * (Base Definitions), with tm_year = year - 1900 and tm_yday = DayOfYear.
   * The standard defines it for years from 1970 on, where every dividend is
   * non-negative and C's truncating division agrees with Dafny's.
   */
  function PosixSecondsSinceEpoch(t: DateTime): int
    requires t.date.year >= 1970
  {
    var tmYear := t.date.year - 1900;
    t.second + t.minute * 60 + t.hour * 3600 + DayOfYear(t.date) * 86400
      + (tmYear - 70) * 31536000 + ((tmYear - 69) / 4) * 86400
      - ((tmYear - 1) / 100) * 86400 + ((tmYear + 299) / 400) * 86400
  }

  /** The calendar day after `d`. */
  function NextDay(d: Date): (n: Date)
    ensures n.year == d.year || (n.year == d.year + 1 && n.month == 1 && n.day == 1)
  {
    if d.day < DaysInMonth(d.year, d.month) then YearMonthDay(d.year, d.month, d.day + 1)
    else if d.month < 12 then YearMonthDay(d.year, d.month + 1, 1)
    else YearMonthDay(d.year + 1, 1, 1)
  }

  // ---------------------------------------------------------------- lemmas

  lemma DaysInYearSum(y: int)
    ensures DaysBeforeMonth(y, 13) == DaysInYear(y)
  {
    var feb := DaysInMonth(y, 2);
    assert DaysBeforeMonth(y, 3) == 31 + feb;
    assert DaysBeforeMonth(y, 5) == 92 + feb;
    assert DaysBeforeMonth(y, 7) == 153 + feb;
    assert DaysBeforeMonth(y, 9) == 215 + feb;
    assert DaysBeforeMonth(y, 11) == 276 + feb;
  }

  lemma {:induction false} DaysBeforeMonthMonotone(y: int, m: int, k: int)
    requires 1 <= m <= k <= 13
    ensures DaysBeforeMonth(y, m) <= DaysBeforeMonth(y, k)
    decreases k - m
  {
    if m < k {
      DaysBeforeMonthMonotone(y, m, k - 1);
    }
  }

  /** The year part of the POSIX expression, in days, with y = tm_year + 1900. */
  function PosixYearDays(y: int): int
    requires y >= 1970
  {
    (y - 1970) * 365 + (y - 1969) / 4 - (y - 1901) / 100 + (y - 1601) / 400
  }

  lemma PosixYearDaysStep(p: int)
    requires p >= 1970
    ensures PosixYearDays(p + 1) == PosixYearDays(p) + DaysInYear(p)
  {
    QuotientStep4(p);
    QuotientStep100(p);
    QuotientStep400(p);
    LeapTerms(p);
    assert PosixYearDays(p + 1) - PosixYearDays(p)
        == 365 + ((p + 1 - 1969) / 4 - (p - 1969) / 4) - ((p + 1 - 1901) / 100 - (p - 1901) / 100)
             + ((p + 1 - 1601) / 400 - (p - 1601) / 400);
  }

  /** 1 when `k` divides `p`, else 0: what year `p` adds to the POSIX quotient by `k`. */
  function LeapTerm(p: int, k: int): int
    requires k > 0
  {
    if p % k == 0 then 1 else 0
  }

  /** The leap-year rule as the three quotient terms of the POSIX expression count it. */
  lemma LeapTerms(p: int)
    ensures DaysInYear(p) == 365 + LeapTerm(p, 4) - LeapTerm(p, 100) + LeapTerm(p, 400)
  {
    if p % 400 == 0 {
      CenturyOfQuadricentennial(p);
      LeapOfCentury(p);
    } else if p % 100 == 0 {
      LeapOfCentury(p);
    }
  }

  lemma CenturyOfQuadricentennial(p: int)
    requires p % 400 == 0
    ensures p % 100 == 0
  {
    assert p == 100 * (4 * (p / 400));
  }

  lemma LeapOfCentury(p: int)
    requires p % 100 == 0
    ensures p % 4 == 0
  {
    assert p == 4 * (25 * (p / 100));
  }

  lemma QuotientStep4(p: int)
    requires p >= 1970
    ensures (p + 1 - 1969) / 4 == (p - 1969) / 4 + LeapTerm(p, 4)
  {
    DivStep(p - 1969, 4);
    assert (p + 1 - 1969) % 4 == 0 <==> p % 4 == 0;
  }

  lemma QuotientStep100(p: int)
    requires p >= 1970
    ensures (p + 1 - 1901) / 100 == (p - 1901) / 100 + LeapTerm(p, 100)
  {
    DivStep(p - 1901, 100);
    assert (p + 1 - 1901) % 100 == 0 <==> p % 100 == 0;
  }

  lemma QuotientStep400(p: int)
    requires p >= 1970
    ensures (p + 1 - 1601) / 400 == (p - 1601) / 400 + LeapTerm(p, 400)
  {
    DivStep(p - 1601, 400);
    assert (p + 1 - 1601) % 400 == 0 <==> p % 400 == 0;
  }

  /** The closed form of DaysBeforeYear that the POSIX expression uses, for years from 1970 on. */
  lemma {:induction false} DaysBeforeYearClosedForm(y: int)
    requires y >= 1970
    ensures DaysBeforeYear(y) == PosixYearDays(y)
    decreases y - 1970
  {
    if y > 1970 {
      DaysBeforeYearClosedForm(y - 1);
      PosixYearDaysStep(y - 1);
    }
  }

  /** Stepping a non-negative dividend by one raises the quotient exactly at multiples of k. */
  lemma DivStep(a: int, k: int)
    requires a >= 0 && (k == 4 || k == 100 || k == 400)
    ensures (a + 1) / k == a / k + (if (a + 1) % k == 0 then 1 else 0)
  {
  }

  /** For every instant from 1970 on, EpochSeconds is the POSIX "Seconds Since the Epoch". */
  lemma PosixAgreement(t: DateTime)
    requires t.date.year >= 1970
    ensures PosixSecondsSinceEpoch(t) == EpochSeconds(t)
  {
    DaysBeforeYearClosedForm(t.date.year);
    assert PosixSecondsSinceEpoch(t) == t.second + t.minute * 60 + t.hour * 3600
      + (DayOfYear(t.date) + PosixYearDays(t.date.year)) * 86400;
  }

  /** The Epoch is day zero. */
  lemma EpochIsDayZero()
    ensures DaysFromCivil(YearMonthDay(1970, 1, 1)) == 0
    ensures EpochSeconds(At(YearMonthDay(1970, 1, 1), 0, 0, 0)) == 0
  {
  }

  /** Consecutive calendar days are consecutive day numbers, so DaysFromCivil counts days. */
  lemma NextDayIsNextNumber(d: Date)
    ensures DaysFromCivil(NextDay(d)) == DaysFromCivil(d) + 1
  {
    var n := NextDay(d);
    if d.day < DaysInMonth(d.year, d.month) {
    } else if d.month < 12 {
      assert DaysBeforeMonth(n.year, n.month) == DaysBeforeMonth(d.year, d.month) + DaysInMonth(d.year, d.month);
    } else {
      DaysInYearSum(d.year);
      assert DaysBeforeYear(n.year) == DaysBeforeYear(d.year) + DaysInYear(d.year);
    }
  }

  /** Distinct dates have distinct day numbers, ordered as the calendar orders them. */
  lemma {:induction false} DaysFromCivilMonotone(d: Date, e: Date)
    requires d.year < e.year || (d.year == e.year && (d.month < e.month || (d.month == e.month && d.day < e.day)))
    ensures DaysFromCivil(d) < DaysFromCivil(e)
  {
    if d.year < e.year {
      DaysBeforeYearGrows(d.year, e.year);
      assert DayOfYear(d) < DaysInYear(d.year) && 0 <= DayOfYear(e);
    } else if d.month < e.month {
      DaysBeforeMonthMonotone(d.year, d.month + 1, e.month);
      assert DaysBeforeMonth(d.year, d.month + 1) == DaysBeforeMonth(d.year, d.month) + DaysInMonth(d.year, d.month);
    }
  }

  lemma {:induction false} DaysBeforeYearGrows(y: int, z: int)
    requires y < z
    ensures DaysBeforeYear(y) + DaysInYear(y) <= DaysBeforeYear(z)
    decreases z - y
  {
    if y + 1 < z {
      DaysBeforeYearGrows(y + 1, z);
      DaysBeforeYearStep(y);
    } else {
      DaysBeforeYearStep(y);
    }
  }

  lemma DaysBeforeYearStep(y: int)
    ensures DaysBeforeYear(y + 1) == DaysBeforeYear(y) + DaysInYear(y)
  {
  }
}
