/**
 * The local calendar date of a JavaScript time value: what `getFullYear()`,
 * `getMonth() + 1` and `getDate()` return for a `Date` holding `t`
 * milliseconds since 1 January 1970 UTC, in a time zone with a fixed offset
 * from UTC (proleptic Gregorian calendar).
 */
module Calendar {

  const MS_PER_DAY: int := 86400000

  predicate IsLeapYear(y: int)
  {
    y % 4 == 0 && (y % 100 != 0 || y % 400 == 0)
  }

  function DaysInYear(y: int): int
  {
    if IsLeapYear(y) then 366 else 365
  }

  function DaysInMonth(y: int, m: int): int
    requires 1 <= m <= 12
  {
    if m == 2 then (if IsLeapYear(y) then 29 else 28)
    else if m == 4 || m == 6 || m == 9 || m == 11 then 30
    else 31
  }

  /** Days from 1 January 1970 to 1 January of year `y` (negative before 1970). */
  function DaysBeforeYear(y: int): int
    decreases if y >= 1970 then y - 1970 else 1970 - y
  {
    if y == 1970 then 0
    else if y > 1970 then DaysBeforeYear(y - 1) + DaysInYear(y - 1)
    else DaysBeforeYear(y + 1) - DaysInYear(y)
  }

  /** Days from 1 January of year `y` to the first day of month `m` (`m == 13` is the next new year). */
  function DaysBeforeMonth(y: int, m: int): int
    requires 1 <= m <= 13
  {
    if m == 1 then 0 else DaysBeforeMonth(y, m - 1) + DaysInMonth(y, m - 1)
  }

  /** The twelve months fill the year exactly. */
  lemma MonthsFillYear(y: int)
    ensures DaysBeforeMonth(y, 13) == DaysInYear(y)
  {
    var feb := if IsLeapYear(y) then 29 else 28;
    assert DaysBeforeMonth(y, 2) == 31;
    assert DaysBeforeMonth(y, 3) == 31 + feb;
    assert DaysBeforeMonth(y, 4) == 62 + feb;
    assert DaysBeforeMonth(y, 5) == 92 + feb;
    assert DaysBeforeMonth(y, 6) == 123 + feb;
    assert DaysBeforeMonth(y, 7) == 153 + feb;
    assert DaysBeforeMonth(y, 8) == 184 + feb;
    assert DaysBeforeMonth(y, 9) == 215 + feb;
    assert DaysBeforeMonth(y, 10) == 245 + feb;
    assert DaysBeforeMonth(y, 11) == 276 + feb;
    assert DaysBeforeMonth(y, 12) == 306 + feb;
    assert DaysBeforeMonth(y, 13) == 337 + feb;
  }

  /**
   * The year holding the day `z` days after 1 January of year `y`, and the
   * 0-based day of that year.
   */
  function YearOfDay(y: int, z: int): (r: (int, int))
    ensures 0 <= r.1 < DaysInYear(r.0)
    ensures DaysBeforeYear(r.0) + r.1 == DaysBeforeYear(y) + z
    decreases if z < 0 then 1 else 0, if z < 0 then -z else z
  {
    if z < 0 then
      assert DaysBeforeYear(y) == DaysBeforeYear(y - 1) + DaysInYear(y - 1);
      YearOfDay(y - 1, z + DaysInYear(y - 1))
    else if z < DaysInYear(y) then (y, z)
    else
      assert DaysBeforeYear(y + 1) == DaysBeforeYear(y) + DaysInYear(y);
      YearOfDay(y + 1, z - DaysInYear(y))
  }

  /**
   * The month, from `m` on, holding the day `rest` days after the first of
   * month `m` of year `y`, and the 1-based day of that month.
   */
  function MonthOfDay(y: int, m: int, rest: int): (r: (int, int))
    requires 1 <= m <= 12
    requires 0 <= rest < DaysBeforeMonth(y, 13) - DaysBeforeMonth(y, m)
    ensures m <= r.0 <= 12 && 1 <= r.1 <= DaysInMonth(y, r.0)
    ensures DaysBeforeMonth(y, r.0) + r.1 - 1 == DaysBeforeMonth(y, m) + rest
    decreases 12 - m
  {
    if rest < DaysInMonth(y, m) then (m, rest + 1)
    else MonthOfDay(y, m + 1, rest - DaysInMonth(y, m))
  }

  datatype LocalDate = LocalDate(year: int, month: int, day: int)

  /**
   * The local date of time value `t` in a zone `tzOffsetMs` milliseconds
   * east of UTC: `month` is 1-based (`getMonth() + 1`), `day` is `getDate()`.
   * The second ensures says the date names exactly the local day of `t`.
   */
  function LocalDateOf(t: int, tzOffsetMs: int): (d: LocalDate)
    ensures 1 <= d.month <= 12 && 1 <= d.day <= DaysInMonth(d.year, d.month)
    ensures DaysBeforeYear(d.year) + DaysBeforeMonth(d.year, d.month) + d.day - 1
            == (t + tzOffsetMs) / MS_PER_DAY
  {
    var yd := YearOfDay(1970, (t + tzOffsetMs) / MS_PER_DAY);
    MonthsFillYear(yd.0);
    var md := MonthOfDay(yd.0, 1, yd.1);
    LocalDate(yd.0, md.0, md.1)
  }
}
