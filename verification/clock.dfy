/** Simulated time as whole minutes since the default start instant
    2025-01-01T00:00, and the calendar fields the engine reads from it. */
module Clock {

  /** `current_time.hour`. */
  function HourOf(m: nat): (h: nat)
    ensures h < 24
    ensures (m / 1440) * 1440 + h * 60 <= m < (m / 1440) * 1440 + h * 60 + 60
  {
    (m / 60) % 24
  }

  predicate LeapYear(y: nat) {
    (y % 4 == 0 && y % 100 != 0) || y % 400 == 0
  }

  function DaysInYear(y: nat): (n: nat)
    ensures n == 365 || n == 366
  {
    if LeapYear(y) then 366 else 365
  }

  function DaysInMonth(y: nat, mo: nat): (n: nat)
    requires 1 <= mo <= 12
    ensures 28 <= n <= 31
  {
    if mo == 2 then (if LeapYear(y) then 29 else 28)
    else if mo == 4 || mo == 6 || mo == 9 || mo == 11 then 30
    else 31
  }

  /** The days of the months `mo` up to, not including, `to` of year `y`. */
  function DaysBetween(y: nat, mo: nat, to: nat): nat
    requires 1 <= mo <= to <= 13
    decreases 13 - mo
  {
    if mo == to then 0 else DaysInMonth(y, mo) + DaysBetween(y, mo + 1, to)
  }

  /** Month (1..12) of day `d` of year `y`, counting months from `mo`: the
      month whose first day is at most `d` days past month `mo`'s first
      day and whose successor's first day is beyond it. December takes
      every later day. */
  function MonthWithin(y: nat, d: nat, mo: nat): (r: nat)
    requires 1 <= mo <= 12
    ensures mo <= r <= 12
    ensures DaysBetween(y, mo, r) <= d
    ensures r < 12 ==> d < DaysBetween(y, mo, r + 1)
    decreases 12 - mo
  {
    if mo == 12 || d < DaysInMonth(y, mo) then mo
    else MonthWithin(y, d - DaysInMonth(y, mo), mo + 1)
  }

  /** Month of day `d` counted from January 1st of year `y`. */
  function MonthFrom(y: nat, d: nat): (r: nat)
    ensures 1 <= r <= 12
    ensures d < DaysInYear(y) ==> DaysBetween(y, 1, r) <= d && d < DaysBetween(y, 1, r + 1)
    decreases d
  {
    if d < DaysInYear(y) then
      var r := MonthWithin(y, d, 1);
      assert d < DaysBetween(y, 1, r + 1) by {
        if r == 12 {
          YearDays(y);
        }
      }
      r
    else MonthFrom(y + 1, d - DaysInYear(y))
  }

  /** The twelve months make up the year. */
  lemma YearDays(y: nat)
    ensures DaysBetween(y, 1, 13) == DaysInYear(y)
  {
    assert DaysBetween(y, 12, 13) == 31;
    assert DaysBetween(y, 9, 13) == 30 + 31 + 30 + 31;
    assert DaysBetween(y, 5, 13) == 31 + 30 + 31 + 31 + 122;
    assert DaysBetween(y, 3, 13) == 31 + 30 + 245;
  }

  /** `current_time.month`. */
  function MonthOf(m: nat): (r: nat)
    ensures 1 <= r <= 12
    ensures m / 1440 < 365 ==> DaysBetween(2025, 1, r) <= m / 1440 < DaysBetween(2025, 1, r + 1)
  {
    MonthFrom(2025, m / 1440)
  }

  /** The first quarter of 2025 falls in months 1 to 3. */
  lemma FirstQuarterMonths(m: nat)
    requires m < 90 * 1440
    ensures MonthOf(m) == (if m < 31 * 1440 then 1 else if m < 59 * 1440 then 2 else 3)
  {
  }

  /** `round(step / 60, 4)`: the step length in hours to four decimals. A step is
      a whole number of minutes, so `500 * step / 3` never ends in exactly one
      half and rounding is to the nearest multiple of 0.0001. */
  function StepHours(step: nat): (h: real)
    ensures h >= 0.0
    ensures step > 0 ==> h > 0.0
    ensures -0.00005 < h - step as real / 60.0 < 0.00005
    ensures (h * 10000.0).Floor as real == h * 10000.0
  {
    var k := (500 * step + 1) / 3;
    TenThousandths(step, k);
    k as real / 10000.0
  }

  /** The facts about `k / 10000` when `3k` is `500 * step` rounded. */
  lemma TenThousandths(step: nat, k: int)
    requires k == (500 * step + 1) / 3
    ensures k >= 0 && (step > 0 ==> k > 0)
    ensures -0.00005 < k as real / 10000.0 - step as real / 60.0 < 0.00005
    ensures ((k as real / 10000.0) * 10000.0).Floor as real == (k as real / 10000.0) * 10000.0
  {
    assert 3 * k <= 500 * step + 1 < 3 * k + 3;
    RoundedClose(step, k);
    assert (k as real / 10000.0) * 10000.0 == k as real;
  }

  /** `k / 10000` is within 0.00005 of `step / 60` when `3k` is the rounded
      `500 * step`. */
  lemma RoundedClose(step: nat, k: int)
    requires 3 * k <= 500 * step + 1 < 3 * k + 3
    ensures -0.00005 < k as real / 10000.0 - step as real / 60.0 < 0.00005
  {
    var d := 6 * k - 1000 * step;
    assert -4 <= d <= 2;
    assert k as real / 10000.0 - step as real / 60.0 == d as real / 60000.0;
  }

  /** The environment's end test: elapsed minutes reach the simulated length
      less half a step. */
  predicate Done(elapsed: nat, days: int, step: nat) {
    elapsed as real >= (days * 1440) as real - step as real / 2.0
  }
}
