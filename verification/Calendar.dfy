/** Calendar instants as nanoseconds counted from 1 January of year 0: the two orders agree. */
module Calendar {
  import opened Instants

  const SECOND := 1_000_000_000
  const DAY := 86_400_000_000_000

  /** How many multiples of k lie in [0, year). */
  function Multiples(year: int, k: int): int
    requires k > 0
  {
    (year + k - 1) / k
  }

  /** The days before 1 January of year. */
  function DaysBeforeYear(year: int): int {
    365 * year + Multiples(year, 4) - Multiples(year, 100) + Multiples(year, 400)
  }

  function YearLength(year: int): int {
    if IsLeap(year) then 366 else 365
  }

  function DaysBeforeMonth(year: int, month: int): int
    requires 1 <= month <= 12
    decreases month
  {
    if month == 1 then 0 else DaysBeforeMonth(year, month - 1) + DaysIn(year, month - 1)
  }

  function DayNumber(t: Instant): int {
    DaysBeforeYear(t.year) + DaysBeforeMonth(t.year, t.month) + t.day - 1
  }

  function SecondOfDay(t: Instant): int {
    (t.hour * 60 + t.minute) * 60 + t.second
  }

  function Nanos(t: Instant): int {
    DayNumber(t) * DAY + SecondOfDay(t) * SECOND + t.nano
  }

  lemma OneMoreMultiple(year: int, k: int)
    requires k > 0
    ensures Multiples(year + 1, k) == Multiples(year, k) + if year % k == 0 then 1 else 0
  {
    var q, r := year / k, year % k;
    assert year == q * k + r && 0 <= r < k;
    QuotientIs(year + k, k, q + 1, r);
    if r == 0 {
      QuotientIs(year + k - 1, k, q, k - 1);
    } else {
      QuotientIs(year + k - 1, k, q + 1, r - 1);
    }
  }

  lemma QuotientIs(x: int, k: int, q: int, r: int)
    requires k > 0 && x == q * k + r && 0 <= r < k
    ensures x / k == q && x % k == r
  {
    var p := x / k - q;
    assert p * k == r - x % k;
    assert p >= 1 ==> p * k >= k;
    assert p <= -1 ==> p * k <= -k;
  }

  lemma LeapMultiples(year: int)
    ensures year % 400 == 0 ==> year % 100 == 0
    ensures year % 100 == 0 ==> year % 4 == 0
  {
    if year % 400 == 0 {
      QuotientIs(year, 100, year / 400 * 4, 0);
    }
    if year % 100 == 0 {
      QuotientIs(year, 4, year / 100 * 25, 0);
    }
  }

  lemma YearStep(year: int)
    ensures DaysBeforeYear(year + 1) == DaysBeforeYear(year) + YearLength(year)
  {
    hide Multiples;
    OneMoreMultiple(year, 4);
    OneMoreMultiple(year, 100);
    OneMoreMultiple(year, 400);
    LeapMultiples(year);
  }

  lemma {:induction false} YearsAscend(a: int, b: int)
    requires a < b
    ensures DaysBeforeYear(a + 1) <= DaysBeforeYear(b)
    decreases b - a
  {
    hide DaysBeforeYear;
    if a + 1 < b {
      YearStep(b - 1);
      YearsAscend(a, b - 1);
    }
  }

  lemma {:induction false} MonthsAscend(year: int, a: int, b: int)
    requires 1 <= a < b <= 12
    ensures DaysBeforeMonth(year, a) + DaysIn(year, a) <= DaysBeforeMonth(year, b)
    decreases b
  {
    if a + 1 < b {
      MonthsAscend(year, a, b - 1);
    }
  }

  lemma MonthsFillTheYear(year: int)
    ensures DaysBeforeMonth(year, 12) + DaysIn(year, 12) == YearLength(year)
  {
    assert DaysBeforeMonth(year, 4) == 31 + DaysIn(year, 2) + 31;
    assert DaysBeforeMonth(year, 8) == DaysBeforeMonth(year, 4) + 30 + 31 + 30 + 31;
    assert DaysBeforeMonth(year, 12) == DaysBeforeMonth(year, 8) + 31 + 30 + 31 + 30;
  }

  lemma DayWithinYear(t: Instant)
    ensures DaysBeforeYear(t.year) <= DayNumber(t) < DaysBeforeYear(t.year + 1)
  {
    hide DaysBeforeYear;
    YearStep(t.year);
    MonthsFillTheYear(t.year);
    if t.month > 1 {
      MonthsAscend(t.year, 1, t.month);
    }
    if t.month < 12 {
      MonthsAscend(t.year, t.month, 12);
    }
  }

  predicate EarlierDay(a: Instant, b: Instant) {
    a.year < b.year || (a.year == b.year && (a.month < b.month || (a.month == b.month && a.day < b.day)))
  }

  lemma DaysAscend(a: Instant, b: Instant)
    requires EarlierDay(a, b)
    ensures DayNumber(a) < DayNumber(b)
  {
    hide DaysBeforeYear, DaysBeforeMonth;
    if a.year < b.year {
      DayWithinYear(a);
      DayWithinYear(b);
      YearsAscend(a.year, b.year);
    } else if a.month < b.month {
      MonthsAscend(a.year, a.month, b.month);
    }
  }

  lemma WithinDay(t: Instant)
    ensures 0 <= SecondOfDay(t) < 86_400
    ensures DayNumber(t) * DAY <= Nanos(t) < (DayNumber(t) + 1) * DAY
  {
  }

  /** The order of instants is the order of their nanoseconds. */
  lemma EarlierIsFewerNanos(a: Instant, b: Instant)
    ensures Before(a, b) <==> Nanos(a) < Nanos(b)
    ensures a == b <==> Nanos(a) == Nanos(b)
  {
    hide DayNumber;
    WithinDay(a);
    WithinDay(b);
    if EarlierDay(a, b) {
      DaysAscend(a, b);
    } else if EarlierDay(b, a) {
      DaysAscend(b, a);
    } else {
      assert DayNumber(a) == DayNumber(b) by {
        SameDay(a, b);
      }
    }
  }

  lemma SameDay(a: Instant, b: Instant)
    requires a.year == b.year && a.month == b.month && a.day == b.day
    ensures DayNumber(a) == DayNumber(b)
  {
  }

  /** The day of the year, months of 31, 28 or 29, 31, 30, ... days. */
  lemma DayOfYear(t: Instant)
    ensures var before := [0, 31, 59, 90, 120, 151, 181, 212, 243, 273, 304, 334];
            DayNumber(t) == DaysBeforeYear(t.year) + before[t.month - 1] + t.day - 1 +
            if t.month > 2 && t.year % 4 == 0 && (t.year % 100 != 0 || t.year % 400 == 0) then 1 else 0
  {
    hide DaysBeforeYear;
    var y := t.year;
    assert DaysBeforeMonth(y, 3) == DaysBeforeMonth(y, 2) + DaysIn(y, 2);
    assert DaysBeforeMonth(y, 6) == DaysBeforeMonth(y, 3) + 92;
    assert DaysBeforeMonth(y, 9) == DaysBeforeMonth(y, 6) + 92;
    assert DaysBeforeMonth(y, 12) == DaysBeforeMonth(y, 9) + 91;
  }

  /** Go's zero time. */
  const ZERO_NANOS := 366 * DAY

  lemma ZeroTime()
    ensures Nanos(ZERO) == ZERO_NANOS
  {
  }

  /** The nanoseconds of the instants whose text can be parsed again. */
  predicate Writable(at: int) {
    0 <= at < 3_652_425 * DAY
  }

  lemma Landmarks()
    ensures DaysBeforeYear(0) == 0 && DaysBeforeYear(10_000) == 3_652_425
  {
  }

  lemma FourDigitSpan(t: Instant)
    ensures FourDigitYear(t) <==> Writable(Nanos(t))
  {
    hide DaysBeforeYear, DayNumber, Nanos;
    DayWithinYear(t);
    WithinDay(t);
    Landmarks();
    if t.year < -1 {
      YearsAscend(t.year, 0);
    } else if t.year > 0 {
      YearsAscend(-1, t.year);
    }
    if t.year < 9_999 {
      YearsAscend(t.year, 10_000);
    } else if t.year > 9_999 {
      YearsAscend(9_999, t.year);
    }
  }
}
