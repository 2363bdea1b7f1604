/** The proleptic Gregorian calendar behind `datetime`, counted in days from 0001-01-01 (day 0). */
module Calendar {

  const DAYS_PER_ERA := 146097  // 400 Gregorian years

  datatype Date = Date(year: int, month: int, day: int)

  predicate IsLeap(year: int) {
    year % 4 == 0 && (year % 100 != 0 || year % 400 == 0)
  }

  /** Days of a month in a year of 365 days. */
  function CommonDays(month: int): int {
    if month == 2 then 28 else if month in {4, 6, 9, 11} then 30 else 31
  }

  function DaysInMonth(year: int, month: int): int {
    if month == 2 && IsLeap(year) then 29 else CommonDays(month)
  }

  predicate ValidDate(d: Date) {
    1 <= d.month <= 12 && 1 <= d.day <= DaysInMonth(d.year, d.month)
  }

  function DaysBeforeYear(year: int): int {
    365 * (year - 1) + (year - 1) / 4 - (year - 1) / 100 + (year - 1) / 400
  }

  const COMMON_DAYS_BEFORE: seq<int> := [0, 31, 59, 90, 120, 151, 181, 212, 243, 273, 304, 334, 365]

  function DaysBeforeMonth(year: int, month: int): int
    requires 1 <= month <= 13
  {
    COMMON_DAYS_BEFORE[month - 1] + if month > 2 && IsLeap(year) then 1 else 0
  }

  function DayNumber(d: Date): int
    requires 1 <= d.month <= 12
  {
    DaysBeforeYear(d.year) + DaysBeforeMonth(d.year, d.month) + d.day - 1
  }

  function YearInEra(year: int, rest: int): (y: int)
    requires 1 <= year <= 400 && DaysBeforeYear(year) <= rest < DAYS_PER_ERA
    ensures 1 <= y <= 400 && DaysBeforeYear(y) <= rest < DaysBeforeYear(y + 1)
    decreases 400 - year
  {
    if rest < DaysBeforeYear(year + 1) then year else YearInEra(year + 1, rest)
  }

  function YearOf(day: int): (y: int)
    ensures DaysBeforeYear(y) <= day < DaysBeforeYear(y + 1)
  {
    var era, rest := day / DAYS_PER_ERA, day % DAYS_PER_ERA;
    var y := YearInEra(1, rest);
    EraBracket(y, era, rest);
    y + 400 * era
  }

  function MonthOf(year: int, month: int, rest: int): (m: int)
    requires 1 <= month <= 12 && DaysBeforeMonth(year, month) <= rest < DaysBeforeMonth(year, 13)
    ensures 1 <= m <= 12 && DaysBeforeMonth(year, m) <= rest < DaysBeforeMonth(year, m + 1)
    decreases 12 - month
  {
    if rest < DaysBeforeMonth(year, month + 1) then month else MonthOf(year, month + 1, rest)
  }

  /** The date of a day number. */
  function Civil(day: int): (d: Date)
    ensures ValidDate(d) && DayNumber(d) == day
  {
    var y := YearOf(day);
    var rest := day - DaysBeforeYear(y);
    YearLength(y);
    var m := MonthOf(y, 1, rest);
    Date(y, m, rest - DaysBeforeMonth(y, m) + 1)
  }

  lemma EraShift(year: int, era: int)
    ensures DaysBeforeYear(year + 400 * era) == DaysBeforeYear(year) + DAYS_PER_ERA * era
  {
    var n := year - 1;
    assert (n + 400 * era) / 4 == n / 4 + 100 * era;
    assert (n + 400 * era) / 100 == n / 100 + 4 * era;
    assert (n + 400 * era) / 400 == n / 400 + era;
  }

  lemma EraBracket(year: int, era: int, rest: int)
    requires DaysBeforeYear(year) <= rest < DaysBeforeYear(year + 1)
    ensures DaysBeforeYear(year + 400 * era) <= DAYS_PER_ERA * era + rest < DaysBeforeYear(year + 400 * era + 1)
  {
    EraShift(year, era);
    EraShift(year + 1, era);
    assert year + 1 + 400 * era == year + 400 * era + 1;
    hide DaysBeforeYear;
  }

  lemma YearLength(year: int)
    ensures DaysBeforeYear(year + 1) - DaysBeforeYear(year) == (if IsLeap(year) then 366 else 365)
    ensures DaysBeforeMonth(year, 13) == (if IsLeap(year) then 366 else 365)
  {
    Quotient(year, 4);
    Quotient(year, 100);
    Quotient(year, 400);
    assert year % 400 == 0 ==> year % 100 == 0;
    assert year % 100 == 0 ==> year % 4 == 0;
  }

  lemma Quotient(n: int, k: int)
    requires k > 0
    ensures n / k - (n - 1) / k == if n % k == 0 then 1 else 0
  {
    var q, r := n / k, n % k;
    assert n == k * q + r;
    if r == 0 {
      assert n - 1 == k * (q - 1) + (k - 1);
      DivUnique(n - 1, k, q - 1, k - 1);
    } else {
      assert n - 1 == k * q + (r - 1);
      DivUnique(n - 1, k, q, r - 1);
    }
  }

  lemma DivUnique(n: int, k: int, q: int, r: int)
    requires k > 0 && n == k * q + r && 0 <= r < k
    ensures n / k == q && n % k == r
  {
    var d := q - n / k;
    assert k * d == n % k - r;
    if d >= 1 {
      MulAtLeast(k, d);
    } else if d <= -1 {
      MulAtLeast(k, -d);
    }
  }

  lemma MulAtLeast(k: int, d: int)
    requires k > 0 && d >= 1
    ensures k * d >= k
  {
    assert k * d == k + k * (d - 1);
  }

  lemma {:induction false} YearsGrow(a: int, b: int)
    requires a <= b
    ensures DaysBeforeYear(a) + 365 * (b - a) <= DaysBeforeYear(b) <= DaysBeforeYear(a) + 366 * (b - a)
    decreases b - a
  {
    if a < b {
      YearsGrow(a, b - 1);
      YearLength(b - 1);
    }
  }

  /** A valid date lies inside its own year. */
  lemma DateInYear(d: Date)
    requires ValidDate(d)
    ensures DaysBeforeYear(d.year) <= DayNumber(d) < DaysBeforeYear(d.year + 1)
  {
    YearLength(d.year);
    MonthsDisjoint(d.year, d.month, 13);
  }

  lemma MonthsDisjoint(year: int, a: int, b: int)
    requires 1 <= a < b <= 13
    ensures DaysBeforeMonth(year, a) + DaysInMonth(year, a) <= DaysBeforeMonth(year, b)
  {
    assert forall m: int | 1 <= m < 13 :: COMMON_DAYS_BEFORE[m] == COMMON_DAYS_BEFORE[m - 1] + CommonDays(m);
    assert forall m: int, n: int | 0 <= m <= n < 13 :: COMMON_DAYS_BEFORE[m] <= COMMON_DAYS_BEFORE[n];
  }

  lemma SameYear(c: Date, d: Date)
    requires ValidDate(c) && ValidDate(d) && DayNumber(c) == DayNumber(d)
    ensures c.year == d.year
  {
    DateInYear(c);
    DateInYear(d);
    hide DayNumber;
    hide DaysBeforeYear;
    hide ValidDate;
    if c.year < d.year {
      YearsGrow(c.year + 1, d.year);
    } else if d.year < c.year {
      YearsGrow(d.year + 1, c.year);
    }
  }

  lemma DayNumberInjective(c: Date, d: Date)
    requires ValidDate(c) && ValidDate(d) && DayNumber(c) == DayNumber(d)
    ensures c == d
  {
    SameYear(c, d);
    hide DaysBeforeMonth;
    if c.month < d.month {
      MonthsDisjoint(d.year, c.month, d.month);
    } else if d.month < c.month {
      MonthsDisjoint(d.year, d.month, c.month);
    }
  }

  /** Every valid date is the date of its own day number: `Civil` and `DayNumber` are inverse. */
  lemma CivilRoundTrip(d: Date)
    requires ValidDate(d)
    ensures Civil(DayNumber(d)) == d
  {
    DayNumberInjective(Civil(DayNumber(d)), d);
  }
}
