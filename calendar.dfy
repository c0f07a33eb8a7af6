/** Proleptic Gregorian dates as Python's `datetime.date` handles them:
    years 1 to 9999, day ordinals with 1 January of year 1 as day 1, and
    weekdays numbered from Monday = 0 to Sunday = 6. */
module Calendar {
  import opened Errors

  datatype Date = Date(year: int, month: int, day: int)

  /** A date Python can represent. */
  type CalendarDate = d: Date | ValidDate(d) witness Date(1, 1, 1)

  const MinYear := 1
  const MaxYear := 9999
  /** The ordinal of 31 December 9999, the last date Python can represent. */
  const MaxOrdinal := 3652059

  predicate IsLeap(y: int) {
    y % 4 == 0 && (y % 100 != 0 || y % 400 == 0)
  }

  function DaysInYear(y: int): int {
    if IsLeap(y) then 366 else 365
  }

  function DaysInMonth(y: int, m: int): (n: int)
    requires 1 <= m <= 12
    ensures 28 <= n <= 31
  {
    if m == 2 then (if IsLeap(y) then 29 else 28)
    else if m == 4 || m == 6 || m == 9 || m == 11 then 30
    else 31
  }

  /** The date exists: a representable year, a month, and a day within that month. */
  predicate ValidDate(d: Date) {
    && MinYear <= d.year <= MaxYear
    && 1 <= d.month <= 12
    && 1 <= d.day <= DaysInMonth(d.year, d.month)
  }

  /** Days in the years before year `y`, counted year by year.
      DaysBeforeYearClosedForm shows it equals the closed formula Python
      uses for `toordinal()`. */
  function DaysBeforeYear(y: int): int
    requires y >= 1
  {
    if y == 1 then 0 else DaysBeforeYear(y - 1) + DaysInYear(y - 1)
  }

  /** Days in the months of year `y` before month `m`. */
  function DaysBeforeMonth(y: int, m: int): int
    requires 1 <= m <= 12
  {
    var table := [0, 31, 59, 90, 120, 151, 181, 212, 243, 273, 304, 334];
    table[m - 1] + (if m > 2 && IsLeap(y) then 1 else 0)
  }

  /** Python's `date.toordinal()`. */
  function Ordinal(d: Date): (o: int)
    requires d.year >= 1 && 1 <= d.month <= 12
    ensures ValidDate(d) ==> DaysBeforeYear(d.year) < o <= DaysBeforeYear(d.year) + DaysInYear(d.year)
  {
    DaysBeforeYear(d.year) + DaysBeforeMonth(d.year, d.month) + d.day
  }

  /** The weekday of the date with ordinal `n`, Monday = 0 (Python's `date.weekday()`). */
  function WeekdayOfOrdinal(n: int): int {
    (n + 6) % 7
  }

  function Weekday(d: Date): (w: int)
    requires d.year >= 1 && 1 <= d.month <= 12
    ensures 0 <= w < 7
  {
    WeekdayOfOrdinal(Ordinal(d))
  }

  predicate IsWeekend(d: Date)
    requires d.year >= 1 && 1 <= d.month <= 12
  {
    Weekday(d) == 5 || Weekday(d) == 6
  }

  predicate IsLastDate(d: Date) {
    d.year == MaxYear && d.month == 12 && d.day == 31
  }

  /** The calendar order in which Python compares dates: year, then month, then day. */
  predicate CalendarBefore(a: Date, b: Date) {
    || a.year < b.year
    || (a.year == b.year && a.month < b.month)
    || (a.year == b.year && a.month == b.month && a.day < b.day)
  }

  /** The day after `d`: `d + timedelta(days=1)`. */
  function NextDay(d: Date): (r: Date)
    requires ValidDate(d) && !IsLastDate(d)
    ensures ValidDate(r)
    ensures Ordinal(r) == Ordinal(d) + 1
    ensures CalendarBefore(d, r)
  {
    if d.day < DaysInMonth(d.year, d.month) then
      Date(d.year, d.month, d.day + 1)
    else if d.month < 12 then
      DaysBeforeMonthStep(d.year, d.month);
      Date(d.year, d.month + 1, 1)
    else
      DaysBeforeYearStep(d.year);
      Date(d.year + 1, 1, 1)
  }

  /** `d + timedelta(days=n)` for a non-negative `n`. */
  function AddDays(d: Date, n: nat): (r: Date)
    requires ValidDate(d) && Ordinal(d) + n <= MaxOrdinal
    ensures ValidDate(r)
    ensures Ordinal(r) == Ordinal(d) + n
    decreases n
  {
    if n == 0 then d
    else
      LastDateOrdinal(d);
      AddDays(NextDay(d), n - 1)
  }

  /** `d.replace(year=y)`: the same month and day in year `y`, or the
      ValueError Python raises when that date does not exist. */
  function ReplaceYear(d: Date, y: int): (r: Result<Date>)
    requires ValidDate(d)
    ensures r.Ok? ==> ValidDate(r.value) && r.value == Date(y, d.month, d.day)
    ensures r.Ok? <==> MinYear <= y <= MaxYear && !(d.month == 2 && d.day == 29 && !IsLeap(y))
    ensures r.Err? ==> r.error == ValueError
  {
    var candidate := Date(y, d.month, d.day);
    if ValidDate(candidate) then Ok(candidate) else Err(ValueError)
  }

  // ---------------------------------------------------------------------
  // Facts about ordinals

  lemma DaysBeforeMonthStep(y: int, m: int)
    requires 1 <= m < 12
    ensures DaysBeforeMonth(y, m + 1) == DaysBeforeMonth(y, m) + DaysInMonth(y, m)
  {
  }

  /** A year contributes exactly its own length to the ordinals of later years. */
  lemma DaysBeforeYearStep(y: int)
    requires y >= 1
    ensures DaysBeforeYear(y + 1) == DaysBeforeYear(y) + DaysInYear(y)
  {
  }

  /** Python's `_days_before_year(y)`: `p*365 + p//4 - p//100 + p//400`
      with `p = y - 1`. */
  function ClosedDaysBeforeYear(y: int): int {
    var p := y - 1;
    p * 365 + p / 4 - p / 100 + p / 400
  }

  /** Going from `p - 1` to `p`, `p / 4` grows exactly when 4 divides `p`;
      likewise for 100 and 400. */
  lemma QuarterStep(p: int)
    ensures p / 4 - (p - 1) / 4 == if p % 4 == 0 then 1 else 0
  {
  }

  lemma CenturyStep(p: int)
    ensures p / 100 - (p - 1) / 100 == if p % 100 == 0 then 1 else 0
  {
  }

  lemma QuadCenturyStep(p: int)
    ensures p / 400 - (p - 1) / 400 == if p % 400 == 0 then 1 else 0
  {
  }

  /** A multiple of 400 is a multiple of 100, and a multiple of 100 is a multiple of 4. */
  lemma DivisorChain(p: int)
    ensures p % 400 == 0 ==> p % 100 == 0
    ensures p % 100 == 0 ==> p % 4 == 0
  {
    var q := p / 400;
    var c := p / 100;
    if p % 400 == 0 {
      assert p == 400 * q;
      assert p == 100 * (4 * q) + 0;
    }
    if p % 100 == 0 {
      assert p == 100 * c;
      assert p == 4 * (25 * c) + 0;
    }
  }

  lemma ClosedDaysBeforeYearStep(y: int)
    requires y > 1
    ensures ClosedDaysBeforeYear(y) == ClosedDaysBeforeYear(y - 1) + DaysInYear(y - 1)
  {
    var p := y - 1;
    QuarterStep(p);
    CenturyStep(p);
    QuadCenturyStep(p);
    DivisorChain(p);
  }

  lemma {:induction false} DaysBeforeYearClosedForm(y: int)
    requires y >= 1
    ensures DaysBeforeYear(y) == ClosedDaysBeforeYear(y)
    decreases y
  {
    if y > 1 {
      DaysBeforeYearClosedForm(y - 1);
      ClosedDaysBeforeYearStep(y);
    }
  }

  /** The months of a year fill exactly that year. */
  lemma DayOfYearBounds(d: Date)
    requires ValidDate(d)
    ensures 1 <= DaysBeforeMonth(d.year, d.month) + d.day <= DaysInYear(d.year)
  {
  }

  lemma {:induction false} DaysBeforeYearMonotone(y1: int, y2: int)
    requires 1 <= y1 <= y2
    ensures DaysBeforeYear(y2) >= DaysBeforeYear(y1) + 365 * (y2 - y1)
    decreases y2 - y1
  {
    if y1 < y2 {
      DaysBeforeYearMonotone(y1, y2 - 1);
      DaysBeforeYearStep(y2 - 1);
    }
  }

  lemma {:induction false} DaysBeforeMonthMonotone(y: int, m1: int, m2: int)
    requires 1 <= m1 < m2 <= 12
    ensures DaysBeforeMonth(y, m1) + DaysInMonth(y, m1) <= DaysBeforeMonth(y, m2)
    decreases m2 - m1
  {
    DaysBeforeMonthStep(y, m1);
    if m1 + 1 < m2 {
      DaysBeforeMonthMonotone(y, m1 + 1, m2);
    }
  }

  /** Comparing ordinals is comparing dates in calendar order, so the model
      may compare dates by their ordinals exactly where Python compares them. */
  lemma OrdinalOrder(a: Date, b: Date)
    requires ValidDate(a) && ValidDate(b)
    ensures Ordinal(a) < Ordinal(b) <==> CalendarBefore(a, b)
    ensures Ordinal(a) == Ordinal(b) <==> a == b
  {
    DayOfYearBounds(a);
    DayOfYearBounds(b);
    if a.year < b.year {
      DaysBeforeYearStep(a.year);
      DaysBeforeYearMonotone(a.year + 1, b.year);
    } else if b.year < a.year {
      DaysBeforeYearStep(b.year);
      DaysBeforeYearMonotone(b.year + 1, a.year);
    } else if a.month < b.month {
      DaysBeforeMonthMonotone(a.year, a.month, b.month);
    } else if b.month < a.month {
      DaysBeforeMonthMonotone(a.year, b.month, a.month);
    }
  }

  /** Every representable date has an ordinal between 1 and MaxOrdinal, and
      only the last one reaches MaxOrdinal. */
  lemma LastDateOrdinal(d: Date)
    requires ValidDate(d)
    ensures 1 <= Ordinal(d) <= MaxOrdinal
    ensures Ordinal(d) == MaxOrdinal <==> IsLastDate(d)
  {
    var last := Date(MaxYear, 12, 31);
    DaysBeforeYearClosedForm(MaxYear);
    assert Ordinal(last) == MaxOrdinal;
    OrdinalOrder(d, last);
    DayOfYearBounds(d);
    DaysBeforeYearMonotone(1, d.year);
  }

  /** Moving `k` days forward moves the weekday `k` steps around the week. */
  lemma WeekdayShift(n: int, k: int)
    ensures WeekdayOfOrdinal(n + k) == (WeekdayOfOrdinal(n) + k) % 7
  {
    var a := n + 6;
    assert a == 7 * (a / 7) + a % 7;
    assert a + k == 7 * (a / 7) + (a % 7 + k);
  }

  /** Going forward `target - w + 7` days from weekday `w` lands on weekday `target`. */
  lemma WeekdayReached(n: int, k: int, target: int)
    requires 0 <= target <= 6
    requires k == target - WeekdayOfOrdinal(n) + 7
    ensures WeekdayOfOrdinal(n + k) == target
  {
    WeekdayShift(n, k);
  }

  /** The weekday of `AddDays(d, k)` when `k` is the number of days from
      the weekday of `d` to the next `target` after it. */
  lemma AddDaysReaches(d: Date, k: nat, target: int)
    requires ValidDate(d) && Ordinal(d) + k <= MaxOrdinal
    requires 0 <= target <= 6
    requires k == target - Weekday(d) + 7
    ensures Weekday(AddDays(d, k)) == target
  {
    var o, r := Ordinal(d), AddDays(d, k);
    WeekdayReached(o, k, target);
    assert Ordinal(r) == o + k;
  }

  /** The same month and day one year later lies at least 365 days later. */
  lemma AnniversaryGap(y: int, m: int, dd: int)
    requires ValidDate(Date(y, m, dd)) && ValidDate(Date(y + 1, m, dd))
    ensures Ordinal(Date(y + 1, m, dd)) >= Ordinal(Date(y, m, dd)) + 365
  {
    DaysBeforeYearStep(y);
  }
}
