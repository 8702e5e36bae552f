/** The proleptic Gregorian calendar the programs' date arithmetic runs on: JavaScript `Date`
    and Python `datetime` agree on it. Days are numbered from 1970-01-01 (day 0, a Thursday),
    and `Normalize` is the roll-over `new Date(year, monthIndex, day)` and `setDate` perform
    when the day lies outside its month. */
module Calendar {

  datatype Date = Date(year: int, month: int, day: int)

  predicate IsLeap(y: int) { y % 4 == 0 && (y % 100 != 0 || y % 400 == 0) }

  function DaysInYear(y: int): int { if IsLeap(y) then 366 else 365 }

  function DaysInMonth(y: int, m: int): (n: int)
    requires 1 <= m <= 12
    ensures 28 <= n <= 31
  {
    if m == 2 then (if IsLeap(y) then 29 else 28)
    else if m == 4 || m == 6 || m == 9 || m == 11 then 30
    else 31
  }

  /** A calendar date: a month of the year and a day of that month. */
  predicate Valid(d: Date)
  {
    1 <= d.month <= 12 && 1 <= d.day <= DaysInMonth(d.year, d.month)
  }

  /** Days of the year `y` before the first of month `m`. */
  function DaysBeforeMonth(y: int, m: int): (n: int)
    requires 1 <= m <= 12
    ensures 0 <= n <= 334 + 1
  {
    var common :=
      if m == 1 then 0 else if m == 2 then 31 else if m == 3 then 59 else if m == 4 then 90
      else if m == 5 then 120 else if m == 6 then 151 else if m == 7 then 181
      else if m == 8 then 212 else if m == 9 then 243 else if m == 10 then 273
      else if m == 11 then 304 else 334;
    if m > 2 && IsLeap(y) then common + 1 else common
  }

  /** Leap years among 1..z (for z >= 0; the same formula extends to earlier years). */
  function Leaps(z: int): int { z / 4 - z / 100 + z / 400 }

  /** Day number of the first of January of year `y`. */
  function DaysBeforeYear(y: int): int
  {
    365 * (y - 1970) + Leaps(y - 1) - Leaps(1969)
  }

  /** Day number of a date (days since 1970-01-01). */
  function DayNumber(d: Date): int
    requires 1 <= d.month <= 12
  {
    DaysBeforeYear(d.year) + DaysBeforeMonth(d.year, d.month) + d.day - 1
  }

  /** Day of the week of a day number, 0 for Sunday to 6 for Saturday (`getDay()`). */
  function WeekdayOf(n: int): (w: int)
    ensures 0 <= w < 7
  {
    (n + 4) % 7
  }

  function Weekday(d: Date): (w: int)
    requires 1 <= d.month <= 12
    ensures 0 <= w < 7
  {
    WeekdayOf(DayNumber(d))
  }

  function NextMonth(y: int, m: int): (r: (int, int))
    requires 1 <= m <= 12
    ensures 1 <= r.1 <= 12
  {
    if m == 12 then (y + 1, 1) else (y, m + 1)
  }

  function PrevMonth(y: int, m: int): (r: (int, int))
    requires 1 <= m <= 12
    ensures 1 <= r.1 <= 12
    ensures NextMonth(r.0, r.1) == (y, m)
  {
    if m == 1 then (y - 1, 12) else (y, m - 1)
  }

  lemma {:induction false} MulAtLeast(n: int, k: int)
    requires n > 0 && k >= 1
    ensures n * k >= n
    decreases k
  {
    if k > 1 {
      MulAtLeast(n, k - 1);
      assert n * k == n * (k - 1) + n;
    }
  }

  /** Euclidean quotients are unique. */
  lemma DivUnique(a: int, n: int, q: int, r: int)
    requires n > 0 && 0 <= r < n && a == n * q + r
    ensures a / n == q
  {
    var q', r' := a / n, a % n;
    assert n * q' + r' == n * q + r;
    if q' < q {
      assert n * (q - q') == r' - r;
      MulAtLeast(n, q - q');
    } else if q' > q {
      assert n * (q' - q) == r - r';
      MulAtLeast(n, q' - q);
    }
  }

  lemma DivStep(y: int, n: int)
    requires n > 0
    ensures y / n - (y - 1) / n == if y % n == 0 then 1 else 0
  {
    var q, r := y / n, y % n;
    if r == 0 {
      DivUnique(y - 1, n, q - 1, n - 1);
    } else {
      DivUnique(y - 1, n, q, r - 1);
    }
  }

  lemma LeapStep(y: int)
    ensures Leaps(y) - Leaps(y - 1) == if IsLeap(y) then 1 else 0
  {
    DivStep(y, 4);
    DivStep(y, 100);
    DivStep(y, 400);
    assert y % 100 == 0 ==> y % 4 == 0;
    assert y % 400 == 0 ==> y % 100 == 0;
  }

  lemma YearStep(y: int)
    ensures DaysBeforeYear(y + 1) == DaysBeforeYear(y) + DaysInYear(y)
  {
    LeapStep(y);
  }

  /** The first of the next month comes `DaysInMonth` days after the first of this one. */
  lemma MonthStep(y: int, m: int)
    requires 1 <= m <= 12
    ensures var (ny, nm) := NextMonth(y, m);
      DayNumber(Date(ny, nm, 1)) == DayNumber(Date(y, m, 1)) + DaysInMonth(y, m)
  {
    if m == 12 { YearStep(y); }
  }

  /** `new Date(y, m - 1, d)` for a day outside month `m` of year `y`: the date `d - 1` days
      after the first of that month. */
  function Normalize(y: int, m: int, d: int): (r: Date)
    requires 1 <= m <= 12
    ensures Valid(r)
    ensures DayNumber(r) == DayNumber(Date(y, m, 1)) + d - 1
    decreases if d < 1 then 1 - d else 0, if d > 0 then d else 0
  {
    if d < 1 then
      var (py, pm) := PrevMonth(y, m);
      MonthStep(py, pm);
      Normalize(py, pm, d + DaysInMonth(py, pm))
    else if d > DaysInMonth(y, m) then
      var (ny, nm) := NextMonth(y, m);
      MonthStep(y, m);
      Normalize(ny, nm, d - DaysInMonth(y, m))
    else
      Date(y, m, d)
  }

  /** The date `k` days after `d` (`setDate(getDate() + k)`). */
  function AddDays(d: Date, k: int): (r: Date)
    requires 1 <= d.month <= 12
    ensures Valid(r) && DayNumber(r) == DayNumber(d) + k
  {
    Normalize(d.year, d.month, d.day + k)
  }

  /** The year JavaScript's `Date` constructor uses: 0..99 mean 1900..1999. */
  function JsYear(y: int): int { if 0 <= y <= 99 then 1900 + y else y }

  /** `new Date(year, monthIndex, day)`: the month index rolls over into the year, the day into
      the months. */
  function JsDate(year: int, monthIndex: int, day: int): (r: Date)
    ensures Valid(r)
    ensures DayNumber(r) == DayNumber(Date(JsYear(year) + monthIndex / 12, monthIndex % 12 + 1, 1)) + day - 1
  {
    Normalize(JsYear(year) + monthIndex / 12, monthIndex % 12 + 1, day)
  }

  lemma NormalizeInMonth(y: int, m: int, d: int)
    requires 1 <= m <= 12 && 1 <= d <= DaysInMonth(y, m)
    ensures Normalize(y, m, d) == Date(y, m, d)
  {
  }

  /** Day numbers grow by at least 365 a year. */
  lemma {:induction false} YearsApart(a: int, b: int)
    requires a <= b
    ensures DaysBeforeYear(a) + 365 * (b - a) <= DaysBeforeYear(b)
    decreases b - a
  {
    if a < b {
      YearsApart(a, b - 1);
      YearStep(b - 1);
    }
  }

  /** A valid date lies within its year's range of day numbers. */
  lemma DayNumberInYear(d: Date)
    requires Valid(d)
    ensures DaysBeforeYear(d.year) <= DayNumber(d) < DaysBeforeYear(d.year + 1)
  {
    YearStep(d.year);
  }

  /** The year of a valid date is determined by its day number. */
  lemma YearOfDayNumber(d: Date, y: int)
    requires Valid(d)
    requires DaysBeforeYear(y) <= DayNumber(d) < DaysBeforeYear(y + 1)
    ensures d.year == y
  {
    DayNumberInYear(d);
    if d.year < y {
      YearsApart(d.year + 1, y);
    } else if d.year > y {
      YearsApart(y + 1, d.year);
    }
  }
}
