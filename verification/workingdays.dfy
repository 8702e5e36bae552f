/** Working days of a month: the Monday-to-Friday count both the payroll service and its
    controller compute with `new Date`, and the service's fixed fallback table. */
module WorkingDays {
  import opened Calendar

  /** `getDay()` between 1 (Monday) and 5 (Friday). */
  predicate IsWorkday(n: int) { 1 <= WeekdayOf(n) <= 5 }

  function WorkdayWeight(n: int): (w: nat)
    ensures w <= 1
  {
    if IsWorkday(n) then 1 else 0
  }

  /** Number of working days among the `count` consecutive day numbers from `start`. */
  function CountWorkdays(start: int, count: nat): (c: nat)
    ensures c <= count
  {
    if count == 0 then 0 else CountWorkdays(start, count - 1) + WorkdayWeight(start + count - 1)
  }

  /** The (year, month) that `new Date(year, month - 1, day)` falls in for a day of that month:
      `month` may lie outside 1..12 and rolls over into the year, and two-digit years are 19xx. */
  function JsMonth(year: int, month: int): (r: (int, int))
    ensures 1 <= r.1 <= 12
  {
    (JsYear(year) + (month - 1) / 12, (month - 1) % 12 + 1)
  }

  /** Working days of the calendar month `m` of year `y`. */
  function MonthWorkdays(y: int, m: int): nat
    requires 1 <= m <= 12
  {
    CountWorkdays(DayNumber(Date(y, m, 1)), DaysInMonth(y, m))
  }

  function Max(a: int, b: int): int { if a >= b then a else b }

  /** The day after a Saturday is a Sunday; otherwise the weekday moves on by one. */
  lemma NextWeekday(n: int)
    ensures WeekdayOf(n + 1) == if WeekdayOf(n) == 6 then 0 else WeekdayOf(n) + 1
  {
    var q, r := (n + 4) / 7, (n + 4) % 7;
    if r == 6 {
      DivUnique(n + 5, 7, q + 1, 0);
    } else {
      DivUnique(n + 5, 7, q, r + 1);
    }
  }

  /** Any seven consecutive days hold exactly five working days. */
  lemma WeekSum(b: int)
    ensures WorkdayWeight(b) + WorkdayWeight(b + 1) + WorkdayWeight(b + 2) + WorkdayWeight(b + 3)
      + WorkdayWeight(b + 4) + WorkdayWeight(b + 5) + WorkdayWeight(b + 6) == 5
  {
    NextWeekday(b);
    NextWeekday(b + 1);
    NextWeekday(b + 2);
    NextWeekday(b + 3);
    NextWeekday(b + 4);
    NextWeekday(b + 5);
  }

  /** Seven more days add exactly five working days. */
  lemma WeekAddsFive(start: int, count: nat)
    ensures CountWorkdays(start, count + 7) == CountWorkdays(start, count) + 5
  {
    var b := start + count;
    assert CountWorkdays(start, count + 7) == CountWorkdays(start, count + 6) + WorkdayWeight(b + 6);
    assert CountWorkdays(start, count + 6) == CountWorkdays(start, count + 5) + WorkdayWeight(b + 5);
    assert CountWorkdays(start, count + 5) == CountWorkdays(start, count + 4) + WorkdayWeight(b + 4);
    assert CountWorkdays(start, count + 4) == CountWorkdays(start, count + 3) + WorkdayWeight(b + 3);
    assert CountWorkdays(start, count + 3) == CountWorkdays(start, count + 2) + WorkdayWeight(b + 2);
    assert CountWorkdays(start, count + 2) == CountWorkdays(start, count + 1) + WorkdayWeight(b + 1);
    assert CountWorkdays(start, count + 1) == CountWorkdays(start, count) + WorkdayWeight(b);
    WeekSum(b);
  }

  /** `CountWorkdays` only grows with more days, by at most one a day. */
  lemma {:induction false} CountSplit(start: int, a: nat, b: nat)
    requires a <= b
    ensures CountWorkdays(start, a) <= CountWorkdays(start, b) <= CountWorkdays(start, a) + (b - a)
    decreases b - a
  {
    if a < b {
      CountSplit(start, a, b - 1);
    }
  }

  /** A month of 28 to 31 days always has 20 to 23 working days. */
  lemma FourWeeksAndSome(start: int, count: nat)
    requires 28 <= count <= 31
    ensures 20 <= CountWorkdays(start, count) <= 23
  {
    WeekAddsFive(start, 0);
    WeekAddsFive(start, 7);
    WeekAddsFive(start, 14);
    WeekAddsFive(start, 21);
    CountSplit(start, 28, count);
  }

  lemma MonthWorkdaysRange(y: int, m: int)
    requires 1 <= m <= 12
    ensures 20 <= MonthWorkdays(y, m) <= 23
  {
    FourWeeksAndSome(DayNumber(Date(y, m, 1)), DaysInMonth(y, m));
  }

  /** The month before the one `JsMonth(year, month + 1)` names is `JsMonth(year, month)`. */
  lemma JsMonthPrev(year: int, month: int)
    ensures var (y, m) := JsMonth(year, month + 1);
      PrevMonth(y, m) == JsMonth(year, month)
  {
    var q, r := month / 12, month % 12;
    if r == 0 {
      DivUnique(month - 1, 12, q - 1, 11);
    } else {
      DivUnique(month - 1, 12, q, r - 1);
    }
  }

  /** `new Date(year, month, 0).getDate()`: day 0 of the following month is the last day of
      month `month`. */
  lemma LastDayOfMonth(year: int, month: int)
    ensures var (y, m) := JsMonth(year, month);
      JsDate(year, month, 0) == Date(y, m, DaysInMonth(y, m))
  {
    JsMonthPrev(year, month);
    var ym := JsMonth(year, month);
    var ny, nm := JsYear(year) + month / 12, month % 12 + 1;
    assert JsMonth(year, month + 1) == (ny, nm);
    assert JsDate(year, month, 0) == Normalize(ny, nm, 0);
    PreviousMonthEnd(ny, nm);
    NormalizeInMonth(ym.0, ym.1, DaysInMonth(ym.0, ym.1));
  }

  /** Day 0 of a month is the last day of the month before. */
  lemma PreviousMonthEnd(y: int, m: int)
    requires 1 <= m <= 12
    ensures var (py, pm) := PrevMonth(y, m);
      Normalize(y, m, 0) == Normalize(py, pm, DaysInMonth(py, pm))
  {
  }

  /** Day `jour` of the month `new Date(year, month - 1, jour)` addresses. */
  lemma JsDayNumber(year: int, month: int, jour: int)
    ensures var (y, m) := JsMonth(year, month);
      DayNumber(JsDate(year, month - 1, jour)) == DayNumber(Date(y, m, 1)) + jour - 1
  {
    var y, m := JsYear(year) + (month - 1) / 12, (month - 1) % 12 + 1;
    assert JsMonth(year, month) == (y, m);
  }

  /** `calculerJoursOuvrables` (service and controller alike): counts the days `1..joursDansMois`
      of the month whose `getDay()` is 1 to 5 and returns at least 1. The fallback in its `catch`
      cannot be reached, since `new Date` with numbers never throws. */
  method CalculerJoursOuvrables(year: int, month: int) returns (r: int)
    ensures var (y, m) := JsMonth(year, month);
      r == Max(MonthWorkdays(y, m), 1)
    ensures 20 <= r <= 23
  {
    var (y, m) := JsMonth(year, month);
    var joursDansMois := JsDate(year, month, 0).day;
    LastDayOfMonth(year, month);
    ghost var first := DayNumber(Date(y, m, 1));
    var joursOuvrables := 0;
    var jour := 1;
    while jour <= joursDansMois
      invariant 1 <= jour <= joursDansMois + 1
      invariant joursOuvrables == CountWorkdays(first, jour - 1)
    {
      var ouvrable := IsWorkingDay(year, month, jour);
      if ouvrable {
        joursOuvrables := joursOuvrables + 1;
      }
      jour := jour + 1;
    }
    MonthWorkdaysRange(y, m);
    r := Max(joursOuvrables, 1);
  }

  /** `getDay()` of day `jour` of the month, between 1 and 5. */
  method IsWorkingDay(year: int, month: int, jour: int) returns (b: bool)
    ensures var (y, m) := JsMonth(year, month);
      b == IsWorkday(DayNumber(Date(y, m, 1)) + jour - 1)
  {
    var date := JsDate(year, month - 1, jour);
    JsDayNumber(year, month, jour);
    var jourSemaine := Weekday(date);
    b := jourSemaine >= 1 && jourSemaine <= 5;
  }

  /** `getJoursOuvrablesParDefaut`: the fixed table by month number, 22 for any other number. */
  function DefaultWorkingDays(month: int): (r: int)
    ensures 20 <= r <= 23
    ensures !(1 <= month <= 12) ==> r == 22
  {
    if month == 1 then 22 else if month == 2 then 20 else if month == 3 then 23
    else if month == 4 then 21 else if month == 5 then 22 else if month == 6 then 22
    else if month == 7 then 21 else if month == 8 then 23 else if month == 9 then 21
    else if month == 10 then 22 else if month == 11 then 22 else if month == 12 then 20
    else 22
  }
}
