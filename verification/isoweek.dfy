/** ISO 8601 week numbers as the planning import computes them (`getISOWeek`) and reads them
    back into dates (`calculateDate`). A week runs from Monday to Sunday and belongs to the year
    of its Thursday; week 1 is the week holding the year's first Thursday, which is also the
    week holding the 4th of January. */
module IsoWeek {
  import opened Basics
  import opened Text
  import opened Calendar
  import opened NumberParsing

  // ---------------------------------------------------------------- days of the week

  /** `getDay() || 7`: 1 for Monday to 7 for Sunday, of a day number. */
  function IsoDayOf(n: int): (k: int)
    ensures 1 <= k <= 7 && k % 7 == WeekdayOf(n)
  {
    if WeekdayOf(n) == 0 then 7 else WeekdayOf(n)
  }

  function IsoDay(d: Date): (k: int)
    requires 1 <= d.month <= 12
    ensures 1 <= k <= 7
  {
    IsoDayOf(DayNumber(d))
  }

  /** Seven days later is the same day of the week. */
  lemma WeekLater(n: int, q: int)
    ensures IsoDayOf(n + 7 * q) == IsoDayOf(n)
  {
    DivUnique(n + 4 + 7 * q, 7, (n + 4) / 7 + q, (n + 4) % 7);
  }

  /** Moving within one Monday-to-Sunday week moves the day of the week by as much. */
  lemma IsoDayAfter(n: int, k: int)
    requires 1 <= IsoDayOf(n) + k <= 7
    ensures IsoDayOf(n + k) == IsoDayOf(n) + k
  {
    var i := IsoDayOf(n);
    var q := (n + 4) / 7;
    if i == 7 {
      if k < 0 {
        DivUnique(n + k + 4, 7, q - 1, i + k);
      }
    } else if i + k == 7 {
      DivUnique(n + k + 4, 7, q + 1, 0);
    } else {
      DivUnique(n + k + 4, 7, q, i + k);
    }
  }

  /** The months of a year follow each other without gaps. */
  lemma MonthsApart(y: int, a: int, b: int)
    requires 1 <= a < b <= 12
    ensures DaysBeforeMonth(y, a) + DaysInMonth(y, a) <= DaysBeforeMonth(y, b)
  {
  }

  /** A valid date is determined by its day number. */
  lemma SameDate(a: Date, b: Date)
    requires Valid(a) && Valid(b) && DayNumber(a) == DayNumber(b)
    ensures a == b
  {
    DayNumberInYear(b);
    YearOfDayNumber(a, b.year);
    if a.month < b.month {
      MonthsApart(a.year, a.month, b.month);
    } else if b.month < a.month {
      MonthsApart(a.year, b.month, a.month);
    }
  }

  // ---------------------------------------------------------------- week numbers

  /** The Thursday of the Monday-to-Sunday week holding `d`. */
  function ThursdayOf(d: Date): (t: Date)
    requires 1 <= d.month <= 12
    ensures Valid(t) && IsoDay(t) == 4
    ensures DayNumber(t) == DayNumber(d) + 4 - IsoDay(d)
  {
    IsoDayAfter(DayNumber(d), 4 - IsoDay(d));
    AddDays(d, 4 - IsoDay(d))
  }

  /** The Monday of the week holding `d`. */
  function MondayOf(d: Date): (m: Date)
    requires 1 <= d.month <= 12
    ensures Valid(m) && IsoDay(m) == 1
    ensures DayNumber(m) == DayNumber(d) + 1 - IsoDay(d)
    ensures DayNumber(m) <= DayNumber(d) < DayNumber(m) + 7
  {
    IsoDayAfter(DayNumber(d), 1 - IsoDay(d));
    AddDays(d, 1 - IsoDay(d))
  }

  /** The year a week belongs to: the year of its Thursday. */
  function IsoYear(d: Date): int
    requires 1 <= d.month <= 12
  {
    ThursdayOf(d).year
  }

  /** `Math.ceil(a / 7)`. */
  function CeilDiv7(a: int): (q: int)
    ensures 7 * (q - 1) < a <= 7 * q
  {
    (a + 6) / 7
  }

  /** `getISOWeek`: the number of the week holding the date, counted from the week holding its
      year's first Thursday; an invalid date (`None`) gives 1. */
  function GetIsoWeek(d: Option<Date>): (w: int)
    requires d.Some? ==> Valid(d.value)
    ensures 1 <= w <= 53
    ensures d.Some? ==>
      (w == 1 <==> ThursdayOf(d.value).month == 1 && ThursdayOf(d.value).day <= 7)
  {
    if d.None? then 1
    else
      var t := ThursdayOf(d.value);
      var yearStart := DaysBeforeYear(t.year);
      DayNumberInYear(t);
      YearStep(t.year);
      assert t.month > 1 ==> DaysBeforeMonth(t.year, t.month) >= 31;
      CeilDiv7(DayNumber(t) - yearStart + 1)
  }

  /** The Monday of week `w` of year `y`, defined from the 4th of January, which always lies in
      week 1. */
  function IsoWeekStart(y: int, w: int): (m: Date)
    ensures Valid(m) && IsoDay(m) == 1
    ensures DayNumber(m) == DayNumber(Date(y, 1, 4)) + 1 - IsoDay(Date(y, 1, 4)) + 7 * (w - 1)
  {
    var jan4 := Date(y, 1, 4);
    IsoDayAfter(DayNumber(jan4), 1 - IsoDay(jan4));
    WeekLater(DayNumber(jan4) + 1 - IsoDay(jan4), w - 1);
    AddDays(jan4, 1 - IsoDay(jan4) + 7 * (w - 1))
  }

  /** Reading a date's week back gives the Monday of that date's week: `IsoWeekStart` inverts
      `GetIsoWeek` together with the week's year. */
  lemma IsoWeekRoundTrip(d: Date)
    requires Valid(d)
    ensures IsoWeekStart(IsoYear(d), GetIsoWeek(Some(d))) == MondayOf(d)
  {
    var t := ThursdayOf(d);
    var y := t.year;
    var j := DaysBeforeYear(y);
    DayNumberInYear(t);
    var off := DayNumber(t) - j;
    CeilDiv7Next(off);
    assert GetIsoWeek(Some(d)) == off / 7 + 1;
    FourthOfJanuary(j, off);
    var start := IsoWeekStart(y, off / 7 + 1);
    assert DayNumber(start) == j + off - 3 by {
      IsoWeekStartNumber(y, off / 7 + 1);
      WeekStartNumber(j, off, IsoDayOf(j + 3));
    }
    SameDate(start, MondayOf(d));
  }

  /** The day number of the Monday of week `w`, from the day number of the year's 1st of
      January. */
  lemma IsoWeekStartNumber(y: int, w: int)
    ensures var j := DaysBeforeYear(y);
      DayNumber(IsoWeekStart(y, w)) == j + 3 + 1 - IsoDayOf(j + 3) + 7 * (w - 1)
  {
    Jan4(y);
  }

  lemma Jan4(y: int)
    ensures DayNumber(Date(y, 1, 4)) == DaysBeforeYear(y) + 3
  {
  }

  lemma CeilDiv7Next(off: int)
    requires off >= 0
    ensures CeilDiv7(off + 1) == off / 7 + 1
  {
    DivUnique(off + 7, 7, off / 7 + 1, off % 7);
  }

  /** The Monday of the week of the day `off` days into the year, counted from the Monday of the
      week of the 4th of January. */
  lemma WeekStartNumber(j: int, off: int, i4: int)
    requires off >= 0 && i4 == 7 - off % 7
    ensures j + 3 + 1 - i4 + 7 * (off / 7 + 1 - 1) == j + off - 3
  {
  }

  /** When the day `off` days after day `j` is a Thursday, the 4th of January (`j + 3`) is
      `7 - off % 7` in the week. */
  lemma FourthOfJanuary(j: int, off: int)
    requires off >= 0 && IsoDayOf(j + off) == 4
    ensures IsoDayOf(j + 3) == 7 - off % 7
  {
    var r := off % 7;
    assert j + off == (j + r) + 7 * (off / 7);
    WeekLater(j + r, off / 7);
    IsoDayAfter(j + r, 3 - r);
  }

  /** And the other way round: the Monday of week `w` (1..52) of year `y` lies in week `w` of
      year `y`. */
  lemma IsoWeekOfStart(y: int, w: int)
    requires 1 <= w <= 52
    ensures GetIsoWeek(Some(IsoWeekStart(y, w))) == w && IsoYear(IsoWeekStart(y, w)) == y
  {
    var m := IsoWeekStart(y, w);
    var t := ThursdayOf(m);
    var j := DaysBeforeYear(y);
    var i4 := IsoDayOf(j + 3);
    assert DayNumber(t) == j + 7 - i4 + 7 * (w - 1);
    YearStep(y);
    YearOfDayNumber(t, y);
    DivUnique(DayNumber(t) - j + 7, 7, w, 7 - i4);
  }

  /** Day `i` (0..6) after a week's Monday is the `i + 1`-th day of the week, Monday to Sunday,
      and the next index is the next day. */
  lemma DaysOfWeek(y: int, w: int, i: int)
    requires 0 <= i < 7
    ensures IsoDay(AddDays(IsoWeekStart(y, w), i)) == i + 1
    ensures AddDays(IsoWeekStart(y, w), i + 1) == AddDays(AddDays(IsoWeekStart(y, w), i), 1)
  {
    DaysFromMonday(IsoWeekStart(y, w), i);
  }

  lemma DaysFromMonday(m: Date, i: int)
    requires Valid(m) && IsoDay(m) == 1 && 0 <= i < 7
    ensures IsoDay(AddDays(m, i)) == i + 1
    ensures AddDays(m, i + 1) == AddDays(AddDays(m, i), 1)
  {
    IsoDayAfter(DayNumber(m), i);
    NextDay(m, i);
  }

  /** `k + 1` days on is one day after `k` days on. */
  lemma NextDay(m: Date, k: int)
    requires Valid(m)
    ensures AddDays(m, k + 1) == AddDays(AddDays(m, k), 1)
  {
    SameDate(AddDays(m, k + 1), AddDays(AddDays(m, k), 1));
  }

  // ---------------------------------------------------------------- reading a week back

  /** Index of the first `-W` in `s`, or `|s|`. */
  function MarkerAt(s: string): (i: nat)
    ensures i <= |s|
    ensures i < |s| ==> i + 1 < |s| && s[i] == '-' && s[i + 1] == 'W'
    ensures forall j :: 0 <= j < i && j + 1 < |s| ==> !(s[j] == '-' && s[j + 1] == 'W')
  {
    if |s| < 2 then |s|
    else if s[0] == '-' && s[1] == 'W' then 0
    else 1 + MarkerAt(s[1..])
  }

  /** The second field of `week.split('-W')`; `None` is the `undefined` a label without `-W`
      gives. */
  function WeekField(week: string): (r: Option<string>)
    ensures r.Some? ==> exists i :: 0 <= i < |week| - 1 && week[i] == '-' && week[i + 1] == 'W'
  {
    var i := MarkerAt(week);
    if i == |week| then None
    else
      var rest := week[i + 2..];
      Some(rest[..MarkerAt(rest)])
  }

  /** The year and the week number `calculateDate` reads from a week label and a year text
      (`parseInt` of the label's field after `-W`, and of the year); `None` when either is
      NaN. */
  function WeekNumbers(week: string, year: string): (r: Option<(int, int)>)
    ensures r.Some? ==>
      (WeekField(week).Some? && JsParseInt(WeekField(week).value) == Some(r.value.1)
       && JsParseInt(year) == Some(r.value.0))
    ensures r.None? ==> WeekField(week).None? || JsParseInt(WeekField(week).value).None? || JsParseInt(year).None?
  {
    var field := WeekField(week);
    var weekNumber := if field.Some? then JsParseInt(field.value) else None;
    var yearNumber := JsParseInt(year);
    if weekNumber.None? || yearNumber.None? then None
    else Some((yearNumber.value, weekNumber.value))
  }

  /** The label `YYYY-Www` the import gives a week. */
  function WeekLabel(year: int, week: nat): string
  {
    IntToString(year) + "-W" + Pad2(week)
  }

  /** A week label, with its year written alone, reads back as the year and week it was made
      from. */
  lemma LabelReadsBack(year: int, week: nat)
    requires year >= 100 && week < 100
    ensures WeekNumbers(WeekLabel(year, week), IntToString(year)) == Some((year, week))
  {
    LabelField(year, week);
    JsParseIntOfTwoDigits(week);
    JsParseIntOfIntToString(year);
  }

  /** The field after `-W` of a label is its padded week number. */
  lemma LabelField(year: int, week: nat)
    requires year >= 0 && week < 100
    ensures WeekField(WeekLabel(year, week)) == Some(Pad2(week))
  {
    NatToStringDigits(year);
    Pad2Digits(week);
    LabelParts(IntToString(year), Pad2(week));
    MarkerAtTwoDigits(Pad2(week));
    assert Pad2(week)[..2] == Pad2(week);
  }

  /** In digits, `-W`, then more text, the first `-W` is the one after the digits. */
  lemma LabelParts(y: string, p: string)
    requires AllDigits(y)
    ensures var t := y + "-W" + p; MarkerAt(t) == |y| && t[|y| + 2..] == p
  {
    var t := y + "-W" + p;
    assert t[|y|] == '-' && t[|y| + 1] == 'W';
    forall j | 0 <= j < |y| ensures IsDigit(t[j]) { assert t[j] == y[j]; }
    MarkerAtPrefix(t, |y|);
    assert t[|y| + 2..] == p;
  }

  lemma MarkerAtTwoDigits(p: string)
    requires |p| == 2 && AllDigits(p)
    ensures MarkerAt(p) == 2
  {
    assert MarkerAt(p[1..]) == 1;
  }

  /** The first `-W` of a text whose first `k` characters are digits and whose `k`-th starts
      `-W`. */
  lemma {:induction false} MarkerAtPrefix(t: string, k: nat)
    requires k + 1 < |t| && t[k] == '-' && t[k + 1] == 'W'
    requires forall j :: 0 <= j < k ==> IsDigit(t[j])
    ensures MarkerAt(t) == k
    decreases k
  {
    if k > 0 {
      MarkerAtPrefix(t[1..], k - 1);
    }
  }

  /** `parseInt` reads a zero-padded two-digit number back. */
  lemma JsParseIntOfTwoDigits(n: nat)
    requires n < 100
    ensures JsParseInt(Pad2(n)) == Some(n)
  {
    var s := Pad2(n);
    Pad2Digits(n);
    NoLeadingSpace(s, IsJsSpace);
    assert s[0..] == s;
    DigitRunToEnd(s, 0);
    assert s[0..0 + DigitRun(s, 0)] == s;
  }

  /** `calculateDate`: day `dayIndex` (0 for Monday) of the week labelled `week` in `year`; `None`
      is the invalid date an unreadable week number or year gives. */
  method CalculateDate(week: string, dayIndex: int, year: string) returns (date: Option<Date>)
    ensures date.None? <==> WeekNumbers(week, year).None?
    ensures date.Some? ==>
      var (yearNumber, weekNumber) := WeekNumbers(week, year).value;
      date.value == AddDays(IsoWeekStart(JsYear(yearNumber), weekNumber), dayIndex)
  {
    var numbers := WeekNumbers(week, year);
    if numbers.None? {
      return None;
    }
    var (yearNumber, weekNumber) := numbers.value;
    var d := WeekDayDate(yearNumber, weekNumber, dayIndex);
    date := Some(d);
  }

  /** The date steps of `calculateDate` once the numbers are read: from day `7 * (w - 1)` after
      the 1st of January back to that week's Monday (up to Thursday) or on to the next Monday,
      then `dayIndex` days on. */
  method WeekDayDate(yearNumber: int, weekNumber: int, dayIndex: int) returns (date: Date)
    ensures date == AddDays(IsoWeekStart(JsYear(yearNumber), weekNumber), dayIndex)
  {
    var simple := JsDate(yearNumber, 0, 1 + (weekNumber - 1) * 7);
    JsDateInJanuary(yearNumber, 1 + (weekNumber - 1) * 7);
    var dow := Weekday(simple);
    var isoWeekStart := simple;
    if dow <= 4 {
      isoWeekStart := AddDays(simple, 1 - dow);
    } else {
      isoWeekStart := AddDays(simple, 8 - dow);
    }
    isoWeekStart := AddDays(isoWeekStart, dayIndex);
    WeekStartAgrees(JsYear(yearNumber), weekNumber, simple, isoWeekStart, dayIndex);
    date := isoWeekStart;
  }

  /** `new Date(year, 0, day)` is `day - 1` days after the 1st of January. */
  lemma JsDateInJanuary(year: int, day: int)
    ensures DayNumber(JsDate(year, 0, day)) == DayNumber(Date(JsYear(year), 1, 1)) + day - 1
  {
    assert 0 / 12 == 0 && 0 % 12 == 0;
  }

  /** The Monday `calculateDate` steps to from the `7 * (w - 1)`-th day after the 1st of January
      is the Monday of week `w`. */
  lemma WeekStartAgrees(y: int, w: int, simple: Date, result: Date, dayIndex: int)
    requires Valid(simple) && Valid(result)
    requires DayNumber(simple) == DayNumber(Date(y, 1, 1)) + (w - 1) * 7
    requires DayNumber(result) == DayNumber(simple)
      + (if Weekday(simple) <= 4 then 1 - Weekday(simple) else 8 - Weekday(simple)) + dayIndex
    ensures result == AddDays(IsoWeekStart(y, w), dayIndex)
  {
    var j := DaysBeforeYear(y);
    var n := DayNumber(simple);
    WeekLater(j, w - 1);
    assert WeekdayOf(n) == WeekdayOf(j);
    JanuaryOffset(j);
    SameDate(result, AddDays(IsoWeekStart(y, w), dayIndex));
  }

  /** `calculateDate`'s step from a day to the Monday of week 1's weekday pattern: from the 1st of
      January (day `j`) it moves as far as the 4th of January's week Monday lies from it. */
  lemma JanuaryOffset(j: int)
    ensures (if WeekdayOf(j) <= 4 then 1 - WeekdayOf(j) else 8 - WeekdayOf(j)) == 4 - IsoDayOf(j + 3)
  {
    if IsoDayOf(j) <= 4 {
      IsoDayAfter(j, 3);
    } else {
      IsoDayAfter(j, -4);
      WeekLater(j - 4, 1);
    }
  }
}
