/** The planning import: a workbook's sheets, already read into rows of cells, become one
    planning per agent and week. Rows starting `Semaine du dd/mm/yy` set the current week; the
    other rows naming an agent give that agent's seven shifts, Monday to Sunday, with their
    dates and hours. */
module PlanningImport {
  import opened Basics
  import opened Text
  import opened Calendar
  import opened NumberParsing
  import opened IsoWeek

  /** A cell as `sheet_to_json(sheet, { header: 1 })` gives it. */
  datatype Cell = Missing | Text(s: string) | Number(x: real)

  /** JavaScript truthiness of a cell. */
  predicate Truthy(c: Cell)
  {
    match c
    case Missing => false
    case Text(s) => s != ""
    case Number(x) => x != 0.0
  }

  /** `row[i]`, `undefined` past the end of the row. */
  function CellAt(row: seq<Cell>, i: nat): Cell
  {
    if i < |row| then row[i] else Missing
  }

  /** `row[8] || null`: the remark column when it is truthy, no remark otherwise. */
  function Remark(row: seq<Cell>): (r: Cell)
    ensures r == Missing || Truthy(r)
    ensures Truthy(CellAt(row, 8)) <==> r != Missing
    ensures r != Missing ==> r == CellAt(row, 8)
  {
    if Truthy(CellAt(row, 8)) then CellAt(row, 8) else Missing
  }

  /** The clock's date. */
  type ValidDate = d: Date | Valid(d) witness Date(1970, 1, 1)

  datatype ImportError =
    | ShiftNotText   // a number in a shift column: it has no `toUpperCase`
    | NoWeekDate     // a `Semaine du` text without a `dd/mm/yy` date

  // ---------------------------------------------------------------- week headings

  /** `dd/mm/yy` starts at `i`. */
  predicate DateAt(s: string, i: nat)
  {
    i + 8 <= |s| && IsDigit(s[i]) && IsDigit(s[i + 1]) && s[i + 2] == '/'
    && IsDigit(s[i + 3]) && IsDigit(s[i + 4]) && s[i + 5] == '/'
    && IsDigit(s[i + 6]) && IsDigit(s[i + 7])
  }

  /** The first `dd/mm/yy` at or after `from` (`match(/(\d{2}\/\d{2}\/\d{2})/)`). */
  function FindDate(s: string, from: nat): (r: Option<nat>)
    requires from <= |s|
    ensures r.Some? ==>
      (from <= r.value && DateAt(s, r.value) && forall j :: from <= j < r.value ==> !DateAt(s, j))
    ensures r.None? ==> forall j :: from <= j ==> !DateAt(s, j)
    decreases |s| - from
  {
    if from + 8 > |s| then None
    else if DateAt(s, from) then Some(from)
    else FindDate(s, from + 1)
  }

  /** The day, month and two-digit year of a week heading's date. */
  datatype WeekDate = WeekDate(day: nat, month: nat, shortYear: nat)

  function TwoDigitsAt(s: string, i: nat): (n: nat)
    requires i + 2 <= |s| && IsDigit(s[i]) && IsDigit(s[i + 1])
    ensures n < 100
  {
    DigitValue(s[i]) * 10 + DigitValue(s[i + 1])
  }

  /** The date of a week heading, `dateMatch[1].split('/').map(Number)`. */
  function WeekDateIn(weekInfo: string): (r: Option<WeekDate>)
    ensures r.Some? ==> r.value.day < 100 && r.value.month < 100 && r.value.shortYear < 100
    ensures r.None? <==> forall j :: !DateAt(weekInfo, j)
  {
    var i := FindDate(weekInfo, 0);
    if i.None? then None
    else Some(WeekDate(TwoDigitsAt(weekInfo, i.value), TwoDigitsAt(weekInfo, i.value + 3),
                       TwoDigitsAt(weekInfo, i.value + 6)))
  }

  /** The century pivot: two-digit years from 50 on are 19xx, the others 20xx. */
  function FullYear(shortYear: nat): (y: int)
    requires shortYear < 100
    ensures 1950 <= y <= 2049 && y % 100 == shortYear
  {
    if shortYear >= 50 then 1900 + shortYear else 2000 + shortYear
  }

  /** Every year from 1950 to 2049 is written by its last two digits. */
  lemma FullYearOfShort(y: int)
    requires 1950 <= y <= 2049
    ensures FullYear(y % 100) == y
  {
  }

  /** The Monday of the week holding the heading's date: `new Date(year, month - 1, day)`, which
      rolls an out-of-range day or month over, then back to its Monday. */
  function WeekMonday(w: WeekDate): (m: Date)
    requires w.shortYear < 100
    ensures Valid(m) && IsoDay(m) == 1
  {
    MondayOf(JsDate(FullYear(w.shortYear), w.month as int - 1, w.day))
  }

  /** `extractWeekNumber` as written: the ISO week number of the Monday, labelled with the year
      written in the heading. */
  function ExtractWeekNumber(weekInfo: string): (r: Result<string, ImportError>)
    ensures r.Failure? <==> WeekDateIn(weekInfo).None?
    ensures r.Success? ==> var w := WeekDateIn(weekInfo).value;
      r.value == WeekLabel(FullYear(w.shortYear), GetIsoWeek(Some(WeekMonday(w))))
  {
    var w := WeekDateIn(weekInfo);
    if w.None? then Failure(NoWeekDate)
    else Success(WeekLabel(FullYear(w.value.shortYear), GetIsoWeek(Some(WeekMonday(w.value)))))
  }

  /** `extractYearFromWeek` as written: the year written in the heading, or the current year. */
  function ExtractYearFromWeek(weekInfo: string, nowYear: int): (r: string)
    ensures WeekDateIn(weekInfo).None? ==> r == IntToString(nowYear)
  {
    var w := WeekDateIn(weekInfo);
    if w.None? then IntToString(nowYear) else IntToString(FullYear(w.value.shortYear))
  }

  /** The week of 30/12/24 is week 1 of 2025, but the heading's year labels it `2024-W01`, and that
      label reads back as the week of 1 January 2024. */
  lemma WeekLabelOffByAYear()
    ensures WeekMonday(WeekDate(30, 12, 24)) == Date(2024, 12, 30)
    ensures GetIsoWeek(Some(Date(2024, 12, 30))) == 1 && IsoYear(Date(2024, 12, 30)) == 2025
    ensures FullYear(24) == 2024
    ensures IsoWeekStart(2024, 1) == Date(2024, 1, 1) != Date(2024, 12, 30)
  {
    LastMondayOf2024();
    FirstThursdayOf2025();
    FirstMondayOf2024();
  }

  lemma LastMondayOf2024()
    ensures WeekMonday(WeekDate(30, 12, 24)) == Date(2024, 12, 30)
  {
    var d := Date(2024, 12, 30);
    assert FullYear(24) == 2024;
    var j := JsDate(2024, 11, 30);
    assert DayNumber(j) == DayNumber(Date(2024, 12, 1)) + 29 == DayNumber(d);
    SameDate(j, d);
    assert DayNumber(d) == 20087;
    assert IsoDay(d) == 1;
    SameDate(MondayOf(d), d);
  }

  lemma FirstThursdayOf2025()
    ensures ThursdayOf(Date(2024, 12, 30)) == Date(2025, 1, 2)
    ensures GetIsoWeek(Some(Date(2024, 12, 30))) == 1 && IsoYear(Date(2024, 12, 30)) == 2025
  {
    var d := Date(2024, 12, 30);
    assert DayNumber(d) == 20087;
    assert IsoDay(d) == 1;
    assert DayNumber(Date(2025, 1, 2)) == 20090;
    SameDate(ThursdayOf(d), Date(2025, 1, 2));
  }

  lemma FirstMondayOf2024()
    ensures IsoWeekStart(2024, 1) == Date(2024, 1, 1)
  {
    assert DayNumber(Date(2024, 1, 4)) == 19726;
    assert IsoDay(Date(2024, 1, 4)) == 4;
    assert DayNumber(Date(2024, 1, 1)) == 19723;
    SameDate(IsoWeekStart(2024, 1), Date(2024, 1, 1));
  }

  /** `extractWeekNumber` with the week labelled by the year of its Thursday, as ISO 8601 and
      `calculateDate` number weeks. */
  function ExtractWeekNumberIso(weekInfo: string): (r: Result<string, ImportError>)
    ensures r.Failure? <==> WeekDateIn(weekInfo).None?
  {
    var w := WeekDateIn(weekInfo);
    if w.None? then Failure(NoWeekDate)
    else
      var monday := WeekMonday(w.value);
      Success(WeekLabel(IsoYear(monday), GetIsoWeek(Some(monday))))
  }

  /** `extractYearFromWeek` with the year of the week's Thursday. */
  function ExtractYearFromWeekIso(weekInfo: string, nowYear: int): (r: string)
    ensures WeekDateIn(weekInfo).None? ==> r == IntToString(nowYear)
  {
    var w := WeekDateIn(weekInfo);
    if w.None? then IntToString(nowYear) else IntToString(IsoYear(WeekMonday(w.value)))
  }

  /** The corrected label and year read back, through `calculateDate`'s parsing, as the week
      that holds the heading's date. */
  lemma IsoLabelReadsBack(weekInfo: string, nowYear: int)
    requires WeekDateIn(weekInfo).Some?
    ensures var monday := WeekMonday(WeekDateIn(weekInfo).value);
      var numbers := WeekNumbers(ExtractWeekNumberIso(weekInfo).value, ExtractYearFromWeekIso(weekInfo, nowYear));
      numbers.Some? && IsoWeekStart(JsYear(numbers.value.0), numbers.value.1) == monday
  {
    var w := WeekDateIn(weekInfo).value;
    var monday := WeekMonday(w);
    MondayYear(w);
    MondayLabelReadsBack(monday);
    assert ExtractWeekNumberIso(weekInfo).value == WeekLabel(IsoYear(monday), GetIsoWeek(Some(monday)));
    assert ExtractYearFromWeekIso(weekInfo, nowYear) == IntToString(IsoYear(monday));
  }

  /** The label and year of a Monday's week read back as the week that starts on that Monday. */
  lemma MondayLabelReadsBack(monday: Date)
    requires Valid(monday) && IsoDay(monday) == 1 && monday.year >= 1948
    ensures var y := IsoYear(monday);
      var numbers := WeekNumbers(WeekLabel(y, GetIsoWeek(Some(monday))), IntToString(y));
      numbers.Some? && IsoWeekStart(JsYear(numbers.value.0), numbers.value.1) == monday
  {
    MondayLabel(monday);
    MondayWeekStart(monday);
  }

  lemma MondayLabel(monday: Date)
    requires Valid(monday) && monday.year >= 1948
    ensures var y := IsoYear(monday);
      y >= 1947 && WeekNumbers(WeekLabel(y, GetIsoWeek(Some(monday))), IntToString(y)) == Some((y, GetIsoWeek(Some(monday))))
  {
    IsoYearNear(monday);
    LabelReadsBack(IsoYear(monday), GetIsoWeek(Some(monday)));
  }

  lemma MondayWeekStart(monday: Date)
    requires Valid(monday) && IsoDay(monday) == 1
    ensures IsoWeekStart(IsoYear(monday), GetIsoWeek(Some(monday))) == monday
  {
    IsoWeekRoundTrip(monday);
    SameDate(MondayOf(monday), monday);
  }

  /** The Monday of a heading's week is at most two years before the year the heading names. */
  lemma MondayYear(w: WeekDate)
    requires w.day < 100 && w.month < 100 && w.shortYear < 100
    ensures WeekMonday(w).year >= FullYear(w.shortYear) - 2
  {
    var y := FullYear(w.shortYear);
    var m := WeekMonday(w);
    HeadingDateFloor(y, w.month as int - 1, w.day);
    YearStep(y - 2);
    YearAtLeast(m, y - 2);
  }

  /** A heading's date rolls back at most to the last day of the year before the one named. */
  lemma HeadingDateFloor(y: int, monthIndex: int, day: int)
    requires 1950 <= y && -1 <= monthIndex && day >= 0
    ensures DayNumber(JsDate(y, monthIndex, day)) >= DaysBeforeYear(y - 1) - 1
  {
    var year := y + monthIndex / 12;
    var month := monthIndex % 12 + 1;
    assert JsDate(y, monthIndex, day) == Normalize(year, month, day);
    assert DayNumber(Date(year, month, 1)) >= DaysBeforeYear(year);
    YearsApart(y - 1, year);
  }

  /** A date on or after the 1st of January of `y` is in `y` or later. */
  lemma YearAtLeast(d: Date, y: int)
    requires Valid(d) && DayNumber(d) >= DaysBeforeYear(y)
    ensures d.year >= y
  {
    DayNumberInYear(d);
    if d.year < y {
      YearsApart(d.year + 1, y);
    }
  }

  /** A week's year is its Thursday's, so it differs from a date's own year by at most one. */
  lemma IsoYearNear(d: Date)
    requires Valid(d)
    ensures d.year - 1 <= IsoYear(d) <= d.year + 1
  {
    var t := ThursdayOf(d);
    DayNumberInYear(d);
    DayNumberInYear(t);
    YearStep(d.year);
    YearStep(d.year - 1);
    YearStep(d.year + 1);
    if t.year < d.year - 1 {
      YearsApart(t.year + 1, d.year - 1);
    } else if t.year > d.year + 1 {
      YearsApart(d.year + 2, t.year);
    }
  }

  // ---------------------------------------------------------------- shifts and hours

  /** `SHIFT_HOURS_MAP`. */
  const ShiftHoursMap: map<string, int> :=
    map["OFF" := 0, "JOUR" := 8, "NUIT" := 10, "MAT5" := 8, "MAT9" := 8, "CONGE" := 0,
        "FORMATION" := 0, "-" := 0]

  /** `SHIFT_HOURS_MAP[shift] || 0`: day and morning shifts count 8 hours, the night shift 10,
      every other shift (`MAT8` included) none. */
  function ShiftHours(shift: string): (h: int)
    ensures h == 0 || h == 8 || h == 10
    ensures h == 10 <==> shift == "NUIT"
    ensures h == 8 <==> shift == "JOUR" || shift == "MAT5" || shift == "MAT9"
  {
    if shift in ShiftHoursMap then ShiftHoursMap[shift] else 0
  }

  /** `toUpperCase().replace(/\s+/g, '')`. */
  function NormalizeShift(raw: string): (s: string)
  {
    RemoveJsSpaces(ToUpper(raw))
  }

  predicate NoLowerOrSpace(s: string)
  {
    forall i :: 0 <= i < |s| ==> !('a' <= s[i] <= 'z') && !IsJsSpace(s[i])
  }

  /** A normalised shift has no lower-case letter and no white space, so normalising it again
      changes nothing. */
  lemma NormalizeShiftIdempotent(raw: string)
    ensures NoLowerOrSpace(NormalizeShift(raw))
    ensures NormalizeShift(NormalizeShift(raw)) == NormalizeShift(raw)
  {
    var u := ToUpper(raw);
    assert forall i :: 0 <= i < |u| ==> !('a' <= u[i] <= 'z');
    FilterKeeps(u, NotJsSpace);
    var s := NormalizeShift(raw);
    UpperUnchanged(s);
    FilterAll(s, NotJsSpace);
  }

  /** Upper-casing a text without lower-case letters gives it back. */
  lemma UpperUnchanged(s: string)
    requires forall i :: 0 <= i < |s| ==> !('a' <= s[i] <= 'z')
    ensures ToUpper(s) == s
  {
  }

  /** A shift cell: a falsy cell is `OFF`, a text is normalised, and a number stops the import. */
  function ShiftOf(c: Cell): (r: Result<string, ImportError>)
    ensures r.Failure? <==> c.Number? && c.x != 0.0
    ensures c.Text? && c.s != "" ==> r == Success(NormalizeShift(c.s))
    ensures !Truthy(c) ==> r == Success("OFF")
  {
    match c
    case Missing => Success("OFF")
    case Text(s) => Success(if s == "" then "OFF" else NormalizeShift(s))
    case Number(x) => if x == 0.0 then Success("OFF") else Failure(ShiftNotText)
  }

  // ---------------------------------------------------------------- plannings

  const WeekDayNames: seq<string> := ["LUNDI", "MARDI", "MERCREDI", "JEUDI", "VENDREDI", "SAMEDI", "DIMANCHE"]

  datatype DaySchedule = DaySchedule(fullDate: Date, name: string, date: string, shift: string,
                                     hours: int, day: string, remarques: Cell)

  datatype Planning = Planning(agentName: string, semaine: string, year: string, month: seq<string>,
                               days: seq<DaySchedule>, totalHeures: int, remarques: Cell,
                               lundi: string, mardi: string, mercredi: string, jeudi: string,
                               vendredi: string, samedi: string, dimanche: string)

  /** The date of day `i` of the current week: `calculateDate`'s, or today when the week label or
      the year cannot be read. */
  function DayDate(week: string, year: string, i: int, today: ValidDate): (d: Date)
    ensures Valid(d)
  {
    var numbers := WeekNumbers(week, year);
    if numbers.None? then today
    else AddDays(IsoWeekStart(JsYear(numbers.value.0), numbers.value.1), i)
  }

  /** Day `i` of an agent's row: the shift from column `i + 1` (the `MANRDI` spelling of the
      header changes nothing: both of its branches read column `i + 1`). */
  function DayOf(row: seq<Cell>, i: nat, date: Date): (r: Result<DaySchedule, ImportError>)
    requires i < 7 && Valid(date)
    ensures r.Failure? <==> ShiftOf(CellAt(row, i + 1)).Failure?
    ensures r.Success? ==>
      (ShiftOf(CellAt(row, i + 1)).Success? && r.value.shift == ShiftOf(CellAt(row, i + 1)).value
       && r.value.hours == ShiftHours(r.value.shift) && r.value.day == WeekDayNames[i]
       && r.value.fullDate == date && r.value.remarques == Remark(row))
  {
    var shift :- ShiftOf(CellAt(row, i + 1));
    Success(DayRecord(row, i, date, shift))
  }

  /** The schedule of day `i` with its shift: the date's `dd/mm`, the day's name and its first
      three letters, the shift's hours and the row's remark. */
  function DayRecord(row: seq<Cell>, i: nat, date: Date, shift: string): (d: DaySchedule)
    requires i < 7 && Valid(date)
    ensures d.shift == shift && d.hours == ShiftHours(shift) && d.day == WeekDayNames[i]
    ensures d.fullDate == date && d.remarques == Remark(row)
  {
    DaySchedule(date, WeekDayNames[i][..3], Pad2(date.day) + "/" + Pad2(date.month), shift,
                ShiftHours(shift), WeekDayNames[i], Remark(row))
  }

  /** The dates of the current week's seven days. */
  function WeekDates(week: string, year: string, today: ValidDate): (dates: seq<Date>)
    ensures ValidDates(dates)
  {
    seq(7, i => DayDate(week, year, i, today))
  }

  predicate ValidDates(dates: seq<Date>)
  {
    |dates| == 7 && forall i :: 0 <= i < 7 ==> Valid(dates[i])
  }

  /** The days of an agent's row from day `from` to Sunday, on the week's dates; the first day
      that fails stops it. */
  function RowDays(row: seq<Cell>, dates: seq<Date>, from: nat): (r: Result<seq<DaySchedule>, ImportError>)
    requires ValidDates(dates) && from <= 7
    ensures r.Success? ==> |r.value| == 7 - from
    decreases 7 - from
  {
    if from == 7 then Success([])
    else
      var day :- DayOf(row, from, dates[from]);
      var rest :- RowDays(row, dates, from + 1);
      Success([day] + rest)
  }

  /** The days of a row that reads are each day's own schedule, in order. */
  lemma RowDaysRead(row: seq<Cell>, dates: seq<Date>, from: nat)
    requires ValidDates(dates) && from <= 7 && RowDays(row, dates, from).Success?
    ensures forall i :: from <= i < 7 ==> DayOf(row, i, dates[i]) == Success(RowDays(row, dates, from).value[i - from])
  {
    forall i | from <= i < 7
      ensures DayOf(row, i, dates[i]) == Success(RowDays(row, dates, from).value[i - from])
    {
      RowDayAt(row, dates, from, i);
    }
  }

  lemma {:induction false} RowDayAt(row: seq<Cell>, dates: seq<Date>, from: nat, i: nat)
    requires ValidDates(dates) && from <= i < 7 && RowDays(row, dates, from).Success?
    ensures DayOf(row, i, dates[i]) == Success(RowDays(row, dates, from).value[i - from])
    decreases i - from
  {
    RowDaysHead(row, dates, from);
    if from < i {
      RowDayAt(row, dates, from + 1, i);
    }
  }

  lemma RowDaysHead(row: seq<Cell>, dates: seq<Date>, from: nat)
    requires ValidDates(dates) && from < 7 && RowDays(row, dates, from).Success?
    ensures var days := RowDays(row, dates, from).value;
      DayOf(row, from, dates[from]) == Success(days[0])
      && RowDays(row, dates, from + 1) == Success(days[1..])
  {
  }

  /** A row fails to read exactly when one of its days does. */
  lemma RowDaysFail(row: seq<Cell>, dates: seq<Date>, from: nat)
    requires ValidDates(dates) && from <= 7
    ensures RowDays(row, dates, from).Failure? <==> exists i :: from <= i < 7 && DayOf(row, i, dates[i]).Failure?
  {
    if RowDays(row, dates, from).Failure? {
      var i := FailingDay(row, dates, from);
    }
    forall i | from <= i < 7 && DayOf(row, i, dates[i]).Failure?
      ensures RowDays(row, dates, from).Failure?
    {
      DayFailureStops(row, dates, from, i);
    }
  }

  lemma {:induction false} FailingDay(row: seq<Cell>, dates: seq<Date>, from: nat) returns (i: nat)
    requires ValidDates(dates) && from <= 7 && RowDays(row, dates, from).Failure?
    ensures from <= i < 7 && DayOf(row, i, dates[i]).Failure?
    decreases 7 - from
  {
    if DayOf(row, from, dates[from]).Failure? {
      i := from;
    } else {
      i := FailingDay(row, dates, from + 1);
    }
  }

  lemma {:induction false} DayFailureStops(row: seq<Cell>, dates: seq<Date>, from: nat, i: nat)
    requires ValidDates(dates) && from <= i < 7 && DayOf(row, i, dates[i]).Failure?
    ensures RowDays(row, dates, from).Failure?
    decreases i - from
  {
    if from < i {
      DayFailureStops(row, dates, from + 1, i);
    }
  }

  /** The seven days of a row that reads are named Monday to Sunday, carry their shifts' hours
      and the row's remark. */
  lemma DaysNamed(row: seq<Cell>, dates: seq<Date>)
    requires ValidDates(dates) && RowDays(row, dates, 0).Success?
    ensures var days := RowDays(row, dates, 0).value;
      |days| == 7 && forall i :: 0 <= i < 7 ==>
        days[i].day == WeekDayNames[i] && days[i].hours == ShiftHours(days[i].shift) && days[i].remarques == Remark(row)
  {
    var days := RowDays(row, dates, 0).value;
    forall i | 0 <= i < 7
      ensures days[i].day == WeekDayNames[i] && days[i].hours == ShiftHours(days[i].shift)
        && days[i].remarques == Remark(row)
    {
      DayNamedAt(row, dates, i);
    }
  }

  lemma DayNamedAt(row: seq<Cell>, dates: seq<Date>, i: nat)
    requires ValidDates(dates) && i < 7 && RowDays(row, dates, 0).Success?
    ensures var day := RowDays(row, dates, 0).value[i];
      day.day == WeekDayNames[i] && day.hours == ShiftHours(day.shift) && day.remarques == Remark(row)
  {
    RowDayAt(row, dates, 0, i);
    DayFields(row, i, dates[i], RowDays(row, dates, 0).value[i]);
  }

  lemma DayFields(row: seq<Cell>, i: nat, date: Date, day: DaySchedule)
    requires i < 7 && Valid(date) && DayOf(row, i, date) == Success(day)
    ensures day.day == WeekDayNames[i] && day.hours == ShiftHours(day.shift)
    ensures day.remarques == Remark(row)
  {
  }

  /** Days already read, put before the result of reading the rest. */
  function Prepend<T, E>(done: seq<T>, rest: Result<seq<T>, E>): Result<seq<T>, E>
  {
    if rest.Failure? then rest else Success(done + rest.value)
  }

  lemma PrependNothing<T, E>(rest: Result<seq<T>, E>)
    ensures Prepend([], rest) == rest
  {
    if rest.Success? {
      assert [] + rest.value == rest.value;
    }
  }

  /** Reading day `i` after the days before it: a failing day is the result, a day that reads
      joins them. */
  lemma DayStep(row: seq<Cell>, dates: seq<Date>, i: nat, days: seq<DaySchedule>)
    requires ValidDates(dates) && i < 7
    ensures var day := DayOf(row, i, dates[i]);
      (day.Failure? ==> Prepend(days, RowDays(row, dates, i)) == Failure(day.error))
      && (day.Success? ==> Prepend(days, RowDays(row, dates, i)) == Prepend(days + [day.value], RowDays(row, dates, i + 1)))
  {
    var day := DayOf(row, i, dates[i]);
    var rest := RowDays(row, dates, i + 1);
    if day.Success? && rest.Success? {
      assert days + ([day.value] + rest.value) == days + [day.value] + rest.value;
    }
  }

  /** The seven days of an agent's row, each from `calculateDate`; a failing day ends the import. */
  method ComputeDays(row: seq<Cell>, week: string, year: string, today: ValidDate)
    returns (r: Result<seq<DaySchedule>, ImportError>)
    ensures r == RowDays(row, WeekDates(week, year, today), 0)
  {
    var dates := WeekDates(week, year, today);
    var days: seq<DaySchedule> := [];
    PrependNothing(RowDays(row, dates, 0));
    for i := 0 to 7
      invariant RowDays(row, dates, 0) == Prepend(days, RowDays(row, dates, i))
    {
      var date := CalculateDate(week, i, year);
      var d := if date.Some? then date.value else today;
      assert d == dates[i];
      var day := DayOf(row, i, d);
      DayStep(row, dates, i, days);
      if day.Failure? {
        return Failure(day.error);
      }
      days := days + [day.value];
    }
    assert days + [] == days;
    r := Success(days);
  }

  /** The hours of a list of days. */
  function SumHours(days: seq<DaySchedule>): int
  {
    if days == [] then 0 else SumHours(days[..|days| - 1]) + days[|days| - 1].hours
  }

  /** The distinct elements of a list, in order of first occurrence. */
  function Distinct(s: seq<string>): (r: seq<string>)
    ensures forall x :: x in r <==> x in s
    ensures forall i, j :: 0 <= i < j < |r| ==> r[i] != r[j]
  {
    if s == [] then []
    else
      var r := Distinct(s[..|s| - 1]);
      assert forall x :: x in s <==> x in s[..|s| - 1] || x == s[|s| - 1];
      if s[|s| - 1] in r then r else r + [s[|s| - 1]]
  }

  function MonthsOf(days: seq<DaySchedule>): seq<string>
  {
    seq(|days|, i requires 0 <= i < |days| => Pad2(if days[i].fullDate.month >= 0 then days[i].fullDate.month else 0))
  }

  /** `x || 'OFF'`. */
  function OrOff(s: string): string { if s == "" then "OFF" else s }

  /** The planning of an agent's row. */
  function PlanningOf(agentName: string, week: string, year: string, days: seq<DaySchedule>,
                      row: seq<Cell>, sheetName: string): (p: Planning)
    requires |days| == 7
  {
    var months := Distinct(MonthsOf(days));
    Planning(agentName, if week != "" then week else year + "-W01", year,
             if months != [] then months else [ToLower(sheetName)],
             days, SumHours(days), Remark(row),
             OrOff(days[0].shift), OrOff(days[1].shift), OrOff(days[2].shift), OrOff(days[3].shift),
             OrOff(days[4].shift), OrOff(days[5].shift), OrOff(days[6].shift))
  }

  /** What every planning of the import satisfies: a trimmed, non-empty agent name; seven days
      Monday to Sunday whose hours follow `SHIFT_HOURS_MAP` and add up to the total; the day
      columns mirroring the days' shifts; a week label; one remark, truthy or none, shared by the
      planning and each of its days. */
  ghost predicate WellFormed(p: Planning)
  {
    RemarkShared(p) &&
    p.agentName != "" && p.agentName == TrimJs(p.agentName) && p.semaine != ""
    && |p.days| == 7
    && (forall i :: 0 <= i < 7 ==> p.days[i].day == WeekDayNames[i] && p.days[i].hours == ShiftHours(p.days[i].shift))
    && p.totalHeures == SumHours(p.days)
    && p.lundi == OrOff(p.days[0].shift) && p.mardi == OrOff(p.days[1].shift)
    && p.mercredi == OrOff(p.days[2].shift) && p.jeudi == OrOff(p.days[3].shift)
    && p.vendredi == OrOff(p.days[4].shift) && p.samedi == OrOff(p.days[5].shift)
    && p.dimanche == OrOff(p.days[6].shift)
    && p.month != []
  }

  /** The planning's remark is truthy or none, and each day carries it. */
  ghost predicate RemarkShared(p: Planning)
  {
    (p.remarques == Missing || Truthy(p.remarques))
    && forall i :: 0 <= i < |p.days| ==> p.days[i].remarques == p.remarques
  }

  /** A week's hours lie between 0 and seven night shifts. */
  lemma {:induction false} SumHoursBounds(days: seq<DaySchedule>)
    requires forall i :: 0 <= i < |days| ==> days[i].hours == ShiftHours(days[i].shift)
    ensures 0 <= SumHours(days) <= 10 * |days|
  {
    if days != [] {
      SumHoursBounds(days[..|days| - 1]);
    }
  }

  /** A readable week's dates are Monday..Sunday of that week, one day apart; otherwise every day
      falls back to today. */
  lemma WeekDatesInOrder(week: string, year: string, today: ValidDate)
    ensures var dates := WeekDates(week, year, today);
      (WeekNumbers(week, year).Some? ==>
         var (y, w) := WeekNumbers(week, year).value;
         dates[0] == IsoWeekStart(JsYear(y), w)
         && forall i :: 0 <= i < 6 ==> dates[i + 1] == AddDays(dates[i], 1))
      && (WeekNumbers(week, year).None? ==> forall i :: 0 <= i < 7 ==> dates[i] == today)
  {
    if WeekNumbers(week, year).Some? {
      var (y, w) := WeekNumbers(week, year).value;
      WeekDatesOfWeek(WeekDates(week, year, today), JsYear(y), w);
    }
  }

  lemma WeekDatesOfWeek(dates: seq<Date>, y: int, w: int)
    requires ValidDates(dates) && forall i :: 0 <= i < 7 ==> dates[i] == AddDays(IsoWeekStart(y, w), i)
    ensures dates[0] == IsoWeekStart(y, w) && forall i :: 0 <= i < 6 ==> dates[i + 1] == AddDays(dates[i], 1)
  {
    var m := IsoWeekStart(y, w);
    SameDate(AddDays(m, 0), m);
    forall i | 0 <= i < 6
      ensures dates[i + 1] == AddDays(dates[i], 1)
    {
      DaysOfWeek(y, w, i);
    }
  }

  /** The days of a planning carry the week's dates, in order. */
  lemma PlanningDates(row: seq<Cell>, week: string, year: string, today: ValidDate)
    requires RowDays(row, WeekDates(week, year, today), 0).Success?
    ensures var days := RowDays(row, WeekDates(week, year, today), 0).value;
      forall i :: 0 <= i < 7 ==> days[i].fullDate == WeekDates(week, year, today)[i]
  {
    RowDaysRead(row, WeekDates(week, year, today), 0);
  }

  // ---------------------------------------------------------------- the import

  /** A sheet's name and its rows. */
  datatype Sheet = Sheet(name: string, rows: seq<seq<Cell>>)

  /** What the import has built so far, and the sheet's current week and year. */
  datatype ImportState = ImportState(week: string, year: string, plannings: seq<Planning>, weeks: seq<string>)

  /** Sheets left out of the import. */
  predicate Skipped(name: string)
  {
    name == "" || name == "Octobre" || name == "Novembre" || name == "Decembre"
  }

  /** One row of a sheet. */
  function StepRow(st: ImportState, row: seq<Cell>, sheetName: string, nowYear: int, today: ValidDate): (r: Result<ImportState, ImportError>)
  {
    var first := CellAt(row, 0);
    if first.Text? && Contains(first.s, "Semaine du") then
      var week := ExtractWeekNumber(first.s);
      if week.Success? then
        Success(st.(week := week.value, year := ExtractYearFromWeek(first.s, nowYear),
                    weeks := if week.value in st.weeks then st.weeks else st.weeks + [week.value]))
      else
        Success(st.(week := if st.week != "" then st.week else IntToString(nowYear) + "-W01"))
    else if !Truthy(first) || !first.Text? || first.s == "PRENOMS" || first.s == "EMPLOI DU TEMPS" then
      Success(st)
    else
      var agentName := TrimJs(first.s);
      if agentName == "" || Contains(agentName, "Semaine du") then Success(st)
      else
        var days :- RowDays(row, WeekDates(st.week, st.year, today), 0);
        Success(st.(plannings := st.plannings + [PlanningOf(agentName, st.week, st.year, days, row, sheetName)]))
  }

  /** The rows of a sheet, in order, from a state; the first row that fails stops the scan. */
  function ScanRows(st: ImportState, rows: seq<seq<Cell>>, sheetName: string, nowYear: int, today: ValidDate): Result<ImportState, ImportError>
    decreases |rows|
  {
    if rows == [] then Success(st)
    else
      var next :- StepRow(st, rows[0], sheetName, nowYear, today);
      ScanRows(next, rows[1..], sheetName, nowYear, today)
  }

  /** A sheet: skipped, or scanned from no week and the year 2025. */
  function ScanSheet(plannings: seq<Planning>, weeks: seq<string>, sheet: Sheet, nowYear: int, today: ValidDate)
    : Result<(seq<Planning>, seq<string>), ImportError>
  {
    if Skipped(sheet.name) then Success((plannings, weeks))
    else
      var st :- ScanRows(ImportState("", "2025", plannings, weeks), sheet.rows, sheet.name, nowYear, today);
      Success((st.plannings, st.weeks))
  }

  /** The sheets, in order, after the plannings and weeks found so far. */
  function ScanSheets(plannings: seq<Planning>, weeks: seq<string>, sheets: seq<Sheet>, nowYear: int, today: ValidDate)
    : Result<(seq<Planning>, seq<string>), ImportError>
    decreases |sheets|
  {
    if sheets == [] then Success((plannings, weeks))
    else
      var (p, w) :- ScanSheet(plannings, weeks, sheets[0], nowYear, today);
      ScanSheets(p, w, sheets[1..], nowYear, today)
  }

  datatype UploadResponse = UploadResponse(count: nat, weeks: seq<string>, message: string, data: seq<Planning>)

  /** The response of an import. */
  function Upload(sheets: seq<Sheet>, nowYear: int, today: ValidDate): (r: Result<UploadResponse, ImportError>)
    ensures r.Success? ==> r.value.count == |r.value.data|
  {
    var (plannings, weeks) :- ScanSheets([], [], sheets, nowYear, today);
    Success(UploadResponse(|plannings|, weeks, "Fichier Excel multi-mois parsé avec succès", plannings))
  }

  /** `parseMultiMonthExcel` over the workbook's sheets, read into rows; `nowYear` and `today`
      are the clock. */
  method ParseMultiMonthExcel(sheets: seq<Sheet>, nowYear: int, today: ValidDate)
    returns (r: Result<UploadResponse, ImportError>)
    ensures r == Upload(sheets, nowYear, today)
  {
    var plannings: seq<Planning> := [];
    var weeks: seq<string> := [];
    for s := 0 to |sheets|
      invariant ScanSheets([], [], sheets, nowYear, today) == ScanSheets(plannings, weeks, sheets[s..], nowYear, today)
    {
      assert sheets[s..][0] == sheets[s] && sheets[s..][1..] == sheets[s + 1..];
      var sheet := sheets[s];
      if Skipped(sheet.name) {
        continue;
      }
      var st := ImportSheet(plannings, weeks, sheet, nowYear, today);
      if st.Failure? {
        return Failure(st.error);
      }
      plannings, weeks := st.value.plannings, st.value.weeks;
    }
    r := Success(UploadResponse(|plannings|, weeks, "Fichier Excel multi-mois parsé avec succès", plannings));
  }

  /** The row loop of one sheet. */
  method ImportSheet(plannings: seq<Planning>, weeks: seq<string>, sheet: Sheet, nowYear: int, today: ValidDate)
    returns (r: Result<ImportState, ImportError>)
    ensures r == ScanRows(ImportState("", "2025", plannings, weeks), sheet.rows, sheet.name, nowYear, today)
  {
    var start := ImportState("", "2025", plannings, weeks);
    var st := start;
    var rows := sheet.rows;
    for i := 0 to |rows|
      invariant ScanRows(start, rows, sheet.name, nowYear, today) == ScanRows(st, rows[i..], sheet.name, nowYear, today)
    {
      assert rows[i..][0] == rows[i] && rows[i..][1..] == rows[i + 1..];
      var next := ImportRow(st, rows[i], sheet.name, nowYear, today);
      if next.Failure? {
        return Failure(next.error);
      }
      st := next.value;
    }
    r := Success(st);
  }

  /** One row: a week heading moves the current week, an agent's row adds a planning. */
  method ImportRow(st: ImportState, row: seq<Cell>, sheetName: string, nowYear: int, today: ValidDate)
    returns (r: Result<ImportState, ImportError>)
    ensures r == StepRow(st, row, sheetName, nowYear, today)
  {
    var currentWeek, currentYear, weeks := st.week, st.year, st.weeks;
    var first := CellAt(row, 0);
    if first.Text? && Contains(first.s, "Semaine du") {
      var week := ExtractWeekNumber(first.s);
      if week.Success? {
        currentWeek := week.value;
        currentYear := ExtractYearFromWeek(first.s, nowYear);
        if week.value !in weeks {
          weeks := weeks + [week.value];
        }
      } else {
        currentWeek := if currentWeek != "" then currentWeek else IntToString(nowYear) + "-W01";
      }
      return Success(st.(week := currentWeek, year := currentYear, weeks := weeks));
    }
    if !Truthy(first) || !first.Text? || first.s == "PRENOMS" || first.s == "EMPLOI DU TEMPS" {
      return Success(st);
    }
    var agentName := TrimJs(first.s);
    if agentName == "" || Contains(agentName, "Semaine du") {
      return Success(st);
    }
    var days := ComputeDays(row, currentWeek, currentYear, today);
    if days.Failure? {
      return Failure(days.error);
    }
    r := Success(st.(plannings := st.plannings + [PlanningOf(agentName, currentWeek, currentYear, days.value, row, sheetName)]));
  }

  // ---------------------------------------------------------------- properties of the import

  predicate NoDuplicates(s: seq<string>)
  {
    forall i, j :: 0 <= i < j < |s| ==> s[i] != s[j]
  }

  ghost predicate Invariant(st: ImportState)
  {
    NoDuplicates(st.weeks) && forall i :: 0 <= i < |st.plannings| ==> WellFormed(st.plannings[i])
  }

  /** A row keeps the week list free of duplicates and adds only well-formed plannings. */
  lemma StepRowKeeps(st: ImportState, row: seq<Cell>, sheetName: string, nowYear: int, today: ValidDate)
    requires Invariant(st)
    requires StepRow(st, row, sheetName, nowYear, today).Success?
    ensures Invariant(StepRow(st, row, sheetName, nowYear, today).value)
  {
    var first := CellAt(row, 0);
    if first.Text? && Contains(first.s, "Semaine du") {
      HeadingRowKeeps(st, row, sheetName, nowYear, today);
    } else if !Truthy(first) || !first.Text? || first.s == "PRENOMS" || first.s == "EMPLOI DU TEMPS" {
    } else {
      AgentRowKeeps(st, row, sheetName, nowYear, today);
    }
  }

  lemma HeadingRowKeeps(st: ImportState, row: seq<Cell>, sheetName: string, nowYear: int, today: ValidDate)
    requires Invariant(st)
    requires CellAt(row, 0).Text? && Contains(CellAt(row, 0).s, "Semaine du")
    ensures StepRow(st, row, sheetName, nowYear, today).Success?
    ensures Invariant(StepRow(st, row, sheetName, nowYear, today).value)
  {
    WeekRowKeeps(st, CellAt(row, 0).s, nowYear);
  }

  lemma AgentRowKeeps(st: ImportState, row: seq<Cell>, sheetName: string, nowYear: int, today: ValidDate)
    requires Invariant(st)
    requires var first := CellAt(row, 0);
      first.Text? && !Contains(first.s, "Semaine du") && first.s != ""
      && first.s != "PRENOMS" && first.s != "EMPLOI DU TEMPS"
    requires StepRow(st, row, sheetName, nowYear, today).Success?
    ensures Invariant(StepRow(st, row, sheetName, nowYear, today).value)
  {
    var agentName := TrimJs(CellAt(row, 0).s);
    if agentName != "" && !Contains(agentName, "Semaine du") {
      var days := RowDays(row, WeekDates(st.week, st.year, today), 0).value;
      DaysNamed(row, WeekDates(st.week, st.year, today));
      PlanningWellFormed(agentName, st, days, row, sheetName);
      AppendKeeps(st, PlanningOf(agentName, st.week, st.year, days, row, sheetName));
    }
  }

  /** A week heading adds its label to the week list only when the list does not hold it yet. */
  lemma WeekRowKeeps(st: ImportState, heading: string, nowYear: int)
    requires Invariant(st)
    ensures var week := ExtractWeekNumber(heading);
      week.Success? ==>
        NoDuplicates(if week.value in st.weeks then st.weeks else st.weeks + [week.value])
  {
    var week := ExtractWeekNumber(heading);
    if week.Success? {
      AddWeekKeeps(st.weeks, week.value);
    }
  }

  lemma AddWeekKeeps(weeks: seq<string>, w: string)
    requires NoDuplicates(weeks)
    ensures NoDuplicates(if w in weeks then weeks else weeks + [w])
  {
  }

  lemma AppendKeeps(st: ImportState, p: Planning)
    requires Invariant(st) && WellFormed(p)
    ensures Invariant(st.(plannings := st.plannings + [p]))
  {
  }

  lemma PlanningWellFormed(agentName: string, st: ImportState, days: seq<DaySchedule>, row: seq<Cell>, sheetName: string)
    requires agentName != "" && agentName == TrimJs(agentName)
    requires |days| == 7 && forall i :: 0 <= i < 7 ==> days[i].day == WeekDayNames[i] && days[i].hours == ShiftHours(days[i].shift)
    requires forall i :: 0 <= i < 7 ==> days[i].remarques == Remark(row)
    ensures WellFormed(PlanningOf(agentName, st.week, st.year, days, row, sheetName))
    ensures PlanningOf(agentName, st.week, st.year, days, row, sheetName).remarques == Remark(row)
  {
    PlanningMonths(agentName, st.week, st.year, days, row, sheetName);
    PlanningColumns(agentName, st.week, st.year, days, row, sheetName);
    PlanningNamed(agentName, st.week, st.year, days, row, sheetName);
    PlanningDays(agentName, st.week, st.year, days, row, sheetName);
  }

  /** A planning always names at least one month: those of its days, or the sheet's. */
  lemma PlanningMonths(agentName: string, week: string, year: string, days: seq<DaySchedule>, row: seq<Cell>, sheetName: string)
    requires |days| == 7
    ensures PlanningOf(agentName, week, year, days, row, sheetName).month != []
  {
  }

  /** The day columns of a planning mirror its days' shifts. */
  lemma PlanningColumns(agentName: string, week: string, year: string, days: seq<DaySchedule>, row: seq<Cell>, sheetName: string)
    requires |days| == 7
    ensures var p := PlanningOf(agentName, week, year, days, row, sheetName);
      p.lundi == OrOff(p.days[0].shift) && p.mardi == OrOff(p.days[1].shift)
      && p.mercredi == OrOff(p.days[2].shift) && p.jeudi == OrOff(p.days[3].shift)
      && p.vendredi == OrOff(p.days[4].shift) && p.samedi == OrOff(p.days[5].shift)
      && p.dimanche == OrOff(p.days[6].shift)
  {
  }

  /** A planning keeps the agent's name and always has a week label. */
  lemma PlanningNamed(agentName: string, week: string, year: string, days: seq<DaySchedule>, row: seq<Cell>, sheetName: string)
    requires |days| == 7
    ensures var p := PlanningOf(agentName, week, year, days, row, sheetName);
      p.agentName == agentName && p.semaine != ""
  {
    assert |year + "-W01"| >= 4;
  }

  /** A planning holds the row's days and their total. */
  lemma PlanningDays(agentName: string, week: string, year: string, days: seq<DaySchedule>, row: seq<Cell>, sheetName: string)
    requires |days| == 7
    ensures var p := PlanningOf(agentName, week, year, days, row, sheetName);
      p.days == days && p.totalHeures == SumHours(days)
  {
  }

  lemma {:induction false} ScanRowsKeeps(st: ImportState, rows: seq<seq<Cell>>, sheetName: string, nowYear: int, today: ValidDate)
    requires Invariant(st) && ScanRows(st, rows, sheetName, nowYear, today).Success?
    ensures Invariant(ScanRows(st, rows, sheetName, nowYear, today).value)
    decreases |rows|
  {
    if rows != [] {
      StepRowKeeps(st, rows[0], sheetName, nowYear, today);
      ScanRowsKeeps(StepRow(st, rows[0], sheetName, nowYear, today).value, rows[1..], sheetName, nowYear, today);
    }
  }

  /** Every planning an import returns is well-formed, and the weeks it lists are distinct. */
  lemma UploadWellFormed(sheets: seq<Sheet>, nowYear: int, today: ValidDate)
    requires Upload(sheets, nowYear, today).Success?
    ensures var r := Upload(sheets, nowYear, today).value;
      NoDuplicates(r.weeks) && forall p :: p in r.data ==> WellFormed(p)
  {
    SheetsKeep([], [], sheets, nowYear, today);
  }

  lemma {:induction false} SheetsKeep(plannings: seq<Planning>, weeks: seq<string>, sheets: seq<Sheet>, nowYear: int, today: ValidDate)
    requires Invariant(ImportState("", "", plannings, weeks))
    requires ScanSheets(plannings, weeks, sheets, nowYear, today).Success?
    ensures var (p, w) := ScanSheets(plannings, weeks, sheets, nowYear, today).value;
      Invariant(ImportState("", "", p, w))
    decreases |sheets|
  {
    if sheets != [] {
      var sheet := sheets[0];
      if !Skipped(sheet.name) {
        ScanRowsKeeps(ImportState("", "2025", plannings, weeks), sheet.rows, sheet.name, nowYear, today);
      }
      var (p, w) := ScanSheet(plannings, weeks, sheet, nowYear, today).value;
      SheetsKeep(p, w, sheets[1..], nowYear, today);
    }
  }

  /** A sheet named Octobre, Novembre or Decembre, or without a name, changes nothing wherever it
      stands in the workbook. */
  lemma SkippedSheetAddsNothing(before: seq<Sheet>, sheet: Sheet, after: seq<Sheet>, nowYear: int, today: ValidDate)
    requires Skipped(sheet.name)
    ensures Upload(before + [sheet] + after, nowYear, today) == Upload(before + after, nowYear, today)
  {
    SkippedSheetStays([], [], before, sheet, after, nowYear, today);
  }

  lemma {:induction false} SkippedSheetStays(plannings: seq<Planning>, weeks: seq<string>, before: seq<Sheet>, sheet: Sheet,
                                             after: seq<Sheet>, nowYear: int, today: ValidDate)
    requires Skipped(sheet.name)
    ensures ScanSheets(plannings, weeks, before + [sheet] + after, nowYear, today)
         == ScanSheets(plannings, weeks, before + after, nowYear, today)
    decreases |before|
  {
    if before == [] {
      assert before + [sheet] + after == [sheet] + after && ([sheet] + after)[1..] == after;
      assert before + after == after;
    } else {
      var all, kept := before + [sheet] + after, before + after;
      assert all[0] == kept[0] == before[0];
      assert all[1..] == before[1..] + [sheet] + after && kept[1..] == before[1..] + after;
      var next := ScanSheet(plannings, weeks, before[0], nowYear, today);
      if next.Success? {
        SkippedSheetStays(next.value.0, next.value.1, before[1..], sheet, after, nowYear, today);
      }
    }
  }

  /** A row of a sheet that is a heading, blank, not a text, or a name of white space only adds
      no planning. */
  lemma NonAgentRowAddsNothing(st: ImportState, row: seq<Cell>, sheetName: string, nowYear: int, today: ValidDate)
    requires var first := CellAt(row, 0);
      !first.Text? || first.s == "PRENOMS" || first.s == "EMPLOI DU TEMPS" || TrimJs(first.s) == ""
    ensures StepRow(st, row, sheetName, nowYear, today).Success?
    ensures StepRow(st, row, sheetName, nowYear, today).value.plannings == st.plannings
  {
  }
}
