/** Hire dates and what is derived from them: the seniority text, the seniority in whole years
    and the one-year entitlement flag behind the social-security and meal/transport rights.
    The service (TypeScript) and the two Python programs each have their own copy. */
module HireDates {
  import opened Basics
  import opened Text
  import opened Json
  import opened Calendar

  /** The current instant: a calendar day and the milliseconds elapsed since its local
      midnight. */
  datatype Clock = Clock(today: Date, msOfDay: int)

  predicate ValidClock(c: Clock) { Valid(c.today) && 0 <= c.msOfDay < MsPerDay }

  const MsPerDay: int := 86400000

  /** The JavaScript exception raised by `trim` on a hire date stored as a number. */
  datatype Thrown = NotAString

  /** The `n` characters of `s` from index `i` on are all decimal digits. */
  predicate DigitsAt(s: string, i: nat, n: nat) { i + n <= |s| && forall k :: i <= k < i + n ==> IsDigit(s[k]) }

  function NumberAt(s: string, i: nat, n: nat): nat
    requires DigitsAt(s, i, n)
  {
    assert AllDigits(s[i..i + n]) by {
      var t := s[i..i + n];
      forall k | 0 <= k < |t| ensures IsDigit(t[k]) { assert t[k] == s[i + k]; }
    }
    DigitsValue(s[i..i + n])
  }

  /** Range check and construction of the service's parser: day 1..31, month 1..12, year after
      1900, then `new Date(year, month - 1, day)`, which rolls an impossible day over into the
      next month. */
  function TsCheckedDate(year: int, month: int, day: int): (r: Option<Date>)
    ensures r.Some? <==> 1 <= day <= 31 && 1 <= month <= 12 && year > 1900
    ensures r.Some? ==> Valid(r.value) && DayNumber(r.value) == DayNumber(Date(year, month, 1)) + day - 1
  {
    if 1 <= day <= 31 && 1 <= month <= 12 && year > 1900 then
      assert JsYear(year) == year && (month - 1) / 12 == 0 && (month - 1) % 12 == month - 1;
      Some(JsDate(year, month - 1, day))
    else None
  }

  predicate IsDmyText(t: string)
  {
    |t| == 10 && DigitsAt(t, 0, 2) && t[2] == '/' && DigitsAt(t, 3, 2) && t[5] == '/' && DigitsAt(t, 6, 4)
  }

  predicate IsIsoText(t: string)
  {
    |t| == 10 && DigitsAt(t, 0, 4) && t[4] == '-' && DigitsAt(t, 5, 2) && t[7] == '-' && DigitsAt(t, 8, 2)
  }

  /** The service's `parseDateEmbauche` on a string: `DD/MM/YYYY` or `YYYY-MM-DD` after trimming. */
  function TsParseHireText(s: string): (r: Option<Date>)
    ensures r.Some? ==> Valid(r.value) && r.value.year > 1900
  {
    var t := TrimJs(s);
    if IsDmyText(t) then
      var (y, m, d) := (NumberAt(t, 6, 4), NumberAt(t, 3, 2), NumberAt(t, 0, 2));
      CheckedDateAfter1900(y, m, d);
      TsCheckedDate(y, m, d)
    else if IsIsoText(t) then
      var (y, m, d) := (NumberAt(t, 0, 4), NumberAt(t, 5, 2), NumberAt(t, 8, 2));
      CheckedDateAfter1900(y, m, d);
      TsCheckedDate(y, m, d)
    else None
  }

  /** A checked date never rolls back before its year, so it lies after 1900. */
  lemma CheckedDateAfter1900(year: int, month: int, day: int)
    ensures TsCheckedDate(year, month, day).Some? ==> TsCheckedDate(year, month, day).value.year > 1900
  {
    var r := TsCheckedDate(year, month, day);
    if r.Some? {
      DayNumberInYear(Date(year, month, 1));
      DayNumberInYear(r.value);
      if r.value.year + 1 <= year {
        YearsApart(r.value.year + 1, year);
      }
    }
  }

  /** `parseDateEmbauche(value)` on a stored field: a falsy value gives no date, a number
      throws (it has no `trim`), a text is parsed. */
  function TsParseHireDate(v: Option<Value>): (r: Result<Option<Date>, Thrown>)
    ensures !Truthy(v) ==> r == Success(None)
    ensures Truthy(v) && v.value.Num? ==> r.Failure?
    ensures r.Success? && r.value.Some? ==> Valid(r.value.value) && r.value.value.year > 1900
  {
    if !Truthy(v) then Success(None)
    else match v.value
      case Num(_) => Failure(NotAString)
      case Str(s) => Success(TsParseHireText(s))
      case NumText(_) => Success(None)
      case Null => Success(None)
  }

  /** Seniority in completed years and months, as the service counts it: the month goes back
      by one while the day of the month has not been reached. */
  function TsSeniorityOf(hire: Date, today: Date): (r: (int, int))
    requires Valid(hire) && Valid(today)
    ensures 0 <= r.1 < 12
    ensures var start := hire.year * 12 + hire.month + r.0 * 12 + r.1;
      var now := today.year * 12 + today.month;
      (start < now || (start == now && hire.day <= today.day)) &&
      (now < start + 1 || (now == start + 1 && today.day < hire.day))
  {
    var years := today.year - hire.year;
    var months := today.month - hire.month;
    var months := if today.day < hire.day then months - 1 else months;
    if months < 0 then (years - 1, months + 12) else (years, months)
  }

  /** `calculAnciennete`: "<years> ans <months> mois", or "" without a hire date. */
  function TsSeniority(v: Option<Value>, now: Clock): (r: Result<string, Thrown>)
    requires ValidClock(now)
    ensures r.Failure? <==> TsParseHireDate(v).Failure?
    ensures r.Success? && TsParseHireDate(v).value.None? ==> r.value == ""
  {
    var hire :- TsParseHireDate(v);
    if hire.None? then Success("")
    else
      var (y, m) := TsSeniorityOf(hire.value, now.today);
      Success(SeniorityText(y, m))
  }

  function SeniorityText(years: int, months: int): string
  {
    IntToString(years) + " ans " + IntToString(months) + " mois"
  }

  /** The ceiling of a real. */
  function Ceil(x: real): (c: int)
    ensures c as real >= x && (c - 1) as real < x
  {
    if x.Floor as real == x then x.Floor else x.Floor + 1
  }

  /** `calculDroitDepuisDate`: 1 when the absolute time between now and the hire date's
      midnight, counted in started days, exceeds 365. */
  function TsEntitlementOf(hire: Date, now: Clock): (r: int)
    requires Valid(hire) && ValidClock(now)
    ensures r == 0 || r == 1
    ensures var elapsed := (DayNumber(now.today) - DayNumber(hire)) * MsPerDay + now.msOfDay;
      r == 1 <==> elapsed > 365 * MsPerDay || elapsed < -365 * MsPerDay
  {
    var elapsed := (DayNumber(now.today) - DayNumber(hire)) * MsPerDay + now.msOfDay;
    var diffDays := Ceil((if elapsed < 0 then -elapsed else elapsed) as real / MsPerDay as real);
    if diffDays > 365 then 1 else 0
  }

  function TsEntitlement(v: Option<Value>, now: Clock): (r: Result<int, Thrown>)
    requires ValidClock(now)
    ensures r.Failure? <==> TsParseHireDate(v).Failure?
    ensures r.Success? ==> r.value == 0 || r.value == 1
  {
    var hire :- TsParseHireDate(v);
    if hire.None? then Success(0) else Success(TsEntitlementOf(hire.value, now))
  }

  /** Lexicographic order on (year, month, day) triples. */
  predicate DateLe(y1: int, m1: int, d1: int, y2: int, m2: int, d2: int)
  {
    y1 < y2 || (y1 == y2 && (m1 < m2 || (m1 == m2 && d1 <= d2)))
  }

  /** `calculAncienneteAns`: completed years, one fewer while this year's anniversary is still
      ahead. */
  function TsSeniorityYearsOf(hire: Date, today: Date): (r: int)
    requires Valid(hire) && Valid(today)
    ensures DateLe(hire.year + r, hire.month, hire.day, today.year, today.month, today.day)
    ensures !DateLe(hire.year + r + 1, hire.month, hire.day, today.year, today.month, today.day)
  {
    var years := today.year - hire.year;
    var months := today.month - hire.month;
    if months < 0 || (months == 0 && today.day < hire.day) then years - 1 else years
  }

  function TsSeniorityYears(v: Option<Value>, now: Clock): (r: Result<int, Thrown>)
    requires ValidClock(now)
    ensures r.Failure? <==> TsParseHireDate(v).Failure?
    ensures r.Success? && TsParseHireDate(v).value.None? ==> r.value == 0
  {
    var hire :- TsParseHireDate(v);
    if hire.None? then Success(0) else Success(TsSeniorityYearsOf(hire.value, now.today))
  }

  /** The service's two seniority computations agree on the number of years. */
  lemma TsSeniorityYearsAgree(hire: Date, today: Date)
    requires Valid(hire) && Valid(today)
    ensures TsSeniorityOf(hire, today).0 == TsSeniorityYearsOf(hire, today)
  {
  }

  // ---------------------------------------------------------------- Python (api.py, col.py)

  /** Python `str.split(sep)`. */
  function Split(s: string, sep: char): (parts: seq<string>)
    ensures |parts| >= 1
    ensures forall i :: 0 <= i < |parts| ==> sep !in parts[i]
  {
    if s == [] then [""]
    else if s[0] == sep then [""] + Split(s[1..], sep)
    else
      var rest := Split(s[1..], sep);
      [[s[0]] + rest[0]] + rest[1..]
  }

  /** `%d` of `strptime`: 01..31 on two digits, 1..9 on one, or 1..9 after a space. */
  function PyDayField(f: string): (r: Option<int>)
    ensures r.Some? ==> 1 <= r.value <= 31
  {
    if |f| == 1 && '1' <= f[0] <= '9' then Some(DigitValue(f[0]))
    else if |f| == 2 && f[0] == ' ' && '1' <= f[1] <= '9' then Some(DigitValue(f[1]))
    else if |f| == 2 && IsDigit(f[0]) && IsDigit(f[1]) && 1 <= DigitValue(f[0]) * 10 + DigitValue(f[1]) <= 31 then
      Some(DigitValue(f[0]) * 10 + DigitValue(f[1]))
    else None
  }

  /** `%m`: 01..12 on two digits or 1..9 on one. */
  function PyMonthField(f: string): (r: Option<int>)
    ensures r.Some? ==> 1 <= r.value <= 12
  {
    if |f| == 1 && '1' <= f[0] <= '9' then Some(DigitValue(f[0]))
    else if |f| == 2 && IsDigit(f[0]) && IsDigit(f[1]) && 1 <= DigitValue(f[0]) * 10 + DigitValue(f[1]) <= 12 then
      Some(DigitValue(f[0]) * 10 + DigitValue(f[1]))
    else None
  }

  /** `%Y`: exactly four digits. */
  function PyYearField(f: string): Option<int>
  {
    if |f| == 4 && AllDigits(f) then Some(DigitsValue(f)) else None
  }

  /** `%y`: two digits, 69..99 in the 1900s and 00..68 in the 2000s. */
  function PyShortYearField(f: string): (r: Option<int>)
    ensures r.Some? ==> 1969 <= r.value <= 2068
  {
    if |f| == 2 && AllDigits(f) then
      var v := DigitsValue(f);
      TwoDigitsValue(f);
      Some(if v >= 69 then 1900 + v else 2000 + v)
    else None
  }

  /** The `datetime.date` constructor: a year from 1 to 9999 and a real day of the month. */
  function PyDate(y: Option<int>, m: Option<int>, d: Option<int>): (r: Option<Date>)
    ensures r.Some? ==> Valid(r.value) && 1 <= r.value.year <= 9999
  {
    if y.Some? && m.Some? && d.Some? && 1 <= y.value <= 9999 && 1 <= m.value <= 12
       && 1 <= d.value <= DaysInMonth(y.value, m.value)
    then Some(Date(y.value, m.value, d.value))
    else None
  }

  /** `strptime(s, "%d/%m/%Y")` (or `"%d/%m/%y"` when `short`). */
  function PyStrptimeDmy(s: string, short: bool): (r: Option<Date>)
    ensures r.Some? ==> Valid(r.value)
  {
    var parts := Split(s, '/');
    if |parts| != 3 then None
    else PyDate(if short then PyShortYearField(parts[2]) else PyYearField(parts[2]),
                PyMonthField(parts[1]), PyDayField(parts[0]))
  }

  /** `strptime(s, "%Y-%m-%d")`. */
  function PyStrptimeIso(s: string): (r: Option<Date>)
    ensures r.Some? ==> Valid(r.value)
  {
    var parts := Split(s, '-');
    if |parts| != 3 then None
    else PyDate(PyYearField(parts[0]), PyMonthField(parts[1]), PyDayField(parts[2]))
  }

  /** `_parse_date_embauche`: api.py tries `%d/%m/%Y`, `%Y-%m-%d` and `%d/%m/%y` in that order;
      col.py (`withShortYear` false) only the first two. */
  function PyParseHireDate(s: string, withShortYear: bool): (r: Option<Date>)
    ensures r.Some? ==> Valid(r.value)
    ensures s == "" ==> r.None?
  {
    if s == "" then None
    else
      var t := StripPy(s);
      var a := PyStrptimeDmy(t, false);
      if a.Some? then a
      else
        var b := PyStrptimeIso(t);
        if b.Some? then b
        else if withShortYear then PyStrptimeDmy(t, true)
        else None
  }

  /** `calcul_anciennete` / `anciennete_ans_depuis_date`: completed years, with the tuple
      comparison of (month, day). */
  function PySeniorityYearsOf(hire: Date, today: Date): (r: int)
    requires Valid(hire) && Valid(today)
    ensures DateLe(hire.year + r, hire.month, hire.day, today.year, today.month, today.day)
    ensures !DateLe(hire.year + r + 1, hire.month, hire.day, today.year, today.month, today.day)
  {
    var before := today.month < hire.month || (today.month == hire.month && today.day < hire.day);
    today.year - hire.year - (if before then 1 else 0)
  }

  /** The Python months figure: the difference of the month numbers modulo 12, whatever the
      day of the month. */
  function PySeniorityMonthsOf(hire: Date, today: Date): (r: int)
    requires Valid(hire) && Valid(today)
    ensures 0 <= r < 12 && (hire.month + r - today.month) % 12 == 0
  {
    (today.month - hire.month) % 12
  }

  function PySeniority(s: string, withShortYear: bool, today: Date): (r: string)
    requires Valid(today)
    ensures PyParseHireDate(s, withShortYear).None? <==> r == ""
  {
    var hire := PyParseHireDate(s, withShortYear);
    if hire.None? then ""
    else SeniorityText(PySeniorityYearsOf(hire.value, today), PySeniorityMonthsOf(hire.value, today))
  }

  function PySeniorityYears(s: string, withShortYear: bool, today: Date): (r: int)
    requires Valid(today)
    ensures PyParseHireDate(s, withShortYear).None? ==> r == 0
  {
    var hire := PyParseHireDate(s, withShortYear);
    if hire.None? then 0 else PySeniorityYearsOf(hire.value, today)
  }

  /** `calcul_droit_depuis_date`: 1 when more than 365 days have passed since the hire date. */
  function PyEntitlement(s: string, withShortYear: bool, today: Date): (r: int)
    requires Valid(today)
    ensures r == 0 || r == 1
    ensures r == 1 <==> (PyParseHireDate(s, withShortYear).Some? &&
                         DayNumber(today) - DayNumber(PyParseHireDate(s, withShortYear).value) > 365)
  {
    var hire := PyParseHireDate(s, withShortYear);
    if hire.None? then 0 else PyEntitlementOf(hire.value, today)
  }

  function PyEntitlementOf(hire: Date, today: Date): int
    requires Valid(hire) && Valid(today)
  {
    if DayNumber(today) - DayNumber(hire) > 365 then 1 else 0
  }

  // ---------------------------------------------------------------- the copies compared

  /** All three programs count the same completed years. */
  lemma SeniorityYearsAgree(hire: Date, today: Date)
    requires Valid(hire) && Valid(today)
    ensures TsSeniorityOf(hire, today).0 == TsSeniorityYearsOf(hire, today) == PySeniorityYearsOf(hire, today)
  {
  }

  /** The months differ: the service counts completed months, Python the difference of the
      month numbers, one more while the day of the month has not been reached. */
  lemma SeniorityMonthsDiffer(hire: Date, today: Date)
    requires Valid(hire) && Valid(today)
    ensures TsSeniorityOf(hire, today).1 ==
      (PySeniorityMonthsOf(hire, today) - (if today.day < hire.day then 1 else 0)) % 12
  {
  }

  /** For a hire date in the past, the service and Python grant the one-year entitlement alike,
      except on the 365th day after it, which the service already counts as a started 366th
      day once midnight has passed. */
  lemma EntitlementPastHire(hire: Date, now: Clock)
    requires Valid(hire) && ValidClock(now)
    requires DayNumber(now.today) >= DayNumber(hire)
    ensures TsEntitlementOf(hire, now) ==
      if DayNumber(now.today) - DayNumber(hire) == 365 && now.msOfDay > 0 then 1
      else PyEntitlementOf(hire, now.today)
  {
  }

  /** The service takes the absolute value of the elapsed time: a hire date more than a year in
      the future grants the entitlement, which Python refuses. */
  lemma EntitlementFutureHire(hire: Date, now: Clock)
    requires Valid(hire) && ValidClock(now)
    requires DayNumber(hire) - DayNumber(now.today) > 365
    ensures TsEntitlementOf(hire, now) == 1
    ensures PyEntitlementOf(hire, now.today) == 0
  {
  }

  // ---------------------------------------------------------------- the formats, written out

  /** A date written `DD/MM/YYYY`. */
  function DmyText(y: nat, m: nat, d: nat): string
    requires m < 100 && d < 100
  {
    Pad2(d) + "/" + Pad2(m) + "/" + NatToString(y)
  }

  /** A date written `YYYY-MM-DD`. */
  function IsoText(y: nat, m: nat, d: nat): string
    requires m < 100 && d < 100
  {
    NatToString(y) + "-" + Pad2(m) + "-" + Pad2(d)
  }

  lemma {:induction false} SplitAfter(a: string, sep: char, b: string)
    requires sep !in a
    ensures Split(a + [sep] + b, sep) == [a] + Split(b, sep)
    decreases |a|
  {
    if a != [] {
      assert (a + [sep] + b)[0] == a[0] && (a + [sep] + b)[1..] == a[1..] + [sep] + b;
      SplitAfter(a[1..], sep, b);
      assert [a[0]] + a[1..] == a;
    } else {
      assert a + [sep] + b == [sep] + b;
    }
  }

  lemma {:induction false} SplitNone(a: string, sep: char)
    requires sep !in a
    ensures Split(a, sep) == [a]
    decreases |a|
  {
    if a != [] {
      SplitNone(a[1..], sep);
      assert [a[0]] + a[1..] == a;
    }
  }

  /** Three fields joined by a separator that none of them contains split back into them. */
  lemma SplitThree(p: string, q: string, r: string, sep: char)
    requires sep !in p && sep !in q && sep !in r
    ensures Split(p + [sep] + q + [sep] + r, sep) == [p, q, r]
  {
    SplitAfter(q, sep, r);
    SplitNone(r, sep);
    assert p + [sep] + q + [sep] + r == p + [sep] + (q + [sep] + r);
    SplitAfter(p, sep, q + [sep] + r);
  }

  lemma JoinedThree(p: string, q: string, r: string, sep: char)
    ensures var s := p + [sep] + q + [sep] + r;
      |s| == |p| + |q| + |r| + 2 && s[..|p|] == p && s[|p|] == sep &&
      s[|p| + 1..|p| + 1 + |q|] == q && s[|p| + 1 + |q|] == sep && s[|p| + |q| + 2..] == r &&
      forall i :: 0 <= i < |s| ==> s[i] == sep || s[i] in p || s[i] in q || s[i] in r
  {
    var s := p + [sep] + q + [sep] + r;
    forall i | 0 <= i < |s| ensures s[i] == sep || s[i] in p || s[i] in q || s[i] in r {
      if i < |p| { assert s[i] == p[i]; }
      else if |p| < i < |p| + 1 + |q| { assert s[i] == q[i - |p| - 1]; }
      else if |p| + 1 + |q| < i { assert s[i] == r[i - |p| - |q| - 2]; }
    }
  }

  /** The three digit runs of a written date: two digits for the day and the month, four for the
      year. */
  lemma DateDigits(y: nat, m: nat, d: nat)
    requires 1 <= m <= 12 && 1 <= d <= 31 && 1000 <= y <= 9999
    ensures |Pad2(d)| == 2 && AllDigits(Pad2(d)) && DigitsValue(Pad2(d)) == d
    ensures |Pad2(m)| == 2 && AllDigits(Pad2(m)) && DigitsValue(Pad2(m)) == m
    ensures |NatToString(y)| == 4 && AllDigits(NatToString(y)) && DigitsValue(NatToString(y)) == y
  {
    Pad2Digits(d);
    Pad2Digits(m);
    NatToStringDigits(y);
    NatToStringFourDigits(y);
  }

  /** Where the three parts of a joined text lie. */
  lemma JoinedAt(s: string, p: string, q: string, r: string, sep: char)
    requires s == p + [sep] + q + [sep] + r
    ensures |s| == |p| + |q| + |r| + 2 && s[|p|] == sep && s[|p| + 1 + |q|] == sep
    ensures s[0..|p|] == p && s[|p| + 1..|p| + 1 + |q|] == q && s[|p| + |q| + 2..|s|] == r
    ensures |p| > 0 ==> s[0] == p[0]
    ensures |r| > 0 ==> s[|s| - 1] == r[|r| - 1]
  {
  }

  lemma FieldAt(s: string, p: string, i: nat)
    requires i + |p| <= |s| && s[i..i + |p|] == p && AllDigits(p)
    ensures DigitsAt(s, i, |p|) && NumberAt(s, i, |p|) == DigitsValue(p)
  {
    forall k | i <= k < i + |p| ensures IsDigit(s[k]) { assert s[k] == p[k - i]; }
  }

  /** The three digit fields of a written date, and how `strptime` reads them. */
  lemma DateFields(y: nat, m: nat, d: nat)
    requires 1 <= m <= 12 && 1 <= d <= 31 && 1000 <= y <= 9999
    ensures |Pad2(d)| == 2 && AllDigits(Pad2(d)) && DigitsValue(Pad2(d)) == d
    ensures |Pad2(m)| == 2 && AllDigits(Pad2(m)) && DigitsValue(Pad2(m)) == m
    ensures |NatToString(y)| == 4 && AllDigits(NatToString(y)) && DigitsValue(NatToString(y)) == y
    ensures PyDayField(Pad2(d)) == Some(d) && PyMonthField(Pad2(m)) == Some(m)
    ensures PyYearField(NatToString(y)) == Some(y) && PyShortYearField(NatToString(y)).None?
    ensures forall c :: !IsDigit(c) ==> c !in Pad2(d) && c !in Pad2(m) && c !in NatToString(y)
  {
    DateDigits(y, m, d);
    assert IsDigit(Pad2(d)[0]) && IsDigit(Pad2(d)[1]) && IsDigit(Pad2(m)[0]) && IsDigit(Pad2(m)[1]);
    TwoDigitsValue(Pad2(d));
    TwoDigitsValue(Pad2(m));
  }

  lemma DmyTextShape(y: nat, m: nat, d: nat)
    requires 1 <= m <= 12 && 1 <= d <= 31 && 1000 <= y <= 9999
    ensures var s := DmyText(y, m, d);
      IsDmyText(s) && NumberAt(s, 0, 2) == d && NumberAt(s, 3, 2) == m && NumberAt(s, 6, 4) == y &&
      TrimJs(s) == s && StripPy(s) == s
  {
    var s := DmyText(y, m, d);
    DateDigits(y, m, d);
    JoinedAt(s, Pad2(d), Pad2(m), NatToString(y), '/');
    FieldAt(s, Pad2(d), 0);
    FieldAt(s, Pad2(m), 3);
    FieldAt(s, NatToString(y), 6);
    DigitEnds(s);
  }

  /** A text that starts and ends with a digit is left alone by both trims. */
  lemma DigitEnds(s: string)
    requires |s| > 0 && IsDigit(s[0]) && IsDigit(s[|s| - 1])
    ensures TrimJs(s) == s && StripPy(s) == s
  {
    TrimJsUnchanged(s);
    StripPyUnchanged(s);
  }

  lemma DmyTextSplit(y: nat, m: nat, d: nat)
    requires 1 <= m <= 12 && 1 <= d <= 31 && 1000 <= y <= 9999
    ensures var s := DmyText(y, m, d);
      Split(s, '/') == [Pad2(d), Pad2(m), NatToString(y)] && Split(s, '-') == [s]
  {
    var s := DmyText(y, m, d);
    DateFields(y, m, d);
    assert s == Pad2(d) + ['/'] + Pad2(m) + ['/'] + NatToString(y);
    JoinedThree(Pad2(d), Pad2(m), NatToString(y), '/');
    SplitThree(Pad2(d), Pad2(m), NatToString(y), '/');
    SplitNone(s, '-');
  }

  lemma IsoTextShape(y: nat, m: nat, d: nat)
    requires 1 <= m <= 12 && 1 <= d <= 31 && 1000 <= y <= 9999
    ensures var s := IsoText(y, m, d);
      IsIsoText(s) && NumberAt(s, 0, 4) == y && NumberAt(s, 5, 2) == m && NumberAt(s, 8, 2) == d
  {
    var s := IsoText(y, m, d);
    DateDigits(y, m, d);
    JoinedAt(s, NatToString(y), Pad2(m), Pad2(d), '-');
    FieldAt(s, NatToString(y), 0);
    FieldAt(s, Pad2(m), 5);
    FieldAt(s, Pad2(d), 8);
  }

  lemma IsoTextEdges(y: nat, m: nat, d: nat)
    requires 1 <= m <= 12 && 1 <= d <= 31 && 1000 <= y <= 9999
    ensures var s := IsoText(y, m, d);
      !IsDmyText(s) && TrimJs(s) == s && StripPy(s) == s
  {
    var s := IsoText(y, m, d);
    DateDigits(y, m, d);
    JoinedAt(s, NatToString(y), Pad2(m), Pad2(d), '-');
    assert IsDigit(NatToString(y)[0]) && IsDigit(Pad2(d)[1]);
    assert s[2] == NatToString(y)[2] && IsDigit(NatToString(y)[2]);
    DigitEnds(s);
  }

  lemma IsoTextSplit(y: nat, m: nat, d: nat)
    requires 1 <= m <= 12 && 1 <= d <= 31 && 1000 <= y <= 9999
    ensures var s := IsoText(y, m, d);
      Split(s, '-') == [NatToString(y), Pad2(m), Pad2(d)] && Split(s, '/') == [s]
  {
    var s := IsoText(y, m, d);
    DateFields(y, m, d);
    assert s == NatToString(y) + ['-'] + Pad2(m) + ['-'] + Pad2(d);
    JoinedThree(NatToString(y), Pad2(m), Pad2(d), '-');
    SplitThree(NatToString(y), Pad2(m), Pad2(d), '-');
    SplitNone(s, '/');
  }

  lemma JsDateInYear(y: int, m: int, d: int)
    requires 1 <= m <= 12 && y >= 100
    ensures JsDate(y, m - 1, d) == Normalize(y, m, d)
  {
    MonthIndexInYear(m - 1);
    var year, month := JsYear(y) + (m - 1) / 12, (m - 1) % 12 + 1;
    assert year == y && month == m;
  }

  lemma MonthIndexInYear(k: int)
    requires 0 <= k < 12
    ensures k / 12 == 0 && k % 12 == k
  {
  }

  lemma TsCheckedInRange(y: nat, m: nat, d: nat)
    requires 1 <= m <= 12 && 1 <= d <= 31 && 1000 <= y
    ensures TsCheckedDate(y, m, d) == (if y > 1900 then Some(Normalize(y, m, d)) else None)
  {
    JsDateInYear(y, m, d);
  }

  lemma DmyTextToService(y: nat, m: nat, d: nat)
    requires 1 <= m <= 12 && 1 <= d <= 31 && 1000 <= y <= 9999
    ensures TsParseHireText(DmyText(y, m, d)) == TsCheckedDate(y, m, d)
  {
    DmyTextShape(y, m, d);
  }

  lemma IsoTextToService(y: nat, m: nat, d: nat)
    requires 1 <= m <= 12 && 1 <= d <= 31 && 1000 <= y <= 9999
    ensures TsParseHireText(IsoText(y, m, d)) == TsCheckedDate(y, m, d)
  {
    IsoTextShape(y, m, d);
    IsoTextEdges(y, m, d);
  }

  lemma DmyTextToPython(y: nat, m: nat, d: nat, withShortYear: bool)
    requires 1 <= m <= 12 && 1 <= d <= 31 && 1000 <= y <= 9999
    ensures PyParseHireDate(DmyText(y, m, d), withShortYear) == PyDate(Some(y), Some(m), Some(d))
  {
    var s := DmyText(y, m, d);
    DmyTextStripped(y, m, d);
    DmyNotIso(y, m, d);
    PyParseStripped(s, withShortYear);
    DmyStrptime(y, m, d);
  }

  lemma DmyTextStripped(y: nat, m: nat, d: nat)
    requires 1 <= m <= 12 && 1 <= d <= 31 && 1000 <= y <= 9999
    ensures DmyText(y, m, d) != "" && StripPy(DmyText(y, m, d)) == DmyText(y, m, d)
  {
    DmyTextShape(y, m, d);
  }

  lemma DmyNotIso(y: nat, m: nat, d: nat)
    requires 1 <= m <= 12 && 1 <= d <= 31 && 1000 <= y <= 9999
    ensures PyStrptimeIso(DmyText(y, m, d)).None?
  {
    DmyTextSplit(y, m, d);
  }

  /** What `_parse_date_embauche` does with a stripped text that is not `YYYY-MM-DD`. */
  lemma PyParseStripped(s: string, withShortYear: bool)
    requires s != "" && StripPy(s) == s && PyStrptimeIso(s).None?
    ensures PyParseHireDate(s, withShortYear) ==
      if PyStrptimeDmy(s, false).Some? then PyStrptimeDmy(s, false)
      else if withShortYear then PyStrptimeDmy(s, true) else None
  {
  }

  lemma DmyStrptime(y: nat, m: nat, d: nat)
    requires 1 <= m <= 12 && 1 <= d <= 31 && 1000 <= y <= 9999
    ensures PyStrptimeDmy(DmyText(y, m, d), false) == PyDate(Some(y), Some(m), Some(d))
    ensures PyStrptimeDmy(DmyText(y, m, d), true).None?
  {
    DmyTextSplit(y, m, d);
    DateFields(y, m, d);
  }

  lemma IsoStrptime(y: nat, m: nat, d: nat)
    requires 1 <= m <= 12 && 1 <= d <= 31 && 1000 <= y <= 9999
    ensures PyStrptimeIso(IsoText(y, m, d)) == PyDate(Some(y), Some(m), Some(d))
    ensures PyStrptimeDmy(IsoText(y, m, d), false).None? && PyStrptimeDmy(IsoText(y, m, d), true).None?
  {
    IsoTextSplit(y, m, d);
    DateFields(y, m, d);
  }

  lemma IsoTextToPython(y: nat, m: nat, d: nat, withShortYear: bool)
    requires 1 <= m <= 12 && 1 <= d <= 31 && 1000 <= y <= 9999
    ensures PyParseHireDate(IsoText(y, m, d), withShortYear) == PyDate(Some(y), Some(m), Some(d))
  {
    IsoTextEdges(y, m, d);
    IsoStrptime(y, m, d);
  }

  /** Both parsers read `DD/MM/YYYY` and `YYYY-MM-DD`, but differently: the service rolls a day
      past the end of the month over into the next month (31/02/2023 is 3 March 2023) and
      refuses years up to 1900; Python refuses a day past the end of the month and accepts
      every four-digit year. */
  lemma HireTextParsed(y: nat, m: nat, d: nat, withShortYear: bool)
    requires 1 <= m <= 12 && 1 <= d <= 31 && 1000 <= y <= 9999
    ensures TsParseHireText(DmyText(y, m, d)) == (if y > 1900 then Some(Normalize(y, m, d)) else None)
    ensures TsParseHireText(IsoText(y, m, d)) == (if y > 1900 then Some(Normalize(y, m, d)) else None)
    ensures PyParseHireDate(DmyText(y, m, d), withShortYear) ==
      (if d <= DaysInMonth(y, m) then Some(Date(y, m, d)) else None)
    ensures PyParseHireDate(IsoText(y, m, d), withShortYear) ==
      (if d <= DaysInMonth(y, m) then Some(Date(y, m, d)) else None)
  {
    DmyTextToService(y, m, d);
    IsoTextToService(y, m, d);
    TsCheckedInRange(y, m, d);
    DmyTextToPython(y, m, d, withShortYear);
    IsoTextToPython(y, m, d, withShortYear);
  }

  /** Hence every date from 1901 to 9999, written in either format, is read back as itself by
      all three parsers. */
  lemma HireDateRoundTrip(date: Date, withShortYear: bool)
    requires Valid(date) && 1901 <= date.year <= 9999
    ensures TsParseHireText(DmyText(date.year, date.month, date.day)) == Some(date)
    ensures TsParseHireText(IsoText(date.year, date.month, date.day)) == Some(date)
    ensures PyParseHireDate(DmyText(date.year, date.month, date.day), withShortYear) == Some(date)
    ensures PyParseHireDate(IsoText(date.year, date.month, date.day), withShortYear) == Some(date)
  {
    HireTextParsed(date.year, date.month, date.day, withShortYear);
    NormalizeInMonth(date.year, date.month, date.day);
  }
}
