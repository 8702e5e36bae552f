/** The desktop application's own rules: its flag and month readers, the attendance page (month
    navigation, day edits, balances recomputed on save) and the main window's leave accrual at
    start-up. Widgets, dialogs and the JSON files are left out; the pages' shared lists are
    fields here. */
module DesktopApp {
  import opened Basics
  import opened Text
  import opened Json
  import opened Calendar
  import opened NumberParsing
  import opened Attendance
  import opened ColarysService
  import opened PythonApi

  /** The words `yes_flag` accepts, once trimmed and lower-cased. */
  predicate YesWord(s: string)
  {
    s == "1" || s == "oui" || s == "true" || s == "vrai" || s == "o" || s == "y"
  }

  /** `yes_flag`: 1 for a non-zero number or a yes-word, 0 for anything else (`None` reads as
      the text "none"). A number written as text is read through that text: the only yes-word
      a number prints as is "1", which is how the number 1 is written. */
  function YesFlag(v: Value): (r: int)
    ensures r == 0 || r == 1
    ensures v.Num? ==> (r == 1 <==> v.n != 0.0)
    ensures v.Str? ==> (r == 1 <==> YesWord(ToLower(StripPy(v.s))))
    ensures v.NumText? ==> (r == 1 <==> v.x == 1.0)
    ensures v.Null? ==> r == 0
  {
    match v
    case Num(n) => if n != 0.0 then 1 else 0
    case Str(s) => if YesWord(ToLower(StripPy(s))) then 1 else 0
    case Null => 0
    case NumText(x) => if x == 1.0 then 1 else 0
  }

  /** The entitlement flags the programs write ("0" and "1") read back as themselves. */
  lemma YesFlagOfWrittenFlag(droit: int)
    requires droit == 0 || droit == 1
    ensures YesFlag(Str(FlagText(droit))) == droit
  {
    assert FlagText(0) == "0" && FlagText(1) == "1";
    if droit == 0 { YesFlagOfDigit("0"); } else { YesFlagOfDigit("1"); }
  }

  lemma YesFlagOfDigit(s: string)
    requires s == "0" || s == "1"
    ensures YesFlag(Str(s)) == if s == "1" then 1 else 0
  {
    StripPyUnchanged(s);
    assert ToLower(s) == s;
  }

  /** `parse_month`: a month number 1..12, written with or without a leading zero; 0 for
      anything else. */
  function ParseMonth(s: string): (r: int)
    ensures 0 <= r <= 12
    ensures s == "" ==> r == 0
  {
    if s == "" then 0
    else
      var n := PyInt(ToLower(StripPy(s)));
      if n.Some? && 1 <= n.value <= 12 then n.value else 0
  }

  lemma LowerDigits(s: string)
    requires AllDigits(s)
    ensures ToLower(s) == s
  {
    assert forall i :: 0 <= i < |s| ==> LowerChar(s[i]) == s[i];
  }

  /** Every month number reads back, both as printed and zero-padded. */
  lemma ParseMonthRoundTrip(m: int)
    requires 1 <= m <= 12
    ensures ParseMonth(IntToString(m)) == m
    ensures ParseMonth(Pad2(m)) == m
  {
    ParseMonthOfPrinted(m);
    ParseMonthOfPadded(m);
  }

  lemma ParseMonthOfPrinted(m: int)
    requires 1 <= m <= 12
    ensures ParseMonth(IntToString(m)) == m
  {
    NatToStringDigits(m);
    StripIntToString(m);
    LowerDigits(IntToString(m));
    PyIntOfIntToString(m);
  }

  lemma ParseMonthOfPadded(m: int)
    requires 1 <= m <= 12
    ensures ParseMonth(Pad2(m)) == m
  {
    Pad2Digits(m);
    ParseMonthOfDigits(Pad2(m));
  }

  lemma ParseMonthOfDigits(s: string)
    requires |s| > 0 && AllDigits(s) && 1 <= DigitsValue(s) <= 12
    ensures ParseMonth(s) == DigitsValue(s)
  {
    assert IsDigit(s[0]) && IsDigit(s[|s| - 1]);
    StripPyUnchanged(s);
    LowerDigits(s);
    PyIntOfDigits(s);
  }

  /** The attendance texts a day edit stores; unlike the service's set, `o` is not one. */
  predicate DeskAllowed(v: string)
  {
    v == "p" || v == "n" || v == "a" || v == "c" || v == "m" || v == "f"
  }

  /** An edited value as it is compared and stored: trimmed and lower-cased. */
  function Normalized(val: string): string { ToLower(StripPy(val)) }

  /** `x or default` for an optional number: missing and 0 both fall back. */
  function PickOr(x: Option<int>, default: int): (r: int)
    ensures x.Some? && x.value != 0 ==> r == x.value
    ensures x.None? || x.value == 0 ==> r == default
  {
    if x.Some? && x.value != 0 then x.value else default
  }

  /** The month `datetime.date` accepts together with the first of the next month. */
  predicate DateOk(y: int, m: int)
  {
    1 <= m <= 12 && 1 <= y && y + m / 12 <= 9999
  }

  /** Whether one day's edit changes the stored map. */
  predicate Changes(before: map<string, string>, key: string, v: string)
  {
    if DeskAllowed(v) then !(key in before && before[key] == v) else key in before
  }

  /** The map after one day's edit: an attendance code is stored, anything else removes the
      day. */
  function EditDay(mid: map<string, string>, key: string, v: string): (r: map<string, string>)
    ensures DeskAllowed(v) ==> r == mid[key := v]
    ensures !DeskAllowed(v) ==> r == mid - {key}
  {
    if DeskAllowed(v) then mid[key := v] else mid - {key}
  }

  /** Days of different numbers have different keys. */
  lemma PresenceKeyInjective(matricule: string, y: int, m: int, d1: int, d2: int)
    requires PresenceKey(matricule, y, m, d1) == PresenceKey(matricule, y, m, d2)
    ensures d1 == d2
  {
    var prefix := matricule + "_" + IntToString(y) + "_" + IntToString(m) + "_";
    assert PresenceKey(matricule, y, m, d1) == prefix + IntToString(d1);
    assert PresenceKey(matricule, y, m, d2) == prefix + IntToString(d2);
    assert IntToString(d1) == (prefix + IntToString(d1))[|prefix|..];
    assert IntToString(d2) == (prefix + IntToString(d2))[|prefix|..];
    IntToStringInjective(d1, d2);
  }

  /** The attendance key each day of a request addresses. */
  function DayKeys(matricule: string, y: int, m: int, updates: map<int, string>): (r: map<int, string>)
    ensures r.Keys == updates.Keys
    ensures forall d :: d in r ==> r[d] == PresenceKey(matricule, y, m, d)
  {
    map d | d in updates :: PresenceKey(matricule, y, m, d)
  }

  /** Each day's value as it is compared and stored. */
  function NormalizedEdits(updates: map<int, string>): (r: map<int, string>)
    ensures r.Keys == updates.Keys
    ensures forall d :: d in r ==> r[d] == Normalized(updates[d])
  {
    map d | d in updates :: Normalized(updates[d])
  }

  /** No two days share a key. */
  predicate Distinct(keyOf: map<int, string>)
  {
    forall d1, d2 :: d1 in keyOf && d2 in keyOf && keyOf[d1] == keyOf[d2] ==> d1 == d2
  }

  lemma DayKeysDistinct(matricule: string, y: int, m: int, updates: map<int, string>)
    ensures Distinct(DayKeys(matricule, y, m, updates))
  {
    var keyOf := DayKeys(matricule, y, m, updates);
    forall d1, d2 | d1 in keyOf && d2 in keyOf && keyOf[d1] == keyOf[d2]
      ensures d1 == d2
    {
      PresenceKeyInjective(matricule, y, m, d1, d2);
    }
  }

  /** The keys of the days among `done` that fall inside a month of `dim` days. */
  ghost function Handled(keyOf: map<int, string>, dim: int, done: set<int>): set<string>
  {
    set d | d in done && d in keyOf && 1 <= d <= dim :: keyOf[d]
  }

  /** The map once the days in `done` are handled: an allowed value is stored, a refused one
      removes the day, and every key that is not one of those days is untouched. */
  ghost predicate Edited(before: map<string, string>, after: map<string, string>, keyOf: map<int, string>,
                         vals: map<int, string>, dim: int, done: set<int>)
    requires keyOf.Keys == vals.Keys
  {
    (forall d :: d in done && d in vals && 1 <= d <= dim && DeskAllowed(vals[d]) ==>
       keyOf[d] in after && after[keyOf[d]] == vals[d])
    && (forall d :: d in done && d in vals && 1 <= d <= dim && !DeskAllowed(vals[d]) ==> keyOf[d] !in after)
    && (forall k :: k !in Handled(keyOf, dim, done) ==>
       (k in after <==> k in before) && (k in before ==> after[k] == before[k]))
  }

  /** Whether some day among `done` changes the map. */
  ghost predicate AnyChange(before: map<string, string>, keyOf: map<int, string>, vals: map<int, string>,
                            dim: int, done: set<int>)
    requires keyOf.Keys == vals.Keys
  {
    exists d :: d in done && d in vals && 1 <= d <= dim && Changes(before, keyOf[d], vals[d])
  }

  /** Handling one more in-month day adds its key to the handled keys. */
  lemma HandledStep(keyOf: map<int, string>, dim: int, done: set<int>, d: int)
    requires d in keyOf && 1 <= d <= dim
    ensures Handled(keyOf, dim, done + {d}) == Handled(keyOf, dim, done) + {keyOf[d]}
  {
    var small := Handled(keyOf, dim, done);
    var large := Handled(keyOf, dim, done + {d});
    forall x | x in large
      ensures x in small + {keyOf[d]}
    {
      var d' :| d' in done + {d} && d' in keyOf && 1 <= d' <= dim && x == keyOf[d'];
      if d' != d {
        assert x in small;
      }
    }
    forall x | x in small
      ensures x in large
    {
      var d' :| d' in done && d' in keyOf && 1 <= d' <= dim && x == keyOf[d'];
      assert d' in done + {d};
    }
    assert keyOf[d] in large;
  }

  /** One in-month day of `modifier_presence`'s loop keeps the account of the edited days. */
  lemma EditStep(before: map<string, string>, mid: map<string, string>, keyOf: map<int, string>,
                 vals: map<int, string>, dim: int, done: set<int>, d: int)
    requires keyOf.Keys == vals.Keys && Distinct(keyOf)
    requires d in vals && d !in done && 1 <= d <= dim
    requires Edited(before, mid, keyOf, vals, dim, done)
    ensures Edited(before, EditDay(mid, keyOf[d], vals[d]), keyOf, vals, dim, done + {d})
  {
    var key := keyOf[d];
    var after := EditDay(mid, key, vals[d]);
    HandledStep(keyOf, dim, done, d);
    forall d' | d' in done && d' in vals && 1 <= d' <= dim
      ensures keyOf[d'] != key
      ensures keyOf[d'] in after <==> keyOf[d'] in mid
      ensures keyOf[d'] in mid ==> after[keyOf[d']] == mid[keyOf[d']]
    {
    }
  }

  /** Whether one in-month day changes the map is decided by the original map. */
  lemma ChangeStep(before: map<string, string>, mid: map<string, string>, keyOf: map<int, string>,
                   vals: map<int, string>, dim: int, done: set<int>, d: int)
    requires keyOf.Keys == vals.Keys && Distinct(keyOf)
    requires d in vals && d !in done && 1 <= d <= dim
    requires Edited(before, mid, keyOf, vals, dim, done)
    ensures Changes(mid, keyOf[d], vals[d]) == Changes(before, keyOf[d], vals[d])
    ensures AnyChange(before, keyOf, vals, dim, done + {d})
      == (AnyChange(before, keyOf, vals, dim, done) || Changes(before, keyOf[d], vals[d]))
  {
    var key := keyOf[d];
    assert key !in Handled(keyOf, dim, done);
  }

  /** A day outside the month leaves the account as it is. */
  lemma SkipStep(before: map<string, string>, mid: map<string, string>, keyOf: map<int, string>,
                 vals: map<int, string>, dim: int, done: set<int>, d: int)
    requires keyOf.Keys == vals.Keys
    requires !(1 <= d <= dim)
    requires Edited(before, mid, keyOf, vals, dim, done)
    ensures Edited(before, mid, keyOf, vals, dim, done + {d})
    ensures AnyChange(before, keyOf, vals, dim, done + {d}) == AnyChange(before, keyOf, vals, dim, done)
  {
    assert Handled(keyOf, dim, done + {d}) == Handled(keyOf, dim, done);
  }

  /** The employee after the start-up bump: 2.5 days more (from 0 when there is no balance). */
  function Bumped(e: Record): (r: Record)
    ensures r.Keys == e.Keys + {"Solde de congé"}
    ensures forall k :: k in e && k != "Solde de congé" ==> r[k] == e[k]
    ensures r["Solde de congé"] == NumText(PyParseFloat(Get(e, "Solde de congé"), 0.0) + 2.5)
  {
    e["Solde de congé" := NumText(PyParseFloat(Get(e, "Solde de congé"), 0.0) + 2.5)]
  }

  /** The attendance page: the month on screen, the attendance map and the employee list it
      shares with the other pages. */
  class PagePresence {
    var currentYear: int
    var currentMonth: int
    var presenceData: map<string, string>
    var employes: seq<Record>

    constructor(today: Date, presenceData: map<string, string>, employes: seq<Record>)
      ensures currentYear == today.year && currentMonth == today.month
      ensures this.presenceData == presenceData && this.employes == employes
    {
      currentYear := today.year;
      currentMonth := today.month;
      this.presenceData := presenceData;
      this.employes := employes;
    }

    /** `prev_month`: one month back, borrowing from the year below January. */
    method PrevMonth()
      modifies this
      ensures presenceData == old(presenceData) && employes == old(employes)
      ensures old(currentMonth) > 1 ==> currentMonth == old(currentMonth) - 1 && currentYear == old(currentYear)
      ensures old(currentMonth) <= 1 ==> currentMonth == 12 && currentYear == old(currentYear) - 1
      ensures 1 <= old(currentMonth) <= 12 ==>
        (currentYear, currentMonth) == Calendar.PrevMonth(old(currentYear), old(currentMonth))
    {
      currentMonth := currentMonth - 1;
      if currentMonth < 1 {
        currentMonth := 12;
        currentYear := currentYear - 1;
      }
    }

    /** `next_month`: one month on, carrying into the next year after December. */
    method NextMonth()
      modifies this
      ensures presenceData == old(presenceData) && employes == old(employes)
      ensures old(currentMonth) < 12 ==> currentMonth == old(currentMonth) + 1 && currentYear == old(currentYear)
      ensures old(currentMonth) >= 12 ==> currentMonth == 1 && currentYear == old(currentYear) + 1
      ensures 1 <= old(currentMonth) <= 12 ==>
        (currentYear, currentMonth) == Calendar.NextMonth(old(currentYear), old(currentMonth))
    {
      currentMonth := currentMonth + 1;
      if currentMonth > 12 {
        currentMonth := 1;
        currentYear := currentYear + 1;
      }
    }

    /** `modifier_presence`: for an employee and a non-empty set of day edits, each day of the
        month gets its trimmed, lower-cased value when that is an attendance code, and loses its
        entry otherwise; days outside the month are skipped. The answer says whether anything
        changed. */
    method ModifierPresence(matricule: string, updates: map<int, string>, year: Option<int>,
                            month: Option<int>) returns (changed: bool)
      modifies this
      ensures employes == old(employes) && currentYear == old(currentYear) && currentMonth == old(currentMonth)
      ensures var y := PickOr(year, old(currentYear));
        var m := PickOr(month, old(currentMonth));
        (matricule == "" || updates == map[] || !DateOk(y, m)) ==> !changed && presenceData == old(presenceData)
      ensures var y := PickOr(year, old(currentYear));
        var m := PickOr(month, old(currentMonth));
        (matricule != "" && updates != map[] && DateOk(y, m)) ==>
          var keyOf := DayKeys(matricule, y, m, updates);
          var vals := NormalizedEdits(updates);
          Edited(old(presenceData), presenceData, keyOf, vals, DaysInMonth(y, m), updates.Keys)
          && (changed <==> AnyChange(old(presenceData), keyOf, vals, DaysInMonth(y, m), updates.Keys))
    {
      if matricule == "" || updates == map[] {
        return false;
      }
      var y := PickOr(year, currentYear);
      var m := PickOr(month, currentMonth);
      if !DateOk(y, m) {
        return false;
      }
      var keyOf := DayKeys(matricule, y, m, updates);
      var vals := NormalizedEdits(updates);
      DayKeysDistinct(matricule, y, m, updates);
      changed := ApplyEdits(keyOf, vals, DaysInMonth(y, m));
    }

    /** One day of `modifier_presence`: store an attendance code unless it is already there,
        remove the day otherwise; the answer says whether the map changed. */
    method EditOneDay(key: string, v: string) returns (c: bool)
      modifies this
      ensures employes == old(employes) && currentYear == old(currentYear) && currentMonth == old(currentMonth)
      ensures presenceData == EditDay(old(presenceData), key, v)
      ensures c == Changes(old(presenceData), key, v)
    {
      c := false;
      if DeskAllowed(v) {
        if !(key in presenceData && presenceData[key] == v) {
          presenceData := presenceData[key := v];
          c := true;
        } else {
          assert presenceData[key := v] == presenceData;
        }
      } else if key in presenceData {
        presenceData := presenceData - {key};
        c := true;
      } else {
        assert presenceData - {key} == presenceData;
      }
    }

    /** The day loop of `modifier_presence`, over each day's key and normalised value. */
    method ApplyEdits(keyOf: map<int, string>, vals: map<int, string>, dim: int) returns (changed: bool)
      requires keyOf.Keys == vals.Keys && Distinct(keyOf)
      modifies this
      ensures employes == old(employes) && currentYear == old(currentYear) && currentMonth == old(currentMonth)
      ensures Edited(old(presenceData), presenceData, keyOf, vals, dim, vals.Keys)
      ensures changed <==> AnyChange(old(presenceData), keyOf, vals, dim, vals.Keys)
    {
      changed := false;
      var todo := vals.Keys;
      while todo != {}
        invariant todo <= vals.Keys
        invariant employes == old(employes) && currentYear == old(currentYear) && currentMonth == old(currentMonth)
        invariant Edited(old(presenceData), presenceData, keyOf, vals, dim, vals.Keys - todo)
        invariant changed == AnyChange(old(presenceData), keyOf, vals, dim, vals.Keys - todo)
        decreases |todo|
      {
        var day := Pick(todo);
        ghost var done := vals.Keys - todo;
        var c := EditPicked(old(presenceData), keyOf, vals, dim, done, day);
        changed := changed || c;
        TakeOne(vals.Keys, todo, day);
        todo := todo - {day};
      }
    }

    /** One pass of the day loop: an in-month day is edited, any other day is skipped. */
    method EditPicked(ghost before: map<string, string>, keyOf: map<int, string>, vals: map<int, string>,
                      dim: int, ghost done: set<int>, day: int) returns (c: bool)
      requires keyOf.Keys == vals.Keys && Distinct(keyOf)
      requires day in vals && day !in done
      requires Edited(before, presenceData, keyOf, vals, dim, done)
      modifies this
      ensures employes == old(employes) && currentYear == old(currentYear) && currentMonth == old(currentMonth)
      ensures Edited(before, presenceData, keyOf, vals, dim, done + {day})
      ensures AnyChange(before, keyOf, vals, dim, done + {day}) == (AnyChange(before, keyOf, vals, dim, done) || c)
    {
      c := false;
      if 1 <= day <= dim {
        EditStep(before, presenceData, keyOf, vals, dim, done, day);
        ChangeStep(before, presenceData, keyOf, vals, dim, done, day);
        c := EditOneDay(keyOf[day], vals[day]);
      } else {
        SkipStep(before, presenceData, keyOf, vals, dim, done, day);
      }
    }

    /** The balance loop of `save_presence`: every employee's balance becomes the initial
        balance less all their leave days on record, floored at 0. */
    method SaveBalances()
      modifies this
      ensures presenceData == old(presenceData) && currentYear == old(currentYear)
      ensures currentMonth == old(currentMonth)
      ensures |employes| == |old(employes)|
      ensures forall i :: 0 <= i < |employes| ==>
        employes[i] == Rebalanced(old(employes)[i], AsRecord(presenceData))
    {
      var i := 0;
      while i < |employes|
        invariant 0 <= i <= |employes| == |old(employes)|
        invariant presenceData == old(presenceData) && currentYear == old(currentYear)
        invariant currentMonth == old(currentMonth)
        invariant forall j :: 0 <= j < i ==> employes[j] == Rebalanced(old(employes)[j], AsRecord(presenceData))
        invariant forall j :: i <= j < |employes| ==> employes[j] == old(employes)[j]
      {
        employes := employes[i := Rebalanced(employes[i], AsRecord(presenceData))];
        i := i + 1;
      }
    }
  }

  /** Going one month on and one month back returns to the month on screen. */
  lemma NextThenPrev(y: int, m: int)
    requires 1 <= m <= 12
    ensures var (ny, nm) := Calendar.NextMonth(y, m);
      Calendar.PrevMonth(ny, nm) == (y, m)
  {
  }

  /** Sending the same day edits again changes nothing: once a request is applied, every day it
      names already holds its code or has no entry. */
  lemma {:induction false} EditsSettle(before: map<string, string>, after: map<string, string>,
                                       keyOf: map<int, string>, vals: map<int, string>, dim: int)
    requires keyOf.Keys == vals.Keys
    requires Edited(before, after, keyOf, vals, dim, vals.Keys)
    ensures !AnyChange(after, keyOf, vals, dim, vals.Keys)
  {
    forall d | d in vals && 1 <= d <= dim
      ensures !Changes(after, keyOf[d], vals[d])
    {
      if DeskAllowed(vals[d]) {
        assert keyOf[d] in after && after[keyOf[d]] == vals[d];
      }
    }
  }

  /** A day edited to an attendance code is read by the salary page's hour totals as that code. */
  lemma EditedDayCounted(presenceData: map<string, string>, key: string, v: string)
    requires DeskAllowed(v)
    ensures DeskCode(presenceData[key := v], key) == CodeOfText(v)
    ensures CodeOfText(v) != Other && CodeOfText(v) != O
  {
    assert ToLower(v) == v;
  }

  /** The main window: the employee list and the (year, month) stored in the leave meta file,
      0 when there is none. */
  class MainWindow {
    var employes: seq<Record>
    var metaYear: int
    var metaMonth: int

    constructor(employes: seq<Record>, metaYear: int, metaMonth: int)
      ensures this.employes == employes && this.metaYear == metaYear && this.metaMonth == metaMonth
    {
      this.employes := employes;
      this.metaYear := metaYear;
      this.metaMonth := metaMonth;
    }

    /** `MainWindow.update_conges_automatique`: the Python API's accrual, employee by employee. */
    method UpdateCongesAutomatique(today: Date)
      requires Valid(today)
      modifies this
      ensures metaYear == old(metaYear) && metaMonth == old(metaMonth)
      ensures |employes| == |old(employes)|
      ensures forall i :: 0 <= i < |employes| ==> employes[i] == AccruePy(old(employes)[i], today)
    {
      var i := 0;
      while i < |employes|
        invariant 0 <= i <= |employes| == |old(employes)|
        invariant metaYear == old(metaYear) && metaMonth == old(metaMonth)
        invariant forall j :: 0 <= j < i ==> employes[j] == AccruePy(old(employes)[j], today)
        invariant forall j :: i <= j < |employes| ==> employes[j] == old(employes)[j]
      {
        employes := employes[i := AccruePy(employes[i], today)];
        i := i + 1;
      }
    }

    /** The start-up bump: when the stored month is not the current one, every balance grows by
        2.5 days, and the current month is stored. */
    method MonthlyBump(today: Date)
      modifies this
      ensures metaYear == today.year && metaMonth == today.month
      ensures |employes| == |old(employes)|
      ensures old(metaYear) == today.year && old(metaMonth) == today.month ==> employes == old(employes)
      ensures !(old(metaYear) == today.year && old(metaMonth) == today.month) ==>
        forall i :: 0 <= i < |employes| ==> employes[i] == Bumped(old(employes)[i])
    {
      if metaYear != today.year || metaMonth != today.month {
        var i := 0;
        while i < |employes|
          invariant 0 <= i <= |employes| == |old(employes)|
          invariant forall j :: 0 <= j < i ==> employes[j] == Bumped(old(employes)[j])
          invariant forall j :: i <= j < |employes| ==> employes[j] == old(employes)[j]
        {
          employes := employes[i := Bumped(employes[i])];
          i := i + 1;
        }
      }
      metaYear := today.year;
      metaMonth := today.month;
    }

    /** Start-up as written: the stamp-based accrual, then the meta-file bump. */
    method Startup(today: Date)
      requires Valid(today)
      modifies this
      ensures metaYear == today.year && metaMonth == today.month
      ensures |employes| == |old(employes)|
      ensures !(old(metaYear) == today.year && old(metaMonth) == today.month) ==>
        forall i :: 0 <= i < |employes| ==> employes[i] == Bumped(AccruePy(old(employes)[i], today))
      ensures old(metaYear) == today.year && old(metaMonth) == today.month ==>
        forall i :: 0 <= i < |employes| ==> employes[i] == AccruePy(old(employes)[i], today)
    {
      UpdateCongesAutomatique(today);
      MonthlyBump(today);
    }

    /** Start-up crediting each month once: the stamp-based accrual alone, with the current
        month stored. */
    method StartupCorrected(today: Date)
      requires Valid(today)
      modifies this
      ensures metaYear == today.year && metaMonth == today.month
      ensures |employes| == |old(employes)|
      ensures forall i :: 0 <= i < |employes| ==> employes[i] == AccruePy(old(employes)[i], today)
    {
      UpdateCongesAutomatique(today);
      metaYear := today.year;
      metaMonth := today.month;
    }
  }

  /** As written, the first start-up of a month credits an employee stamped last month with
      twice the month's 2.5 days: 10 becomes 15. */
  lemma StartupCreditsTwice(e: Record, today: Date)
    requires Valid(today)
    requires Get(e, "Solde de congé") == Some(NumText(10.0))
    requires var (py, pm) := Calendar.PrevMonth(today.year, today.month);
      1000 <= py <= 9999 && Get(e, "last_update") == Some(Str(Stamp(Date(py, pm, 1))))
    ensures Bumped(AccruePy(e, today))["Solde de congé"] == NumText(15.0)
  {
    var (py, pm) := Calendar.PrevMonth(today.year, today.month);
    AccruePyStamped(e, Date(py, pm, 1), today);
    assert (today.year - py) * 12 + (today.month - pm) == 1;
    assert PyRound(1250.0) == 1250;
  }

  /** With the accrual alone, the same employee is credited the month's 2.5 days once. */
  lemma StartupCorrectedCreditsOnce(e: Record, today: Date)
    requires Valid(today)
    requires Get(e, "Solde de congé") == Some(NumText(10.0))
    requires var (py, pm) := Calendar.PrevMonth(today.year, today.month);
      1000 <= py <= 9999 && Get(e, "last_update") == Some(Str(Stamp(Date(py, pm, 1))))
    ensures AccruePy(e, today)["Solde de congé"] == NumText(12.5)
  {
    var (py, pm) := Calendar.PrevMonth(today.year, today.month);
    AccruePyStamped(e, Date(py, pm, 1), today);
    assert (today.year - py) * 12 + (today.month - pm) == 1;
    assert PyRound(1250.0) == 1250;
  }
}
