/** The clock-in service: the check on a typed exit time, the hours worked between an entry and
    an exit, the period a history request covers and its totals, and the register of agents and
    daily presences that entry and exit move through: no record, open (entered), closed (left).
    The database, its transactions and the wall clock are left out; the day, the time of day and
    the generated identifier are parameters. */
module Pointage {
  import opened Basics
  import opened Text
  import opened Calendar
  import opened NumberParsing
  import opened WorkingDays

  datatype PresenceError =
    | MissingName       // "Le nom et le prénom sont obligatoires"
    | OpenToday         // an entry today is still open
    | ClosedToday       // entry and exit are both recorded today
    | NoPresenceToday   // no entry today to close
    | AlreadyOut        // the exit is already recorded
    | BadTimeFormat     // a typed exit time that is not H:MM or HH:MM
    | NoPeriod          // a history request with neither dates nor a year

  // ---------------------------------------------------------------- typed times

  /** `[01]?[0-9]|2[0-3]`: one digit, or two digits from 00 to 23. */
  predicate HourText(h: string)
  {
    (|h| == 1 && IsDigit(h[0]))
    || (|h| == 2 && (((h[0] == '0' || h[0] == '1') && IsDigit(h[1])) || (h[0] == '2' && '0' <= h[1] <= '3')))
  }

  /** `[0-5][0-9]`. */
  predicate MinuteText(m: string)
  {
    |m| == 2 && '0' <= m[0] <= '5' && IsDigit(m[1])
  }

  /** The whole text matches `^([01]?[0-9]|2[0-3]):[0-5][0-9]$`: the colon is the third character
      from the end. */
  predicate MatchesHeure(s: string)
  {
    |s| >= 4 && s[|s| - 3] == ':' && HourText(s[..|s| - 3]) && MinuteText(s[|s| - 2..])
  }

  /** `validerFormatHeure`: a time typed as `H:MM` or `HH:MM` gets `:00` appended; anything else
      is refused. */
  function ValiderFormatHeure(s: string): (r: Result<string, PresenceError>)
    ensures r.Success? ==> r.value == s + ":00"
    ensures r.Failure? ==> r.error == BadTimeFormat
    ensures r.Success? <==> (
      (|s| == 4 || |s| == 5) && s[|s| - 3] == ':'
      && AllDigits(s[..|s| - 3]) && AllDigits(s[|s| - 2..])
      && DigitsValue(s[..|s| - 3]) <= 23 && DigitsValue(s[|s| - 2..]) <= 59)
  {
    HeureShape(s);
    if MatchesHeure(s) then Success(s + ":00") else Failure(BadTimeFormat)
  }

  /** The pattern holds exactly for one or two digits worth at most 23, a colon, and two digits
      worth at most 59. */
  lemma HeureShape(s: string)
    ensures MatchesHeure(s) <==> (
      (|s| == 4 || |s| == 5) && s[|s| - 3] == ':'
      && AllDigits(s[..|s| - 3]) && AllDigits(s[|s| - 2..])
      && DigitsValue(s[..|s| - 3]) <= 23 && DigitsValue(s[|s| - 2..]) <= 59)
  {
    if |s| >= 4 {
      var h, m := s[..|s| - 3], s[|s| - 2..];
      if |m| == 2 && AllDigits(m) {
        TwoDigitsValue(m);
      }
      if |h| == 2 && AllDigits(h) {
        TwoDigitsValue(h);
      }
      if |h| == 1 && AllDigits(h) {
        assert h[..0] == [];
      }
    }
  }

  /** Any hour 0..23 and minute 0..59, the hour written with or without a leading zero, passes. */
  lemma HeureAccepted(h: nat, m: nat)
    requires h <= 23 && m <= 59
    ensures ValiderFormatHeure(Pad2(h) + ":" + Pad2(m)) == Success(Pad2(h) + ":" + Pad2(m) + ":00")
    ensures ValiderFormatHeure(NatToString(h) + ":" + Pad2(m)) == Success(NatToString(h) + ":" + Pad2(m) + ":00")
  {
    Pad2Digits(h);
    Pad2Digits(m);
    NatToStringDigits(h);
    var s1 := Pad2(h) + ":" + Pad2(m);
    assert s1[..|s1| - 3] == Pad2(h) && s1[|s1| - 2..] == Pad2(m);
    var s2 := NatToString(h) + ":" + Pad2(m);
    if h >= 10 {
      assert NatToString(h) == Pad2(h);
    } else {
      assert NatToString(h) == [DigitChar(h)];
    }
    assert s2[..|s2| - 3] == NatToString(h) && s2[|s2| - 2..] == Pad2(m);
  }

  // ---------------------------------------------------------------- hours worked

  /** Index of the first `c` in `s`, or `|s|`. */
  function IndexOf(s: string, c: char): (i: nat)
    ensures i <= |s|
    ensures forall j :: 0 <= j < i ==> s[j] != c
    ensures i < |s| ==> s[i] == c
  {
    if s == [] then 0 else if s[0] == c then 0 else 1 + IndexOf(s[1..], c)
  }

  /** `Number(field)` of a field of decimal digits; `None` stands for NaN. JavaScript reads an
      empty field as 0, but the times stored here are written as HH:MM or HH:MM:SS, whose
      hour and minute fields are never empty, so the empty field is read as NaN here. */
  function FieldNumber(f: string): (r: Option<nat>)
    ensures r.Some? ==> f != [] && AllDigits(f) && r.value == DigitsValue(f)
  {
    if f != [] && AllDigits(f) then Some(DigitsValue(f)) else None
  }

  /** `time.split(':').map(Number)` kept to its first two fields, the hours and the minutes. */
  function TimeFields(s: string): (r: Option<(nat, nat)>)
  {
    var i := IndexOf(s, ':');
    if i == |s| then None
    else
      var rest := s[i + 1..];
      var h := FieldNumber(s[..i]);
      var m := FieldNumber(rest[..IndexOf(rest, ':')]);
      if h.None? || m.None? then None else Some((h.value, m.value))
  }

  /** A time of the day as the database gives it back, `HH:MM:SS`, reads as its hours and
      minutes; the seconds are ignored. */
  lemma TimeFieldsOfClock(h: nat, m: nat, sec: nat)
    requires h <= 23 && m <= 59 && sec <= 59
    ensures TimeFields(Pad2(h) + ":" + Pad2(m) + ":" + Pad2(sec)) == Some((h, m))
  {
    Pad2Digits(h);
    Pad2Digits(m);
    Pad2Digits(sec);
    var s := Pad2(h) + ":" + Pad2(m) + ":" + Pad2(sec);
    assert IndexOf(s, ':') == 2 by {
      assert s[0] == Pad2(h)[0] && s[1] == Pad2(h)[1] && s[2] == ':';
      assert s[1..][0] != ':' && s[1..][1] == ':';
    }
    var rest := s[3..];
    assert rest == Pad2(m) + ":" + Pad2(sec);
    assert IndexOf(rest, ':') == 2 by {
      assert rest[1..][0] != ':' && rest[1..][1] == ':';
    }
    assert s[..2] == Pad2(h) && rest[..2] == Pad2(m);
  }

  /** A validated exit time reads back as the hours and minutes typed. */
  lemma TimeFieldsOfValidated(s: string)
    requires ValiderFormatHeure(s).Success?
    ensures TimeFields(ValiderFormatHeure(s).value)
      == Some((DigitsValue(s[..|s| - 3]), DigitsValue(s[|s| - 2..])))
  {
    var t := s + ":00";
    var k := |s| - 3;
    assert forall j :: 0 <= j < k ==> t[j] == s[j] && IsDigit(s[..k][j]);
    assert IndexOf(t, ':') == k by {
      IndexOfPrefix(t, k);
    }
    var rest := t[k + 1..];
    assert rest == s[k + 1..] + ":00";
    assert IndexOf(rest, ':') == 2 by {
      assert rest[2] == ':' && IsDigit(rest[0]) && IsDigit(rest[1]);
      IndexOfPrefix(rest, 2);
    }
    assert t[..k] == s[..k] && rest[..2] == s[|s| - 2..];
  }

  /** The first `c` of a text whose first `k` characters are not `c` and whose `k`-th is. */
  lemma {:induction false} IndexOfPrefix(t: string, k: nat)
    requires k < |t| && t[k] == ':' && forall j :: 0 <= j < k ==> t[j] != ':'
    ensures IndexOf(t, ':') == k
    decreases k
  {
    if k > 0 {
      IndexOfPrefix(t[1..], k - 1);
    }
  }

  /** Minutes from entry to exit on the clock, an exit earlier than the entry being on the next
      day (`setDate(getDate() + 1)`). */
  function WorkedMinutes(entree: nat, sortie: nat): (d: int)
    ensures entree < 1440 && sortie < 1440 ==> 0 <= d < 1440
    ensures entree < 1440 && sortie < 1440 ==> (d == 0 <==> entree == sortie)
  {
    if sortie < entree then sortie + 1440 - entree else sortie - entree
  }

  /** `Number(x.toFixed(2))` for the non-negative values met here (never half-way between two
      hundredths). */
  function Round2(x: real): (r: real)
    ensures x - 0.005 < r <= x + 0.005
  {
    JsRound(x * 100.0) as real / 100.0
  }

  /** `calculerHeuresTravaillees`: the hours between entry and exit from their hours and minutes
      only, rounded to hundredths; `None` is the NaN an unreadable time gives. */
  function HeuresTravaillees(heureEntree: string, heureSortie: string): (r: Option<real>)
    ensures r.Some? <==> TimeFields(heureEntree).Some? && TimeFields(heureSortie).Some?
    ensures r.Some? ==>
      var (h1, m1) := TimeFields(heureEntree).value;
      var (h2, m2) := TimeFields(heureSortie).value;
      var d := WorkedMinutes(h1 * 60 + m1, h2 * 60 + m2);
      d as real / 60.0 - 0.005 < r.value <= d as real / 60.0 + 0.005
      && (h1 <= 23 && m1 <= 59 && h2 <= 23 && m2 <= 59 ==> 0.0 <= r.value < 24.0)
      && (h1 == h2 && m1 == m2 ==> r.value == 0.0)
  {
    var e := TimeFields(heureEntree);
    var s := TimeFields(heureSortie);
    if e.None? || s.None? then None
    else
      var (h1, m1) := e.value;
      var (h2, m2) := s.value;
      var d := WorkedMinutes(h1 * 60 + m1, h2 * 60 + m2);
      var r := Round2(d as real / 60.0);
      assert h1 <= 23 && m1 <= 59 && h2 <= 23 && m2 <= 59 ==> 0.0 <= r < 24.0 by {
        if h1 <= 23 && m1 <= 59 && h2 <= 23 && m2 <= 59 {
          HoursBelowDay(d);
        }
      }
      Some(r)
  }

  /** Under 1440 minutes round to under 24 hours. */
  lemma HoursBelowDay(d: int)
    requires 0 <= d < 1440
    ensures 0.0 <= Round2(d as real / 60.0) < 24.0
  {
    var x := d as real / 60.0 * 100.0;
    assert x <= 1439.0 / 60.0 * 100.0;
    var k := JsRound(x);
    assert (k as real) <= x + 0.5 < 2399.0;
    assert k <= 2398;
    assert k >= 0;
  }

  lemma PadLiterals()
    ensures Pad2(22) == "22" && Pad2(6) == "06" && Pad2(0) == "00"
  {
    assert NatToString(2) == "2";
    assert NatToString(22) == "22";
  }

  lemma ClockLiterals()
    ensures TimeFields("22:00:00") == Some((22, 0)) && TimeFields("06:00:00") == Some((6, 0))
  {
    PadLiterals();
    var night, morning := "22:00:00", "06:00:00";
    assert night == Pad2(22) + ":" + Pad2(0) + ":" + Pad2(0);
    assert morning == Pad2(6) + ":" + Pad2(0) + ":" + Pad2(0);
    TimeFieldsOfClock(22, 0, 0);
    TimeFieldsOfClock(6, 0, 0);
  }

  lemma EightHours()
    ensures Round2(480 as real / 60.0) == 8.0
  {
    assert 480 as real / 60.0 * 100.0 == 800.0;
    assert JsRound(800.0) == 800;
  }

  /** A night shift from 22:00 to 06:00 (as `ClockLiterals` reads them) counts eight hours. */
  lemma NightShift(entree: string, sortie: string)
    requires TimeFields(entree) == Some((22, 0)) && TimeFields(sortie) == Some((6, 0))
    ensures HeuresTravaillees(entree, sortie) == Some(8.0)
  {
    assert WorkedMinutes(22 * 60 + 0, 6 * 60 + 0) == 480;
    EightHours();
  }

  // ---------------------------------------------------------------- history period and totals

  /** `padStart(2, '0')`. */
  function PadStart2(s: string): (r: string)
    ensures |r| >= 2
  {
    if |s| >= 2 then s else if |s| == 1 then "0" + s else "00"
  }

  lemma PadStart2OfSmall(n: nat)
    requires n < 100
    ensures PadStart2(IntToString(n)) == Pad2(n)
  {
    if n >= 10 {
      assert |NatToString(n / 10)| == 1;
    }
  }

  /** `String(x)` of a number that may be NaN. */
  function NumberText(x: Option<int>): string
  {
    if x.None? then "NaN" else IntToString(x.value)
  }

  /** `getLastDayOfMonth`: the year text as given, the month (12 when none is given) and the
      month's last day, both padded to two digits; an unreadable year or month gives NaN
      parts. */
  function GetLastDayOfMonth(annee: string, mois: Option<string>): (r: string)
    ensures var year := JsParseInt(annee);
      var month := if mois.Some? && mois.value != "" then JsParseInt(mois.value) else Some(12);
      year.Some? && month.Some? ==>
        var (y, m) := JsMonth(year.value, month.value);
        r == annee + "-" + PadStart2(IntToString(month.value)) + "-"
          + PadStart2(IntToString(DaysInMonth(y, m)))
  {
    var year := JsParseInt(annee);
    var month := if mois.Some? && mois.value != "" then JsParseInt(mois.value) else Some(12);
    var lastDay := if year.None? || month.None? then None else Some(JsDate(year.value, month.value, 0).day);
    assert year.Some? && month.Some? ==>
      lastDay == Some(DaysInMonth(JsMonth(year.value, month.value).0, JsMonth(year.value, month.value).1)) by {
      if year.Some? && month.Some? {
        LastDayOfMonth(year.value, month.value);
      }
    }
    annee + "-" + PadStart2(NumberText(month)) + "-" + PadStart2(NumberText(lastDay))
  }

  /** For a year the text reads as (from 100 on, where JavaScript takes it as written) and a
      month 1..12, the end of the month is the year text, the padded month and the number of
      days of that month. */
  lemma LastDayText(annee: string, y: int, m: int)
    requires JsParseInt(annee) == Some(y) && y >= 100 && 1 <= m <= 12
    ensures GetLastDayOfMonth(annee, Some(IntToString(m)))
      == annee + "-" + Pad2(m) + "-" + Pad2(DaysInMonth(y, m))
  {
    JsParseIntOfIntToString(m);
    NatToStringDigits(m);
    JsMonthInYear(y, m);
    PadStart2OfSmall(m);
    PadStart2OfSmall(DaysInMonth(y, m));
  }

  /** Without a month the period ends on the 31st of December. */
  lemma DecemberEnd(annee: string, y: int)
    requires JsParseInt(annee) == Some(y) && y >= 100
    ensures GetLastDayOfMonth(annee, None) == annee + "-12-31"
  {
    JsMonthInYear(y, 12);
    assert DaysInMonth(y, 12) == 31;
    TwelveAndThirtyOne();
    assert GetLastDayOfMonth(annee, None)
      == annee + "-" + PadStart2(IntToString(12)) + "-" + PadStart2(IntToString(DaysInMonth(y, 12)));
    JoinDate(annee, "12", "31");
  }

  lemma JanuaryFirst()
    ensures "-" + "01" + "-01" == "-01-01"
  {
    var t := "-" + "01" + "-01";
    assert |t| == 6;
    assert t[0] == '-' && t[1] == '0' && t[2] == '1' && t[3] == '-' && t[4] == '0' && t[5] == '1';
  }

  lemma Associative(a: string, b: string, c: string)
    ensures a + b + c == a + (b + c)
  {
  }

  lemma JoinDate(annee: string, mm: string, dd: string)
    requires |mm| == 2 && |dd| == 2
    ensures annee + "-" + mm + "-" + dd == annee + ['-', mm[0], mm[1], '-', dd[0], dd[1]]
  {
  }

  lemma JsMonthInYear(y: int, m: int)
    requires y >= 100 && 1 <= m <= 12
    ensures JsMonth(y, m) == (y, m)
  {
  }

  lemma TwelveAndThirtyOne()
    ensures PadStart2(IntToString(12)) == "12" && PadStart2(IntToString(31)) == "31"
  {
    assert NatToString(1) == "1" && NatToString(3) == "3";
  }

  /** The filters of a history request that choose its period. */
  datatype Filters = Filters(dateDebut: string, dateFin: string, annee: string, mois: string)

  /** `getHistoriquePresences`'s period: both dates when both are given, else the month of the
      year (January's start and December's end when no month is given), else an error. */
  function HistoryPeriod(f: Filters): (r: Result<(string, string), PresenceError>)
    ensures r.Failure? <==> (f.dateDebut == "" || f.dateFin == "") && f.annee == ""
    ensures r.Failure? ==> r.error == NoPeriod
    ensures f.dateDebut != "" && f.dateFin != "" ==> r == Success((f.dateDebut, f.dateFin))
    ensures (f.dateDebut == "" || f.dateFin == "") && f.annee != "" ==>
      r.Success? && r.value.0 == f.annee + "-" + (if f.mois != "" then f.mois else "01") + "-01"
      && r.value.1 == GetLastDayOfMonth(f.annee, if f.mois != "" then Some(f.mois) else None)
  {
    if f.dateDebut != "" && f.dateFin != "" then Success((f.dateDebut, f.dateFin))
    else if f.annee != "" then
      var mois := if f.mois != "" then Some(f.mois) else None;
      Success((f.annee + "-" + (if f.mois != "" then f.mois else "01") + "-01",
               GetLastDayOfMonth(f.annee, mois)))
    else Failure(NoPeriod)
  }

  /** A year alone asks for the whole year. */
  lemma YearAlone(f: Filters, y: int)
    requires f.dateDebut == "" && f.mois == "" && JsParseInt(f.annee) == Some(y) && y >= 100
    ensures HistoryPeriod(f) == Success((f.annee + "-01-01", f.annee + "-12-31"))
  {
    assert f.annee != "";
    var r := HistoryPeriod(f);
    assert r.value.1 == f.annee + "-12-31" by {
      DecemberEnd(f.annee, y);
    }
    assert r.value.0 == f.annee + "-01-01" by {
      assert r.value.0 == f.annee + "-" + "01" + "-01";
      Associative(f.annee, "-", "01");
      Associative(f.annee, "-" + "01", "-01");
      JanuaryFirst();
    }
  }

  /** `totalHeures`: the rows' hours summed, a row without hours counting 0. */
  function TotalHeures(rows: seq<Option<real>>): real
  {
    if rows == [] then 0.0
    else TotalHeures(rows[..|rows| - 1]) + (if rows[|rows| - 1].Some? then rows[|rows| - 1].value else 0.0)
  }

  /** The history's totals: the hours and the number of rows. */
  datatype Totals = Totals(totalHeures: real, totalPresences: nat)

  function HistoryTotals(rows: seq<Option<real>>): (t: Totals)
    ensures t.totalPresences == |rows|
  {
    Totals(TotalHeures(rows), |rows|)
  }

  /** The totals of two lists of rows add up. */
  lemma {:induction false} TotalHeuresConcat(a: seq<Option<real>>, b: seq<Option<real>>)
    ensures TotalHeures(a + b) == TotalHeures(a) + TotalHeures(b)
    decreases |b|
  {
    if b == [] {
      assert a + b == a;
    } else {
      assert (a + b)[..|a + b| - 1] == a + b[..|b| - 1];
      TotalHeuresConcat(a, b[..|b| - 1]);
    }
  }

  /** Days of under 24 hours each total under 24 hours a row. */
  lemma {:induction false} TotalHeuresBounds(rows: seq<Option<real>>)
    requires forall i :: 0 <= i < |rows| && rows[i].Some? ==> 0.0 <= rows[i].value < 24.0
    ensures 0.0 <= TotalHeures(rows) <= 24.0 * |rows| as real
    ensures rows != [] ==> TotalHeures(rows) < 24.0 * |rows| as real
  {
    if rows != [] {
      var k := |rows| - 1;
      assert forall i :: 0 <= i < k ==> rows[..k][i] == rows[i];
      TotalHeuresBounds(rows[..k]);
      assert 24.0 * (k + 1) as real == 24.0 * k as real + 24.0;
    }
  }

  // ---------------------------------------------------------------- the register

  datatype Agent = Agent(matricule: string, nom: string, prenom: string, campagne: string)

  datatype Presence = Presence(heureEntree: string, heureSortie: Option<string>,
                               heuresTravaillees: Option<real>, shift: string,
                               signatureEntree: string, signatureSortie: Option<string>)

  datatype DayState = NoRecord | Open | Closed

  /** The fields of an entry request; an empty text stands for a missing field. */
  datatype Entree = Entree(matricule: string, nom: string, prenom: string, campagne: string,
                           shift: string, signatureEntree: string, heureEntreeManuelle: string)

  /** The first agent with a matricule. */
  function FindAgent(agents: seq<Agent>, matricule: string): (r: Option<nat>)
    ensures r.Some? ==> (r.value < |agents| && agents[r.value].matricule == matricule
      && forall j :: 0 <= j < r.value ==> agents[j].matricule != matricule)
    ensures r.None? ==> forall j :: 0 <= j < |agents| ==> agents[j].matricule != matricule
  {
    if agents == [] then None
    else if agents[0].matricule == matricule then Some(0)
    else
      var r := FindAgent(agents[1..], matricule);
      if r.None? then None else Some(r.value + 1)
  }

  /** A matricule made from the first eight characters of a fresh identifier. */
  function Generated(uuid: string): (r: string)
    requires |uuid| >= 8
    ensures |r| == 11 && r[..3] == "AG-"
  {
    "AG-" + ToUpper(uuid[..8])
  }

  /** The agent an entry is recorded for, as an index into the agent list once the entry's new
      agent, if any, is added: the agent with the trimmed matricule when there is one, else a new
      agent with that matricule, or with a generated one when none is given. */
  function EntryAgent(agents: seq<Agent>, data: Entree, uuid: string): (r: (nat, seq<Agent>))
    requires |uuid| >= 8
    ensures r.0 < |r.1| && |agents| <= |r.1| <= |agents| + 1 && r.1[..|agents|] == agents
    ensures |r.1| == |agents| ==> r.0 < |agents|
  {
    var mat := TrimJs(data.matricule);
    var campagne := if data.campagne != "" then data.campagne else "Standard";
    if mat != "" then
      var found := FindAgent(agents, mat);
      if found.Some? then (found.value, agents)
      else (|agents|, agents + [Agent(mat, data.nom, data.prenom, campagne)])
    else (|agents|, agents + [Agent(Generated(uuid), data.nom, data.prenom, campagne)])
  }

  /** An entry's new presence: no exit, the typed entry time or the current time, and the shift
      `JOUR` when none is given. */
  function NewPresence(data: Entree, nowTime: string): (p: Presence)
    ensures p.heureSortie.None? && p.heuresTravaillees.None? && p.signatureSortie.None?
    ensures p.shift == (if data.shift == "" then "JOUR" else data.shift)
  {
    Presence(if data.heureEntreeManuelle != "" then data.heureEntreeManuelle else nowTime, None, None,
             if data.shift != "" then data.shift else "JOUR", data.signatureEntree, None)
  }

  /** The register of agents and of their presences by agent and day. */
  class Register {
    var agents: seq<Agent>
    var presences: map<(nat, string), Presence>

    /** Every presence belongs to a registered agent. */
    ghost predicate Valid()
      reads this
    {
      forall k :: k in presences ==> k.0 < |agents|
    }

    constructor()
      ensures agents == [] && presences == map[] && Valid()
    {
      agents := [];
      presences := map[];
    }

    function StateOf(id: nat, today: string): (s: DayState)
      reads this
      ensures s == NoRecord <==> (id, today) !in presences
    {
      if (id, today) !in presences then NoRecord
      else if presences[(id, today)].heureSortie.None? then Open
      else Closed
    }

    /** `pointageEntree`: refuses an entry without a name; otherwise finds or creates the agent,
        refuses a second entry on the same day (with one error while the first is open and
        another once it is closed), and records an open presence. A refused entry changes
        nothing, the new agent included. */
    method PointageEntree(data: Entree, today: string, nowTime: string, uuid: string)
      returns (r: Result<nat, PresenceError>)
      requires Valid() && |uuid| >= 8
      modifies this
      ensures Valid()
      ensures r == Failure(MissingName) <==> data.nom == "" || data.prenom == ""
      ensures r.Failure? ==> agents == old(agents) && presences == old(presences)
      ensures data.nom != "" && data.prenom != "" ==>
        var (id, newAgents) := EntryAgent(old(agents), data, uuid);
        var before := if (id, today) in old(presences) then
                        (if old(presences)[(id, today)].heureSortie.None? then Open else Closed)
                      else NoRecord;
        (before == Open ==> r == Failure(OpenToday))
        && (before == Closed ==> r == Failure(ClosedToday))
        && (before == NoRecord ==>
              r == Success(id) && agents == newAgents
              && presences == old(presences)[(id, today) := NewPresence(data, nowTime)]
              && StateOf(id, today) == Open)
    {
      if data.nom == "" || data.prenom == "" {
        return Failure(MissingName);
      }
      var (id, newAgents) := EntryAgent(agents, data, uuid);
      if (id, today) in presences {
        if presences[(id, today)].heureSortie.None? {
          return Failure(OpenToday);
        }
        return Failure(ClosedToday);
      }
      agents := newAgents;
      presences := presences[(id, today) := NewPresence(data, nowTime)];
      r := Success(id);
    }

    /** `pointageSortie`: needs an open presence today for the agent with the matricule; a typed
        exit time must pass `validerFormatHeure`, otherwise the current time is used; the
        presence is closed with that time, the hours worked and the exit signature. */
    method PointageSortie(matricule: string, signatureSortie: string, heureSortieManuelle: string,
                          today: string, nowTime: string)
      returns (r: Result<Presence, PresenceError>)
      requires Valid()
      modifies this
      ensures Valid() && agents == old(agents)
      ensures r.Failure? ==> presences == old(presences)
      ensures var id := FindAgent(old(agents), matricule);
        (id.None? || (id.value, today) !in old(presences)) ==> r == Failure(NoPresenceToday)
      ensures var id := FindAgent(old(agents), matricule);
        id.Some? && (id.value, today) in old(presences) ==>
          var p := old(presences)[(id.value, today)];
          (p.heureSortie.Some? ==> r == Failure(AlreadyOut))
          && ((p.heureSortie.None? && heureSortieManuelle != ""
               && ValiderFormatHeure(heureSortieManuelle).Failure?) ==> r == Failure(BadTimeFormat))
          && (r.Success? ==>
              var sortie := if heureSortieManuelle != "" then ValiderFormatHeure(heureSortieManuelle).value
                            else nowTime;
              p.heureSortie.None?
              && r.value == p.(heureSortie := Some(sortie),
                               heuresTravaillees := HeuresTravaillees(p.heureEntree, sortie),
                               signatureSortie := Some(signatureSortie))
              && presences == old(presences)[(id.value, today) := r.value]
              && StateOf(id.value, today) == Closed)
      ensures r.Success? ==> var id := FindAgent(old(agents), matricule);
        id.Some? && old(StateOf(id.value, today)) == Open
    {
      var id := FindAgent(agents, matricule);
      if id.None? || (id.value, today) !in presences {
        return Failure(NoPresenceToday);
      }
      var p := presences[(id.value, today)];
      if p.heureSortie.Some? {
        return Failure(AlreadyOut);
      }
      var sortie := nowTime;
      if heureSortieManuelle != "" {
        var v := ValiderFormatHeure(heureSortieManuelle);
        if v.Failure? {
          return Failure(BadTimeFormat);
        }
        sortie := v.value;
      }
      var closed := p.(heureSortie := Some(sortie),
                       heuresTravaillees := HeuresTravaillees(p.heureEntree, sortie),
                       signatureSortie := Some(signatureSortie));
      presences := presences[(id.value, today) := closed];
      r := Success(closed);
    }
  }

  /** A closed day belongs to an agent already registered: an entry for it finds that agent and
      creates none, so the refusal `PointageEntree` answers leaves the register as it was. */
  lemma ClosedIsFinal(agents: seq<Agent>, presences: map<(nat, string), Presence>, data: Entree,
                      uuid: string, today: string)
    requires |uuid| >= 8 && data.nom != "" && data.prenom != ""
    requires forall k :: k in presences ==> k.0 < |agents|
    requires var (id, _) := EntryAgent(agents, data, uuid);
      (id, today) in presences && presences[(id, today)].heureSortie.Some?
    ensures var (id, newAgents) := EntryAgent(agents, data, uuid);
      newAgents == agents && id < |agents|
  {
  }
}
