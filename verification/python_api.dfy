/** The JSON-backed HTTP API of the Python application: the employee list, the attendance map
    and the salary entries it keeps (the JSON files behind them are left out), with the rules
    in which it differs from the service: leave accrual starts from the current month, a
    balance is recomputed from the leave days on record, an update replaces the employee and
    salary entries are overwritten. */
module PythonApi {
  import opened Basics
  import opened Text
  import opened Json
  import opened Calendar
  import opened HireDates
  import opened NumberParsing
  import opened Attendance
  import opened ColarysService

  /** The HTTP status an endpoint answers with. */
  datatype Status = Ok200 | BadRequest400 | NotFound404 | ServerError500

  /** A request body typed `Dict[str, str]`, as stored fields. */
  function AsRecord(data: map<string, string>): (r: Record)
    ensures r.Keys == data.Keys
    ensures forall k :: k in data ==> r[k] == Str(data[k])
  {
    map k | k in data :: Str(data[k])
  }

  /** `d.get(key, "")` on a request body. */
  function TextOr(data: map<string, string>, key: string): string
  {
    if key in data then data[key] else ""
  }

  /** Python `round(x, 2)`: the nearest hundredth, halves to the even neighbour. */
  function Round2(x: real): (r: real)
    ensures x - 0.005 <= r <= x + 0.005
  {
    PyRound(x * 100.0) as real / 100.0
  }

  /** A value already on a hundredth is left as it is. */
  lemma Round2Idempotent(x: real)
    ensures Round2(Round2(x)) == Round2(x)
  {
    var k := PyRound(x * 100.0);
    assert Round2(x) * 100.0 == k as real;
  }

  // ---------------------------------------------------------------- monthly leave accrual

  /** `datetime.strptime(s, "%Y-%m")`: exactly four digits naming a year from 1, a dash, and a
      month written `1`..`9`, `01`..`09` or `10`..`12`, with nothing after it. */
  function PyParseStamp(s: string): (r: Option<(int, int)>)
    ensures r.Some? ==> 1 <= r.value.0 && 1 <= r.value.1 <= 12
  {
    if 6 <= |s| <= 7 && DigitsAt(s, 0, 4) && s[4] == '-' && NumberAt(s, 0, 4) >= 1 then
      if |s| == 7 && DigitsAt(s, 5, 2) && 1 <= NumberAt(s, 5, 2) <= 12 then
        Some((NumberAt(s, 0, 4), NumberAt(s, 5, 2)))
      else if |s| == 6 && '1' <= s[5] <= '9' then Some((NumberAt(s, 0, 4), DigitValue(s[5])))
      else None
    else None
  }

  /** `months_passed`: the months since the stamped month, and 0 when the stamp is missing,
      empty, not a string or not a month, since those fall back to the current month. */
  function PyMonthsPassed(last: Option<Value>, today: Date): (r: int)
    ensures !(Truthy(last) && last.value.Str? && PyParseStamp(last.value.s).Some?) ==> r == 0
  {
    if Truthy(last) && last.value.Str? && PyParseStamp(last.value.s).Some? then
      var (y, m) := PyParseStamp(last.value.s).value;
      (today.year - y) * 12 + (today.month - m)
    else 0
  }

  /** The balance accrual starts from: the balance field when present, else the initial balance,
      else 0. */
  function CurrentBalance(e: Record): real
  {
    PyParseFloat(if "Solde de congé" in e then Some(e["Solde de congé"])
                 else Get(e, "Solde initial congé"), 0.0)
  }

  /** One employee after `update_conges_automatique` (both Python programs): 2.5 days per month
      passed are added when that number is positive, the balance is written back rounded to two
      decimals, and the stamp becomes the current `YYYY-MM`. */
  function AccruePy(e: Record, today: Date): (r: Record)
    requires Valid(today)
    ensures "last_update" in r && r["last_update"] == Str(Stamp(today))
    ensures "Solde de congé" in r && r["Solde de congé"].NumText?
    ensures var months := PyMonthsPassed(Get(e, "last_update"), today);
      var target := CurrentBalance(e) + (if months > 0 then 2.5 * months as real else 0.0);
      target - 0.005 <= r["Solde de congé"].x <= target + 0.005
    ensures forall k :: k in e && k != "last_update" && k != "Solde de congé" ==> k in r && r[k] == e[k]
    ensures r.Keys == e.Keys + {"last_update", "Solde de congé"}
  {
    var solde := CurrentBalance(e);
    var months := PyMonthsPassed(Get(e, "last_update"), today);
    var next := if months > 0 then solde + 2.5 * months as real else solde;
    e["Solde de congé" := NumText(Round2(next))]["last_update" := Str(Stamp(today))]
  }

  /** The stamp written by `strftime("%Y-%m")` reads back as the current month, or as no month
      at all for a year that does not print as four digits. */
  lemma PyStampRoundTrip(today: Date)
    requires 1 <= today.month <= 12
    ensures PyParseStamp(Stamp(today)).Some? ==> PyParseStamp(Stamp(today)) == Some((today.year, today.month))
    ensures 1000 <= today.year <= 9999 ==> PyParseStamp(Stamp(today)) == Some((today.year, today.month))
  {
    var s := Stamp(today);
    var ys := IntToString(today.year);
    Pad2Digits(today.month);
    assert s == ys + "-" + Pad2(today.month);
    if today.year >= 0 {
      NatToStringDigits(today.year);
    } else {
      NegativeTextSigned(today.year);
    }
    if 1000 <= today.year <= 9999 {
      NatToStringFourDigits(today.year);
      assert |ys| == 4 && s[0..4] == ys && s[4] == '-' && s[5..7] == Pad2(today.month);
    }
    if 6 <= |s| <= 7 && DigitsAt(s, 0, 4) {
      if |s| == 6 {
        assert |ys| == 3 && s[3] == '-';
      } else {
        assert |ys| == 4 && s[0..4] == ys;
        assert s[5..7] == Pad2(today.month);
      }
    }
  }

  /** A second run in the same month leaves the employee as the first run left it. */
  lemma AccruePyIdempotent(e: Record, today: Date)
    requires Valid(today)
    ensures AccruePy(AccruePy(e, today), today) == AccruePy(e, today)
  {
    var e1 := AccruePy(e, today);
    StampedNoMonths(today);
    var solde := CurrentBalance(e);
    var months := PyMonthsPassed(Get(e, "last_update"), today);
    var next := if months > 0 then solde + 2.5 * months as real else solde;
    assert e1 == e["Solde de congé" := NumText(Round2(next))]["last_update" := Str(Stamp(today))];
    assert CurrentBalance(e1) == Round2(next);
    Round2Idempotent(next);
    UpdateSame(e1, "Solde de congé", NumText(Round2(Round2(next))));
    UpdateSame(e1, "last_update", Str(Stamp(today)));
  }

  /** The month just stamped is no month ago. */
  lemma StampedNoMonths(today: Date)
    requires Valid(today)
    ensures PyMonthsPassed(Some(Str(Stamp(today))), today) == 0
  {
    PyStampRoundTrip(today);
  }

  /** Writing a key the value it already holds changes nothing. */
  lemma UpdateSame<V>(m: map<string, V>, k: string, v: V)
    requires k in m && m[k] == v
    ensures m[k := v] == m
  {
  }

  /** An employee stamped with an earlier month `last` is credited 2.5 days per month since. */
  lemma AccruePyStamped(e: Record, last: Date, today: Date)
    requires Valid(today) && Valid(last) && 1000 <= last.year <= 9999
    requires Get(e, "last_update") == Some(Str(Stamp(last)))
    ensures var months := (today.year - last.year) * 12 + (today.month - last.month);
      months > 0 ==> AccruePy(e, today)["Solde de congé"] == NumText(Round2(CurrentBalance(e) + 2.5 * months as real))
  {
    PyStampRoundTrip(last);
    IntToStringInjective(0, 0);
    assert Stamp(last) != [];
  }

  /** An employee without a stamp is credited nothing by the Python programs but three months
      (7.5 days) by the service. */
  lemma UnstampedAccrualDiffers(e: Record, today: Date)
    requires Valid(today) && "last_update" !in e
    ensures AccruePy(e, today)["Solde de congé"] == NumText(Round2(CurrentBalance(e)))
    ensures MonthsPassed(Get(e, "last_update"), today) == Some(3)
  {
  }

  // ---------------------------------------------------------------- leave balance from attendance

  /** `emp.get("Matricule", "")` as the text that prefixes attendance keys. */
  function MatriculeText(e: Record): string
  {
    if "Matricule" in e && e["Matricule"].Str? then e["Matricule"].s else ""
  }

  /** The attendance keys starting with `matricule_` whose value is the leave code `c`. */
  function LeaveKeys(presences: Record, matricule: string): set<string>
  {
    set k | k in presences && StartsWith(k, matricule + "_") && presences[k] == Str("c")
  }

  /** `max(solde_initial - total_conges, 0)`: the initial balance less every leave day on record
      for the employee, over all months, floored at 0. */
  function RecomputedBalance(e: Record, presences: Record): (b: real)
    ensures b >= 0.0
    ensures b <= MaxR(PyParseFloat(Get(e, "Solde initial congé"), 0.0), 0.0)
  {
    var initial := PyParseFloat(Get(e, "Solde initial congé"), 0.0);
    var total := |LeaveKeys(presences, MatriculeText(e))|;
    if initial - total as real >= 0.0 then initial - total as real else 0.0
  }

  /** The recomputed balance reads only the initial balance and the matricule. */
  lemma RecomputedKeepsBalance(e: Record, presences: Record, e1: Record)
    requires e1 == Rebalanced(e, presences)
    ensures RecomputedBalance(e1, presences) == RecomputedBalance(e, presences)
  {
    assert Get(e1, "Solde initial congé") == Get(e, "Solde initial congé");
    assert MatriculeText(e1) == MatriculeText(e);
  }

  function MaxR(a: real, b: real): real { if a >= b then a else b }

  /** The employee once the balance is recomputed; nothing else changes. */
  function Rebalanced(e: Record, presences: Record): (r: Record)
    ensures r.Keys == e.Keys + {"Solde de congé"}
    ensures forall k :: k in e && k != "Solde de congé" ==> r[k] == e[k]
    ensures r["Solde de congé"] == NumText(RecomputedBalance(e, presences))
  {
    e["Solde de congé" := NumText(RecomputedBalance(e, presences))]
  }

  /** Recomputing twice is recomputing once: the previous balance plays no part. */
  lemma RebalancedIdempotent(e: Record, presences: Record)
    ensures Rebalanced(Rebalanced(e, presences), presences) == Rebalanced(e, presences)
  {
    var e1 := Rebalanced(e, presences);
    RecomputedKeepsBalance(e, presences, e1);
    UpdateSame(e1, "Solde de congé", NumText(RecomputedBalance(e1, presences)));
  }

  /** A new leave day for the employee lowers the recomputed balance by exactly one day while
      it stays positive; recording a leave day that is already there changes nothing. */
  lemma NewLeaveDayCountsOnce(e: Record, presences: Record, key: string)
    requires StartsWith(key, MatriculeText(e) + "_")
    ensures key in presences && presences[key] == Str("c") ==>
      RecomputedBalance(e, presences[key := Str("c")]) == RecomputedBalance(e, presences)
    ensures !(key in presences && presences[key] == Str("c")) ==>
      |LeaveKeys(presences[key := Str("c")], MatriculeText(e))| == |LeaveKeys(presences, MatriculeText(e))| + 1
  {
    var m := MatriculeText(e);
    var p1 := presences[key := Str("c")];
    if key in presences && presences[key] == Str("c") {
      assert p1 == presences;
    } else {
      assert LeaveKeys(p1, m) == LeaveKeys(presences, m) + {key};
      assert key !in LeaveKeys(presences, m);
    }
  }

  // ---------------------------------------------------------------- a month of attendance

  /** The text `_{year}_{month}_` that marks a month's attendance keys. */
  function MonthPattern(year: int, month: int): string
  {
    "_" + IntToString(year) + "_" + IntToString(month) + "_"
  }

  /** `get_presences_month`: exactly the entries whose key contains the month's pattern. */
  function MonthPresences(presences: Record, year: int, month: int): (r: Record)
    ensures forall k :: k in r <==> k in presences && Contains(k, MonthPattern(year, month))
    ensures forall k :: k in r ==> r[k] == presences[k]
  {
    map k | k in presences && Contains(k, MonthPattern(year, month)) :: presences[k]
  }

  lemma {:induction false} ContainsAfter(a: string, p: string, b: string)
    ensures Contains(a + p + b, p)
    decreases |a|
  {
    if a == [] {
      assert (a + p + b)[..|p|] == p;
    } else {
      assert (a + p + b)[1..] == a[1..] + p + b;
      ContainsAfter(a[1..], p, b);
    }
  }

  /** Every attendance key written for a day of the month carries the month's pattern, so the
      month's view shows it. */
  lemma MonthKeyIncluded(matricule: string, year: int, month: int, day: int)
    ensures Contains(PresenceKey(matricule, year, month, day), MonthPattern(year, month))
  {
    var pat := MonthPattern(year, month);
    RegroupMiddle(matricule, "_", IntToString(year), "_", IntToString(month), "_", IntToString(day));
    ContainsAfter(matricule, pat, IntToString(day));
  }

  lemma RegroupMiddle(a: string, b: string, c: string, d: string, e: string, f: string, g: string)
    ensures a + b + c + d + e + f + g == a + (b + c + d + e + f) + g
  {
  }

  /** A submitted key that `update_presences` acts on: one inside the month. */
  predicate Touched(submitted: map<string, string>, key: string, year: int, month: int)
  {
    key in submitted && Contains(key, MonthPattern(year, month))
  }

  /** A touched key whose value is not blank once stripped, and so is written. */
  predicate Written(submitted: map<string, string>, key: string, year: int, month: int)
  {
    Touched(submitted, key, year, month) && StripPy(submitted[key]) != ""
  }

  /** The attendance map after `update_presences`: a month key with a non-blank value is set,
      a month key with a blank value is removed, and every other key is untouched. */
  function MonthUpsert(presences: Record, submitted: map<string, string>, year: int, month: int): (r: Record)
    ensures forall k :: Written(submitted, k, year, month) ==> k in r && r[k] == Str(submitted[k])
    ensures forall k :: Touched(submitted, k, year, month) && !Written(submitted, k, year, month) ==> k !in r
    ensures forall k :: !Touched(submitted, k, year, month) ==>
      (k in r <==> k in presences) && (k in presences ==> r[k] == presences[k])
  {
    map k | k in presences.Keys + submitted.Keys
        && (Written(submitted, k, year, month) || (!Touched(submitted, k, year, month) && k in presences))
      :: if Written(submitted, k, year, month) then Str(submitted[k]) else presences[k]
  }

  /** Posting the same month twice is posting it once: a leave day posted again is not counted
      again, unlike the service's per-call decrement. */
  lemma MonthUpsertIdempotent(presences: Record, submitted: map<string, string>, year: int, month: int)
    ensures MonthUpsert(MonthUpsert(presences, submitted, year, month), submitted, year, month)
      == MonthUpsert(presences, submitted, year, month)
  {
  }

  /** What the month's view shows after a post: the posted non-blank entries of the month, and
      the month's earlier entries that were not posted. */
  lemma PostedMonthReadBack(presences: Record, submitted: map<string, string>, year: int, month: int, key: string)
    ensures var view := MonthPresences(MonthUpsert(presences, submitted, year, month), year, month);
      (Written(submitted, key, year, month) ==> key in view && view[key] == Str(submitted[key]))
      && (Touched(submitted, key, year, month) && !Written(submitted, key, year, month) ==> key !in view)
      && (!Touched(submitted, key, year, month) ==> (key in view <==> key in MonthPresences(presences, year, month)))
  {
  }

  /** The part of a map whose keys are in `keys`. */
  function Restrict<V>(m: map<string, V>, keys: set<string>): (r: map<string, V>)
    ensures r.Keys == m.Keys * keys
    ensures forall k :: k in r ==> r[k] == m[k]
  {
    map k | k in m && k in keys :: m[k]
  }

  // ---------------------------------------------------------------- employee records

  /** The submitted record with the fields `create_employe` and `update_employe` compute from the
      hire date: the seniority text and the two entitlement flags. */
  function WithComputedFields(data: map<string, string>, today: Date): (r: Record)
    requires Valid(today)
    ensures r.Keys == data.Keys + {"Ancienneté", "droit ostie", "droit transport et repas"}
    ensures forall k :: (k in data && k != "Ancienneté" && k != "droit ostie"
      && k != "droit transport et repas") ==> r[k] == Str(data[k])
    ensures r["droit ostie"] == r["droit transport et repas"]
    ensures r["droit ostie"] == Str("0") || r["droit ostie"] == Str("1")
    ensures var hire := PyParseHireDate(TextOr(data, "Date d'embauche"), true);
      r["droit ostie"] == Str("1") <==> hire.Some? && DayNumber(today) - DayNumber(hire.value) > 365
    ensures r["Ancienneté"] == Str("") <==> PyParseHireDate(TextOr(data, "Date d'embauche"), true).None?
  {
    var dateEmb := TextOr(data, "Date d'embauche");
    var droit := PyEntitlement(dateEmb, true, today);
    FlagTextBit(droit);
    SetComputed(AsRecord(data), PySeniority(dateEmb, true, today), FlagText(droit))
  }

  /** The record with the seniority text and both entitlement flags written over it. */
  function SetComputed(base: Record, anciennete: string, flag: string): (r: Record)
    ensures r.Keys == base.Keys + {"Ancienneté", "droit ostie", "droit transport et repas"}
    ensures forall k :: (k in base && k != "Ancienneté" && k != "droit ostie"
      && k != "droit transport et repas") ==> r[k] == base[k]
    ensures r["Ancienneté"] == Str(anciennete)
    ensures r["droit ostie"] == Str(flag) && r["droit transport et repas"] == Str(flag)
  {
    base["Ancienneté" := Str(anciennete)]["droit ostie" := Str(flag)]
        ["droit transport et repas" := Str(flag)]
  }

  lemma FlagTextBit(droit: int)
    requires droit == 0 || droit == 1
    ensures FlagText(droit) == if droit == 1 then "1" else "0"
  {
    assert FlagText(0) == "0" && FlagText(1) == "1";
  }

  /** The record `create_employe` appends: the computed fields, and a balance set to the initial
      balance when the submitted one is missing or reads as negative. */
  function NewEmploye(data: map<string, string>, today: Date): (r: Record)
    requires Valid(today)
    ensures forall k :: k in WithComputedFields(data, today) && k != "Solde de congé" ==>
      k in r && r[k] == WithComputedFields(data, today)[k]
    ensures "Solde de congé" in r
    ensures ("Solde de congé" !in data || PyParseFloat(Some(Str(data["Solde de congé"])), 0.0) < 0.0)
      ==> r["Solde de congé"] == NumText(PyParseFloat(Get(AsRecord(data), "Solde initial congé"), 0.0))
    ensures ("Solde de congé" in data && PyParseFloat(Some(Str(data["Solde de congé"])), 0.0) >= 0.0)
      ==> r["Solde de congé"] == Str(data["Solde de congé"])
  {
    var r1 := WithComputedFields(data, today);
    var soldeInitial := PyParseFloat(Get(AsRecord(data), "Solde initial congé"), 0.0);
    var soldeActuel := if "Solde de congé" in data
      then PyParseFloat(Some(Str(data["Solde de congé"])), 0.0) else -1.0;
    if soldeActuel < 0.0 then r1["Solde de congé" := NumText(soldeInitial)] else r1
  }

  /** A blank submitted balance stays blank in the Python API (`float("")` fails into the
      default 0), while the service replaces it with the initial balance. */
  lemma BlankBalanceDiffers(data: map<string, string>, today: Date, now: Clock)
    requires Valid(today) && ValidClock(now)
    requires "Solde de congé" in data && data["Solde de congé"] == ""
    requires TsParseHireDate(Get(AsRecord(data), "Date d'embauche")).Success?
    ensures NewEmploye(data, today)["Solde de congé"] == Str("")
    ensures NewEmployee(AsRecord(data), now).value["Solde de congé"]
      == NumText(TsParseFloat(Get(AsRecord(data), "Solde initial congé"), 0.0))
  {
    BlankBalancePython(data, today);
    BlankBalanceService(AsRecord(data), now);
  }

  lemma BlankBalancePython(data: map<string, string>, today: Date)
    requires Valid(today)
    requires "Solde de congé" in data && data["Solde de congé"] == ""
    ensures NewEmploye(data, today)["Solde de congé"] == Str("")
  {
    assert Filter("", NotPySeparator) == "";
    assert ReplaceAll("", ',', '.') == "";
  }

  lemma BlankBalanceService(data: Record, now: Clock)
    requires ValidClock(now)
    requires "Solde de congé" in data && data["Solde de congé"] == Str("")
    requires TsParseHireDate(Get(data, "Date d'embauche")).Success?
    ensures NewEmployee(data, now).value["Solde de congé"]
      == NumText(TsParseFloat(Get(data, "Solde initial congé"), 0.0))
  {
    assert TsParseFloat(Get(data, "Solde de congé"), -1.0) == -1.0;
  }

  /** An update replaces the whole record: a stored field the request leaves out (the balance,
      the accrual stamp) is gone, where the service's merge keeps it. */
  lemma UpdateDropsUnsentFields(e: Record, data: map<string, string>, today: Date, now: Clock, key: string)
    requires Valid(today) && ValidClock(now)
    requires key in e && key !in data
    requires key != "Ancienneté" && key != "droit ostie" && key != "droit transport et repas"
    requires UpdateFields(AsRecord(data), now).Success?
    ensures key !in WithComputedFields(data, today)
    ensures key in e + UpdateFields(AsRecord(data), now).value
      && (e + UpdateFields(AsRecord(data), now).value)[key] == e[key]
  {
  }

  /** `any(emp.get("Matricule") == employe.get("Matricule") for emp in employes)`: equal when
      both are missing too. */
  predicate MatriculeTaken(employes: seq<Record>, data: map<string, string>)
  {
    exists j :: 0 <= j < |employes| && Get(employes[j], "Matricule") == Get(AsRecord(data), "Matricule")
  }

  // ---------------------------------------------------------------- the API's state

  class JsonApi {
    var employes: seq<Record>
    var presences: Record
    var salaires: map<string, Record>

    constructor(employes: seq<Record>, presences: Record, salaires: map<string, Record>)
      ensures this.employes == employes && this.presences == presences
      ensures this.salaires == salaires
    {
      this.employes := employes;
      this.presences := presences;
      this.salaires := salaires;
    }

    /** `update_conges_automatique`: every employee accrues leave and is stamped. */
    method UpdateCongesAutomatique(today: Date)
      requires Valid(today)
      modifies this
      ensures presences == old(presences) && salaires == old(salaires)
      ensures |employes| == |old(employes)|
      ensures forall i :: 0 <= i < |employes| ==> employes[i] == AccruePy(old(employes)[i], today)
    {
      var es := employes;
      var i := 0;
      while i < |es|
        invariant 0 <= i <= |es| == |old(employes)|
        invariant forall j :: 0 <= j < i ==> es[j] == AccruePy(old(employes)[j], today)
        invariant forall j :: i <= j < |es| ==> es[j] == old(employes)[j]
      {
        es := es[i := AccruePy(es[i], today)];
        i := i + 1;
      }
      employes := es;
    }

    /** `create_employe`: a matricule already present is a 400 and changes nothing; otherwise
        the completed record is appended, and a request without a matricule then fails with a
        500 when the answer reads it, after the record was added. */
    method CreateEmploye(data: map<string, string>, today: Date) returns (status: Status)
      requires Valid(today)
      modifies this
      ensures presences == old(presences) && salaires == old(salaires)
      ensures status == BadRequest400 <==> MatriculeTaken(old(employes), data)
      ensures status == BadRequest400 ==> employes == old(employes)
      ensures status != BadRequest400 ==> employes == old(employes) + [NewEmploye(data, today)]
      ensures status == ServerError500 <==> status != BadRequest400 && "Matricule" !in data
      ensures status != NotFound404
    {
      var i := 0;
      while i < |employes|
        invariant 0 <= i <= |employes|
        invariant forall j :: 0 <= j < i ==> Get(employes[j], "Matricule") != Get(AsRecord(data), "Matricule")
      {
        if Get(employes[i], "Matricule") == Get(AsRecord(data), "Matricule") {
          return BadRequest400;
        }
        i := i + 1;
      }
      employes := employes + [NewEmploye(data, today)];
      status := if "Matricule" in data then Ok200 else ServerError500;
    }

    /** `update_employe`: the first employee with the matricule is replaced by the submitted
        record with its computed fields; no such employee is a 404. */
    method UpdateEmploye(matricule: string, data: map<string, string>, today: Date) returns (status: Status)
      requires Valid(today)
      modifies this
      ensures presences == old(presences) && salaires == old(salaires)
      ensures status == Ok200 || status == NotFound404
      ensures status == NotFound404 <==> FindIndex(old(employes), matricule).None?
      ensures status == NotFound404 ==> employes == old(employes)
      ensures status == Ok200 ==>
        employes == old(employes)[FindIndex(old(employes), matricule).value := WithComputedFields(data, today)]
    {
      var i := 0;
      while i < |employes|
        invariant 0 <= i <= |employes|
        invariant forall j :: 0 <= j < i ==> !HasMatricule(employes[j], matricule)
      {
        if Get(employes[i], "Matricule") == Some(Str(matricule)) {
          assert FindIndex(employes, matricule) == Some(i);
          employes := employes[i := WithComputedFields(data, today)];
          return Ok200;
        }
        i := i + 1;
      }
      status := NotFound404;
    }

    /** `delete_employe`: every employee with the matricule is removed; none is a 404. */
    method DeleteEmploye(matricule: string) returns (status: Status)
      modifies this
      ensures presences == old(presences) && salaires == old(salaires)
      ensures status == Ok200 || status == NotFound404
      ensures status == NotFound404 <==> FindIndex(old(employes), matricule).None?
      ensures employes == WithoutMatricule(old(employes), matricule)
    {
      var remaining := WithoutMatricule(employes, matricule);
      if |remaining| < |employes| {
        employes := remaining;
        status := Ok200;
      } else {
        status := NotFound404;
      }
    }

    /** The first half of `update_presences`: the request's keys inside the month are set, or
        removed when blank. */
    method UpsertMonth(year: int, month: int, submitted: map<string, string>)
      modifies this
      ensures employes == old(employes) && salaires == old(salaires)
      ensures presences == MonthUpsert(old(presences), submitted, year, month)
    {
      var p := UpsertKeys(presences, submitted, year, month);
      UpsertComplete(old(presences), submitted, year, month, p);
      presences := p;
    }

    /** `update_presences`: the month's keys of the request are set or removed, then every
        employee's balance is recomputed from the leave days on record. */
    method UpdatePresences(year: int, month: int, submitted: map<string, string>)
      modifies this
      ensures salaires == old(salaires)
      ensures presences == MonthUpsert(old(presences), submitted, year, month)
      ensures |employes| == |old(employes)|
      ensures forall i :: 0 <= i < |employes| ==> employes[i] == Rebalanced(old(employes)[i], presences)
    {
      UpsertMonth(year, month, submitted);
      var p := presences;
      var es := employes;
      var i := 0;
      while i < |es|
        invariant 0 <= i <= |es| == |old(employes)|
        invariant forall j :: 0 <= j < i ==> es[j] == Rebalanced(old(employes)[j], p)
        invariant forall j :: i <= j < |es| ==> es[j] == old(employes)[j]
      {
        es := es[i := Rebalanced(es[i], p)];
        i := i + 1;
      }
      employes := es;
    }

    /** `update_salaires`: every submitted entry replaces the stored one whole; the year and
        the month of the request play no part. */
    method UpdateSalaires(year: int, month: int, data: map<string, Record>)
      modifies this
      ensures employes == old(employes) && presences == old(presences)
      ensures salaires == old(salaires) + data
    {
      var s := salaires;
      var todo := data.Keys;
      while todo != {}
        invariant todo <= data.Keys
        invariant s == old(salaires) + Restrict(data, data.Keys - todo)
        invariant employes == old(employes) && presences == old(presences)
        decreases |todo|
      {
        var key :| key in todo;
        MergeStep(old(salaires), data, data.Keys - todo, key);
        s := s[key := data[key]];
        TakeOne(data.Keys, todo, key);
        todo := todo - {key};
      }
      assert Restrict(data, data.Keys - todo) == data;
      salaires := s;
    }
  }

  /** What `update_presences`'s loop has done once the keys in `done` are handled. */
  ghost predicate UpsertedOn(original: Record, submitted: map<string, string>, done: set<string>,
                       year: int, month: int, r: Record)
  {
    forall k :: UpsertedAt(original, submitted, done, year, month, r, k)
  }

  /** The loop's account of one key: written, removed, or as it was. */
  ghost predicate UpsertedAt(original: Record, submitted: map<string, string>, done: set<string>,
                             year: int, month: int, r: Record, k: string)
  {
    if k in done && Written(submitted, k, year, month) then k in r && r[k] == Str(submitted[k])
    else if k in done && Touched(submitted, k, year, month) then k !in r
    else (k in r <==> k in original) && (k in original ==> r[k] == original[k])
  }

  /** `update_presences`'s loop over the request's keys, on the attendance map. */
  method UpsertKeys(original: Record, submitted: map<string, string>, year: int, month: int)
    returns (p: Record)
    ensures UpsertedOn(original, submitted, submitted.Keys, year, month, p)
  {
    p := original;
    var todo := submitted.Keys;
    while todo != {}
      invariant todo <= submitted.Keys
      invariant UpsertedOn(original, submitted, submitted.Keys - todo, year, month, p)
      decreases |todo|
    {
      var key :| key in todo;
      p := UpsertKey(original, submitted, submitted.Keys - todo, key, year, month, p);
      TakeOne(submitted.Keys, todo, key);
      todo := todo - {key};
    }
    assert submitted.Keys - todo == submitted.Keys;
  }

  /** One key of the request: set when inside the month and not blank, removed when inside the
      month and blank. */
  method UpsertKey(ghost original: Record, submitted: map<string, string>, ghost done: set<string>,
                   key: string, year: int, month: int, p: Record) returns (q: Record)
    requires key in submitted && key !in done
    requires UpsertedOn(original, submitted, done, year, month, p)
    ensures UpsertedOn(original, submitted, done + {key}, year, month, q)
  {
    q := p;
    if Contains(key, MonthPattern(year, month)) {
      if StripPy(submitted[key]) != "" {
        q := q[key := Str(submitted[key])];
      } else if key in q {
        q := q - {key};
      }
    }
    UpsertStep(original, submitted, done, key, year, month, p, q);
  }

  /** Handling one more key keeps the loop's account. */
  lemma UpsertStep(original: Record, submitted: map<string, string>, done: set<string>, key: string,
                   year: int, month: int, before: Record, after: Record)
    requires key in submitted && key !in done
    requires UpsertedOn(original, submitted, done, year, month, before)
    requires after == (if !Contains(key, MonthPattern(year, month)) then before
                       else if StripPy(submitted[key]) != "" then before[key := Str(submitted[key])]
                       else if key in before then before - {key} else before)
    ensures UpsertedOn(original, submitted, done + {key}, year, month, after)
  {
    forall k ensures UpsertedAt(original, submitted, done + {key}, year, month, after, k) {
      assert UpsertedAt(original, submitted, done, year, month, before, k);
    }
  }

  /** Writing one more submitted entry is merging one more key of the request. */
  lemma MergeStep(base: map<string, Record>, data: map<string, Record>, done: set<string>, key: string)
    requires key in data
    ensures (base + Restrict(data, done))[key := data[key]] == base + Restrict(data, done + {key})
  {
  }

  /** Once every submitted key is handled, the loop's map is `MonthUpsert`'s. */
  lemma UpsertComplete(original: Record, submitted: map<string, string>, year: int, month: int, r: Record)
    requires UpsertedOn(original, submitted, submitted.Keys, year, month, r)
    ensures r == MonthUpsert(original, submitted, year, month)
  {
    var next := MonthUpsert(original, submitted, year, month);
    forall k
      ensures (k in r <==> k in next) && (k in r ==> r[k] == next[k])
    {
      assert UpsertedAt(original, submitted, submitted.Keys, year, month, r, k);
      if Touched(submitted, k, year, month) {
        assert k in submitted.Keys;
      }
    }
  }

  /** A stored salary field the request leaves out is lost by the Python API and kept by the
      service's merge. */
  lemma OverwriteDropsFields(old_entry: Record, entry: Record, field: string)
    requires field in old_entry && field !in entry
    ensures field !in entry
    ensures field in old_entry + entry && (old_entry + entry)[field] == old_entry[field]
  {
  }
}
