/** The service's registry operations: the employee list, the attendance map and the manual
    salary entries live in a `ColarysStore` whose methods update them in place (the JSON files
    they are read from and written to are left out). */
module ColarysService {
  import opened Basics
  import opened Text
  import opened Json
  import opened Calendar
  import opened HireDates
  import opened NumberParsing
  import opened Attendance

  /** What an operation reports: success, a duplicate matricule, no such employee, an
      attendance code outside the allowed set, or an exception caught by the operation. */
  datatype Outcome = Ok | Duplicate | NotFound | InvalidType | Failed

  /** The attendance texts `updatePresence` accepts besides the empty text. */
  predicate AllowedType(t: string)
  {
    t == "p" || t == "n" || t == "a" || t == "c" || t == "m" || t == "f" || t == "o"
  }

  /** `emp.Matricule === m` for the employee at a position. */
  predicate HasMatricule(e: Record, m: string) { FieldIs(e, "Matricule", m) }

  /** `findIndex`: the first employee with matricule `m`. */
  function FindIndex(employees: seq<Record>, m: string): (r: Option<nat>)
    ensures r.Some? ==> (r.value < |employees| && HasMatricule(employees[r.value], m)
      && forall j :: 0 <= j < r.value ==> !HasMatricule(employees[j], m))
    ensures r.None? ==> forall j :: 0 <= j < |employees| ==> !HasMatricule(employees[j], m)
  {
    if employees == [] then None
    else if HasMatricule(employees[0], m) then Some(0)
    else
      var r := FindIndex(employees[1..], m);
      if r.None? then None else Some(r.value + 1)
  }

  /** `droit.toString()`. */
  function FlagText(droit: int): string { IntToString(droit) }

  /** The record `createEmployee` appends: the submitted fields, the seniority text and the two
      entitlement flags computed from the hire date, and a leave balance that falls back to the
      initial balance when the submitted one reads as negative, zero-text or is missing. */
  function NewEmployee(data: Record, now: Clock): (r: Result<Record, Thrown>)
    requires ValidClock(now)
    ensures r.Failure? <==> TsParseHireDate(Get(data, "Date d'embauche")).Failure?
    ensures r.Success? ==> data.Keys <= r.value.Keys
    ensures r.Success? ==> forall k :: (k in data && k != "Ancienneté" && k != "droit ostie"
      && k != "droit transport et repas" && k != "Solde de congé") ==> r.value[k] == data[k]
    ensures r.Success? ==> ("droit ostie" in r.value && "droit transport et repas" in r.value
      && r.value["droit ostie"] == r.value["droit transport et repas"]
      && (r.value["droit ostie"] == Str("0") || r.value["droit ostie"] == Str("1")))
  {
    var hire := Get(data, "Date d'embauche");
    var anciennete :- TsSeniority(hire, now);
    var droit := TsEntitlement(hire, now).value;
    var soldeInitial := TsParseFloat(Get(data, "Solde initial congé"), 0.0);
    var soldeConge := TsParseFloat(Get(data, "Solde de congé"), -1.0);
    var balance := if soldeConge < 0.0 then NumText(soldeInitial) else data["Solde de congé"];
    assert FlagText(0) == "0" && FlagText(1) == "1";
    Success(data + map["Ancienneté" := Str(anciennete), "droit ostie" := Str(FlagText(droit)),
                       "droit transport et repas" := Str(FlagText(droit)),
                       "Solde de congé" := balance])
  }

  /** The fields `updateEmployee` merges: when the submitted hire date is truthy, the seniority
      text and the entitlement flags are recomputed from it. */
  function UpdateFields(data: Record, now: Clock): (r: Result<Record, Thrown>)
    requires ValidClock(now)
    ensures !Truthy(Get(data, "Date d'embauche")) ==> r == Success(data)
    ensures r.Success? ==> data.Keys <= r.value.Keys
  {
    var hire := Get(data, "Date d'embauche");
    if !Truthy(hire) then Success(data)
    else
      var anciennete :- TsSeniority(hire, now);
      var droit := TsEntitlement(hire, now).value;
      Success(data + map["Ancienneté" := Str(anciennete), "droit ostie" := Str(FlagText(droit)),
                         "droit transport et repas" := Str(FlagText(droit))])
  }

  /** `employees.filter(emp => emp.Matricule !== m)`. */
  function WithoutMatricule(employees: seq<Record>, m: string): (r: seq<Record>)
    ensures |r| <= |employees|
    ensures forall e :: e in r ==> e in employees && !HasMatricule(e, m)
    ensures forall e :: e in employees && !HasMatricule(e, m) ==> e in r
    ensures |r| == |employees| <==> forall j :: 0 <= j < |employees| ==> !HasMatricule(employees[j], m)
    ensures (forall j :: 0 <= j < |employees| ==> !HasMatricule(employees[j], m)) ==> r == employees
  {
    if employees == [] then []
    else if HasMatricule(employees[0], m) then WithoutMatricule(employees[1..], m)
    else [employees[0]] + WithoutMatricule(employees[1..], m)
  }

  /** The leave balance after `updateSoldeConge(m, variation)`: the current balance plus the
      variation, floored at 0, written back as text. */
  function AdjustedBalance(e: Record, variation: real): (r: Record)
    ensures "Solde de congé" in r && r["Solde de congé"].NumText? && r["Solde de congé"].x >= 0.0
    ensures forall k :: k in e && k != "Solde de congé" ==> k in r && r[k] == e[k]
    ensures r.Keys == e.Keys + {"Solde de congé"}
  {
    var soldeActuel := TsParseFloat(Get(e, "Solde de congé"), 0.0);
    var next := soldeActuel + variation;
    e["Solde de congé" := NumText(if next >= 0.0 then next else 0.0)]
  }

  /** The key of a month's manual salary entry. */
  function SalaryKey(matricule: string, year: int, month: int): string
  {
    matricule + "_" + IntToString(year) + "_" + IntToString(month)
  }

  // ---------------------------------------------------------------- monthly leave accrual

  /** `Number.prototype.toFixed(1)` read back as a number: the nearest tenth, halves up. */
  function ToFixed1(x: real): (r: real)
    ensures x - 0.05 < r <= x + 0.05
  {
    JsRound(x * 10.0) as real / 10.0
  }

  /** The month a `last_update` stamp names: `new Date(stamp + '-01')` reads "YYYY-MM-01" as a
      date only when the stamp is four digits, a dash and a month 01 to 12. */
  function ParseStamp(s: string): (r: Option<(int, int)>)
    ensures r.Some? ==> 1 <= r.value.1 <= 12
  {
    if |s| == 7 && DigitsAt(s, 0, 4) && s[4] == '-' && DigitsAt(s, 5, 2)
       && 1 <= NumberAt(s, 5, 2) <= 12
    then Some((NumberAt(s, 0, 4), NumberAt(s, 5, 2)))
    else None
  }

  /** The stamp written back: `${year}-${month padded to two digits}`. */
  function Stamp(today: Date): string
    requires 1 <= today.month <= 12
  {
    IntToString(today.year) + "-" + Pad2(today.month)
  }

  /** `monthsPassed`: 3 without a stamp, the months since the stamped month otherwise, and no
      number (NaN) for a stamp that is not a date. */
  function MonthsPassed(last: Option<Value>, today: Date): (r: Option<int>)
  {
    if !Truthy(last) then Some(3)
    else
      match last.value
      case Str(s) =>
        var p := ParseStamp(s);
        if p.None? then None
        else Some((today.year - p.value.0) * 12 + (today.month - p.value.1))
      case _ => None
  }

  /** One employee after `updateCongesAutomatique`: 2.5 days per month passed are added to the
      balance (or to the initial balance when there is none), and the stamp becomes the current
      month. */
  function AccrueTs(e: Record, today: Date): (r: Record)
    requires Valid(today)
    ensures "last_update" in r && r["last_update"] == Str(Stamp(today))
    ensures forall k :: k in e && k != "last_update" && k != "Solde de congé" ==> k in r && r[k] == e[k]
    ensures var months := MonthsPassed(Get(e, "last_update"), today);
      !(months.Some? && months.value > 0) ==> Get(r, "Solde de congé") == Get(e, "Solde de congé")
    ensures var months := MonthsPassed(Get(e, "last_update"), today);
      var solde := TsParseFloat(Or(Get(e, "Solde de congé"), Get(e, "Solde initial congé")), 0.0);
      months.Some? && months.value > 0 ==>
        "Solde de congé" in r && r["Solde de congé"] == NumText(ToFixed1(solde + 2.5 * months.value as real))
  {
    var soldeCourant := TsParseFloat(Or(Get(e, "Solde de congé"), Get(e, "Solde initial congé")), 0.0);
    var months := MonthsPassed(Get(e, "last_update"), today);
    var e1 := if months.Some? && months.value > 0
      then e["Solde de congé" := NumText(ToFixed1(soldeCourant + 2.5 * months.value as real))]
      else e;
    e1["last_update" := Str(Stamp(today))]
  }

  /** The written stamp reads back as the current month, or as no date at all for a year
      that does not print as four digits. */
  lemma StampRoundTrip(today: Date)
    requires Valid(today)
    ensures ParseStamp(Stamp(today)).Some? ==> ParseStamp(Stamp(today)) == Some((today.year, today.month))
    ensures 1000 <= today.year <= 9999 ==> ParseStamp(Stamp(today)) == Some((today.year, today.month))
  {
    var s := Stamp(today);
    var ys := IntToString(today.year);
    Pad2Digits(today.month);
    assert s == ys + "-" + Pad2(today.month);
    if 1000 <= today.year <= 9999 {
      NatToStringFourDigits(today.year);
      NatToStringDigits(today.year);
      assert |ys| == 4 && s[0..4] == ys && s[4] == '-' && s[5..7] == Pad2(today.month);
    }
    if |s| == 7 && DigitsAt(s, 0, 4) {
      assert |ys| == 4 && s[0..4] == ys;
      assert s[5..7] == Pad2(today.month);
      if today.year >= 0 {
        NatToStringDigits(today.year);
      } else {
        NegativeTextSigned(today.year);
      }
    }
  }

  /** A negative number prints with a leading minus sign. */
  lemma NegativeTextSigned(y: int)
    requires y < 0
    ensures |IntToString(y)| >= 1 && !IsDigit(IntToString(y)[0])
  {
  }

  /** Once the stamp names the current month, a second run in the same month adds nothing:
      the accrual is idempotent. */
  lemma AccrueTsIdempotent(e: Record, today: Date)
    requires Valid(today)
    ensures AccrueTs(AccrueTs(e, today), today) == AccrueTs(e, today)
  {
    var e1 := AccrueTs(e, today);
    StampRoundTrip(today);
    assert Get(e1, "last_update") == Some(Str(Stamp(today)));
    var m := MonthsPassed(Get(e1, "last_update"), today);
    assert m.None? || m.value == 0;
  }

  /** An unstamped employee is credited three months (7.5 days); a balance stamped with an
      earlier month grows by 2.5 days per month since that month, rounded to a tenth. */
  lemma AccrueTsAmount(e: Record, today: Date)
    requires Valid(today)
    ensures !Truthy(Get(e, "last_update")) ==>
      var solde := TsParseFloat(Or(Get(e, "Solde de congé"), Get(e, "Solde initial congé")), 0.0);
      AccrueTs(e, today)["Solde de congé"] == NumText(ToFixed1(solde + 7.5))
    ensures var last := Get(e, "last_update");
      last.Some? && last.value.Str? && ParseStamp(last.value.s).Some? ==>
      var (y, mo) := ParseStamp(last.value.s).value;
      var solde := TsParseFloat(Or(Get(e, "Solde de congé"), Get(e, "Solde initial congé")), 0.0);
      y * 12 + mo < today.year * 12 + today.month ==>
        AccrueTs(e, today)["Solde de congé"]
          == NumText(ToFixed1(solde + 2.5 * ((today.year - y) * 12 + today.month - mo) as real))
  {
  }

  // ---------------------------------------------------------------- the store

  class ColarysStore {
    var employees: seq<Record>
    var presences: Record
    var salaires: map<string, Record>

    constructor(employees: seq<Record>, presences: Record, salaires: map<string, Record>)
      ensures this.employees == employees && this.presences == presences
      ensures this.salaires == salaires
    {
      this.employees := employees;
      this.presences := presences;
      this.salaires := salaires;
    }

    /** `createEmployee`: refuses a matricule already present (strict equality, so a missing
        matricule matches another missing one), otherwise appends the completed record. */
    method CreateEmployee(data: Record, now: Clock) returns (res: Outcome)
      requires ValidClock(now)
      modifies this
      ensures presences == old(presences) && salaires == old(salaires)
      ensures (exists j :: 0 <= j < |old(employees)|
                 && Get(old(employees)[j], "Matricule") == Get(data, "Matricule"))
        ==> res == Duplicate && employees == old(employees)
      ensures res == Ok <==> ((forall j :: 0 <= j < |old(employees)| ==>
                 Get(old(employees)[j], "Matricule") != Get(data, "Matricule"))
        && NewEmployee(data, now).Success?)
      ensures res == Duplicate <==>
        (exists j :: 0 <= j < |old(employees)| && Get(old(employees)[j], "Matricule") == Get(data, "Matricule"))
      ensures res == Ok ==> (NewEmployee(data, now).Success?
        && employees == old(employees) + [NewEmployee(data, now).value])
      ensures res != Ok ==> employees == old(employees)
      ensures res == Failed <==> ((forall j :: 0 <= j < |old(employees)| ==>
                 Get(old(employees)[j], "Matricule") != Get(data, "Matricule"))
        && NewEmployee(data, now).Failure?)
    {
      var i := 0;
      while i < |employees|
        invariant 0 <= i <= |employees|
        invariant forall j :: 0 <= j < i ==> Get(employees[j], "Matricule") != Get(data, "Matricule")
      {
        if Get(employees[i], "Matricule") == Get(data, "Matricule") {
          return Duplicate;
        }
        i := i + 1;
      }
      var nouvel := NewEmployee(data, now);
      if nouvel.Failure? {
        return Failed;
      }
      employees := employees + [nouvel.value];
      res := Ok;
    }

    /** `updateEmployee`: merges the submitted fields (recomputing seniority and entitlement
        when a hire date is given) into the first employee with that matricule. */
    method UpdateEmployee(matricule: string, data: Record, now: Clock) returns (res: Outcome)
      requires ValidClock(now)
      modifies this
      ensures presences == old(presences) && salaires == old(salaires)
      ensures FindIndex(old(employees), matricule).None? ==> res == NotFound && employees == old(employees)
      ensures res == Ok <==> FindIndex(old(employees), matricule).Some? && UpdateFields(data, now).Success?
      ensures res == Failed <==> FindIndex(old(employees), matricule).Some? && UpdateFields(data, now).Failure?
      ensures res == Ok ==>
        var i := FindIndex(old(employees), matricule).value;
        employees == old(employees)[i := old(employees)[i] + UpdateFields(data, now).value]
      ensures res != Ok ==> employees == old(employees)
    {
      var index := FindIndex(employees, matricule);
      if index.None? {
        return NotFound;
      }
      var fields := UpdateFields(data, now);
      if fields.Failure? {
        return Failed;
      }
      employees := employees[index.value := employees[index.value] + fields.value];
      res := Ok;
    }

    /** `deleteEmployee`: removes every employee with that matricule; none is `NotFound`. */
    method DeleteEmployee(matricule: string) returns (res: Outcome)
      modifies this
      ensures presences == old(presences) && salaires == old(salaires)
      ensures res == Ok || res == NotFound
      ensures res == NotFound <==> FindIndex(old(employees), matricule).None?
      ensures employees == WithoutMatricule(old(employees), matricule)
    {
      var filtered := WithoutMatricule(employees, matricule);
      if |filtered| == |employees| {
        return NotFound;
      }
      employees := filtered;
      res := Ok;
    }

    /** `updateSoldeConge`: adds `variation` to the first matching employee's balance, floored
        at 0. */
    method UpdateSoldeConge(matricule: string, variation: real)
      modifies this
      ensures presences == old(presences) && salaires == old(salaires)
      ensures FindIndex(old(employees), matricule).None? ==> employees == old(employees)
      ensures FindIndex(old(employees), matricule).Some? ==>
        var i := FindIndex(old(employees), matricule).value;
        employees == old(employees)[i := AdjustedBalance(old(employees)[i], variation)]
    {
      var index := FindIndex(employees, matricule);
      if index.Some? {
        employees := employees[index.value := AdjustedBalance(employees[index.value], variation)];
      }
    }

    /** `updatePresence`: the empty code deletes the day, an allowed code sets it, any other
        code is refused; a leave day (`c`) also takes one day off the balance. Other days are
        left alone. */
    method UpdatePresence(matricule: string, year: int, month: int, day: int, kind: string)
      returns (res: Outcome)
      modifies this
      ensures salaires == old(salaires)
      ensures var key := PresenceKey(matricule, year, month, day);
        (res == InvalidType <==> !AllowedType(kind) && kind != "")
        && (res != InvalidType ==> res == Ok)
        && (res == InvalidType ==> presences == old(presences) && employees == old(employees))
        && (res == Ok && kind == "" ==> presences == old(presences) - {key})
        && (res == Ok && kind != "" ==> presences == old(presences)[key := Str(kind)])
      ensures kind == "c" ==>
        var i := FindIndex(old(employees), matricule);
        employees == if i.Some? then old(employees)[i.value := AdjustedBalance(old(employees)[i.value], -1.0)]
                     else old(employees)
      ensures kind != "c" ==> employees == old(employees)
    {
      var key := PresenceKey(matricule, year, month, day);
      if !AllowedType(kind) && kind != "" {
        return InvalidType;
      }
      if kind == "" {
        presences := presences - {key};
      } else {
        presences := presences[key := Str(kind)];
      }
      if kind == "c" {
        UpdateSoldeConge(matricule, -1.0);
      }
      res := Ok;
    }

    /** `updateSalaire`: the submitted fields are merged over the month's existing entry. */
    method UpdateSalaire(matricule: string, year: int, month: int, data: Record)
      modifies this
      ensures employees == old(employees) && presences == old(presences)
      ensures var key := SalaryKey(matricule, year, month);
        salaires == old(salaires)[key := (if key in old(salaires) then old(salaires)[key] else map[]) + data]
    {
      var key := SalaryKey(matricule, year, month);
      var current := if key in salaires then salaires[key] else map[];
      salaires := salaires[key := current + data];
    }

    /** `updateCongesAutomatique`: every employee accrues leave for the months since their
        stamp and is stamped with the current month. */
    method UpdateCongesAutomatique(now: Clock)
      requires ValidClock(now)
      modifies this
      ensures presences == old(presences) && salaires == old(salaires)
      ensures |employees| == |old(employees)|
      ensures forall i :: 0 <= i < |employees| ==> employees[i] == AccrueTs(old(employees)[i], now.today)
    {
      var i := 0;
      while i < |employees|
        invariant 0 <= i <= |employees| == |old(employees)|
        invariant presences == old(presences) && salaires == old(salaires)
        invariant forall j :: 0 <= j < i ==> employees[j] == AccrueTs(old(employees)[j], now.today)
        invariant forall j :: i <= j < |employees| ==> employees[j] == old(employees)[j]
      {
        employees := employees[i := AccrueTs(employees[i], now.today)];
        i := i + 1;
      }
    }
  }

  /** A day set through `updatePresence` is read back by the monthly totals as the code that
      was written, and a deleted day as no code. */
  lemma WrittenCodeReadBack(presences: Record, key: string, kind: string)
    requires AllowedType(kind)
    ensures StatusCode(Get(presences[key := Str(kind)], key)) == CodeOfText(kind)
    ensures CodeOfText(kind) != Other
    ensures StatusCode(Get(presences - {key}, key)) == Other
  {
    assert ToLower(kind) == kind;
  }

  /** Re-entering a leave day that is already recorded still takes another day off the
      balance: the decrement does not look at the previous code. */
  lemma LeaveTwiceCountsTwice(e: Record)
    requires Get(e, "Solde de congé") == Some(NumText(5.0))
    ensures AdjustedBalance(AdjustedBalance(e, -1.0), -1.0)["Solde de congé"] == NumText(3.0)
  {
  }

  /** A submitted balance of "0" reads as the default -1 in `parseFloat`, so the new employee
      gets the initial balance instead. */
  lemma ZeroBalanceTextReplaced(data: Record, now: Clock)
    requires ValidClock(now) && "Solde de congé" in data && data["Solde de congé"] == NumText(0.0)
    requires TsParseHireDate(Get(data, "Date d'embauche")).Success?
    ensures NewEmployee(data, now).value["Solde de congé"]
      == NumText(TsParseFloat(Get(data, "Solde initial congé"), 0.0))
  {
  }
}
