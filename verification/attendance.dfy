/** Monthly attendance totals. Attendance is a map from `"<matricule>_<year>_<month>_<day>"` to
    a one-letter code; the payroll service and the desktop application both walk the days of a
    month and add the day's planned hours (always 8) to the bucket of the day's code. */
module Attendance {
  import opened Basics
  import opened Text
  import opened Json
  import opened Calendar
  import opened WorkingDays
  import opened HireDates

  /** The attendance codes: presence, night, absence, leave (congé), paid holiday worked
      (férié), training (formation), day off; `Other` is a missing, empty or unknown value. */
  datatype Code = P | N | A | C | M | F | O | Other

  /** The code a lower-cased attendance text stands for (a `switch` on the exact text). */
  function CodeOfText(s: string): (c: Code)
    ensures c != Other ==> |s| == 1
  {
    if s == "p" then P else if s == "n" then N else if s == "a" then A
    else if s == "c" then C else if s == "m" then M else if s == "f" then F
    else if s == "o" then O else Other
  }

  /** Hours planned for one day: `getHeuresPlanifiees(...) || 8`, and the planning lookup
      always answers 8. */
  const HoursPerDay: int := 8

  /** The attendance key of an employee's day. */
  function PresenceKey(matricule: string, year: int, month: int, day: int): string
  {
    matricule + "_" + IntToString(year) + "_" + IntToString(month) + "_" + IntToString(day)
  }

  // ---------------------------------------------------------------------------------------
  // The payroll service

  /** The result object of `calculHeuresPresence`; `reelles` is `heuresTravailleesReelles`. */
  datatype Hours = Hours(presence: int, conge: int, ferie: int, nuit: int, formation: int,
                         absence: int, joursFormation: int, joursOff: int, reelles: int)

  const NoHours: Hours := Hours(0, 0, 0, 0, 0, 0, 0, 0, 0)

  /** One iteration of the service's `switch`. */
  function AddDay(h: Hours, c: Code): Hours
  {
    match c
    case P => h.(presence := h.presence + HoursPerDay, reelles := h.reelles + HoursPerDay)
    case N => h.(presence := h.presence + HoursPerDay, nuit := h.nuit + HoursPerDay,
                 reelles := h.reelles + HoursPerDay)
    case A => h.(absence := h.absence + HoursPerDay)
    case C => h.(conge := h.conge + HoursPerDay)
    case M => h.(presence := h.presence + HoursPerDay, ferie := h.ferie + HoursPerDay,
                 reelles := h.reelles + HoursPerDay)
    case F => h.(formation := h.formation + HoursPerDay, joursFormation := h.joursFormation + 1)
    case O => h.(joursOff := h.joursOff + 1)
    case Other => h
  }

  /** The totals of a month whose days carry `codes`, in day order. */
  function Tally(codes: seq<Code>): Hours
  {
    if codes == [] then NoHours else AddDay(Tally(codes[..|codes| - 1]), codes[|codes| - 1])
  }

  /** Occurrences of `c` in `codes`. */
  function Count(codes: seq<Code>, c: Code): (n: nat)
    ensures n <= |codes|
  {
    if codes == [] then 0
    else Count(codes[..|codes| - 1], c) + (if codes[|codes| - 1] == c then 1 else 0)
  }

  /** `presences[key]?.toLowerCase()` as the code it selects; a number has no `toLowerCase`
      and makes the call throw. */
  predicate Throws(v: Option<Value>) { v.Some? && v.value.Num? }

  function StatusCode(v: Option<Value>): Code
  {
    match v
    case None => Other
    case Some(x) =>
      match x
      case Str(s) => CodeOfText(ToLower(s))
      case _ => Other
  }

  /** The codes of days `1..days` of an employee's month. */
  function MonthCodes(presences: Record, matricule: string, year: int, month: int, days: nat)
    : (codes: seq<Code>)
    ensures |codes| == days
    ensures forall d :: 0 <= d < days ==>
      codes[d] == StatusCode(Get(presences, PresenceKey(matricule, year, month, d + 1)))
  {
    seq(days, d => StatusCode(Get(presences, PresenceKey(matricule, year, month, d + 1))))
  }

  /** Some day among `1..days` holds a number and makes the aggregation throw. */
  predicate MonthThrows(presences: Record, matricule: string, year: int, month: int, days: nat)
  {
    exists d :: 1 <= d <= days && Throws(Get(presences, PresenceKey(matricule, year, month, d)))
  }

  /** Days of the month `new Date(year, month, 0).getDate()` reports. */
  function JsDaysInMonth(year: int, month: int): (n: int)
    ensures 28 <= n <= 31
  {
    var (y, m) := JsMonth(year, month);
    DaysInMonth(y, m)
  }

  /** `calculHeuresPresence`: the totals over the days of the month, or the exception a
      numeric attendance value raises. */
  method CalculHeuresPresence(matricule: string, year: int, month: int, presences: Record)
    returns (r: Result<Hours, Thrown>)
    ensures var days := JsDaysInMonth(year, month);
      r.Failure? <==> MonthThrows(presences, matricule, year, month, days)
    ensures var days := JsDaysInMonth(year, month);
      r.Success? ==> r.value == Tally(MonthCodes(presences, matricule, year, month, days))
  {
    LastDayOfMonth(year, month);
    var joursDansMois := JsDate(year, month, 0).day;
    ghost var codes := MonthCodes(presences, matricule, year, month, joursDansMois);
    var result := NoHours;
    var jour := 1;
    while jour <= joursDansMois
      invariant 1 <= jour <= joursDansMois + 1
      invariant !MonthThrows(presences, matricule, year, month, jour - 1)
      invariant result == Tally(codes[..jour - 1])
    {
      var key := PresenceKey(matricule, year, month, jour);
      var v := Get(presences, key);
      if Throws(v) {
        return Failure(NotAString);
      }
      var statut := StatusCode(v);
      TallyStep(codes, jour - 1);
      NoThrowStep(presences, matricule, year, month, jour);
      result := AddPlanned(result, statut, HoursPerDay);
      jour := jour + 1;
    }
    assert codes[..joursDansMois] == codes;
    return Success(result);
  }

  /** The service's `switch` on one day's code, with the day's planned hours. */
  method AddPlanned(result: Hours, statut: Code, heuresPlanifiees: int) returns (r: Hours)
    requires heuresPlanifiees == HoursPerDay
    ensures r == AddDay(result, statut)
  {
    r := result;
    match statut {
      case P =>
        r := r.(presence := r.presence + heuresPlanifiees, reelles := r.reelles + heuresPlanifiees);
      case N =>
        r := r.(presence := r.presence + heuresPlanifiees, nuit := r.nuit + heuresPlanifiees,
                reelles := r.reelles + heuresPlanifiees);
      case A =>
        r := r.(absence := r.absence + heuresPlanifiees);
      case C =>
        r := r.(conge := r.conge + heuresPlanifiees);
      case M =>
        r := r.(presence := r.presence + heuresPlanifiees, ferie := r.ferie + heuresPlanifiees,
                reelles := r.reelles + heuresPlanifiees);
      case F =>
        r := r.(formation := r.formation + heuresPlanifiees, joursFormation := r.joursFormation + 1);
      case O =>
        r := r.(joursOff := r.joursOff + 1);
      case Other =>
    }
  }

  lemma TallyStep(codes: seq<Code>, j: nat)
    requires j < |codes|
    ensures Tally(codes[..j + 1]) == AddDay(Tally(codes[..j]), codes[j])
  {
    assert codes[..j + 1][..j] == codes[..j];
  }

  lemma NoThrowStep(presences: Record, matricule: string, year: int, month: int, day: nat)
    requires 1 <= day
    requires !MonthThrows(presences, matricule, year, month, day - 1)
    requires !Throws(Get(presences, PresenceKey(matricule, year, month, day)))
    ensures !MonthThrows(presences, matricule, year, month, day)
  {
  }

  /** The totals by code: each bucket is 8 hours per day of its codes, `p`, `n` and `m` days
      count as presence and as real worked hours, `o` days only as days off. */
  lemma {:induction false} TallyCounts(codes: seq<Code>)
    ensures var h := Tally(codes);
      var p, n, m := Count(codes, P), Count(codes, N), Count(codes, M);
      h == Hours(8 * (p + n + m), 8 * Count(codes, C), 8 * m, 8 * n, 8 * Count(codes, F),
                 8 * Count(codes, A), Count(codes, F), Count(codes, O), 8 * (p + n + m))
  {
    if codes != [] {
      TallyCounts(codes[..|codes| - 1]);
    }
  }

  /** Every day carries exactly one code. */
  lemma {:induction false} CountsSum(codes: seq<Code>)
    ensures Count(codes, P) + Count(codes, N) + Count(codes, A) + Count(codes, C)
      + Count(codes, M) + Count(codes, F) + Count(codes, O) + Count(codes, Other) == |codes|
  {
    if codes != [] {
      CountsSum(codes[..|codes| - 1]);
    }
  }

  /** Presence hours and real worked hours always agree; night and holiday hours are part of
      the presence hours; training hours are 8 per training day. */
  lemma PresenceIsReal(codes: seq<Code>)
    ensures Tally(codes).presence == Tally(codes).reelles
    ensures 0 <= Tally(codes).nuit <= Tally(codes).presence
    ensures 0 <= Tally(codes).ferie <= Tally(codes).presence
    ensures Tally(codes).nuit + Tally(codes).ferie <= Tally(codes).presence
    ensures Tally(codes).formation == 8 * Tally(codes).joursFormation
  {
    TallyCounts(codes);
  }

  /** The hours of a month never exceed 8 per day: presence, leave, training and absence hours
      and the days off share the month's days. */
  lemma HoursBounded(codes: seq<Code>)
    ensures var h := Tally(codes);
      0 <= h.presence && 0 <= h.conge && 0 <= h.formation && 0 <= h.absence && 0 <= h.joursOff
      && h.presence + h.conge + h.formation + h.absence + 8 * h.joursOff <= 8 * |codes|
  {
    TallyCounts(codes);
    CountsSum(codes);
  }

  /** A day off changes nothing but the count of days off: the month with day `i` off has the
      same hours as the month with no code on day `i`. */
  lemma {:induction false} DayOffNeutral(codes: seq<Code>, i: nat)
    requires i < |codes|
    ensures Tally(codes[i := O]) == Tally(codes[i := Other]).(joursOff := Tally(codes[i := Other]).joursOff + 1)
  {
    var k := |codes| - 1;
    if i == k {
      assert codes[i := O][..k] == codes[..k];
      assert codes[i := Other][..k] == codes[..k];
    } else {
      assert codes[i := O][..k] == codes[..k][i := O];
      assert codes[i := Other][..k] == codes[..k][i := Other];
      DayOffNeutral(codes[..k], i);
    }
  }

  /** The totals do not depend on the order of the days. */
  lemma TallySwap(codes: seq<Code>, i: nat, j: nat)
    requires i < |codes| && j < |codes|
    ensures Tally(codes[i := codes[j]][j := codes[i]]) == Tally(codes)
  {
    var s := codes[i := codes[j]][j := codes[i]];
    TallyCounts(codes);
    TallyCounts(s);
    assert multiset(s) == multiset(codes);
    forall c | true ensures Count(s, c) == Count(codes, c) {
      CountIsMultiplicity(s, c);
      CountIsMultiplicity(codes, c);
    }
  }

  lemma {:induction false} CountIsMultiplicity(codes: seq<Code>, c: Code)
    ensures Count(codes, c) == multiset(codes)[c]
  {
    if codes != [] {
      var k := |codes| - 1;
      assert codes == codes[..k] + [codes[k]];
      CountIsMultiplicity(codes[..k], c);
    }
  }

  // ---------------------------------------------------------------------------------------
  // The desktop application

  /** The `res` dictionary of `_hours_from_presence`: six buckets, no days off, no real
      worked hours. */
  datatype DeskHours = DeskHours(presence: int, conge: int, ferie: int, nuit: int,
                                 formation: int, absence: int)

  /** One iteration of the `if`/`elif` chain: the same buckets as the service, and `o` has no
      branch. */
  function DeskAddDay(h: DeskHours, c: Code): DeskHours
  {
    match c
    case P => h.(presence := h.presence + 8)
    case N => h.(presence := h.presence + 8, nuit := h.nuit + 8)
    case A => h.(absence := h.absence + 8)
    case C => h.(conge := h.conge + 8)
    case M => h.(presence := h.presence + 8, ferie := h.ferie + 8)
    case F => h.(formation := h.formation + 8)
    case _ => h
  }

  function DeskTally(codes: seq<Code>): DeskHours
  {
    if codes == [] then DeskHours(0, 0, 0, 0, 0, 0)
    else DeskAddDay(DeskTally(codes[..|codes| - 1]), codes[|codes| - 1])
  }

  /** `self.presence_data.get(key, "").lower()` as a code. */
  function DeskCode(presenceData: map<string, string>, key: string): Code
  {
    if key in presenceData then CodeOfText(ToLower(presenceData[key])) else Other
  }

  function DeskMonthCodes(presenceData: map<string, string>, matricule: string, year: int,
                          month: int, days: nat): (codes: seq<Code>)
    ensures |codes| == days
    ensures forall d :: 0 <= d < days ==>
      codes[d] == DeskCode(presenceData, PresenceKey(matricule, year, month, d + 1))
  {
    seq(days, d => DeskCode(presenceData, PresenceKey(matricule, year, month, d + 1)))
  }

  /** `PageSalaire._hours_from_presence`: the month's days come from two `datetime.date`
      values, which exist only for months 1..12 of years 1..9998. */
  method HoursFromPresence(presenceData: map<string, string>, matricule: string, year: int,
                           month: int) returns (res: DeskHours)
    requires 1 <= month <= 12 && 1 <= year && year + month / 12 <= 9999
    ensures res == DeskTally(DeskMonthCodes(presenceData, matricule, year, month,
                                            DaysInMonth(year, month)))
  {
    var daysInMonth := DaysInMonth(year, month);
    ghost var codes := DeskMonthCodes(presenceData, matricule, year, month, daysInMonth);
    res := DeskHours(0, 0, 0, 0, 0, 0);
    var d := 1;
    while d < daysInMonth + 1
      invariant 1 <= d <= daysInMonth + 1
      invariant res == DeskTally(codes[..d - 1])
    {
      var key := PresenceKey(matricule, year, month, d);
      var val := DeskCode(presenceData, key);
      DeskTallyStep(codes, d - 1);
      res := DeskAdd(res, val);
      d := d + 1;
    }
    assert codes[..daysInMonth] == codes;
  }

  /** The `if`/`elif` chain on one day's code. */
  method DeskAdd(res: DeskHours, val: Code) returns (r: DeskHours)
    ensures r == DeskAddDay(res, val)
  {
    r := res;
    if val == P {
      r := r.(presence := r.presence + 8);
    } else if val == N {
      r := r.(presence := r.presence + 8, nuit := r.nuit + 8);
    } else if val == A {
      r := r.(absence := r.absence + 8);
    } else if val == C {
      r := r.(conge := r.conge + 8);
    } else if val == M {
      r := r.(presence := r.presence + 8, ferie := r.ferie + 8);
    } else if val == F {
      r := r.(formation := r.formation + 8);
    }
  }

  lemma DeskTallyStep(codes: seq<Code>, j: nat)
    requires j < |codes|
    ensures DeskTally(codes[..j + 1]) == DeskAddDay(DeskTally(codes[..j]), codes[j])
  {
    assert codes[..j + 1][..j] == codes[..j];
  }

  /** The six buckets the desktop application computes are the service's. */
  lemma {:induction false} DeskAgreesWithService(codes: seq<Code>)
    ensures var h := Tally(codes);
      DeskTally(codes) == DeskHours(h.presence, h.conge, h.ferie, h.nuit, h.formation, h.absence)
  {
    if codes != [] {
      DeskAgreesWithService(codes[..|codes| - 1]);
    }
  }

  /** The two programs read the same keys: for a month whose attendance holds only texts, the
      service and the desktop application see the same codes. */
  lemma SameCodes(presences: Record, presenceData: map<string, string>, matricule: string,
                  year: int, month: int, days: nat)
    requires presences.Keys == presenceData.Keys
    requires forall k :: k in presences ==> presences[k] == Str(presenceData[k])
    ensures MonthCodes(presences, matricule, year, month, days)
      == DeskMonthCodes(presenceData, matricule, year, month, days)
  {
  }
}
