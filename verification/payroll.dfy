/** The monthly payslip: hourly rate, absence deduction, premiums, meal and transport allowances
    gated by the one-year entitlement, social contributions, the five-bracket income tax with its
    2000 floor, and the net amount. The service (TypeScript) keeps the base salary fixed and only
    deducts absences; the desktop application pays presence hours at a rate whose divisor
    shrinks with absences. Amounts are reals; the display rounding is left out. */
module Payroll {
  import opened Basics
  import opened Text
  import opened Json
  import opened Calendar
  import opened HireDates
  import opened NumberParsing
  import opened WorkingDays
  import opened Attendance

  function MaxR(a: real, b: real): real { if a >= b then a else b }

  function MinR(a: real, b: real): real { if a <= b then a else b }

  // ---------------------------------------------------------------- income tax (IRSA)

  /** The parts of the gross salary falling in each bracket: up to 350000, 350000 to 400000,
      400000 to 500000, 500000 to 600000, and above 600000. */
  datatype Tranches = Tranches(t1: real, t2: real, t3: real, t4: real, t5: real)

  function TranchesOf(brut: real): (t: Tranches)
    ensures 0.0 <= t.t1 <= 350000.0 && 0.0 <= t.t2 <= 50000.0 && 0.0 <= t.t3 <= 100000.0
    ensures 0.0 <= t.t4 <= 100000.0 && 0.0 <= t.t5
    ensures t.t1 + t.t2 + t.t3 + t.t4 + t.t5 == MaxR(0.0, brut)
  {
    var base := MaxR(0.0, brut);
    Tranches(MaxR(0.0, MinR(base, 350000.0)),
             MaxR(0.0, MinR(base, 400000.0) - 350000.0),
             MaxR(0.0, MinR(base, 500000.0) - 400000.0),
             MaxR(0.0, MinR(base, 600000.0) - 500000.0),
             MaxR(0.0, base - 600000.0))
  }

  /** The tax before the floor: 0%, 5%, 10%, 15% and 20% of the five tranches. */
  function RawTax(brut: real): real
  {
    var t := TranchesOf(brut);
    t.t1 * 0.00 + t.t2 * 0.05 + t.t3 * 0.10 + t.t4 * 0.15 + t.t5 * 0.20
  }

  /** The same progressive scale written bracket by bracket, with the tax due at each
      bracket's lower end. */
  function ScaleTax(brut: real): real
  {
    if brut <= 350000.0 then 0.0
    else if brut <= 400000.0 then (brut - 350000.0) * 0.05
    else if brut <= 500000.0 then 2500.0 + (brut - 400000.0) * 0.10
    else if brut <= 600000.0 then 12500.0 + (brut - 500000.0) * 0.15
    else 27500.0 + (brut - 600000.0) * 0.20
  }

  lemma RawTaxIsScale(brut: real)
    ensures RawTax(brut) == ScaleTax(brut)
  {
  }

  /** The raw tax grows with the gross salary. */
  lemma RawTaxMonotone(a: real, b: real)
    requires a <= b
    ensures RawTax(a) <= RawTax(b)
  {
    RawTaxIsScale(a);
    RawTaxIsScale(b);
  }

  /** The raw tax is zero exactly up to 350000. */
  lemma RawTaxZero(brut: real)
    ensures RawTax(brut) == 0.0 <==> brut <= 350000.0
  {
    RawTaxIsScale(brut);
  }

  /** `repTotal` / `reptot`: the raw tax, replaced by 2000 when it is zero. */
  function Irsa(brut: real): (r: real)
    ensures r == if brut <= 350000.0 then 2000.0 else ScaleTax(brut)
    ensures r > 0.0
  {
    RawTaxIsScale(brut);
    var rep := RawTax(brut);
    if rep == 0.0 then 2000.0 else rep
  }

  /** The floor makes the tax fall as the salary crosses 350000: a salary one unit above the
      first bracket pays 0.05 where one at the bracket pays 2000. */
  lemma IrsaFallsAtFirstBracket()
    ensures Irsa(350000.0) == 2000.0 && Irsa(350001.0) == 0.05
    ensures Irsa(350001.0) < Irsa(350000.0)
  {
  }

  /** Above the first bracket the final tax grows with the gross salary. */
  lemma IrsaMonotoneAbove(a: real, b: real)
    requires 350000.0 < a <= b
    ensures Irsa(a) <= Irsa(b)
  {
    RawTaxMonotone(a, b);
    RawTaxIsScale(a);
    RawTaxIsScale(b);
  }

  /** Both roundings give back `k` for the days count of `8 * k` hours. */
  lemma RoundWholeDays(k: int)
    ensures JsRound((8 * k) as real / 8.0) == k && PyRound((8 * k) as real / 8.0) == k
  {
    assert (8 * k) as real / 8.0 == k as real;
  }

  // ---------------------------------------------------------------- the service's payslip

  /** One entry of `salairesCalcules` (before `Math.round`). */
  datatype Payslip = Payslip(
    matricule: string, salBase: real, tauxH: real, hours: Hours, joursTheoriques: int,
    montantAbsence: real, montantTravaille: real, majNuit: real, majFerie: real,
    indemConge: real, indemFormation: real, primes: real, indemRepas: real,
    indemTransport: real, brut: real, avance: real, ostie: real, cnaps: real, social: real,
    igr: real, reste: real, soldeConge: real)

  /** `parseFloat(manual[key]) || 0`. */
  function Manual(manual: Record, key: string): real
  {
    TsParseFloat(Get(manual, key), 0.0)
  }

  /** `parseFloat(manual["Social"]) || 15000`: a missing, unreadable or zero amount is 15000. */
  function SocialOf(manual: Record): (r: real)
    ensures r != 0.0
    ensures Get(manual, "Social").None? ==> r == 15000.0
    ensures Get(manual, "Social") == Some(Num(0.0)) ==> r == 15000.0
    ensures Get(manual, "Social") == Some(NumText(0.0)) ==> r == 15000.0
  {
    var s := Manual(manual, "Social");
    if s == 0.0 then 15000.0 else s
  }

  /** The hourly rate: the base salary over the month's theoretical hours. */
  function TsRate(salBase: real, jours: int): (r: real)
    requires jours >= 1
    ensures r * (8 * jours) as real == salBase
  {
    salBase / (8 * jours) as real
  }

  /** The salary for the time worked: the fixed base minus the absent hours at the hourly rate,
      never negative. Presence hours play no part. */
  function MontantTravaille(salBase: real, absence: int, jours: int): (r: real)
    requires jours >= 1
    ensures r >= 0.0
    ensures salBase >= 0.0 && absence >= 0 ==> r <= salBase
    ensures absence == 0 ==> r == MaxR(0.0, salBase)
    ensures salBase >= 0.0 && 0 <= absence <= 8 * jours ==>
      r == salBase * (1.0 - absence as real / (8 * jours) as real)
  {
    MaxR(0.0, salBase - absence as real * TsRate(salBase, jours))
  }

  /** Meal or transport allowance: `rate` per worked day (`Math.round(hours / 8)`), times the
      entitlement flag. */
  function DayAllowance(hours: int, rate: real, droit: int): (r: real)
    requires droit == 0 || droit == 1
    ensures droit == 0 ==> r == 0.0
    ensures droit == 1 ==> r == JsRound(hours as real / 8.0) as real * rate
  {
    var joursPresenceArr := JsRound(hours as real / 8.0);
    joursPresenceArr as real * rate * droit as real
  }

  /** OSTIE or CNaPS: 1% of the gross salary after a year of seniority, for an entitled
      employee. */
  function Contribution(brut: real, droit: int, ancienneteAns: int): (r: real)
    ensures droit == 0 || ancienneteAns < 1 ==> r == 0.0
    ensures droit != 0 && ancienneteAns >= 1 ==> r == brut / 100.0
  {
    if ancienneteAns >= 1 && droit != 0 then brut * 0.01 else 0.0
  }

  /** `igr = repTotal * droitOSTIE`. */
  function TaxWithheld(brut: real, droit: int): (r: real)
    requires droit == 0 || droit == 1
    ensures droit == 0 ==> r == 0.0
    ensures droit == 1 ==> r == Irsa(brut)
  {
    Irsa(brut) * droit as real
  }

  /** The payslip arithmetic of `calculateSalaires` for one employee. */
  function TsPayslipOf(matricule: string, employee: Record, h: Hours, jours: int,
                       manual: Record, droit: int, ancienneteAns: int): (r: Payslip)
    requires jours >= 1 && (droit == 0 || droit == 1)
  {
    var salBase := TsParseFloat(Get(employee, "Salaire de base"), 0.0);
    var tauxH := TsRate(salBase, jours);
    var montantAbsenceDeduit := h.absence as real * tauxH;
    var montantTravaille := MontantTravaille(salBase, h.absence, jours);
    var majNuit := h.nuit as real * tauxH * 0.30;
    var majFerie := h.ferie as real * tauxH * 1.00;
    var indemConge := h.conge as real * tauxH;
    var indemFormation := h.joursFormation as real * 10000.0;
    var indemRepas := DayAllowance(h.reelles, 2500.0, droit);
    var indemTransport := DayAllowance(h.reelles, 1200.0, droit);
    var primes := Manual(manual, "Prime de production") + Manual(manual, "Prime d'assiduité")
      + Manual(manual, "Prime d'ancienneté") + Manual(manual, "Prime élite")
      + Manual(manual, "Prime de responsabilité");
    var brut := montantTravaille + majNuit + majFerie + indemConge + indemFormation + primes
      + indemRepas + indemTransport;
    var ostie := Contribution(brut, droit, ancienneteAns);
    var cnaps := Contribution(brut, droit, ancienneteAns);
    var social := SocialOf(manual);
    var avance := Manual(manual, "Avance sur salaire");
    var igr := TaxWithheld(brut, droit);
    var reste := brut - (avance + ostie + cnaps + social + igr);
    Payslip(matricule, salBase, tauxH, h, jours, montantAbsenceDeduit, montantTravaille, majNuit,
            majFerie, indemConge, indemFormation, primes, indemRepas, indemTransport, brut,
            avance, ostie, cnaps, social, igr, reste,
            TsParseFloat(Get(employee, "Solde de congé"), 0.0))
  }

  /** The entitlement gates the allowances, the contributions and the tax; seniority under a
      year gates the contributions; the salary for the time worked is never negative. */
  lemma TsGating(matricule: string, employee: Record, h: Hours, jours: int, manual: Record,
                 droit: int, ancienneteAns: int)
    requires jours >= 1 && (droit == 0 || droit == 1)
    ensures var r := TsPayslipOf(matricule, employee, h, jours, manual, droit, ancienneteAns);
      r.montantTravaille >= 0.0
      && (droit == 0 ==> r.indemRepas == 0.0 && r.indemTransport == 0.0 && r.ostie == 0.0
                         && r.cnaps == 0.0 && r.igr == 0.0)
      && (ancienneteAns < 1 ==> r.ostie == 0.0 && r.cnaps == 0.0)
      && (droit == 1 ==> r.igr == Irsa(r.brut) && r.igr > 0.0)
      && (droit == 1 && ancienneteAns >= 1 ==> r.ostie == r.cnaps == r.brut / 100.0)
      && r.indemFormation == 10000.0 * h.joursFormation as real
      && r.social != 0.0
  {
  }

  /** What a run of `calculateSalaires` reads besides the employee list: the month, the
      theoretical working days, the attendance and manual-entry maps and the clock. */
  datatype PayContext = PayContext(year: int, month: int, jours: int, presences: Record,
                                   salaires: map<string, Record>, now: Clock)

  predicate ValidContext(ctx: PayContext) { ctx.jours >= 1 && ValidClock(ctx.now) }

  /** `joursTravail`: the requested number of days when it is positive, else the month's
      working days. */
  function JoursTravail(year: int, month: int, joursTheoriques: Option<int>): (r: int)
    ensures r >= 1
    ensures joursTheoriques.Some? && joursTheoriques.value > 0 ==> r == joursTheoriques.value
    ensures (joursTheoriques.None? || joursTheoriques.value <= 0) ==> 20 <= r <= 23
  {
    if joursTheoriques.Some? && joursTheoriques.value > 0 then joursTheoriques.value
    else
      var (y, m) := JsMonth(year, month);
      MonthWorkdaysRange(y, m);
      Max(MonthWorkdays(y, m), 1)
  }

  /** The matricule an employee is paid under: a non-empty string (`!employee.Matricule`
      skips the others). */
  function MatriculeOf(employee: Record): (r: Option<string>)
    ensures r.Some? ==> r.value != "" && Get(employee, "Matricule") == Some(Str(r.value))
  {
    match Get(employee, "Matricule")
    case Some(Str(s)) => if s != "" then Some(s) else None
    case _ => None
  }

  /** `calculHeuresPresence` as a value: the month's totals, or the exception. */
  function HoursOf(presences: Record, matricule: string, year: int, month: int)
    : Result<Hours, Thrown>
  {
    var days := JsDaysInMonth(year, month);
    if MonthThrows(presences, matricule, year, month, days) then Failure(NotAString)
    else Success(Tally(MonthCodes(presences, matricule, year, month, days)))
  }

  /** `salaireData[key] || {}`. */
  function ManualOf(salaires: map<string, Record>, matricule: string, year: int, month: int)
    : Record
  {
    var key := matricule + "_" + IntToString(year) + "_" + IntToString(month);
    if key in salaires then salaires[key] else map[]
  }

  /** One employee's payslip, or `None` when the loop skips them: no matricule, or a hire date
      or attendance value that throws inside the `try`. */
  function TsPayslip(employee: Record, ctx: PayContext): (r: Option<Payslip>)
    requires ValidContext(ctx)
    ensures r.Some? ==> MatriculeOf(employee) == Some(r.value.matricule)
    ensures MatriculeOf(employee).None? ==> r.None?
  {
    match MatriculeOf(employee)
    case None => None
    case Some(matricule) =>
      var hire := Get(employee, "Date d'embauche");
      var droit := TsEntitlement(hire, ctx.now);
      var anciennete := TsSeniorityYears(hire, ctx.now);
      var hours := HoursOf(ctx.presences, matricule, ctx.year, ctx.month);
      if droit.Failure? || anciennete.Failure? || hours.Failure? then None
      else
        Some(TsPayslipOf(matricule, employee, hours.value, ctx.jours,
                         ManualOf(ctx.salaires, matricule, ctx.year, ctx.month),
                         droit.value, anciennete.value))
  }

  /** Each employee's payslip, or none when the employee is skipped. */
  function Slips(employees: seq<Record>, ctx: PayContext): (opts: seq<Option<Payslip>>)
    requires ValidContext(ctx)
    ensures |opts| == |employees|
  {
    seq(|employees|, i requires 0 <= i < |employees| => TsPayslip(employees[i], ctx))
  }

  /** The results that are present, in order. */
  function Present<T>(opts: seq<Option<T>>): (out: seq<T>)
    ensures |out| <= |opts|
  {
    if opts == [] then []
    else
      var k := |opts| - 1;
      Present(opts[..k]) + (if opts[k].Some? then [opts[k].value] else [])
  }

  /** The payslips of a list of employees, in list order, skipped employees left out. */
  function Payslips(employees: seq<Record>, ctx: PayContext): (out: seq<Payslip>)
    requires ValidContext(ctx)
    ensures |out| <= |employees|
  {
    Present(Slips(employees, ctx))
  }

  lemma PresentStep<T>(opts: seq<Option<T>>, i: nat)
    requires i < |opts|
    ensures Present(opts[..i + 1]) == Present(opts[..i]) + (if opts[i].Some? then [opts[i].value] else [])
  {
    assert opts[..i + 1][..i] == opts[..i];
  }

  /** What the loop has collected grows by the next result when it is present. */
  lemma PresentGrows<T>(opts: seq<Option<T>>, i: nat, acc: seq<T>, next: Option<T>)
    requires i < |opts| && acc == Present(opts[..i]) && opts[i] == next
    ensures (if next.Some? then acc + [next.value] else acc) == Present(opts[..i + 1])
  {
    PresentStep(opts, i);
  }

  /** The positions of the results that are present, in increasing order. */
  function Kept<T>(opts: seq<Option<T>>): (idx: seq<nat>)
    ensures forall k :: 0 <= k < |idx| ==> idx[k] < |opts|
  {
    if opts == [] then []
    else
      var k := |opts| - 1;
      Kept(opts[..k]) + (if opts[k].Some? then [k] else [])
  }

  /** One present result per kept position. */
  lemma {:induction false} KeptLength<T>(opts: seq<Option<T>>)
    ensures |Present(opts)| == |Kept(opts)|
  {
    if opts != [] {
      KeptLength(opts[..|opts| - 1]);
    }
  }

  /** The `k`-th present result is the one at the `k`-th kept position. */
  lemma {:induction false} KeptPresent<T>(opts: seq<Option<T>>)
    ensures var out, idx := Present(opts), Kept(opts);
      |out| == |idx| && forall k :: 0 <= k < |idx| ==> opts[idx[k]] == Some(out[k])
  {
    KeptLength(opts);
    if opts != [] {
      var n := |opts| - 1;
      var prefix := opts[..n];
      KeptPresent(prefix);
      var out, idx := Present(opts), Kept(opts);
      var out0, idx0 := Present(prefix), Kept(prefix);
      assert out[..|out0|] == out0 && idx[..|idx0|] == idx0;
      forall k | 0 <= k < |idx|
        ensures opts[idx[k]] == Some(out[k])
      {
        if k < |idx0| {
          assert idx[k] == idx0[k] && out[k] == out0[k];
          assert opts[idx0[k]] == prefix[idx0[k]];
        }
      }
    }
  }

  /** The `k`-th payslip is the one of the `k`-th kept employee. */
  lemma KeptPayslips(employees: seq<Record>, ctx: PayContext)
    requires ValidContext(ctx)
    ensures var out, idx := Payslips(employees, ctx), Kept(Slips(employees, ctx));
      |out| == |idx| &&
      forall k :: 0 <= k < |idx| ==> TsPayslip(employees[idx[k]], ctx) == Some(out[k])
  {
    KeptPresent(Slips(employees, ctx));
  }

  /** The kept positions increase. */
  lemma {:induction false} KeptIncreasing<T>(opts: seq<Option<T>>)
    ensures forall k, l :: 0 <= k < l < |Kept(opts)| ==> Kept(opts)[k] < Kept(opts)[l]
  {
    if opts != [] {
      var n := |opts| - 1;
      KeptIncreasing(opts[..n]);
      var idx0 := Kept(opts[..n]);
      var paid := opts[n].Some?;
      var idx := Kept(opts);
      assert idx == idx0 + (if paid then [n] else []);
      forall k, l | 0 <= k < l < |idx| ensures idx[k] < idx[l] {
        if l < |idx0| {
          assert idx[k] == idx0[k] && idx[l] == idx0[l];
          assert idx0[k] < idx0[l];
        } else {
          assert l == |idx0| && paid && idx[l] == n;
          assert idx[k] == idx0[k] < |opts[..n]|;
        }
      }
    }
  }

  /** A position is kept exactly when its result is present. */
  lemma {:induction false} KeptWhenPresent<T>(opts: seq<Option<T>>)
    ensures forall j :: 0 <= j < |opts| ==> (j in Kept(opts) <==> opts[j].Some?)
  {
    if opts != [] {
      var n := |opts| - 1;
      var prefix := opts[..n];
      KeptWhenPresent(prefix);
      var idx0 := Kept(prefix);
      assert Kept(opts) == idx0 + (if opts[n].Some? then [n] else []);
      assert n !in idx0;
      forall j | 0 <= j < |opts|
        ensures j in Kept(opts) <==> opts[j].Some?
      {
        if j < n {
          assert opts[j] == prefix[j];
        }
      }
    }
  }

  /** An employee is kept exactly when their computation gives a payslip. */
  lemma KeptExactly(employees: seq<Record>, ctx: PayContext)
    requires ValidContext(ctx)
    ensures forall j :: 0 <= j < |employees| ==>
      (j in Kept(Slips(employees, ctx)) <==> TsPayslip(employees[j], ctx).Some?)
  {
    KeptWhenPresent(Slips(employees, ctx));
  }

  /** `calculateSalaires`: one payslip per employee with a matricule whose computation does not
      throw, in the registry's order. */
  method CalculateSalaires(year: int, month: int, joursTheoriques: Option<int>,
                           employees: seq<Record>, presences: Record,
                           salaireData: map<string, Record>, now: Clock)
    returns (salairesCalcules: seq<Payslip>)
    requires ValidClock(now)
    ensures var jours := JoursTravail(year, month, joursTheoriques);
      salairesCalcules == Payslips(employees, PayContext(year, month, jours, presences, salaireData, now))
  {
    var joursTravail: int;
    if joursTheoriques.None? || joursTheoriques.value <= 0 {
      joursTravail := CalculerJoursOuvrables(year, month);
    } else {
      joursTravail := joursTheoriques.value;
    }
    ghost var ctx := PayContext(year, month, joursTravail, presences, salaireData, now);
    ghost var opts := Slips(employees, ctx);
    salairesCalcules := [];
    var i := 0;
    while i < |employees|
      invariant 0 <= i <= |employees|
      invariant salairesCalcules == Present(opts[..i])
    {
      var slip := EmployeePayslip(employees[i], year, month, joursTravail, presences, salaireData, now);
      PresentGrows(opts, i, salairesCalcules, slip);
      if slip.Some? {
        salairesCalcules := salairesCalcules + [slip.value];
      }
      i := i + 1;
    }
    assert opts[..|employees|] == opts;
  }

  /** The body of the loop for one employee: skipped without a matricule, or when the hire date
      or the attendance throws. */
  method EmployeePayslip(employee: Record, year: int, month: int, joursTravail: int, presences: Record,
                         salaireData: map<string, Record>, now: Clock)
    returns (slip: Option<Payslip>)
    requires joursTravail >= 1 && ValidClock(now)
    ensures slip == TsPayslip(employee, PayContext(year, month, joursTravail, presences, salaireData, now))
  {
    var mat := MatriculeOf(employee);
    if mat.None? {
      return None;
    }
    var matricule := mat.value;
    var hire := Get(employee, "Date d'embauche");
    var droitTR := TsEntitlement(hire, now);
    var ancienneteAns := TsSeniorityYears(hire, now);
    if droitTR.Failure? || ancienneteAns.Failure? {
      return None;
    }
    var heures := CalculHeuresPresence(matricule, year, month, presences);
    if heures.Failure? {
      return None;
    }
    var manual := ManualOf(salaireData, matricule, year, month);
    slip := Some(TsPayslipOf(matricule, employee, heures.value, joursTravail, manual,
                             droitTR.value, ancienneteAns.value));
  }

  /** The base salary is paid in full whatever the presence hours: two months with the same
      absence hours give the same salary for the time worked. */
  lemma TsPayIgnoresPresence(salBase: real, h1: Hours, h2: Hours, jours: int)
    requires jours >= 1 && h1.absence == h2.absence
    ensures MontantTravaille(salBase, h1.absence, jours) == MontantTravaille(salBase, h2.absence, jours)
  {
  }

  /** The net amount is the gross amount less the advance, the two contributions, the social
      deduction and the tax. */
  lemma TsNetPay(matricule: string, employee: Record, h: Hours, jours: int, manual: Record,
                 droit: int, ancienneteAns: int)
    requires jours >= 1 && (droit == 0 || droit == 1)
    ensures var r := TsPayslipOf(matricule, employee, h, jours, manual, droit, ancienneteAns);
      r.reste + r.avance + r.ostie + r.cnaps + r.social + r.igr == r.brut
  {
  }

  /** Meal and transport allowances pay each worked day (`p`, `n` or `m`) 2500 and 1200 when
      the employee is entitled. */
  lemma TsAllowancesPerDay(codes: seq<Code>, matricule: string, employee: Record, jours: int,
                           manual: Record, ancienneteAns: int)
    requires jours >= 1
    ensures var r := TsPayslipOf(matricule, employee, Tally(codes), jours, manual, 1, ancienneteAns);
      var days := Count(codes, P) + Count(codes, N) + Count(codes, M);
      r.indemRepas == 2500.0 * days as real && r.indemTransport == 1200.0 * days as real
  {
    TallyCounts(codes);
    RoundWholeDays(Count(codes, P) + Count(codes, N) + Count(codes, M));
  }

  // ---------------------------------------------------------------- the desktop application

  /** The figures `populate_rows` computes for one employee (before display rounding). */
  datatype DeskRow = DeskRow(
    joursCorriges: int, tauxH: real, montantTrav: real, majNuit: real, majFerie: real,
    indemConge: real, indemForm: real, indemRepas: real, indemTransport: real, primes: real,
    brut: real, ostie: real, cnaps: real, social: real, avance: real, igr: real, reste: real)

  /** `parse_float(manual.get(key, d))`. */
  function DeskManual(manual: Record, key: string, d: real): real
  {
    PyParseFloat(if key in manual then Some(manual[key]) else Some(Num(d)), 0.0)
  }

  /** Days paid in the month once the absent days are taken off, never negative. */
  function JoursCorriges(joursTheoriques: int, absenceHours: int): (r: int)
    ensures r >= 0 && r >= joursTheoriques - absenceHours / 8
  {
    Max(0, joursTheoriques - absenceHours / 8)
  }

  /** The desktop hourly rate: the base over the corrected hours, 0 when no day is left. */
  function DeskRate(salBase: real, joursCorriges: int): (r: real)
    ensures joursCorriges > 0 ==> r * (8 * joursCorriges) as real == salBase
    ensures joursCorriges <= 0 ==> r == 0.0
  {
    if joursCorriges > 0 then salBase / (8 * joursCorriges) as real else 0.0
  }

  /** A figure multiplied by the 0/1 entitlement flag is the figure or nothing. */
  lemma TimesFlag(x: real, droit: int)
    requires droit == 0 || droit == 1
    ensures x * droit as real == if droit == 1 then x else 0.0
  {
  }

  /** The contributions, the tax and the net amount of a gross amount. */
  function DeskDeductions(matricule: string, brut: real, social: real, avance: real, droit: int,
                         ancienneteAns: int): (r: (real, real, real, real))
    requires droit == 0 || droit == 1
    ensures var (ostie, cnaps, igr, reste) := r;
      (droit == 0 ==> ostie == 0.0 && cnaps == 0.0 && igr == 0.0)
      && (matricule == "" ==> igr == 0.0)
      && (matricule != "" && droit == 1 ==> igr == Irsa(brut))
      && reste + avance + ostie + cnaps + social + igr == brut
  {
    var ostie := if ancienneteAns >= 1 && droit != 0 then brut * 0.01 else 0.0;
    var cnaps := if ancienneteAns >= 1 && droit != 0 then brut * 0.01 else 0.0;
    var igr := if matricule == "" then 0.0 else Irsa(brut) * droit as real;
    TimesFlag(Irsa(brut), droit);
    (ostie, cnaps, igr, brut - (avance + ostie + cnaps + social + igr))
  }

  /** The arithmetic of `populate_rows` for one employee. */
  function DeskRowOf(matricule: string, salBase: real, h: DeskHours, joursTheoriques: int,
                     manual: Record, droit: int, ancienneteAns: int): (r: DeskRow)
    requires droit == 0 || droit == 1
    ensures r.indemForm == 10000.0 * h.formation as real
    ensures r.reste + r.avance + r.ostie + r.cnaps + r.social + r.igr == r.brut
  {
    var absences := h.absence / 8;
    var joursCorriges := JoursCorriges(joursTheoriques, h.absence);
    var tauxH := DeskRate(salBase, joursCorriges);
    var montantTrav := h.presence as real * tauxH;
    var majNuit := h.nuit as real * tauxH * 0.30;
    var majFerie := h.ferie as real * tauxH * 1.00;
    var indemConge := h.conge as real * tauxH;
    var indemForm := h.formation as real * 10000.0;
    var joursPresenceArr := PyRound(h.presence as real / 8.0);
    var indemRepas := joursPresenceArr as real * 2500.0 * droit as real;
    var indemTransport := joursPresenceArr as real * 1200.0 * droit as real;
    var primes := DeskManual(manual, "Prime de production", 0.0)
      + DeskManual(manual, "Prime d\U{2019}assiduité", 0.0)
      + DeskManual(manual, "Prime d\U{2019}ancienneté", 0.0)
      + DeskManual(manual, "Prime élite", 0.0)
      + DeskManual(manual, "Prime de responsabilité", 0.0);
    var social := DeskManual(manual, "Social", 15000.0);
    var avance := DeskManual(manual, "Avance sur salaire", 0.0);
    var brut := montantTrav + majNuit + majFerie + indemConge + indemForm + primes + indemRepas
      + indemTransport;
    var (ostie, cnaps, igr, reste) := DeskDeductions(matricule, brut, social, avance, droit, ancienneteAns);
    DeskRow(joursCorriges, tauxH, montantTrav, majNuit, majFerie, indemConge, indemForm,
            indemRepas, indemTransport, primes, brut, ostie, cnaps, social, avance, igr, reste)
  }

  /** Without the entitlement there are no meal or transport allowances, no contributions and
      no tax; without a matricule there is no tax; otherwise the tax is the scale's. */
  lemma DeskRowTaxes(matricule: string, salBase: real, h: DeskHours, jt: int, manual: Record,
                     droit: int, anc: int)
    requires droit == 0 || droit == 1
    ensures var r := DeskRowOf(matricule, salBase, h, jt, manual, droit, anc);
      (droit == 0 ==> r.indemRepas == 0.0 && r.indemTransport == 0.0 && r.ostie == 0.0
                      && r.cnaps == 0.0 && r.igr == 0.0)
      && (matricule == "" ==> r.igr == 0.0)
      && (matricule != "" && droit == 1 ==> r.igr == Irsa(r.brut))
  {
    var r := DeskRowOf(matricule, salBase, h, jt, manual, droit, anc);
    var arr := PyRound(h.presence as real / 8.0) as real;
    TimesFlag(arr * 2500.0, droit);
    TimesFlag(arr * 1200.0, droit);
  }

  /** The desktop application pays presence: no presence hours, no salary for the time
      worked, whatever the base. */
  lemma DeskPayFollowsPresence(matricule: string, salBase: real, h: DeskHours, jt: int,
                               manual: Record, droit: int, anc: int)
    requires droit == 0 || droit == 1
    ensures DeskRowOf(matricule, salBase, h, jt, manual, droit, anc).montantTrav
      == h.presence as real * DeskRate(salBase, JoursCorriges(jt, h.absence))
    ensures h.presence == 0 ==> DeskRowOf(matricule, salBase, h, jt, manual, droit, anc).montantTrav == 0.0
  {
  }

  /** The two salary rules agree on a month without absences whose presence hours are exactly
      the theoretical ones; otherwise the service still pays the full base. */
  lemma FullMonthAgrees(salBase: real, h: DeskHours, jours: int)
    requires jours >= 1 && h.absence == 0 && h.presence == 8 * jours && salBase >= 0.0
    ensures h.presence as real * DeskRate(salBase, JoursCorriges(jours, h.absence))
      == MontantTravaille(salBase, h.absence, jours)
  {
    assert JoursCorriges(jours, h.absence) == jours;
  }

  /** A day of training: the service pays 10000 per day, the desktop application 10000 per
      hour, eight times as much for the same attendance. */
  lemma TrainingPaidPerHour(codes: seq<Code>, matricule: string, employee: Record, jours: int,
                            manual: Record, droit: int, anc: int, salBase: real, jt: int)
    requires jours >= 1 && (droit == 0 || droit == 1)
    ensures DeskRowOf(matricule, salBase, DeskTally(codes), jt, manual, droit, anc).indemForm
      == 8.0 * TsPayslipOf(matricule, employee, Tally(codes), jours, manual, droit, anc).indemFormation
  {
    DeskAgreesWithService(codes);
    PresenceIsReal(codes);
  }

  /** A social deduction stored as 0 is kept by the desktop application and replaced by 15000
      by the service. */
  lemma SocialZeroDiffers(manual: Record)
    requires Get(manual, "Social") == Some(Num(0.0))
    ensures SocialOf(manual) == 15000.0 && DeskManual(manual, "Social", 15000.0) == 0.0
  {
  }
}
