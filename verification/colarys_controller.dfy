/** The payroll controller's own rules: the checks it makes on the year, month and day count of a
    request before calling the service, the export's selection and totals, the statistics it
    counts, the OFF-day synchronisation and the French month names. The HTTP layer is left out:
    a reply is a value saying which answer is sent and with what data. */
module ColarysController {
  import opened Basics
  import opened Text
  import opened Json
  import opened NumberParsing
  import opened HireDates
  import opened WorkingDays
  import opened Payroll
  import opened ColarysService

  /** Why a request is refused: the first three and `InvalidPeriod` are answered 400,
      `NoPayslip` 404. */
  datatype Refusal = InvalidYear | InvalidMonth | InvalidDays | InvalidPeriod | NoPayslip

  // ---------------------------------------------------------------- request parameters

  /** `parseInt(x)` of a JSON body field, `None` for NaN: a missing field or null reads as the
      text "undefined" or "null", a number as its own text. */
  function BodyInt(v: Option<Value>): (r: Option<int>)
    ensures v.Some? && v.value.Num? ==> r == Some(Trunc(v.value.n))
    ensures v.None? || v.value.Null? ==> r.None?
  {
    match v
    case None => None
    case Some(Null) => None
    case Some(Str(s)) => JsParseInt(s)
    case Some(Num(n)) => Some(Trunc(n))
    case Some(NumText(x)) => Some(Trunc(x))
  }

  predicate YearOk(y: Option<int>) { y.Some? && 2000 <= y.value <= 2100 }

  predicate MonthOk(m: Option<int>) { m.Some? && 1 <= m.value <= 12 }

  /** The check `calculateSalaires`, `updateSalaire` and `exportFichesPaie` make on the parsed
      year and month: the year first (a number in 2000..2100), then the month (1..12). */
  function CheckPeriod(year: Option<int>, month: Option<int>): (r: Result<(int, int), Refusal>)
    ensures r.Success? <==> YearOk(year) && MonthOk(month)
    ensures r == Failure(InvalidYear) <==> !YearOk(year)
    ensures r == Failure(InvalidMonth) <==> YearOk(year) && !MonthOk(month)
    ensures r.Success? ==> r.value == (year.value, month.value)
  {
    if !YearOk(year) then Failure(InvalidYear)
    else if !MonthOk(month) then Failure(InvalidMonth)
    else Success((year.value, month.value))
  }

  /** A period written out in decimal, in a route or as a JSON number, passes the check
      unchanged. */
  lemma PeriodRoundTrip(y: int, m: int)
    requires 2000 <= y <= 2100 && 1 <= m <= 12
    ensures CheckPeriod(JsParseInt(IntToString(y)), JsParseInt(IntToString(m))) == Success((y, m))
    ensures CheckPeriod(BodyInt(Some(Num(y as real))), BodyInt(Some(Num(m as real)))) == Success((y, m))
  {
    JsParseIntOfIntToString(y);
    JsParseIntOfIntToString(m);
  }

  /** `joursTheoriques` from the query string: absent or empty means the month's working days;
      anything else must read as a whole number of days 1..31. */
  function CheckDays(q: Option<string>): (r: Result<Option<int>, Refusal>)
    ensures (q.None? || q.value == "") ==> r == Success(None)
    ensures q.Some? && q.value != "" ==>
      (r.Success? <==> JsParseInt(q.value).Some? && 1 <= JsParseInt(q.value).value <= 31)
    ensures r.Success? && r.value.Some? ==> q.Some? && r.value == JsParseInt(q.value)
    ensures r.Failure? ==> r.error == InvalidDays
  {
    if q.None? || q.value == "" then Success(None)
    else
      var n := JsParseInt(q.value);
      if n.None? || n.value <= 0 || n.value > 31 then Failure(InvalidDays) else Success(n)
  }

  /** A day count the check accepts is the one the service pays on; without one the service
      counts the month's working days. */
  lemma RequestedDaysUsed(q: Option<string>, year: int, month: int)
    requires CheckDays(q).Success?
    ensures var d := CheckDays(q).value;
      d.Some? ==> JoursTravail(year, month, d) == d.value && 1 <= d.value <= 31
    ensures var d := CheckDays(q).value;
      d.None? ==> 20 <= JoursTravail(year, month, d) <= 23
  {
  }

  /** A day count written out in decimal is accepted as it is. */
  lemma DaysRoundTrip(n: int)
    requires 1 <= n <= 31
    ensures CheckDays(Some(IntToString(n))) == Success(Some(n))
  {
    JsParseIntOfIntToString(n);
    assert IntToString(n) != "" by {
      NatToStringDigits(n);
    }
  }

  // ---------------------------------------------------------------- month names

  /** `getMonthName`: the French name of months 1..12, `Inconnu` for any other number. */
  function MonthName(month: int): (r: string)
    ensures (1 <= month <= 12) == (r != "Inconnu")
    ensures r != ""
  {
    if month == 1 then "Janvier" else if month == 2 then "Février" else if month == 3 then "Mars"
    else if month == 4 then "Avril" else if month == 5 then "Mai" else if month == 6 then "Juin"
    else if month == 7 then "Juillet" else if month == 8 then "Août"
    else if month == 9 then "Septembre" else if month == 10 then "Octobre"
    else if month == 11 then "Novembre" else if month == 12 then "Décembre"
    else "Inconnu"
  }

  /** Different months of the year have different names. */
  lemma MonthNameInjective(a: int, b: int)
    requires 1 <= a <= 12 && 1 <= b <= 12 && a != b
    ensures MonthName(a) != MonthName(b)
  {
    var first := MonthName(a)[0];
    var second := MonthName(b)[0];
    if first == second {
      if first == 'J' {
        assert a == 1 || a == 6 || a == 7;
        assert MonthName(a)[1..] != MonthName(b)[1..];
      } else if first == 'M' {
        assert a == 3 || a == 5;
        assert |MonthName(a)| != |MonthName(b)|;
      } else if first == 'A' {
        assert a == 4 || a == 8;
        assert |MonthName(a)| != |MonthName(b)|;
      }
    }
  }

  // ---------------------------------------------------------------- sums over payslips

  /** A payslip's gross pay, `'Salaire brut'` before rounding. */
  function Gross(s: Payslip): real { s.brut }

  /** A payslip's net pay, `'Reste à payer'` before rounding. */
  function Net(s: Payslip): real { s.reste }

  /** The `reduce` of the totals: the sum of `Math.round` of one amount of each payslip. */
  function Total(slips: seq<Payslip>, amount: Payslip -> real): int
  {
    if slips == [] then 0 else Total(slips[..|slips| - 1], amount) + JsRound(amount(slips[|slips| - 1]))
  }

  // ---------------------------------------------------------------- export selection

  /** The payslips whose matricule is one of `matricules`, in their order. */
  function Select(slips: seq<Payslip>, matricules: seq<string>): (r: seq<Payslip>)
    ensures |r| <= |slips|
    ensures forall i :: 0 <= i < |r| ==> r[i].matricule in matricules
  {
    if slips == [] then []
    else
      var k := |slips| - 1;
      Select(slips[..k], matricules) + (if slips[k].matricule in matricules then [slips[k]] else [])
  }

  /** Each payslip of a listed matricule is kept as often as it occurs, every other one is
      dropped. */
  lemma {:induction false} SelectCounts(slips: seq<Payslip>, matricules: seq<string>)
    ensures forall x :: (multiset(Select(slips, matricules))[x]
                         == if x.matricule in matricules then multiset(slips)[x] else 0)
  {
    if slips != [] {
      var k := |slips| - 1;
      assert slips == slips[..k] + [slips[k]];
      SelectCounts(slips[..k], matricules);
    }
  }

  /** The payslips the selection leaves out. */
  function Reject(slips: seq<Payslip>, matricules: seq<string>): (r: seq<Payslip>)
    ensures forall i :: 0 <= i < |r| ==> r[i].matricule !in matricules
  {
    if slips == [] then []
    else
      var k := |slips| - 1;
      Reject(slips[..k], matricules) + (if slips[k].matricule in matricules then [] else [slips[k]])
  }

  /** One more payslip adds its rounded amount to a total. */
  lemma TotalSnoc(slips: seq<Payslip>, x: Payslip, amount: Payslip -> real)
    ensures Total(slips + [x], amount) == Total(slips, amount) + JsRound(amount(x))
  {
    assert (slips + [x])[..|slips|] == slips;
  }

  /** Selecting from a list with one more payslip at its end. */
  lemma SelectSnoc(init: seq<Payslip>, last: Payslip, matricules: seq<string>)
    ensures Select(init + [last], matricules)
      == Select(init, matricules) + (if last.matricule in matricules then [last] else [])
    ensures Reject(init + [last], matricules)
      == Reject(init, matricules) + (if last.matricule in matricules then [] else [last])
  {
    assert (init + [last])[..|init|] == init;
  }

  /** The totals of the selected and of the left-out payslips add up to the totals of them all. */
  lemma {:induction false} SelectSplitsTotals(slips: seq<Payslip>, matricules: seq<string>,
                                              amount: Payslip -> real)
    ensures Total(Select(slips, matricules), amount) + Total(Reject(slips, matricules), amount)
      == Total(slips, amount)
  {
    if slips != [] {
      var k := |slips| - 1;
      var init, last := slips[..k], slips[k];
      assert slips == init + [last];
      SelectSplitsTotals(init, matricules, amount);
      SelectSnoc(init, last, matricules);
      TotalSnoc(init, last, amount);
      var sel, rej := Select(init, matricules), Reject(init, matricules);
      var j := JsRound(amount(last));
      if last.matricule in matricules {
        TotalSnoc(sel, last, amount);
        assert Select(slips, matricules) == sel + [last];
        assert Reject(slips, matricules) == rej;
        assert Total(sel + [last], amount) == Total(sel, amount) + j;
      } else {
        TotalSnoc(rej, last, amount);
        assert Select(slips, matricules) == sel;
        assert Reject(slips, matricules) == rej + [last];
        assert Total(rej + [last], amount) == Total(rej, amount) + j;
      }
    }
  }

  /** The payslips an export covers: those of the listed matricules when the request carries a
      non-empty list, every payslip otherwise. */
  function Selected(slips: seq<Payslip>, matricules: Option<seq<string>>): (r: seq<Payslip>)
    ensures |r| <= |slips|
    ensures matricules.None? || matricules.value == [] ==> r == slips
  {
    if matricules.Some? && |matricules.value| > 0 then Select(slips, matricules.value) else slips
  }

  // ---------------------------------------------------------------- replies

  datatype SalaryReply =
    | SalaryRefused(reason: Refusal)
    | SalaryComputed(slips: seq<Payslip>, libelleMois: string, joursUtilises: Option<int>,
                     calculAutoJours: bool, totalBrut: int, totalNet: int)

  datatype ExportReply =
    | ExportRefused(reason: Refusal)
    | Exported(periode: string, fiches: seq<Payslip>, totalBrut: int, totalNet: int)

  /** The payslips of a month as the service computes them on the store's current data. */
  function MonthSlips(store: ColarysStore, year: int, month: int, days: Option<int>, now: Clock)
    : seq<Payslip>
    requires ValidClock(now)
    reads store
  {
    Payslips(store.employees, PayContext(year, month, JoursTravail(year, month, days),
                                         store.presences, store.salaires, now))
  }

  /** `calculateSalaires`: the route's year and month and the optional day count are checked,
      then the service computes the payslips; the reply adds the month's name, the day count the
      first payslip used and the rounded gross and net totals. */
  method CalculateSalaires(store: ColarysStore, year: string, month: string, joursTheoriques: Option<string>,
                           now: Clock) returns (reply: SalaryReply)
    requires ValidClock(now)
    ensures var period := CheckPeriod(JsParseInt(year), JsParseInt(month));
      reply.SalaryRefused? <==> period.Failure? || CheckDays(joursTheoriques).Failure?
    ensures var period := CheckPeriod(JsParseInt(year), JsParseInt(month));
      period.Failure? ==> reply == SalaryRefused(period.error)
    ensures reply.SalaryComputed? ==>
      var (y, m) := CheckPeriod(JsParseInt(year), JsParseInt(month)).value;
      var days := CheckDays(joursTheoriques).value;
      reply.slips == MonthSlips(store, y, m, days, now)
      && reply.libelleMois == MonthName(m) && reply.libelleMois != "Inconnu"
      && reply.calculAutoJours == days.None?
      && (reply.slips != [] ==> reply.joursUtilises == Some(JoursTravail(y, m, days)))
      && (reply.slips == [] ==> reply.joursUtilises.None?)
      && reply.totalBrut == Total(reply.slips, Gross) && reply.totalNet == Total(reply.slips, Net)
  {
    var period := CheckPeriod(JsParseInt(year), JsParseInt(month));
    if period.Failure? {
      return SalaryRefused(period.error);
    }
    var days := CheckDays(joursTheoriques);
    if days.Failure? {
      return SalaryRefused(days.error);
    }
    var (y, m) := period.value;
    var slips := Payroll.CalculateSalaires(y, m, days.value, store.employees, store.presences,
                                           store.salaires, now);
    var joursUtilises: Option<int> := None;
    if slips != [] {
      FirstSlipDays(store.employees, PayContext(y, m, JoursTravail(y, m, days.value),
                                                store.presences, store.salaires, now));
      joursUtilises := Some(slips[0].joursTheoriques);
    }
    reply := SalaryComputed(slips, MonthName(m), joursUtilises, days.value.None?,
                            Total(slips, Gross), Total(slips, Net));
  }

  /** Every payslip of a run carries the run's day count. */
  lemma FirstSlipDays(employees: seq<Record>, ctx: PayContext)
    requires ValidContext(ctx)
    ensures forall i :: 0 <= i < |Payslips(employees, ctx)| ==> Payslips(employees, ctx)[i].joursTheoriques == ctx.jours
  {
    KeptPayslips(employees, ctx);
    var out, idx := Payslips(employees, ctx), Kept(Slips(employees, ctx));
    forall i | 0 <= i < |out|
      ensures out[i].joursTheoriques == ctx.jours
    {
      SlipDays(employees[idx[i]], ctx);
    }
  }

  lemma SlipDays(employee: Record, ctx: PayContext)
    requires ValidContext(ctx) && TsPayslip(employee, ctx).Some?
    ensures TsPayslip(employee, ctx).value.joursTheoriques == ctx.jours
  {
  }

  /** `exportFichesPaie`: the body's year and month are checked, the month's payslips are
      computed with the month's working days, narrowed to the requested matricules, and an empty
      selection is answered 404; the reply carries the period text and the rounded totals. */
  method ExportFichesPaie(store: ColarysStore, year: Option<Value>, month: Option<Value>,
                          matricules: Option<seq<string>>, now: Clock) returns (reply: ExportReply)
    requires ValidClock(now)
    ensures var period := CheckPeriod(BodyInt(year), BodyInt(month));
      period.Failure? ==> reply == ExportRefused(period.error)
    ensures var period := CheckPeriod(BodyInt(year), BodyInt(month));
      period.Success? ==>
        var (y, m) := period.value;
        var fiches := Selected(MonthSlips(store, y, m, None, now), matricules);
        (fiches == [] ==> reply == ExportRefused(NoPayslip))
        && (fiches != [] ==> reply == Exported(IntToString(m) + "/" + IntToString(y), fiches,
                                               Total(fiches, Gross), Total(fiches, Net)))
  {
    var period := CheckPeriod(BodyInt(year), BodyInt(month));
    if period.Failure? {
      return ExportRefused(period.error);
    }
    var (y, m) := period.value;
    var slips := Payroll.CalculateSalaires(y, m, None, store.employees, store.presences,
                                           store.salaires, now);
    var fiches := slips;
    if matricules.Some? && |matricules.value| > 0 {
      fiches := Select(slips, matricules.value);
    }
    if fiches == [] {
      return ExportRefused(NoPayslip);
    }
    reply := Exported(IntToString(m) + "/" + IntToString(y), fiches, Total(fiches, Gross),
                      Total(fiches, Net));
  }

  /** An export for a list of matricules holds only their payslips, and the payslips it leaves
      out make up the rest of the month's totals. */
  lemma ExportCoversRequested(slips: seq<Payslip>, matricules: seq<string>)
    requires matricules != []
    ensures forall i :: 0 <= i < |Selected(slips, Some(matricules))| ==>
      Selected(slips, Some(matricules))[i].matricule in matricules
    ensures Total(Selected(slips, Some(matricules)), Gross) + Total(Reject(slips, matricules), Gross)
      == Total(slips, Gross)
    ensures Total(Selected(slips, Some(matricules)), Net) + Total(Reject(slips, matricules), Net)
      == Total(slips, Net)
  {
    SelectSplitsTotals(slips, matricules, Gross);
    SelectSplitsTotals(slips, matricules, Net);
  }

  /** `updateSalaire`: after the same year and month check, the body's fields are merged into
      the employee's manual entries for that month; a refused request changes nothing. */
  method UpdateSalaire(store: ColarysStore, matricule: string, year: string, month: string, body: Record)
    returns (r: Result<(int, int), Refusal>)
    modifies store
    ensures r == CheckPeriod(JsParseInt(year), JsParseInt(month))
    ensures r.Failure? ==> store.salaires == old(store.salaires)
    ensures store.employees == old(store.employees) && store.presences == old(store.presences)
    ensures r.Success? ==>
      var key := SalaryKey(matricule, r.value.0, r.value.1);
      store.salaires == old(store.salaires)[key := (if key in old(store.salaires)
                                                    then old(store.salaires)[key] else map[]) + body]
  {
    r := CheckPeriod(JsParseInt(year), JsParseInt(month));
    if r.Success? {
      store.UpdateSalaire(matricule, r.value.0, r.value.1, body);
    }
  }

  // ---------------------------------------------------------------- statistics

  /** `year && month` of the query: both present and non-empty, each read by `parseInt`; NaN is
      refused. Without both, no period is used. */
  function QueryPeriod(year: Option<string>, month: Option<string>): (r: Result<Option<(int, int)>, Refusal>)
    ensures (year.None? || month.None? || year.value == "" || month.value == "") ==> r == Success(None)
    ensures r.Failure? <==> (year.Some? && month.Some? && year.value != "" && month.value != ""
      && (JsParseInt(year.value).None? || JsParseInt(month.value).None?))
    ensures r.Success? && r.value.Some? ==> r.value.value == (JsParseInt(year.value).value, JsParseInt(month.value).value)
  {
    if year.None? || month.None? || year.value == "" || month.value == "" then Success(None)
    else
      var y := JsParseInt(year.value);
      var m := JsParseInt(month.value);
      if y.None? || m.None? then Failure(InvalidPeriod) else Success(Some((y.value, m.value)))
  }

  /** The keys of `keys` whose attendance entry is exactly the text `o`. */
  function OffIn(presences: Record, keys: set<string>): (r: set<string>)
    ensures r <= keys
    ensures forall k :: k in r <==> k in keys && k in presences && presences[k] == Str("o")
  {
    set k | k in keys && k in presences && presences[k] == Str("o")
  }

  /** The `for (const key in presences)` loop: the number of entries that are exactly `o`,
      over the whole map. */
  method CountJoursOff(presences: Record) returns (n: nat)
    ensures n == |OffIn(presences, presences.Keys)|
  {
    n := 0;
    var todo := presences.Keys;
    while todo != {}
      invariant todo <= presences.Keys
      invariant n == |OffIn(presences, presences.Keys - todo)|
      decreases |todo|
    {
      var key := Pick(todo);
      var done := presences.Keys - todo;
      assert presences.Keys - (todo - {key}) == done + {key};
      if presences[key] == Str("o") {
        assert OffIn(presences, done + {key}) == OffIn(presences, done) + {key};
        n := n + 1;
      } else {
        assert OffIn(presences, done + {key}) == OffIn(presences, done);
      }
      todo := todo - {key};
    }
    assert presences.Keys - todo == presences.Keys;
  }

  /** The count takes in every month's entries, not only those of the month asked about: an OFF
      day of January 2020 is counted in the statistics of any month. */
  lemma OffDaysOfEveryMonthCounted()
    ensures |OffIn(map["E1_2020_1_5" := Str("o")], {"E1_2020_1_5"})| == 1
  {
    assert OffIn(map["E1_2020_1_5" := Str("o")], {"E1_2020_1_5"}) == {"E1_2020_1_5"};
  }

  /** An employee's leave balance as the statistics read it. */
  function Balance(e: Record): real { TsParseFloat(Get(e, "Solde de congé"), 0.0) }

  /** `employesActifs`: the employees with a positive balance. */
  function CountActive(employees: seq<Record>): (n: nat)
    ensures n <= |employees|
  {
    if employees == [] then 0
    else CountActive(employees[..|employees| - 1]) + (if Balance(employees[|employees| - 1]) > 0.0 then 1 else 0)
  }

  /** The balances of the employees, in order. */
  function Balances(employees: seq<Record>): (r: seq<real>)
    ensures |r| == |employees|
    ensures forall i :: 0 <= i < |r| ==> r[i] == Balance(employees[i])
  {
    seq(|employees|, i requires 0 <= i < |employees| => Balance(employees[i]))
  }

  function SumReals(xs: seq<real>): real
  {
    if xs == [] then 0.0 else SumReals(xs[..|xs| - 1]) + xs[|xs| - 1]
  }

  /** The sum of the balances the controller's `reduce` computes. */
  function SumBalances(employees: seq<Record>): real
  {
    SumReals(Balances(employees))
  }

  /** `congesMoyens`: the mean balance, 0 without employees. */
  function MeanBalance(employees: seq<Record>): real
  {
    if |employees| > 0 then SumBalances(employees) / |employees| as real else 0.0
  }

  lemma ScaleStep(c: real, k: nat)
    ensures c * (k + 1) as real == c * k as real + c
  {
  }

  /** Balances all within [lo, hi] sum to between `lo` and `hi` times their number. */
  lemma SumBalancesBounds(employees: seq<Record>, lo: real, hi: real)
    requires forall i :: 0 <= i < |employees| ==> lo <= Balance(employees[i]) <= hi
    ensures lo * |employees| as real <= SumBalances(employees) <= hi * |employees| as real
  {
    SumRealsBounds(Balances(employees), lo, hi);
  }

  /** Numbers all within [lo, hi] sum to between `lo` and `hi` times their number. */
  lemma {:induction false} SumRealsBounds(xs: seq<real>, lo: real, hi: real)
    requires forall i :: 0 <= i < |xs| ==> lo <= xs[i] <= hi
    ensures lo * |xs| as real <= SumReals(xs) <= hi * |xs| as real
  {
    if xs != [] {
      var k := |xs| - 1;
      assert forall i :: 0 <= i < k ==> xs[..k][i] == xs[i];
      SumRealsBounds(xs[..k], lo, hi);
      ScaleStep(lo, k);
      ScaleStep(hi, k);
    }
  }

  /** The mean balance lies between the smallest and largest balance. */
  lemma MeanBalanceWithin(employees: seq<Record>, lo: real, hi: real)
    requires employees != []
    requires forall i :: 0 <= i < |employees| ==> lo <= Balance(employees[i]) <= hi
    ensures lo <= MeanBalance(employees) <= hi
  {
    SumBalancesBounds(employees, lo, hi);
    MeanWithin(SumBalances(employees), |employees| as real, lo, hi);
  }

  lemma MeanWithin(sum: real, n: real, lo: real, hi: real)
    requires n > 0.0 && lo * n <= sum <= hi * n
    ensures lo <= sum / n <= hi
  {
    assert sum / n * n == sum;
  }

  /** With no employee active every balance is at most 0, and so is the mean. */
  lemma {:induction false} NoActiveNoPositiveBalance(employees: seq<Record>)
    requires CountActive(employees) == 0
    ensures forall i :: 0 <= i < |employees| ==> Balance(employees[i]) <= 0.0
  {
    if employees != [] {
      var k := |employees| - 1;
      NoActiveNoPositiveBalance(employees[..k]);
      assert forall i :: 0 <= i < k ==> employees[..k][i] == employees[i];
    }
  }

  /** What `calculerJoursOuvrables` answers for a year and month, rolled over as `new Date`
      does. */
  function CountedWorkdays(year: int, month: int): (r: int)
    ensures 20 <= r <= 23
  {
    var (y, m) := JsMonth(year, month);
    MonthWorkdaysRange(y, m);
    Max(MonthWorkdays(y, m), 1)
  }

  datatype Stats = Stats(totalEmployes: nat, totalPresences: nat, totalJoursOff: nat,
                         employesActifs: nat, congesMoyens: real, joursOuvrables: Option<int>)

  /** `getStatistiques`: a period given by both query fields must parse; the OFF days and the
      working days are filled in only for a period whose year and month are both non-zero. */
  method GetStatistiques(store: ColarysStore, year: Option<string>, month: Option<string>)
    returns (r: Result<Stats, Refusal>)
    ensures r.Failure? <==> QueryPeriod(year, month).Failure?
    ensures r.Success? ==>
      var p := QueryPeriod(year, month).value;
      var counted := p.Some? && p.value.0 != 0 && p.value.1 != 0;
      r.value.totalEmployes == |store.employees|
      && r.value.totalPresences == |store.presences.Keys|
      && r.value.totalJoursOff == (if counted then |OffIn(store.presences, store.presences.Keys)| else 0)
      && r.value.employesActifs == CountActive(store.employees)
      && r.value.congesMoyens == MeanBalance(store.employees)
      && (counted ==> r.value.joursOuvrables == Some(CountedWorkdays(p.value.0, p.value.1)))
      && (!counted ==> r.value.joursOuvrables.None?)
  {
    var p := QueryPeriod(year, month);
    if p.Failure? {
      return Failure(p.error);
    }
    var totalJoursOff := 0;
    var joursOuvrables: Option<int> := None;
    if p.value.Some? && p.value.value.0 != 0 && p.value.value.1 != 0 {
      totalJoursOff := CountJoursOff(store.presences);
      var w := CalculerJoursOuvrables(p.value.value.0, p.value.value.1);
      joursOuvrables := Some(w);
    }
    r := Success(Stats(|store.employees|, |store.presences.Keys|, totalJoursOff,
                       CountActive(store.employees), MeanBalance(store.employees), joursOuvrables));
  }

  // ---------------------------------------------------------------- OFF-day synchronisation

  datatype SyncResult = SyncResult(synchronises: nat, erreurs: nat)

  /** `getJoursOffForEmployee`: the planning lookup is not written yet and answers no dates. */
  function JoursOffFor(matricule: Option<Value>, year: int, month: int): (r: seq<string>)
    ensures r == []
  {
    []
  }

  /** `syncJoursOff`: refuses a year or month that does not parse; otherwise each employee's
      OFF dates would be written as `o` and counted. */
  method SyncJoursOff(employees: seq<Record>, year: Option<Value>, month: Option<Value>)
    returns (r: Result<SyncResult, Refusal>)
    ensures r.Failure? <==> BodyInt(year).None? || BodyInt(month).None?
    ensures r.Failure? ==> r.error == InvalidPeriod
    ensures r.Success? ==> r.value == SyncResult(0, 0)
  {
    var y := BodyInt(year);
    var m := BodyInt(month);
    if y.None? || m.None? {
      return Failure(InvalidPeriod);
    }
    var synchronises: nat := 0;
    var i := 0;
    while i < |employees|
      invariant 0 <= i <= |employees|
      invariant synchronises == 0
    {
      var dates := JoursOffFor(Get(employees[i], "Matricule"), y.value, m.value);
      synchronises := synchronises + |dates|;
      i := i + 1;
    }
    r := Success(SyncResult(synchronises, 0));
  }
}
