/** The statistics of a set of plannings: distinct agents, hours, plannings with and without a
    working day, day and night shifts, and how often each shift occurs. */
module PlanningStatistics {
  import opened Basics
  import PlanningImport

  /** A planning row as the query returns it: the agent's name, `total_heures` (possibly null)
      and the shifts of `days` (possibly null). */
  datatype Row = Row(agentName: string, totalHeures: Option<real>, days: Option<seq<string>>)

  datatype Stats = Stats(totalAgents: nat, totalHours: real, avgHours: real, present: nat, absent: nat,
                         dayShift: nat, nightShift: nat, shiftCounts: map<string, nat>)

  /** A shift that is a day of work: not `OFF`, `CONGE`, `-` or `FORMATION`. */
  predicate Working(shift: string)
  {
    shift != "OFF" && shift != "CONGE" && shift != "-" && shift != "FORMATION"
  }

  /** The day shifts: `JOUR`, `MAT5`, `MAT8` and `MAT9`. */
  predicate DayShift(shift: string)
  {
    shift == "JOUR" || shift == "MAT5" || shift == "MAT8" || shift == "MAT9"
  }

  /** `p.days?.some(...)`: a null list has no working day. */
  predicate HasWorkDay(r: Row)
  {
    r.days.Some? && exists i :: 0 <= i < |r.days.value| && Working(r.days.value[i])
  }

  /** `p.days ?? []`. */
  function DaysOf(r: Row): seq<string>
  {
    if r.days.Some? then r.days.value else []
  }

  /** `p.total_heures || 0`. */
  function HoursOf(r: Row): real
  {
    if r.totalHeures.Some? then r.totalHeures.value else 0.0
  }

  // ---------------------------------------------------------------- specification

  function Names(rows: seq<Row>): set<string>
  {
    if rows == [] then {} else Names(rows[..|rows| - 1]) + {rows[|rows| - 1].agentName}
  }

  function TotalHours(rows: seq<Row>): real
  {
    if rows == [] then 0.0 else TotalHours(rows[..|rows| - 1]) + HoursOf(rows[|rows| - 1])
  }

  function PresentCount(rows: seq<Row>): nat
  {
    if rows == [] then 0
    else PresentCount(rows[..|rows| - 1]) + (if HasWorkDay(rows[|rows| - 1]) then 1 else 0)
  }

  function AbsentCount(rows: seq<Row>): nat
  {
    if rows == [] then 0
    else AbsentCount(rows[..|rows| - 1]) + (if HasWorkDay(rows[|rows| - 1]) then 0 else 1)
  }

  /** Every shift of every row, in order. */
  function AllShifts(rows: seq<Row>): seq<string>
  {
    if rows == [] then [] else AllShifts(rows[..|rows| - 1]) + DaysOf(rows[|rows| - 1])
  }

  function DayShiftCount(shifts: seq<string>): nat
  {
    if shifts == [] then 0
    else DayShiftCount(shifts[..|shifts| - 1]) + (if DayShift(shifts[|shifts| - 1]) then 1 else 0)
  }

  function NightShiftCount(shifts: seq<string>): nat
  {
    if shifts == [] then 0
    else NightShiftCount(shifts[..|shifts| - 1]) + (if shifts[|shifts| - 1] == "NUIT" then 1 else 0)
  }

  /** `shiftCounts`: each shift counted once more at each occurrence. */
  function CountsOf(shifts: seq<string>): map<string, nat>
  {
    if shifts == [] then map[]
    else
      var m := CountsOf(shifts[..|shifts| - 1]);
      var x := shifts[|shifts| - 1];
      m[x := (if x in m then m[x] else 0) + 1]
  }

  /** `shiftCounts` holds exactly the shifts that occur, each with its number of occurrences. */
  lemma {:induction false} CountsAreOccurrences(shifts: seq<string>)
    ensures forall x :: x in CountsOf(shifts) <==> x in shifts
    ensures forall x :: x in CountsOf(shifts) ==> CountsOf(shifts)[x] == multiset(shifts)[x]
  {
    if shifts != [] {
      var before := shifts[..|shifts| - 1];
      CountsAreOccurrences(before);
      assert shifts == before + [shifts[|shifts| - 1]];
    }
  }

  /** `totalHours / totalUniqueAgents`, or 0 without agents. */
  function Average(total: real, agents: nat): (avg: real)
    ensures agents > 0 ==> avg * agents as real == total
    ensures agents == 0 ==> avg == 0.0
  {
    if agents > 0 then total / agents as real else 0.0
  }

  /** The statistics of the rows. */
  function StatsOf(rows: seq<Row>): Stats
  {
    var shifts := AllShifts(rows);
    Stats(|Names(rows)|, TotalHours(rows), Average(TotalHours(rows), |Names(rows)|),
          PresentCount(rows), AbsentCount(rows), DayShiftCount(shifts), NightShiftCount(shifts),
          CountsOf(shifts))
  }

  // ---------------------------------------------------------------- the two passes

  /** `getStats` over the rows the query returned: a first pass for the agents and hours, a second
      for presence and shifts. */
  method GetStats(rows: seq<Row>) returns (s: Stats)
    ensures s == StatsOf(rows)
  {
    var uniqueAgents, totalHours := AgentsPass(rows);
    var presentCount, absentCount, dayShiftCount, nightShiftCount, shiftCounts := ShiftsPass(rows);
    s := Stats(|uniqueAgents|, totalHours, Average(totalHours, |uniqueAgents|),
               presentCount, absentCount, dayShiftCount, nightShiftCount, shiftCounts);
  }

  /** The first pass: the distinct agent names and the summed hours. */
  method AgentsPass(rows: seq<Row>) returns (uniqueAgents: set<string>, totalHours: real)
    ensures uniqueAgents == Names(rows) && totalHours == TotalHours(rows)
  {
    uniqueAgents, totalHours := {}, 0.0;
    for i := 0 to |rows|
      invariant uniqueAgents == Names(rows[..i]) && totalHours == TotalHours(rows[..i])
    {
      assert rows[..i + 1][..i] == rows[..i];
      uniqueAgents := uniqueAgents + {rows[i].agentName};
      totalHours := totalHours + HoursOf(rows[i]);
    }
    assert rows[..|rows|] == rows;
  }

  /** The second pass: plannings with and without a working day, and the shifts counted. */
  method ShiftsPass(rows: seq<Row>)
    returns (presentCount: nat, absentCount: nat, dayShiftCount: nat, nightShiftCount: nat,
             shiftCounts: map<string, nat>)
    ensures presentCount == PresentCount(rows) && absentCount == AbsentCount(rows)
    ensures dayShiftCount == DayShiftCount(AllShifts(rows))
    ensures nightShiftCount == NightShiftCount(AllShifts(rows))
    ensures shiftCounts == CountsOf(AllShifts(rows))
  {
    presentCount, absentCount, dayShiftCount, nightShiftCount := 0, 0, 0, 0;
    shiftCounts := map[];
    for i := 0 to |rows|
      invariant presentCount == PresentCount(rows[..i]) && absentCount == AbsentCount(rows[..i])
      invariant dayShiftCount == DayShiftCount(AllShifts(rows[..i]))
      invariant nightShiftCount == NightShiftCount(AllShifts(rows[..i]))
      invariant shiftCounts == CountsOf(AllShifts(rows[..i]))
    {
      RowStep(rows, i);
      if HasWorkDay(rows[i]) {
        presentCount := presentCount + 1;
      } else {
        absentCount := absentCount + 1;
      }
      dayShiftCount, nightShiftCount, shiftCounts := CountShifts(AllShifts(rows[..i]), DaysOf(rows[i]),
                                                                 dayShiftCount, nightShiftCount, shiftCounts);
    }
    assert rows[..|rows|] == rows;
  }

  lemma RowStep(rows: seq<Row>, i: nat)
    requires i < |rows|
    ensures AllShifts(rows[..i + 1]) == AllShifts(rows[..i]) + DaysOf(rows[i])
    ensures PresentCount(rows[..i + 1]) == PresentCount(rows[..i]) + (if HasWorkDay(rows[i]) then 1 else 0)
    ensures AbsentCount(rows[..i + 1]) == AbsentCount(rows[..i]) + (if HasWorkDay(rows[i]) then 0 else 1)
  {
    assert rows[..i + 1][..i] == rows[..i];
  }

  /** The shifts of one row, counted on top of the counts of the shifts before them. */
  method CountShifts(before: seq<string>, days: seq<string>, day0: nat, night0: nat, counts0: map<string, nat>)
    returns (day: nat, night: nat, counts: map<string, nat>)
    requires day0 == DayShiftCount(before) && night0 == NightShiftCount(before) && counts0 == CountsOf(before)
    ensures day == DayShiftCount(before + days) && night == NightShiftCount(before + days)
    ensures counts == CountsOf(before + days)
  {
    day, night, counts := day0, night0, counts0;
    ghost var seen := before;
    for j := 0 to |days|
      invariant seen == before + days[..j]
      invariant day == DayShiftCount(seen) && night == NightShiftCount(seen) && counts == CountsOf(seen)
    {
      var shift := days[j];
      CountOneMore(seen, shift);
      if DayShift(shift) {
        day := day + 1;
      }
      if shift == "NUIT" {
        night := night + 1;
      }
      counts := counts[shift := (if shift in counts then counts[shift] else 0) + 1];
      seen := seen + [shift];
    }
    assert days[..|days|] == days;
  }

  lemma CountOneMore(seen: seq<string>, x: string)
    ensures DayShiftCount(seen + [x]) == DayShiftCount(seen) + (if DayShift(x) then 1 else 0)
    ensures NightShiftCount(seen + [x]) == NightShiftCount(seen) + (if x == "NUIT" then 1 else 0)
    ensures var m := CountsOf(seen); CountsOf(seen + [x]) == m[x := (if x in m then m[x] else 0) + 1]
  {
    assert (seen + [x])[..|seen|] == seen;
  }

  // ---------------------------------------------------------------- properties

  /** Every row is counted once, as present or as absent. */
  lemma {:induction false} PresentPlusAbsent(rows: seq<Row>)
    ensures PresentCount(rows) + AbsentCount(rows) == |rows|
  {
    if rows != [] {
      PresentPlusAbsent(rows[..|rows| - 1]);
    }
  }

  /** There are no more distinct agents than rows, and there is one as soon as there is a row. */
  lemma {:induction false} AgentsAtMostRows(rows: seq<Row>)
    ensures |Names(rows)| <= |rows|
    ensures rows != [] ==> |Names(rows)| >= 1
  {
    if rows != [] {
      AgentsAtMostRows(rows[..|rows| - 1]);
    }
  }

  /** A row naming an agent makes that agent one of the agents counted. */
  lemma {:induction false} NamesOfRows(rows: seq<Row>)
    ensures forall x :: x in Names(rows) <==> exists i :: 0 <= i < |rows| && rows[i].agentName == x
  {
    if rows != [] {
      NamesOfRows(rows[..|rows| - 1]);
      var before := rows[..|rows| - 1];
      forall x | x in Names(rows)
        ensures exists i :: 0 <= i < |rows| && rows[i].agentName == x
      {
        if x in Names(before) {
          var i :| 0 <= i < |before| && before[i].agentName == x;
          assert rows[i].agentName == x;
        }
      }
      forall x | exists i :: 0 <= i < |rows| && rows[i].agentName == x
        ensures x in Names(rows)
      {
        var i :| 0 <= i < |rows| && rows[i].agentName == x;
        if i < |rows| - 1 {
          assert before[i].agentName == x;
        }
      }
    }
  }

  /** A row with a shift that is paid hours (`JOUR`, `NUIT`, `MAT5`, `MAT9`) counts as present. */
  lemma PaidShiftIsPresent(r: Row, i: nat)
    requires r.days.Some? && i < |r.days.value| && PlanningImport.ShiftHours(r.days.value[i]) > 0
    ensures HasWorkDay(r)
  {
    assert Working(r.days.value[i]);
  }

  /** The day shifts are the occurrences of `JOUR`, `MAT5`, `MAT8` and `MAT9` in `shiftCounts`, the
      night shifts those of `NUIT`. */
  lemma {:induction false} ShiftTotalsFromCounts(shifts: seq<string>)
    ensures DayShiftCount(shifts) == multiset(shifts)["JOUR"] + multiset(shifts)["MAT5"]
                                     + multiset(shifts)["MAT8"] + multiset(shifts)["MAT9"]
    ensures NightShiftCount(shifts) == multiset(shifts)["NUIT"]
  {
    if shifts != [] {
      var before := shifts[..|shifts| - 1];
      ShiftTotalsFromCounts(before);
      assert shifts == before + [shifts[|shifts| - 1]];
    }
  }

  /** No shift is both a day and a night shift, so together they are at most the shifts. */
  lemma {:induction false} DayAndNightAtMostShifts(shifts: seq<string>)
    ensures DayShiftCount(shifts) + NightShiftCount(shifts) <= |shifts|
  {
    if shifts != [] {
      DayAndNightAtMostShifts(shifts[..|shifts| - 1]);
    }
  }

  ghost function SumValues(m: map<string, nat>): nat
    decreases |m|
  {
    if m == map[] then 0
    else
      var k :| k in m;
      m[k] + SumValues(m - {k})
  }

  /** Any key can be taken out of the sum first. */
  lemma {:induction false} SumValuesRemove(m: map<string, nat>, k: string)
    requires k in m
    ensures SumValues(m) == m[k] + SumValues(m - {k})
    decreases |m|
  {
    var k' :| k' in m && SumValues(m) == m[k'] + SumValues(m - {k'});
    if k' != k {
      SumValuesRemove(m - {k'}, k);
      SumValuesRemove(m - {k}, k');
      assert m - {k'} - {k} == m - {k} - {k'};
    }
  }

  /** Counting one more occurrence adds one to the sum. */
  lemma SumValuesIncrement(m: map<string, nat>, x: string)
    ensures SumValues(m[x := (if x in m then m[x] else 0) + 1]) == SumValues(m) + 1
  {
    var m' := m[x := (if x in m then m[x] else 0) + 1];
    SumValuesRemove(m', x);
    if x in m {
      SumValuesRemove(m, x);
      assert m' - {x} == m - {x};
    } else {
      assert m' - {x} == m;
    }
  }

  /** The counts of `shiftCounts` add up to the number of shifts. */
  lemma {:induction false} CountsAddUp(shifts: seq<string>)
    ensures SumValues(CountsOf(shifts)) == |shifts|
  {
    if shifts != [] {
      var before := shifts[..|shifts| - 1];
      CountsAddUp(before);
      SumValuesIncrement(CountsOf(before), shifts[|shifts| - 1]);
    }
  }
}
