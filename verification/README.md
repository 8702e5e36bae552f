# Colarys payroll, attendance and planning — a Dafny model

This project models, in Dafny, the computing core of the Colarys back office:

- the employee registry, payroll and leave accrual of the TypeScript service
  (`ColarysEmployeeService.ts`) and the checks its controller makes before calling it
  (`ColarysEmployeeController.ts`);
- the two Python programs that keep the same data in JSON files: the FastAPI server (`api.py`)
  and the Qt desktop application (`col.py`), whose rules differ from the service's in a few
  places the model states as lemmas;
- clocking in and out (`PresenceService.ts`), as a register of agents and presences whose
  days go from no record to open to closed;
- the import of weekly shift plannings from spreadsheet rows and the planning statistics
  (`PlanningController.ts`, with the shift-hours table of `entities/Planning.ts`).

Each module follows one source file or one concern of it:

| module | file | models |
|---|---|---|
| `Basics`, `Text`, `Json` | basics.dfy, text.dfy, json.dfy | `Option`/`Result`; strings, digits, trimming and case; JSON values with JavaScript truthiness |
| `NumberParsing` | numbers.dfy | the tolerant number parsers of the service and the Python programs, JavaScript and Python rounding |
| `Calendar` | calendar.dfy | Gregorian day numbers, the roll-over of JavaScript's `Date` constructor, weekdays |
| `HireDates` | hiredates.dfy | hire-date parsing, seniority and the 365-day entitlement, in the service and in Python |
| `WorkingDays` | workingdays.dfy | the working days of a month and the fallback table |
| `Attendance` | attendance.dfy | attendance codes and the monthly hour totals, in the service and in the desktop application |
| `Payroll` | payroll.dfy | the payslip arithmetic: rate, premiums, entitlements, the five tax brackets, net pay |
| `ColarysService` | colarys_service.dfy | class `ColarysStore`: employee CRUD, attendance writes, leave balance, salary entries, accrual |
| `ColarysController` | colarys_controller.dfy | parameter checks, export selection and totals, statistics, OFF-day synchronisation |
| `PythonApi` | python_api.dfy | class `JsonApi`: the FastAPI routes that change or filter data |
| `DesktopApp` | desktop_app.dfy | classes `PagePresence` and `MainWindow` of the desktop application |
| `Pointage` | presence.dfy | class `Register`: time checks, hours worked, the entry/exit rules, history period and totals |
| `IsoWeek` | isoweek.dfy | ISO week numbers and `calculateDate` |
| `PlanningImport` | planning.dfy | week headings, shift normalisation, the row and sheet loops of the import |
| `PlanningStatistics` | planning_stats.dfy | the two passes of `getStats` |

Imperative code is modelled imperatively: the service, the Python API, the desktop pages and
the clock-in register are classes whose methods update their fields, and every loop of the
source (the month's working days, the attendance totals, the payslip batch, the import's sheet
and row loops, the statistics passes, the desktop day edits and balance loop) is a method with
a loop proved against a specification function. The rest is functions and lemmas.

Files, the database, the network, the clock and random identifiers are not modelled: stored
data are fields or parameters, today's date and time and fresh UUIDs are parameters, and a
spreadsheet is the sequence of rows `XLSX` reads from it.

Where the written specification of the system and the code disagree, the model follows the code:

- the service's social deduction is `parseFloat(...) || 15000`, so a stored 0 also becomes 15000
  (Back-end/src/services/ColarysEmployeeService.ts:537), where the specification names 15000
  only as the default of a missing value;
- the fallback table of working days is described as used when the date computation fails, but
  JavaScript's `Date` constructor never throws, so the service's `catch` branch (166-170) is
  never taken; the table is modelled on its own (`WorkingDays.DefaultWorkingDays`);
- the desktop application and the Python API do not follow the service's accrual rule of three
  months for an employee without a stamp: they credit nothing (python-app/api.py:127-128);
- the training indemnity of the desktop application is paid per hour, not per day
  (python-app/col.py:694).

Money and hours are real numbers; JavaScript's and Python's rounding functions are modelled on
them where a property depends on them.

## Model

| member | source | states |
|---|---|---|
| NumberParsing.TsParseFloat | Back-end/src/services/ColarysEmployeeService.ts:42-51 | null and undefined give the default; a number is returned unchanged; a number written as text gives its value, or the default when it is 0 (`parseFloat(...) \|\| default`) |
| NumberParsing.TsParseInt | Back-end/src/services/ColarysEmployeeService.ts:53-62 | null and undefined give the default; a number is floored |
| NumberParsing.PyParseFloat | python-app/api.py:38-47 | None gives the default; a number, or a number written as text, gives its value (0 included) |
| NumberParsing.PyParseInt | python-app/api.py:49-58 | None gives the default; a number is truncated toward zero |
| NumberParsing.JsRound | Back-end/src/services/ColarysEmployeeService.ts:550 | `Math.round`: the result is within one half of its argument, halves going up |
| NumberParsing.PyRound | python-app/col.py:695 | Python `round`: the result is within one half of its argument |
| NumberParsing.JsParseIntOfIntToString | Back-end/src/controllers/PlanningController.ts:92-93 | `parseInt` reads back the decimal rendering of every integer |
| NumberParsing.PyIntOfIntToString | python-app/api.py:49-58 | Python `int` reads back the decimal rendering of every integer |
| NumberParsing.ZeroTextDivergence | Back-end/src/services/ColarysEmployeeService.ts:42-51 | the text "0" is the default for the service's `parseFloat` but 0 for the Python `parse_float` (python-app/api.py:38-47) |
| NumberParsing.NoBreakSpaceService | Back-end/src/services/ColarysEmployeeService.ts:47 | `\s` removes a no-break space between two digits, so the text reads as the two-digit number |
| NumberParsing.NoBreakSpacePython | python-app/api.py:44-47 | the Python parser keeps a no-break space between two digits, so the same text gives the default |
| HireDates.TsCheckedDate | Back-end/src/services/ColarysEmployeeService.ts:76-82 | a date is built iff day is 1..31, month 1..12 and year above 1900, and it is the day-th day counted from the 1st of the month (rolling over) |
| HireDates.TsParseHireText | Back-end/src/services/ColarysEmployeeService.ts:64-86 | a parsed hire date is a valid calendar date after 1900 |
| HireDates.TsParseHireDate | Back-end/src/services/ColarysEmployeeService.ts:64-66 | a falsy stored value gives no date; a number throws; a parsed date is valid and after 1900 |
| HireDates.TsSeniorityOf | Back-end/src/services/ColarysEmployeeService.ts:93-105 | months are 0..11, and years and months add up to the completed months between the two dates |
| HireDates.TsSeniority | Back-end/src/services/ColarysEmployeeService.ts:88-106 | throws exactly when the parser throws; no hire date gives "" |
| HireDates.TsEntitlementOf | Back-end/src/services/ColarysEmployeeService.ts:112-116 | 1 exactly when the absolute elapsed time, counted in started days, exceeds 365 |
| HireDates.TsEntitlement | Back-end/src/services/ColarysEmployeeService.ts:108-117 | throws exactly when the parser throws; otherwise 0 or 1 |
| HireDates.TsSeniorityYearsOf | Back-end/src/services/ColarysEmployeeService.ts:253-266 | the number of whole years: the hire date plus that many years is on or before today, one more year is after it |
| HireDates.TsSeniorityYears | Back-end/src/services/ColarysEmployeeService.ts:253-256 | throws exactly when the parser throws; no hire date gives 0 |
| HireDates.TsSeniorityYearsAgree | Back-end/src/services/ColarysEmployeeService.ts:88-106 | `calculAnciennete` and `calculAncienneteAns` (253-266) count the same years |
| HireDates.PyDayField | python-app/api.py:60-69 | `%d` accepts only a day 1..31 |
| HireDates.PyMonthField | python-app/api.py:60-69 | `%m` accepts only a month 1..12 |
| HireDates.PyShortYearField | python-app/api.py:60-69 | `%y` gives a year from 1969 to 2068 |
| HireDates.PyDate | python-app/api.py:65 | `datetime.date` accepts only a valid date of the years 1 to 9999 |
| HireDates.PyStrptimeDmy | python-app/api.py:64-68 | a parsed `%d/%m/%Y` date is valid |
| HireDates.PyStrptimeIso | python-app/api.py:64-68 | a parsed `%Y-%m-%d` date is valid |
| HireDates.PyParseHireDate | python-app/col.py:60-69 | an empty text gives no date; a parsed date is valid |
| HireDates.PySeniorityYearsOf | python-app/api.py:71-78 | the number of whole years between the hire date and today |
| HireDates.PySeniorityMonthsOf | python-app/api.py:76 | the months are 0..11 and congruent to the difference of the month numbers |
| HireDates.PySeniority | python-app/col.py:71-78 | "" exactly when the hire date cannot be parsed |
| HireDates.PySeniorityYears | python-app/col.py:86-91 | no hire date gives 0 |
| HireDates.PyEntitlement | python-app/col.py:80-84 | 1 exactly when a hire date is parsed and more than 365 days have passed since it |
| HireDates.SeniorityYearsAgree | python-app/api.py:71-78 | the service (ColarysEmployeeService.ts:88-106) and both Python programs count the same completed years |
| HireDates.SeniorityMonthsDiffer | python-app/api.py:76 | the months figure differs from the service's by one while the day of the month has not been reached |
| HireDates.EntitlementPastHire | Back-end/src/services/ColarysEmployeeService.ts:112-116 | for a hire date in the past the service and Python agree, counting a started day once midnight has passed |
| HireDates.EntitlementFutureHire | Back-end/src/services/ColarysEmployeeService.ts:113 | a hire date more than a year ahead grants the entitlement in the service (absolute value) and not in Python (python-app/api.py:80-84) |
| HireDates.DmyTextToService | Back-end/src/services/ColarysEmployeeService.ts:68-83 | a `DD/MM/YYYY` text goes through the year, month and day checks |
| HireDates.IsoTextToService | Back-end/src/services/ColarysEmployeeService.ts:68-83 | so does a `YYYY-MM-DD` text |
| HireDates.DmyTextToPython | python-app/api.py:60-69 | a `DD/MM/YYYY` text is the date `datetime.date` builds from its fields |
| HireDates.IsoTextToPython | python-app/api.py:60-69 | so is a `YYYY-MM-DD` text |
| HireDates.HireTextParsed | python-app/col.py:60-69 | both writings of a date with a four-digit year are read by the service iff the year is after 1900, and by Python as the date its fields name |
| HireDates.HireDateRoundTrip | Back-end/src/services/ColarysEmployeeService.ts:64-86 | every valid date from 1901 to 9999, written either way, is read back as itself by the service and by both Python parsers |
| WorkingDays.JsMonth | Back-end/src/services/ColarysEmployeeService.ts:150 | the month `new Date(year, month, 0)` addresses always lies in 1..12 |
| WorkingDays.WeekSum | Back-end/src/services/ColarysEmployeeService.ts:157-160 | any seven consecutive days hold exactly five days from Monday to Friday |
| WorkingDays.FourWeeksAndSome | Back-end/src/services/ColarysEmployeeService.ts:153-161 | 28 to 31 consecutive days hold 20 to 23 working days |
| WorkingDays.MonthWorkdaysRange | Back-end/src/services/ColarysEmployeeService.ts:148-171 | every month has 20 to 23 working days, so `Math.max(..., 1)` never changes the count |
| WorkingDays.LastDayOfMonth | Back-end/src/services/ColarysEmployeeService.ts:150 | `new Date(year, month, 0).getDate()` is the number of days of the month `month` names |
| WorkingDays.CalculerJoursOuvrables | Back-end/src/services/ColarysEmployeeService.ts:148-171 | the loop counts the Monday-to-Friday days of the month the arguments name, which is 20 to 23 |
| WorkingDays.IsWorkingDay | Back-end/src/services/ColarysEmployeeService.ts:154-158 | the day `jour` of the month counts exactly when its day number falls on Monday to Friday |
| WorkingDays.DefaultWorkingDays | Back-end/src/services/ColarysEmployeeService.ts:174-180 | the table's values lie in 20..23, and a month number outside 1..12 gives 22 |
| Attendance.CodeOfText | Back-end/src/services/ColarysEmployeeService.ts:204-230 | only a one-letter text selects a code |
| Attendance.MonthCodes | Back-end/src/services/ColarysEmployeeService.ts:198-200 | one code per day of the month, read from the key `<matricule>_<year>_<month>_<day>` |
| Attendance.JsDaysInMonth | Back-end/src/services/ColarysEmployeeService.ts:196 | a month has 28 to 31 days |
| Attendance.CalculHeuresPresence | Back-end/src/services/ColarysEmployeeService.ts:183-237 | throws exactly when some day's value is a number (no `toLowerCase`); otherwise the totals of the month's codes in day order |
| Attendance.AddPlanned | Back-end/src/services/ColarysEmployeeService.ts:202-233 | one day's `switch` with 8 planned hours is one step of the month's totals |
| Attendance.TallyCounts | Back-end/src/services/ColarysEmployeeService.ts:204-230 | each bucket is 8 hours per day of its codes; `p`, `n` and `m` count as presence and real worked hours; `o` only as a day off |
| Attendance.CountsSum | Back-end/src/services/ColarysEmployeeService.ts:198 | every day of the month carries exactly one code |
| Attendance.PresenceIsReal | Back-end/src/services/ColarysEmployeeService.ts:205-224 | presence hours equal real worked hours; night and holiday hours are part of them; training hours are 8 per training day |
| Attendance.HoursBounded | Back-end/src/services/ColarysEmployeeService.ts:196-231 | the month's hours never exceed 8 per day of the month |
| Attendance.DayOffNeutral | Back-end/src/services/ColarysEmployeeService.ts:226-229 | a day off only adds one to the count of days off |
| Attendance.TallySwap | Back-end/src/services/ColarysEmployeeService.ts:198-231 | the totals do not depend on the order of the days |
| Attendance.CountIsMultiplicity | Back-end/src/services/ColarysEmployeeService.ts:198-231 | the count of a code is its multiplicity among the month's codes |
| Attendance.DeskMonthCodes | python-app/col.py:630-632 | one code per day of the month, read from the same key, a missing key being no code |
| Attendance.HoursFromPresence | python-app/col.py:625-647 | the loop gives the desktop totals of the month's codes |
| Attendance.DeskAdd | python-app/col.py:632-646 | one day's `if`/`elif` chain is one step of the desktop totals |
| Attendance.DeskAgreesWithService | python-app/col.py:625-647 | the desktop application's six buckets are the service's (Back-end/src/services/ColarysEmployeeService.ts:183-237) |
| Attendance.SameCodes | python-app/col.py:631-632 | for attendance holding only texts, the desktop application and the service (ColarysEmployeeService.ts:199-200) read the same codes |
| Payroll.TranchesOf | Back-end/src/services/ColarysEmployeeService.ts:567-572 | the five brackets are bounded by 350000, 50000, 100000 and 100000 and add up to the gross salary floored at 0 |
| Payroll.RawTaxIsScale | Back-end/src/services/ColarysEmployeeService.ts:567-579 | the bracket-by-bracket tax is the piecewise-linear scale 0 / 5% / 10% / 15% / 20% above 350000, 400000, 500000 and 600000 |
| Payroll.RawTaxMonotone | Back-end/src/services/ColarysEmployeeService.ts:567-579 | the raw tax grows with the gross salary |
| Payroll.RawTaxZero | Back-end/src/services/ColarysEmployeeService.ts:574-580 | the raw tax is zero exactly when the gross salary is at most 350000 |
| Payroll.Irsa | Back-end/src/services/ColarysEmployeeService.ts:579-580 | the tax is 2000 up to 350000 and the scale above, always positive |
| Payroll.IrsaFallsAtFirstBracket | Back-end/src/services/ColarysEmployeeService.ts:580 | the 2000 floor makes the tax drop from 2000 to 0.05 as the salary crosses 350000 |
| Payroll.IrsaMonotoneAbove | Back-end/src/services/ColarysEmployeeService.ts:567-580 | above the first bracket the tax grows with the gross salary |
| Payroll.RoundWholeDays | Back-end/src/services/ColarysEmployeeService.ts:550 | for hours that are whole days both `Math.round` and Python's `round` (python-app/col.py:695) give back the days |
| Payroll.SocialOf | Back-end/src/services/ColarysEmployeeService.ts:537 | the social deduction is never 0: missing, 0 or unreadable gives 15000 |
| Payroll.TsRate | Back-end/src/services/ColarysEmployeeService.ts:526-527 | the hourly rate times the month's theoretical hours is the base salary |
| Payroll.MontantTravaille | Back-end/src/services/ColarysEmployeeService.ts:541-542 | never negative, at most the base; without absence the base; otherwise the base less the absent hours at the hourly rate |
| Payroll.DayAllowance | Back-end/src/services/ColarysEmployeeService.ts:550-552 | 0 without entitlement, else the rounded worked days times the rate |
| Payroll.Contribution | Back-end/src/services/ColarysEmployeeService.ts:560-564 | 1% of the gross salary with entitlement and a year of seniority, 0 otherwise |
| Payroll.TaxWithheld | Back-end/src/services/ColarysEmployeeService.ts:582 | 0 without entitlement, the tax of the gross salary with it |
| Payroll.TsGating | Back-end/src/services/ColarysEmployeeService.ts:541-583 | the entitlement gates the allowances, the contributions and the tax; seniority under a year gates the contributions; the amount for time worked is never negative |
| Payroll.JoursTravail | Back-end/src/services/ColarysEmployeeService.ts:492-496 | a positive requested count is kept; otherwise the month's working days, 20 to 23 |
| Payroll.MatriculeOf | Back-end/src/services/ColarysEmployeeService.ts:504-509 | an employee is paid under a non-empty matricule string |
| Payroll.TsPayslip | Back-end/src/services/ColarysEmployeeService.ts:502-648 | a payslip carries the employee's matricule; no matricule gives no payslip |
| Payroll.Payslips | Back-end/src/services/ColarysEmployeeService.ts:502-649 | at most one payslip per employee |
| Payroll.KeptLength | Back-end/src/services/ColarysEmployeeService.ts:502-649 | one payslip per employee kept |
| Payroll.KeptPayslips | Back-end/src/services/ColarysEmployeeService.ts:585 | the k-th payslip is the k-th kept employee's |
| Payroll.KeptIncreasing | Back-end/src/services/ColarysEmployeeService.ts:502 | the payslips follow the registry's order |
| Payroll.KeptExactly | Back-end/src/services/ColarysEmployeeService.ts:503-648 | an employee is kept exactly when their computation gives a payslip |
| Payroll.CalculateSalaires | Back-end/src/services/ColarysEmployeeService.ts:483-658 | the loop returns the payslips of the employees with a matricule whose computation does not throw, in order |
| Payroll.EmployeePayslip | Back-end/src/services/ColarysEmployeeService.ts:503-648 | the loop body gives the employee's payslip, or none without a matricule or when the hire date or the attendance throws |
| Payroll.TsPayIgnoresPresence | Back-end/src/services/ColarysEmployeeService.ts:541-542 | presence hours play no part in the amount for time worked |
| Payroll.TsNetPay | Back-end/src/services/ColarysEmployeeService.ts:583 | the net amount is the gross less the advance, the contributions, the social deduction and the tax |
| Payroll.TsAllowancesPerDay | Back-end/src/services/ColarysEmployeeService.ts:550-552 | an entitled employee gets 2500 and 1200 per `p`, `n` or `m` day |
| Payroll.JoursCorriges | python-app/col.py:675-677 | the corrected days are never negative and at least the theoretical days less the absent days |
| Payroll.DeskRate | python-app/col.py:678 | the desktop rate times the corrected hours is the base, 0 when no day is left |
| Payroll.DeskRowOf | python-app/col.py:663-734 | training pays 10000 per hour; the net plus the deductions is the gross |
| Payroll.DeskDeductions | python-app/col.py:707-734 | without entitlement no contributions and no tax; no matricule means no tax; otherwise the tax is the scale's; the net plus the deductions is the gross |
| Payroll.DeskRowTaxes | python-app/col.py:694-734 | no entitlement means no meal or transport allowance, no contribution and no tax; no matricule means no tax; otherwise the scale's tax on the gross |
| Payroll.DeskPayFollowsPresence | python-app/col.py:690 | the desktop amount for time worked is presence hours at the rate, 0 without presence |
| Payroll.FullMonthAgrees | python-app/col.py:677-690 | a month without absences whose presence is exactly the theoretical hours is paid the base by both programs (Back-end/src/services/ColarysEmployeeService.ts:541-542) |
| Payroll.TrainingPaidPerHour | python-app/col.py:694 | a training day pays 10000 in the service (ColarysEmployeeService.ts:548) and 80000 in the desktop application |
| Payroll.SocialZeroDiffers | python-app/col.py:687 | a social deduction stored as 0 stays 0 in the desktop application and becomes 15000 in the service (ColarysEmployeeService.ts:537) |
| ColarysService.FindIndex | Back-end/src/services/ColarysEmployeeService.ts:316 | the index found is the first employee with that matricule; none means no employee has it |
| ColarysService.NewEmployee | Back-end/src/services/ColarysEmployeeService.ts:286-298 | fails exactly when the hire date throws; keeps every submitted field except the computed ones; adds the seniority and both entitlement flags |
| ColarysService.UpdateFields | Back-end/src/services/ColarysEmployeeService.ts:322-329 | without a truthy hire date the submitted fields are unchanged; otherwise only fields are added |
| ColarysService.WithoutMatricule | Back-end/src/services/ColarysEmployeeService.ts:347 | keeps exactly the employees with another matricule; the length is unchanged exactly when none had it |
| ColarysService.AdjustedBalance | Back-end/src/services/ColarysEmployeeService.ts:448-449 | the new balance is a non-negative number written as text, and no other field changes |
| ColarysService.ToFixed1 | Back-end/src/services/ColarysEmployeeService.ts:473 | `toFixed(1)` is within 0.05 of the number |
| ColarysService.ParseStamp | Back-end/src/services/ColarysEmployeeService.ts:465 | a stamp read as a date names a month 1..12 |
| ColarysService.AccrueTs | Back-end/src/services/ColarysEmployeeService.ts:460-476 | the employee is stamped with the current month, other fields are kept; the balance is unchanged when no month has passed and otherwise becomes the balance (or the initial balance) plus 2.5 days per month passed, rounded to a tenth |
| ColarysService.StampRoundTrip | Back-end/src/services/ColarysEmployeeService.ts:476 | the stamp written reads back as the current month for four-digit years |
| ColarysService.AccrueTsIdempotent | Back-end/src/services/ColarysEmployeeService.ts:455-480 | a second run in the same month changes nothing |
| ColarysService.AccrueTsAmount | Back-end/src/services/ColarysEmployeeService.ts:463-474 | an unstamped employee is credited three months of 2.5 days; one stamped with an earlier month is credited 2.5 days per month since that month, rounded to a tenth |
| ColarysService.ColarysStore.CreateEmployee | Back-end/src/services/ColarysEmployeeService.ts:278-311 | `Duplicate` exactly when the matricule is already present (strict equality), `Ok` exactly when it is new and the record completes, `Failed` exactly when it is new and the hire date is unreadable; only `Ok` appends the completed record; nothing else changes |
| ColarysService.ColarysStore.UpdateEmployee | Back-end/src/services/ColarysEmployeeService.ts:313-342 | an unknown matricule is not found and changes nothing; `Failed` exactly when the matricule is known and the submitted hire date is unreadable; otherwise the first match is merged with the submitted fields |
| ColarysService.ColarysStore.DeleteEmployee | Back-end/src/services/ColarysEmployeeService.ts:344-362 | removes every employee with that matricule; not found exactly when none has it |
| ColarysService.ColarysStore.UpdateSoldeConge | Back-end/src/services/ColarysEmployeeService.ts:443-452 | an unknown matricule changes nothing; otherwise the first match's balance is adjusted |
| ColarysService.ColarysStore.UpdatePresence | Back-end/src/services/ColarysEmployeeService.ts:369-400 | rejects a value outside the seven codes and ""; "" deletes the day, a code sets it, and `c` takes a day off the balance |
| ColarysService.ColarysStore.UpdateSalaire | Back-end/src/services/ColarysEmployeeService.ts:424-440 | the submitted fields are merged over the month's entry; employees and attendance do not change |
| ColarysService.ColarysStore.UpdateCongesAutomatique | Back-end/src/services/ColarysEmployeeService.ts:455-480 | every employee, in place and in order, accrues leave and is stamped |
| ColarysService.WrittenCodeReadBack | Back-end/src/services/ColarysEmployeeService.ts:376-384 | a day set by `updatePresence` is read back by the monthly totals (199-204) as the written code, a deleted day as no code |
| ColarysService.LeaveTwiceCountsTwice | Back-end/src/services/ColarysEmployeeService.ts:387-389 | re-entering a leave day takes a second day off the balance |
| ColarysService.ZeroBalanceTextReplaced | Back-end/src/services/ColarysEmployeeService.ts:289-297 | a submitted balance of 0 is replaced by the initial balance |
| ColarysController.BodyInt | Back-end/src/controllers/ColarysEmployeeController.ts:579-580 | a JSON number is truncated; a missing field or null is NaN |
| ColarysController.CheckPeriod | Back-end/src/controllers/ColarysEmployeeController.ts:350-365 | accepted exactly when the year is 2000..2100 and the month 1..12; the year is checked first; an accepted period is the parsed one |
| ColarysController.PeriodRoundTrip | Back-end/src/controllers/ColarysEmployeeController.ts:350-351 | a period written in decimal, in the route or as a JSON number (579-580), passes unchanged |
| ColarysController.CheckDays | Back-end/src/controllers/ColarysEmployeeController.ts:368-377 | absent or empty means automatic; otherwise the parsed count, refused unless 1..31 |
| ColarysController.RequestedDaysUsed | Back-end/src/controllers/ColarysEmployeeController.ts:381-385 | an accepted count is the one the service pays on; without one the month's working days (ColarysEmployeeService.ts:492-496) |
| ColarysController.DaysRoundTrip | Back-end/src/controllers/ColarysEmployeeController.ts:369-370 | a day count written in decimal is accepted as itself |
| ColarysController.MonthName | Back-end/src/controllers/ColarysEmployeeController.ts:674-680 | a name other than `Inconnu` exactly for months 1..12 |
| ColarysController.MonthNameInjective | Back-end/src/controllers/ColarysEmployeeController.ts:390-396 | different months have different names |
| ColarysController.Select | Back-end/src/controllers/ColarysEmployeeController.ts:602 | the selection keeps only payslips of listed matricules |
| ColarysController.SelectCounts | Back-end/src/controllers/ColarysEmployeeController.ts:602 | each payslip of a listed matricule is kept as often as it occurs, every other one dropped |
| ColarysController.Reject | Back-end/src/controllers/ColarysEmployeeController.ts:602 | the left-out payslips have unlisted matricules |
| ColarysController.TotalSnoc | Back-end/src/controllers/ColarysEmployeeController.ts:414-415 | one more payslip adds its amount to a total |
| ColarysController.SelectSplitsTotals | Back-end/src/controllers/ColarysEmployeeController.ts:651-652 | the totals of the selected and of the left-out payslips add up to the totals of all of them |
| ColarysController.Selected | Back-end/src/controllers/ColarysEmployeeController.ts:600-604 | no list, or an empty one, selects every payslip |
| ColarysController.CalculateSalaires | Back-end/src/controllers/ColarysEmployeeController.ts:342-431 | a bad year, month or day count is refused with its message; otherwise the service's payslips, the month's name, the days used and the totals |
| ColarysController.FirstSlipDays | Back-end/src/controllers/ColarysEmployeeController.ts:399-400 | every payslip of a run carries the run's day count |
| ColarysController.ExportFichesPaie | Back-end/src/controllers/ColarysEmployeeController.ts:572-671 | a bad period is refused; an empty selection is a 404; otherwise the selected payslips, the period text and the totals |
| ColarysController.ExportCoversRequested | Back-end/src/controllers/ColarysEmployeeController.ts:600-611 | an export for a list holds only its payslips, and the left-out ones make up the rest of the totals |
| ColarysController.UpdateSalaire | Back-end/src/controllers/ColarysEmployeeController.ts:433-485 | the same period check; a refused request changes nothing; otherwise the body is merged into the month's manual entries |
| ColarysController.QueryPeriod | Back-end/src/controllers/ColarysEmployeeController.ts:508-521 | without both fields no period; with both, refused exactly when one does not parse |
| ColarysController.OffIn | Back-end/src/controllers/ColarysEmployeeController.ts:530-534 | exactly the keys whose entry is the text `o` |
| ColarysController.CountJoursOff | Back-end/src/controllers/ColarysEmployeeController.ts:527-535 | the loop counts the entries that are `o` over the whole attendance map |
| ColarysController.OffDaysOfEveryMonthCounted | Back-end/src/controllers/ColarysEmployeeController.ts:529-534 | an OFF day of another month is counted too, since the monthly call returns every entry (ColarysEmployeeService.ts:402-417) |
| ColarysController.CountActive | Back-end/src/controllers/ColarysEmployeeController.ts:547-549 | at most the number of employees |
| ColarysController.SumBalancesBounds | Back-end/src/controllers/ColarysEmployeeController.ts:551-553 | balances within [lo, hi] sum to between lo and hi times their number |
| ColarysController.MeanBalanceWithin | Back-end/src/controllers/ColarysEmployeeController.ts:550-553 | the mean balance lies between the smallest and the largest |
| ColarysController.NoActiveNoPositiveBalance | Back-end/src/controllers/ColarysEmployeeController.ts:547-553 | with no active employee every balance is at most 0 |
| ColarysController.CountedWorkdays | Back-end/src/controllers/ColarysEmployeeController.ts:538-541 | the working days of the period are 20 to 23 |
| ColarysController.GetStatistiques | Back-end/src/controllers/ColarysEmployeeController.ts:504-569 | refused exactly when a given period does not parse; otherwise the counts, the mean balance, and the OFF and working days for a non-zero period |
| ColarysController.JoursOffFor | Back-end/src/controllers/ColarysEmployeeController.ts:264-282 | the planning lookup answers no dates |
| ColarysController.SyncJoursOff | Back-end/src/controllers/ColarysEmployeeController.ts:191-260 | refused exactly when the year or month does not parse; otherwise nothing is synchronised and there are no errors |
| PythonApi.AsRecord | python-app/api.py:170 | a request body typed as a dictionary of strings keeps its keys, each value as text |
| PythonApi.Round2 | python-app/api.py:134 | `round(x, 2)` lies within half a hundredth of x |
| PythonApi.Round2Idempotent | python-app/api.py:134 | rounding an already rounded balance changes nothing |
| PythonApi.PyParseStamp | python-app/api.py:123 | a stamp accepted by `strptime(..., "%Y-%m")` names a year from 1 and a month 1..12 |
| PythonApi.PyMonthsPassed | python-app/api.py:119-129 | a missing, empty or unreadable stamp falls back to the current month, so no month has passed |
| PythonApi.AccruePy | python-app/api.py:113-135 | the balance becomes text, credited 2.5 days per month passed when that is positive and rounded to 2 decimals; the stamp becomes the current month; every other field is kept |
| PythonApi.PyStampRoundTrip | python-app/api.py:123-135 | the stamp written by `strftime("%Y-%m")` reads back as the current month for a four-digit year |
| PythonApi.AccruePyIdempotent | python-app/api.py:113-135 | a second run in the same month leaves every employee as the first run left them |
| PythonApi.AccruePyStamped | python-app/api.py:118-134 | an employee stamped with an earlier month is credited 2.5 days per month since |
| PythonApi.UnstampedAccrualDiffers | python-app/api.py:127-128 | an unstamped employee is credited nothing here but three months by the service (Back-end/src/services/ColarysEmployeeService.ts:460-468) |
| PythonApi.RecomputedBalance | python-app/api.py:274-283 | the recomputed balance is at least 0 and at most the initial balance |
| PythonApi.Rebalanced | python-app/api.py:283 | only the balance changes, to the recomputed one |
| PythonApi.RebalancedIdempotent | python-app/api.py:270-283 | the previous balance plays no part: recomputing twice is recomputing once |
| PythonApi.NewLeaveDayCountsOnce | python-app/api.py:277-283 | a new leave day lowers the balance by one day while it stays positive; recording an existing one changes nothing |
| PythonApi.MonthPresences | python-app/api.py:244-247 | exactly the entries whose key contains `_{year}_{month}_`, with their values |
| PythonApi.MonthKeyIncluded | python-app/api.py:244-247 | every key written for a day of the month shows in the month's view |
| PythonApi.MonthUpsert | python-app/api.py:261-267 | a non-blank value of the month is set, a blank one removes its key, every other key is untouched |
| PythonApi.MonthUpsertIdempotent | python-app/api.py:261-267 | posting the same month twice is posting it once |
| PythonApi.PostedMonthReadBack | python-app/api.py:244-247 | after a post the month's view holds the posted non-blank entries and the month's earlier entries not posted |
| PythonApi.Restrict | python-app/api.py:244-247 | the part of a map whose keys are in a set, with their values |
| PythonApi.WithComputedFields | python-app/api.py:179-183 | the submitted fields plus the seniority and two equal 0/1 entitlement flags; the seniority is empty exactly when the hire date does not parse |
| PythonApi.NewEmploye | python-app/api.py:179-191 | the record appended: the computed fields, and the balance set to the initial balance when the submitted one is missing or negative, kept otherwise |
| PythonApi.BlankBalanceDiffers | python-app/api.py:186-189 | a blank submitted balance stays blank here, where the service replaces it with the initial balance |
| PythonApi.UpdateDropsUnsentFields | python-app/api.py:212 | an update replaces the whole record, so a stored field the request leaves out is lost, where the service's merge keeps it |
| PythonApi.JsonApi.constructor | python-app/api.py:93-101 | the three stores start with the given contents |
| PythonApi.JsonApi.UpdateCongesAutomatique | python-app/api.py:113-137 | every employee is accrued and stamped; attendance and salaries are untouched |
| PythonApi.JsonApi.CreateEmploye | python-app/api.py:169-196 | a taken matricule is a 400 and changes nothing; otherwise the new record is appended; a record without a matricule is a 500 after the append |
| PythonApi.JsonApi.UpdateEmploye | python-app/api.py:198-219 | the first employee with the matricule is replaced by the record with its computed fields; none is a 404 and changes nothing |
| PythonApi.JsonApi.DeleteEmploye | python-app/api.py:221-234 | every employee with the matricule is removed; none is a 404 |
| PythonApi.JsonApi.UpsertMonth | python-app/api.py:261-267 | the attendance becomes the month upsert of the request |
| PythonApi.UpsertKeys | python-app/api.py:262-267 | after the loop every request key is accounted for: set, removed, or as it was |
| PythonApi.UpsertKey | python-app/api.py:263-267 | a key inside the month is set when not blank and removed when blank; any other key stays as it was |
| PythonApi.JsonApi.UpdatePresences | python-app/api.py:256-289 | the month is upserted, then every employee's balance is recomputed from the new attendance |
| PythonApi.JsonApi.UpdateSalaires | python-app/api.py:313-325 | each submitted entry replaces the stored one whole; year and month play no part |
| PythonApi.UpsertComplete | python-app/api.py:261-267 | once every submitted key is handled the loop's map is the month upsert |
| PythonApi.OverwriteDropsFields | python-app/api.py:318-320 | a stored salary field the request leaves out is lost here, kept by the service's merge |
| DesktopApp.YesFlag | python-app/col.py:93-97 | 0 or 1; a number gives 1 exactly when it is non-zero; a text gives 1 exactly when, stripped and lower-cased, it is one of the yes-words; a number stored as text gives 1 exactly when it is 1 (its text is "1"); null gives 0 |
| DesktopApp.YesFlagOfWrittenFlag | python-app/col.py:93-97 | the flags "0" and "1" the programs write read back as 0 and 1 |
| DesktopApp.ParseMonth | python-app/col.py:99-116 | a month number 1..12, or 0 for anything else, the empty text included |
| DesktopApp.ParseMonthRoundTrip | python-app/col.py:99-116 | every month number reads back, printed plainly or zero-padded |
| DesktopApp.PickOr | python-app/col.py:521-522 | `x or default`: a non-zero value is kept; missing and 0 fall back to the default |
| DesktopApp.EditDay | python-app/col.py:538-545 | an attendance code is stored under the day's key; any other value removes the key |
| DesktopApp.PresenceKeyInjective | python-app/col.py:537 | days of different numbers have different keys |
| DesktopApp.Bumped | python-app/col.py:1489-1491 | the balance becomes text and grows by 2.5 days, from 0 when there is none; every other field is kept |
| DesktopApp.PagePresence.constructor | python-app/col.py:337-382 | the page opens on today's month with the given attendance and employees |
| DesktopApp.PagePresence.PrevMonth | python-app/col.py:461-466 | one month back, from January to December of the year before; the month stays in 1..12 |
| DesktopApp.PagePresence.NextMonth | python-app/col.py:468-473 | one month on, from December to January of the next year; the month stays in 1..12 |
| DesktopApp.PagePresence.ModifierPresence | python-app/col.py:516-549 | an empty matricule or request changes nothing and answers false; days outside the month are skipped; each day of the month is edited; the answer is true exactly when some day changed the map |
| DesktopApp.PagePresence.EditOneDay | python-app/col.py:536-545 | one day's edit, answering whether the map changed: a new code, or the removal of an existing key |
| DesktopApp.PagePresence.ApplyEdits | python-app/col.py:533-545 | every day of the month in the request is edited, every other key is untouched, and the answer says whether any day changed the map |
| DesktopApp.PagePresence.SaveBalances | python-app/col.py:499-511 | every balance becomes the initial balance less all the employee's leave days on record, floored at 0 |
| DesktopApp.NextThenPrev | python-app/col.py:461-473 | one month on then one month back returns to the month on screen |
| DesktopApp.EditsSettle | python-app/col.py:533-545 | sending the same edits again changes nothing and answers false |
| DesktopApp.EditedDayCounted | python-app/col.py:538-540 | a day set to an attendance code is read by the salary page's hour totals (631-647) as that code, never as OFF |
| DesktopApp.MainWindow.constructor | python-app/col.py:1472-1485 | the window starts with the stored employees and the stored month of the last bump |
| DesktopApp.MainWindow.UpdateCongesAutomatique | python-app/col.py:1532-1552 | every employee is accrued by the same rule as the Python API |
| DesktopApp.MainWindow.MonthlyBump | python-app/col.py:1489-1495 | when the stored month is not the current one every balance grows by 2.5 days; otherwise nothing changes; the current month is stored |
| DesktopApp.MainWindow.Startup | python-app/col.py:1469-1495 | start-up as written: the stamp-based accrual, then the monthly bump when the stored month is not the current one; in the stored month each employee is only accrued; the current month is stored |
| DesktopApp.MainWindow.StartupCorrected | python-app/col.py:1472 | start-up crediting each month once: the accrual alone, with the current month stored |
| DesktopApp.StartupCreditsTwice | python-app/col.py:1472-1491 | as written, the first start-up of a month credits an employee stamped last month 5 days instead of 2.5 |
| DesktopApp.StartupCorrectedCreditsOnce | python-app/col.py:1472 | with the accrual alone that employee is credited 2.5 days once |
| Pointage.ValiderFormatHeure | Back-end/src/services/PresenceService.ts:243-249 | accepted exactly when the text is one or two digits worth at most 23, a colon and two digits worth at most 59; an accepted time gets `:00` appended; anything else is the format error |
| Pointage.HeureShape | Back-end/src/services/PresenceService.ts:244 | the pattern holds exactly for an hour 0..23 of one or two digits, a colon and a minute 00..59 |
| Pointage.HeureAccepted | Back-end/src/services/PresenceService.ts:243-249 | every hour 0..23 and minute 0..59, the hour with or without a leading zero, passes with `:00` appended |
| Pointage.FieldNumber | Back-end/src/services/PresenceService.ts:252-253 | `Number` of a field is defined only for a non-empty run of digits, and is their value |
| Pointage.TimeFieldsOfClock | Back-end/src/services/PresenceService.ts:252-253 | a stored time `HH:MM:SS` reads as its hours and minutes; the seconds are ignored |
| Pointage.TimeFieldsOfValidated | Back-end/src/services/PresenceService.ts:196-200 | a validated exit time reads back as the hours and minutes typed |
| Pointage.WorkedMinutes | Back-end/src/services/PresenceService.ts:255-263 | for times of the day the minutes worked lie in 0..1439, and are 0 exactly when entry and exit are equal; an earlier exit is on the next day |
| Pointage.Round2 | Back-end/src/services/PresenceService.ts:265 | rounding to hundredths moves a value by at most half a hundredth |
| Pointage.HeuresTravaillees | Back-end/src/services/PresenceService.ts:251-267 | defined exactly when both times read; then the rounded minutes worked over 60, which lie in [0, 24) |
| Pointage.HoursBelowDay | Back-end/src/services/PresenceService.ts:263-265 | under 1440 minutes round to under 24 hours |
| Pointage.NightShift | Back-end/src/services/PresenceService.ts:259-261 | an entry at 22:00 and an exit at 06:00 count eight hours |
| Pointage.PadStart2 | Back-end/src/services/PresenceService.ts:333-334 | the padded text has at least two characters |
| Pointage.GetLastDayOfMonth | Back-end/src/services/PresenceService.ts:330-335 | the year as given, the month defaulting to 12, the day being the month's length, both zero-padded |
| Pointage.LastDayText | Back-end/src/services/PresenceService.ts:330-335 | for a month 1..12 the text is `YYYY-MM-DD` with the month's last day |
| Pointage.DecemberEnd | Back-end/src/services/PresenceService.ts:331 | without a month the period ends on 31 December |
| Pointage.HistoryPeriod | Back-end/src/services/PresenceService.ts:350-362 | both dates when both are given; else the month of the year, the month defaulting to `01` at the start and to December at the end; else the error |
| Pointage.YearAlone | Back-end/src/services/PresenceService.ts:354-358 | a year alone asks for the whole year |
| Pointage.HistoryTotals | Back-end/src/services/PresenceService.ts:416-429 | the presence count is the number of rows |
| Pointage.TotalHeuresConcat | Back-end/src/services/PresenceService.ts:421-423 | the hour totals of two lists of rows add up |
| Pointage.TotalHeuresBounds | Back-end/src/services/PresenceService.ts:421-423 | rows of under 24 hours each, missing hours as 0, total at least 0 and under 24 hours a row |
| Pointage.FindAgent | Back-end/src/services/PresenceService.ts:60-63 | the first agent with the matricule; none means no agent has it |
| Pointage.Generated | Back-end/src/services/PresenceService.ts:81 | a generated matricule is `AG-` and eight characters |
| Pointage.EntryAgent | Back-end/src/services/PresenceService.ts:55-93 | the entry's agent is an existing one when the matricule is known, otherwise one new agent is appended; the earlier agents are kept |
| Pointage.NewPresence | Back-end/src/services/PresenceService.ts:116-128 | a new presence has no exit, no hours and no exit signature; its shift is `JOUR` when none is given |
| Pointage.Register.constructor | Back-end/src/services/PresenceService.ts:25-29 | the register starts empty |
| Pointage.Register.StateOf | Back-end/src/services/PresenceService.ts:97-113 | a day has no record exactly when no presence is stored for the agent and date |
| Pointage.Register.PointageEntree | Back-end/src/services/PresenceService.ts:33-160 | a missing name is refused; an open or a closed presence today is refused with its own error; a refused entry changes nothing; otherwise the agent is found or created and the day becomes open |
| Pointage.Register.PointageSortie | Back-end/src/services/PresenceService.ts:168-241 | no presence today and an exit already recorded are refused, as is a badly typed exit time; otherwise the open day is closed with the exit time, the hours worked and the signature |
| Pointage.ClosedIsFinal | Back-end/src/services/PresenceService.ts:55-113 | a closed day belongs to a registered agent, so a later entry on it finds that agent, creates none, and is refused |
| IsoWeek.IsoDayOf | Back-end/src/controllers/PlanningController.ts:15 | `getDay() \|\| 7` lies in 1..7 and agrees with the day of the week modulo 7, Sunday being 7 |
| IsoWeek.WeekLater | Back-end/src/controllers/PlanningController.ts:15 | seven days later is the same day of the week |
| IsoWeek.IsoDayAfter | Back-end/src/controllers/PlanningController.ts:15 | moving within one Monday-to-Sunday week moves the day of the week by as much |
| IsoWeek.ThursdayOf | Back-end/src/controllers/PlanningController.ts:15 | the Thursday of the Monday-to-Sunday week holding the date |
| IsoWeek.MondayOf | Back-end/src/controllers/PlanningController.ts:38-39 | the Monday of the week holding the date |
| IsoWeek.CeilDiv7 | Back-end/src/controllers/PlanningController.ts:17 | `Math.ceil(a / 7)` is the least q with a at most 7q |
| IsoWeek.GetIsoWeek | Back-end/src/controllers/PlanningController.ts:12-18 | the week number lies in 1..53; an invalid date gives 1; it is 1 exactly when the week's Thursday is among the first seven days of January |
| IsoWeek.IsoWeekStart | Back-end/src/controllers/PlanningController.ts:89-114 | a valid Monday, whole weeks after the week holding the 4th of January |
| IsoWeek.IsoWeekRoundTrip | Back-end/src/controllers/PlanningController.ts:12-18 | the week number with the week's own year gives back the Monday of the date's week |
| IsoWeek.IsoWeekOfStart | Back-end/src/controllers/PlanningController.ts:12-18 | the Monday of week w (1..52) of a year lies in week w of that year |
| IsoWeek.DaysOfWeek | Back-end/src/controllers/PlanningController.ts:108-109 | day i (0..6) from a week's Monday is the (i+1)-th day of the week, and consecutive indices are consecutive days |
| IsoWeek.MarkerAt | Back-end/src/controllers/PlanningController.ts:91 | the first `-W` of the label, or its length when there is none |
| IsoWeek.WeekField | Back-end/src/controllers/PlanningController.ts:91 | a week field exists only when the label holds `-W` |
| IsoWeek.WeekNumbers | Back-end/src/controllers/PlanningController.ts:91-93 | the parsed year and week number; NaN exactly when the field is missing or either does not parse |
| IsoWeek.LabelReadsBack | Back-end/src/controllers/PlanningController.ts:41 | a week label with its year written alone reads back as the year and week it was made from |
| IsoWeek.LabelField | Back-end/src/controllers/PlanningController.ts:41 | the field after `-W` of a label is its zero-padded week number |
| IsoWeek.JsParseIntOfTwoDigits | Back-end/src/controllers/PlanningController.ts:92 | `parseInt` reads a zero-padded week number back |
| IsoWeek.CalculateDate | Back-end/src/controllers/PlanningController.ts:89-114 | an invalid date exactly when the numbers do not parse; otherwise day `dayIndex` from the Monday of the labelled week |
| IsoWeek.WeekStartAgrees | Back-end/src/controllers/PlanningController.ts:97-106 | the step from the `7(w-1)`-th day after 1 January to a Monday lands on the Monday of week w |
| PlanningImport.FindDate | Back-end/src/controllers/PlanningController.ts:23 | the first `dd/mm/yy` at or after a position; none means no position from there holds one |
| PlanningImport.WeekDateIn | Back-end/src/controllers/PlanningController.ts:23-29 | a heading has a date exactly when some position holds `dd/mm/yy`; its fields are two-digit numbers |
| PlanningImport.FullYear | Back-end/src/controllers/PlanningController.ts:30 | a two-digit year becomes a year of 1950..2049 ending in those digits |
| PlanningImport.FullYearOfShort | Back-end/src/controllers/PlanningController.ts:30 | every year of 1950..2049 is read back from its last two digits |
| PlanningImport.WeekMonday | Back-end/src/controllers/PlanningController.ts:31-39 | the heading's date, rolled over as `new Date` does, moved back to a valid Monday |
| PlanningImport.ExtractWeekNumber | Back-end/src/controllers/PlanningController.ts:20-49 | as written: fails exactly when the heading holds no date; otherwise the heading's year and the ISO week number of its Monday |
| PlanningImport.ExtractYearFromWeek | Back-end/src/controllers/PlanningController.ts:51-63 | as written: the heading's year, or the current year when it holds no date |
| PlanningImport.WeekLabelOffByAYear | Back-end/src/controllers/PlanningController.ts:20-49 | "Semaine du 30/12/24" is labelled `2024-W01`, which reads back (89-114) as the week of 1 January 2024, not the week of 30 December 2024 |
| PlanningImport.ExtractWeekNumberIso | Back-end/src/controllers/PlanningController.ts:20-49 | corrected: fails exactly when the heading holds no date; otherwise the week labelled with the year of its Thursday |
| PlanningImport.ExtractYearFromWeekIso | Back-end/src/controllers/PlanningController.ts:51-63 | corrected: the year of the week's Thursday, or the current year when the heading holds no date |
| PlanningImport.IsoLabelReadsBack | Back-end/src/controllers/PlanningController.ts:89-114 | the corrected label and year read back through `calculateDate` as the Monday of the heading's week |
| PlanningImport.MondayYear | Back-end/src/controllers/PlanningController.ts:31-39 | the Monday of a heading's week is at most two years before the heading's year |
| PlanningImport.IsoYearNear | Back-end/src/controllers/PlanningController.ts:12-18 | a week's year differs from the date's own year by at most one |
| PlanningImport.ShiftHours | Back-end/src/entities/Planning.ts:63-72 | 0, 8 or 10 hours: 10 exactly for `NUIT`, 8 exactly for `JOUR`, `MAT5` and `MAT9`; every other shift, `MAT8` included, gives 0 |
| PlanningImport.NormalizeShiftIdempotent | Back-end/src/controllers/PlanningController.ts:175 | a normalised shift has no lower-case letter and no white space, so normalising it again changes nothing |
| PlanningImport.ShiftOf | Back-end/src/controllers/PlanningController.ts:174-175 | a falsy cell is `OFF`; a text is upper-cased with its white space removed; only a non-zero number stops the import |
| PlanningImport.DayDate | Back-end/src/controllers/PlanningController.ts:178-188 | a valid date: `calculateDate`'s, or today when it is invalid |
| PlanningImport.Remark | Back-end/src/controllers/PlanningController.ts:197-211 | the remark is column 8 when that cell is truthy and none otherwise |
| PlanningImport.DayOf | Back-end/src/controllers/PlanningController.ts:172-198 | day i reads its shift from column i+1 whatever the `MANRDI` header, with the hours of the shift map and the row's remark (`row[8] || null`); it fails exactly when that cell does |
| PlanningImport.RowDays | Back-end/src/controllers/PlanningController.ts:172-199 | one schedule for each day from the given one to Sunday |
| PlanningImport.RowDaysRead | Back-end/src/controllers/PlanningController.ts:172-199 | the days of a row that reads are, in order, each day's own schedule on that day's date |
| PlanningImport.RowDaysFail | Back-end/src/controllers/PlanningController.ts:172-199 | a row fails to read exactly when one of its days does |
| PlanningImport.DaysNamed | Back-end/src/controllers/PlanningController.ts:172-197 | the seven days are named Monday to Sunday and carry the shift map's hours |
| PlanningImport.ComputeDays | Back-end/src/controllers/PlanningController.ts:172-199 | the loop gives the row's seven days, or the first failing day's error |
| PlanningImport.DayStep | Back-end/src/controllers/PlanningController.ts:172-199 | a failing day is the result of the whole row; a day that reads joins the days before it |
| PlanningImport.Distinct | Back-end/src/controllers/PlanningController.ts:201 | the same elements, each once |
| PlanningImport.SumHoursBounds | Back-end/src/controllers/PlanningController.ts:202 | a week's total lies between 0 and seven night shifts |
| PlanningImport.WeekDates | Back-end/src/controllers/PlanningController.ts:178-188 | seven valid dates |
| PlanningImport.WeekDatesInOrder | Back-end/src/controllers/PlanningController.ts:178-188 | a readable week gives Monday..Sunday of that week, one day apart; otherwise every day falls back to today |
| PlanningImport.PlanningDates | Back-end/src/controllers/PlanningController.ts:178-191 | the days of a planning carry the week's dates, in order |
| PlanningImport.Upload | Back-end/src/controllers/PlanningController.ts:224-229 | the count is the number of plannings returned |
| PlanningImport.ParseMultiMonthExcel | Back-end/src/controllers/PlanningController.ts:116-230 | the sheet loop gives the response of the import |
| PlanningImport.ImportSheet | Back-end/src/controllers/PlanningController.ts:134-221 | the row loop of a sheet starts from no week and the year 2025 and gives the rows' scan, with week labels and years as `extractWeekNumber` and `extractYearFromWeek` write them |
| PlanningImport.ImportRow | Back-end/src/controllers/PlanningController.ts:139-220 | one row: a heading moves the week to the label `extractWeekNumber` writes (the heading's year) and lists it once, an agent's row adds its planning, any other row is skipped |
| PlanningImport.StepRowKeeps | Back-end/src/controllers/PlanningController.ts:142-220 | a row keeps the week list free of duplicates and adds only well-formed plannings |
| PlanningImport.WeekRowKeeps | Back-end/src/controllers/PlanningController.ts:147-149 | a heading adds its label to the week list only when the list does not hold it |
| PlanningImport.PlanningWellFormed | Back-end/src/controllers/PlanningController.ts:201-219 | an agent's planning has the trimmed name, seven days Monday to Sunday with the map's hours, their sum as total, the day columns mirroring the shifts, a week label, and the row's remark (`row[8] || null`, truthy or none) on the planning and on each day |
| PlanningImport.ScanRowsKeeps | Back-end/src/controllers/PlanningController.ts:138-221 | scanning rows keeps the week list free of duplicates and every planning well-formed |
| PlanningImport.UploadWellFormed | Back-end/src/controllers/PlanningController.ts:116-230 | every planning an import returns is well-formed, and the weeks it lists are distinct |
| PlanningImport.SheetsKeep | Back-end/src/controllers/PlanningController.ts:122-222 | the same across sheets |
| PlanningImport.SkippedSheetAddsNothing | Back-end/src/controllers/PlanningController.ts:123-126 | a sheet named Octobre, Novembre or Decembre, or without a name, changes nothing wherever it stands in the workbook |
| PlanningImport.NonAgentRowAddsNothing | Back-end/src/controllers/PlanningController.ts:162-171 | a header, blank or non-text row, or a name of white space only, adds no planning |
| PlanningStatistics.CountsAreOccurrences | Back-end/src/controllers/PlanningController.ts:449 | `shiftCounts` holds exactly the shifts that occur, each with its number of occurrences |
| PlanningStatistics.Average | Back-end/src/controllers/PlanningController.ts:454 | the average times the number of agents is the total; with no agent it is 0 |
| PlanningStatistics.GetStats | Back-end/src/controllers/PlanningController.ts:409-465 | the two passes over the rows give the agents, hours, average, presence, shift totals and counts the statistics define |
| PlanningStatistics.AgentsPass | Back-end/src/controllers/PlanningController.ts:418-421 | the first pass gives the distinct agent names and the summed hours |
| PlanningStatistics.ShiftsPass | Back-end/src/controllers/PlanningController.ts:424-450 | the second pass gives the plannings with and without a working day, the day and night shift totals and the count of each shift |
| PlanningStatistics.CountShifts | Back-end/src/controllers/PlanningController.ts:438-450 | the counts after a row's shifts are those of all the shifts seen so far |
| PlanningStatistics.PresentPlusAbsent | Back-end/src/controllers/PlanningController.ts:427-435 | every row is counted once, as present or as absent |
| PlanningStatistics.AgentsAtMostRows | Back-end/src/controllers/PlanningController.ts:410-420 | there are no more distinct agents than rows, and at least one as soon as there is a row |
| PlanningStatistics.NamesOfRows | Back-end/src/controllers/PlanningController.ts:410-420 | a name is among the agents counted exactly when some row carries it |
| PlanningStatistics.PaidShiftIsPresent | Back-end/src/controllers/PlanningController.ts:427-432 | a row with a shift paid hours by the shift map (Back-end/src/entities/Planning.ts:63-72) counts as present |
| PlanningStatistics.ShiftTotalsFromCounts | Back-end/src/controllers/PlanningController.ts:440-449 | the day shifts are the occurrences of `JOUR`, `MAT5`, `MAT8` and `MAT9`, the night shifts those of `NUIT` |
| PlanningStatistics.DayAndNightAtMostShifts | Back-end/src/controllers/PlanningController.ts:440-446 | day and night shifts together are at most the shifts |
| PlanningStatistics.CountsAddUp | Back-end/src/controllers/PlanningController.ts:449 | the values of `shiftCounts` add up to the number of days |
| Calendar.Normalize | Back-end/src/services/ColarysEmployeeService.ts:81 | `new Date(y, m - 1, d)` with a day outside the month: the valid date `d - 1` days after the first of the month |
| Calendar.JsDate | Back-end/src/services/ColarysEmployeeService.ts:150-154 | `new Date(year, monthIndex, day)` is a valid date, whatever the month index and day |
| Calendar.AddDays | Back-end/src/controllers/PlanningController.ts:108-109 | `setDate(getDate() + k)` gives the valid date k days later |
| Calendar.PrevMonth | python-app/col.py:461-473 | the month before lies in 1..12, and the month after it is the month started from |
| ColarysService.ColarysStore.constructor | Back-end/src/services/ColarysEmployeeService.ts:7-11 | the store holds the employees, attendance and salary entries it is given |

## Left out

- File and JSON I/O, the database (TypeORM repositories, transactions, Supabase queries), HTTP
  plumbing, logging, the Qt widgets and the PDF exports: stored data are fields or parameters,
  and a route's answer is its status and the data it carries.
- The database filters of `getStats` and `getStatistiques` (name, year, month, week, shift): only
  the rows a query returns are modelled, each planning day by its shift text.
- Concurrency between requests: every operation runs alone, as the single-threaded server runs it.
- Floating point: amounts and hours are real numbers; NaN appears only as an explicit `None`
  where the source tests for it, and a NaN stored as JSON `null` is not modelled.
- JavaScript numbers written in forms other than plain decimals (exponents, hexadecimal,
  `Infinity`) and dates outside the range JavaScript's `Date` can represent.
- Time zones and daylight saving: `toISOString`, `toLocaleDateString` and the local clock are
  taken to agree, so "today" is one date parameter.
- Unicode case mapping: upper- and lower-casing act on ASCII letters only.
- A matricule stored as a JSON number is treated as missing (the stores hold it as text).
- `PresenceController` and the other controllers and services of the back end delegate to the
  ORM without logic of their own; the check of the database column types for the time fields
  is not modelled.
- `agentOrder` in the planning import is set and never read, and the `MANRDI` header test
  changes nothing (both of its branches read the same column); neither is modelled further.
- `shiftCounts` in `getStats` is a plain JavaScript object: shift names that are
  `Object.prototype` properties, and days without a shift, are not modelled.
- The planning import's cells are text, numbers or blank: a NaN cell and the boolean cells
  `sheet_to_json` can also give (a `true` shift throws at `toUpperCase`, a `false` one reads
  as `OFF`) are not modelled.
- The routes of the Python API that only read (`/`, `GET /employes`, `GET /employes/{m}`,
  `GET /salaires/{y}/{m}`, `/statistiques`, `/health`) and `start_api.py`, `config.py` and
  `Compter.java` hold no rules beyond loading data.
- The desktop application's month names from `QLocale` in `parse_month`: only the numeric
  branch is modelled.
- NumberParsing.TsParseInt: a number stored as text with a fractional part is outside its domain
  (`WholeText`), because `toString` of such a number is not modelled.
- NumberParsing.PyParseInt: the same restriction as `TsParseInt`.
- NumberParsing.PyParseFloat / PyParseInt: only plain decimal texts are read as Python reads
  them. `PyParseFloat` gives the default for exponents ("2.5e1"), "inf", "nan" and digit-group
  underscores ("1_000"), which Python's `float` accepts; `PyParseInt` drops the non-ASCII
  digits that `isdigit()` keeps. JSON booleans, which `isinstance(True, (int, float))` reads
  as 1, are not values of the model.
- Pointage.Round2: `toFixed(2)` is modelled as rounding half up, which agrees with the source
  only away from the binary representation of exact halves.
- ColarysController.JoursOffFor: the source's planning lookup is a stub answering no dates,
  so the synchronisation writes nothing and `synchronises` is always 0.

## Findings

| source | as written | input that shows it | evidently intended | confidence | as-written member | corrected member |
|---|---|---|---|---|---|---|
| python-app/col.py:1472, 1489-1492 | start-up runs the stamp-based accrual and then adds 2.5 days again when the stored month is not the current one | an employee with balance 10 stamped last month: the first start-up of the month leaves 15 | each month credited once: 12.5 | not executed | DesktopApp.MainWindow.Startup, DesktopApp.StartupCreditsTwice | DesktopApp.MainWindow.StartupCorrected, DesktopApp.StartupCorrectedCreditsOnce |
| Back-end/src/controllers/PlanningController.ts:20-49, 51-63 | the week label uses the year written in the heading | "Semaine du 30/12/24" gives `2024-W01`, which `calculateDate` (89-114) reads as the week of 1 January 2024 | the ISO week-year, `2025-W01` | not executed | PlanningImport.ExtractWeekNumber, PlanningImport.WeekLabelOffByAYear | PlanningImport.ExtractWeekNumberIso, PlanningImport.IsoLabelReadsBack |
