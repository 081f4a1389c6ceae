# Weekly timetabling with CP-SAT: a Dafny model

This project models the core of the OR-Tools weekly timetabling pipeline and proves what it
promises. The pipeline is organised around four components.

- `load_problem.py` reads the teachers and the hard and soft constraint records out of the
  problem description.
- `SchedulingModel` (`model.py`) builds a CP-SAT model. It declares ten integer variables per
  teacher, one for each (weekday, period) slot, each worth 0 to 2 hours. It then adds three
  families of constraints:
  - a slot on a day the teacher does not list is forced to 0;
  - the ten slots sum to the teacher's required hours;
  - two indicator booleans per day are tied to "morning > 0" and "afternoon > 0", and their
    sum is at most 1.

  Finally it sets a maximize or minimize objective over the slots of the listed days.
- `SchedulingSolver` (`solver.py`) turns the solver status into a success flag. It extracts,
  per teacher, the positive slots in day/period order and their total.
- `visualize.py` re-checks an extracted solution: every stored total equals its required hours,
  and no teacher uses a day twice. It also lays the slots out on a five-day, two-period grid.

The CP-SAT model is represented as data: a `CpModel` object holds the variable domains, the
linear constraints (with optional enforcement literals) and the objective. Variables are
numbered in creation order. `Satisfies(domains, constraints, values)` says what a solution of
that model is. The solver's search is not modelled: `Solve` receives CP-SAT's answer (a status
and, on success, one value per variable) as a parameter.

The main results:

- **What the constraints mean** (`ModelFacts.ModelMeaning`). A valuation within the declared
  domains satisfies every generated constraint exactly when four things hold:
  - unlisted days are idle;
  - every teacher's ten slots sum to its required hours;
  - the indicators agree with "slot > 0";
  - no teacher has both periods of one day positive.
- **When a timetable exists** (`Feasibility.SatisfiableIffWithinCapacity`). The built model
  has a solution exactly when every teacher's required hours lie between 0 and twice the
  number of weekdays it lists.
- **End to end** (`Pipeline`). Any solution of the built model, once extracted, passes
  `validate_solution`. It never places a teacher on a day it did not list, and it fills the
  five-by-two grid without a KeyError.

Behaviour of the code worth knowing:

- `validate_solution` is documented as checking that the solution respects all the
  constraints (`ortools/visualize.py:71-76`). The code compares the stored
  `total_hours_assigned` with `hours_required` and does not recompute the sum of the
  entries' hours, so a record whose total was altered to match the requirement passes. The
  model follows the code.
- A teacher's weekly capacity is 2 hours per listed weekday: one period per day, at most 2
  hours each. `Feasibility.TwoDayTeacher` shows it: a teacher listing Monday and Wednesday
  can be given 4 hours, but not 6.
- Available-day entries that are not weekday names are ignored by `constraint_availability`.
  They make `add_objective` raise KeyError.
- The slot dictionary is keyed by teacher name, so when two teachers share a name the later
  position's variables win. `hours_required` and `availability` also keep the last record
  with a name. The extraction still emits one record per position, reading the shared
  variables.

## Model

| member | source | states |
|---|---|---|
| LoadProblem.ExtractTeachersInfo | ortools/load_problem.py:25-39 | names and subjects are listed one per record in input order; the hours and availability maps have exactly the listed names as keys and hold the values of the last record with each name |
| LoadProblem.ByNameLastWins | ortools/load_problem.py:36-37 | a dict comprehension keyed by name maps each name to the field of the last record carrying it |
| LoadProblem.OfKind | ortools/load_problem.py:50-51 | the filtered list holds exactly the records of that type, each as many times as the input holds it, in input order (a subsequence of the input) |
| LoadProblem.ExtractConstraintsInfo | ortools/load_problem.py:41-61 | the hard list holds exactly the records typed "hard", the soft list exactly those typed "soft", each as many times as the input holds it, both in input order |
| LoadProblem.HardSoftPartition | ortools/load_problem.py:50-51 | no record is both hard and soft, and the two lists together are no longer than the input |
| CpSat.CpModel.NewIntVar | ortools/model.py:54 | a new variable is numbered after all earlier ones and gets the requested domain |
| CpSat.CpModel.NewBoolVar | ortools/model.py:122-123 | a new boolean is numbered after all earlier variables with domain 0..1 |
| CpSat.CpModel.Add | ortools/model.py:84 | the constraint is appended and nothing else changes |
| CpSat.CpModel.SetObjective | ortools/model.py:164 | the objective is replaced |
| CpSat.AllHoldAppend | ortools/model.py:58-69 | a concatenation of constraint lists holds exactly when both parts hold |
| Model.SchedulingModel.constructor | ortools/model.py:8-36 | loads the teacher info, then leaves exactly the generated variables and constraints; records whether `add_objective` fails with KeyError and otherwise sets the objective that the objective kind selects |
| Model.SchedulingModel.Build | ortools/model.py:26-36 | from an empty CP-SAT model: the slot map, the 20 variables per teacher, the generated constraints and the objective, or the KeyError flag |
| Model.SchedulingModel.CreateVariables | ortools/model.py:38-56 | ten 0..2 variables per teacher position, numbered in loop order; the slot map gains each teacher's ten keys |
| Model.SchedulingModel.CreateTeacherVariables | ortools/model.py:50-54 | one teacher's ten slot variables, day by day and morning before afternoon |
| Model.SchedulingModel.AddConstraints | ortools/model.py:58-69 | appends the availability, hours and one-period-per-day constraints in that order, plus the indicator booleans |
| Model.SchedulingModel.ConstraintAvailability | ortools/model.py:71-87 | appends one `slot == 0` per period of each unlisted day; the returned count is the number appended |
| Model.SchedulingModel.ForbidUnavailableDays | ortools/model.py:79-85 | for one teacher, the zero constraints of every weekday its list omits |
| Model.SchedulingModel.ForbidDay | ortools/model.py:80-85 | a listed day adds nothing; an unlisted day adds both of its periods' zero constraints |
| Model.SchedulingModel.ConstraintHoursRequired | ortools/model.py:89-108 | one equality per teacher position: its ten slots sum to its required hours |
| Model.SchedulingModel.WeekVariables | ortools/model.py:100-103 | the teacher's ten slot variables in day/period order |
| Model.SchedulingModel.ConstraintOneSlotPerDay | ortools/model.py:110-137 | two new booleans per teacher and day, four enforced links and one at-most-one sum; the count is 5 per teacher |
| Model.SchedulingModel.ExclusiveDays | ortools/model.py:119-135 | the indicator constraints of one teacher's five days |
| Model.SchedulingModel.LinkDay | ortools/model.py:122-134 | two fresh booleans and the five constraints tying them to one day's morning and afternoon slots |
| Model.SchedulingModel.AddObjective | ortools/model.py:139-169 | fails (KeyError) exactly when some listed day is not a weekday; otherwise maximizes or minimizes the sum of the listed days' slots for "maximize"/"minimize" and leaves the objective unchanged for any other kind |
| Model.SchedulingModel.TeacherLookups | ortools/model.py:154-160 | the slot lookups for one teacher's listed days succeed exactly when every key exists, and then yield their variables in order |
| Model.SchedulingModel.DayLookups | ortools/model.py:156-160 | the two lookups for one listed day succeed exactly when both keys exist |
| ModelFacts.SlotVarsValue | ortools/model.py:49-54 | slot (t, day, period) is variable 10 × (last position of t) + 2 × day + period |
| ModelFacts.SlotVarsCount | ortools/model.py:49-56 | the slot map has 10 × (number of distinct teacher names) keys |
| ModelFacts.DistinctSlotCount | ortools/model.py:49-56 | with distinct names, `len(self.slots)` is 10 × the number of teachers |
| ModelFacts.BuiltTyped | ortools/model.py:49-54 | values within the declared domains put every slot in 0..2 and every indicator in 0..1 |
| ModelFacts.AvailabilityMeaning | ortools/model.py:77-85 | the availability constraints hold exactly when both slots of every unlisted weekday are 0 |
| ModelFacts.AvailabilityCount | ortools/model.py:77-87 | the availability constraints number 2 × (teacher, unlisted weekday) pairs |
| ModelFacts.NonDayEntryIgnored | ortools/model.py:79-81 | an available-day entry that is not a weekday changes no availability constraint |
| ModelFacts.HoursMeaning | ortools/model.py:95-106 | one hours constraint per teacher, and they hold exactly when each teacher's ten slots sum to its required hours |
| ModelFacts.PairExclusiveMeaning | ortools/model.py:122-134 | the same equivalence for the five constraints over any two slot variables and their two indicators |
| ModelFacts.DayExclusiveMeaning | ortools/model.py:122-134 | for 0/1 indicators and nonnegative slots, a day's five constraints hold exactly when each indicator is 1 iff its slot is positive and the two slots are not both positive |
| ModelFacts.OneSlotMeaning | ortools/model.py:118-135 | the one-period-per-day constraints hold exactly when all indicators match their slots and no teacher uses both periods of a day |
| ModelFacts.ObjectiveLookupsMeaning | ortools/model.py:153-160 | the objective's lookups all succeed exactly when every listed day is a weekday name |
| ModelFacts.NonDayEntryBreaksObjective | ortools/model.py:156-159 | a listed entry that is not a weekday makes the objective's lookups fail |
| ModelFacts.ObjectiveTermsListed | ortools/model.py:151-160 | the objective sums exactly the slot variables of days a teacher lists |
| ModelFacts.ModelMeaning | ortools/model.py:58-137 | within the domains, the generated constraints hold exactly when unlisted days are idle, hours are met, indicators match and no day uses both periods |
| Feasibility.DaysBound | ortools/model.py:77-135 | a valuation obeying the rules gives a teacher between 0 and 2 × (listed weekdays) hours |
| Feasibility.SolutionWithinCapacity | ortools/model.py:77-135 | any solution of the built model has every teacher's required hours within 0 .. 2 × listed weekdays |
| Feasibility.WitnessSolves | ortools/model.py:49-135 | when every teacher fits, filling mornings of listed days in order solves the built model |
| Feasibility.SatisfiableIffWithinCapacity | ortools/model.py:49-135 | the built model is satisfiable exactly when every teacher's hours lie in 0 .. 2 × listed weekdays |
| Feasibility.TwoDayTeacher | ortools/model.py:77-135 | a teacher listing Monday and Wednesday can be given 4 hours but not 6 or 18 |
| Solver.SchedulingSolver.constructor | ortools/solver.py:9-18 | keeps the model; no answer yet and `solution` is None |
| Solver.SchedulingSolver.Solve | ortools/solver.py:20-57 | stores the answer and returns true exactly for OPTIMAL or FEASIBLE |
| Solver.StatusNameSolved | ortools/solver.py:66-67 | the status name is in ['OPTIMAL', 'FEASIBLE'] exactly for those two statuses |
| Solver.SchedulingSolver.ExtractSolution | ortools/solver.py:59-115 | None, with `solution` untouched, unless the status is OPTIMAL or FEASIBLE; otherwise one record per teacher position in order (name, subject of the first position with that name, required hours, positive slots, their total), stored in `solution` |
| Solver.SchedulingSolver.ExtractSchedules | ortools/solver.py:81-108 | one record per teacher position, in order |
| Solver.SchedulingSolver.TeacherSlots | ortools/solver.py:90-105 | the day/period loops yield the teacher's positive slots and the sum of their hours |
| Solver.BuiltExtractable | ortools/solver.py:82-94 | for a built model and a full answer, every name, subject, hours entry and slot the extraction reads exists |
| Solver.PositiveSlotsExactly | ortools/solver.py:92-103 | an entry (day, period, h) is extracted exactly when that slot's value is h > 0 |
| Solver.PositiveSlotsOrdered | ortools/solver.py:92-103 | the entries are weekday/period pairs in strictly increasing day/period order, each with a positive value equal to its slot's |
| Solver.TotalIsSlotHours | ortools/solver.py:90-105 | the total is the sum of the entries' hours |
| Solver.TotalIsWeekTotal | ortools/solver.py:90-105 | with no negative slot value, the total is the sum of all ten slots |
| Seqs.ToSetCard | ortools/visualize.py:97 | `len(set(s)) <= len(s)`, with equality exactly when no element repeats |
| Visualize.ValidateSolution | ortools/visualize.py:70-115 | the errors are every hours mismatch in teacher order, followed by every repeated-day error; the result is true exactly when there is none |
| Visualize.RepeatsDayMeaning | ortools/visualize.py:96-97 | the `len != len(set)` test fires exactly when two of the teacher's entries share a day |
| Visualize.HoursErrorsExactly | ortools/visualize.py:85-92 | an hours error is reported exactly for each record whose stored total differs from its required hours, naming it |
| Visualize.HoursErrorsCount | ortools/visualize.py:85-92 | the hours loop records exactly one error per record whose stored total differs from its required hours |
| Visualize.DayErrorsCount | ortools/visualize.py:95-100 | the duplicate-day loop records exactly one error per record that repeats a day |
| Visualize.DayErrorsExactly | ortools/visualize.py:95-100 | a repeated-day error is reported exactly for each record that repeats a day, naming it |
| Visualize.ValidIffAllPass | ortools/visualize.py:81-115 | the solution is valid exactly when every record's stored total equals its required hours and no record repeats a day |
| Visualize.EmptyGridShape | ortools/visualize.py:17-21 | the five weekdays, each with its two periods, every cell "-" |
| Visualize.CreateWeeklyGrid | ortools/visualize.py:10-34 | applies each slot write in teacher and slot order, stopping with KeyError at a day that is not a grid row |
| Visualize.FillSlots | ortools/visualize.py:28-32 | one record's slot writes, in slot order, applied to the grid the earlier writes built; the first write to a day that is not a row ends everything with KeyError |
| Visualize.LastWriteMeaning | ortools/visualize.py:28-32 | a cell's last write is the write to it that no later write overwrites; a cell never written has none |
| Visualize.GridOutcome | ortools/visualize.py:21-32 | the grid fills exactly when every written day is a weekday, then shows each cell's last write and "-" elsewhere (an unknown period adds a cell); otherwise the KeyError names the first unknown day |
| Visualize.WeekdayGrid | ortools/visualize.py:17-32 | writes to weekday/period cells only keep the grid five rows of two cells |
| Pipeline.NoRepeatedDay | ortools/solver.py:92-103 | with at most one positive period per day, the extracted entries never repeat a day |
| Pipeline.NoUnavailableDay | ortools/solver.py:92-103 | with unlisted days idle, every extracted entry lies on a listed weekday |
| Pipeline.ExtractedPasses | ortools/solver.py:81-108 | for a solution of the built model, every extracted record has total = required hours, no repeated day and only listed days |
| Pipeline.ExtractedIsValid | ortools/visualize.py:70-115 | `validate_solution` reports no error for a solution of the built model |
| Pipeline.ExtractedGrid | ortools/visualize.py:10-34 | the grid of such a solution fills without KeyError and keeps its five rows of two cells |

## Left out

- Reading the JSON problem file (`load_problem_data`) and every `print`: the model starts from the parsed problem value.
- The CP-SAT search itself: `Solve` takes the solver's answer as a parameter.
- The search's `time_limit_seconds` and the solver parameters it sets.
- `ObjectiveValue`, `WallTime` and the solution's `objective_value` and `solve_time_seconds` fields: these are floating-point or clock readings.
- Solver.SchedulingSolver.ExtractSolution: requires that a successful answer carries one value per model variable. CP-SAT guarantees this and the source relies on it.
- Model.SchedulingModel.constructor: a KeyError raised by `add_objective` aborts `__init__` in the source. The model instead records it in `objectiveKeyError` and leaves the objective unset.
- Slot keys use the position of the day in the weekday list and of the period in the period list instead of their names. The objective's lookup of an arbitrary listed day goes through that position, and fails when the name is not a weekday.
- Cell text: a grid cell holds (teacher name, subject, hours). The formatted `"first name\nsubject\n(hours h)"` string is not built, so `name.split()[0]` and its IndexError on a blank name are not modelled.
- The French error messages of `validate_solution`: each error is a `ValidationError` value carrying the name and, for a wrong total, the two hour counts the message prints.
- The names given to CP-SAT variables (`"{teacher}_{day}_{period}"` and the `_morning_used` / `_afternoon_used` indicators): variables are identified by their creation number only.
- The `warnings` list of `validate_solution` stays empty in the source and is not modelled.
- `hours_per_slot`, which the source sets but never reads.
- `display_grid_table`, `display_teacher_schedules`, `export_to_csv`, `load_solution` and `main.py`: presentation and I/O outside the core.
- The first exercise and the language-model agents are not part of this model.
