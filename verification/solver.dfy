/**
 * The solver wrapper (`SchedulingSolver`): `solve` reports whether CP-SAT found a
 * solution, `extract_solution` reads one schedule per teacher out of the solver's values.
 *
 * The search is not modelled: `Solve` receives CP-SAT's answer (a status and one value
 * per variable) as a parameter. The functions before the class say what the extraction
 * loops produce; the lemmas after it state what that output promises.
 */
module Solver {
  import opened Seqs
  import opened Week
  import opened CpSat
  import opened Model
  import opened ModelFacts
  import opened Schedule

  /** The entry `extract_solution` writes for slot `k` of the day/period loops. */
  function SlotEntry(k: nat, hours: int): (e: TimeSlot)
    requires k < WeekSlots
  {
    TimeSlot(Days[k / 2], Periods[k % 2], hours)
  }

  /** The entries for teacher `t`'s first `k` slots: one per positive value, in loop order. */
  function PositiveSlots(values: seq<int>, slots: SlotMap, t: string, k: nat): seq<TimeSlot>
    requires k <= WeekSlots && WeekBelow(slots, t, |values|)
  {
    if k == 0 then []
    else
      var v := SlotValue(values, slots, t, k - 1);
      PositiveSlots(values, slots, t, k - 1) + if v > 0 then [SlotEntry(k - 1, v)] else []
  }

  /** `total_hours` after the first `k` slots: the sum of the positive values among them. */
  function PositiveTotal(values: seq<int>, slots: SlotMap, t: string, k: nat): int
    requires k <= WeekSlots && WeekBelow(slots, t, |values|)
  {
    if k == 0 then 0
    else
      var v := SlotValue(values, slots, t, k - 1);
      PositiveTotal(values, slots, t, k - 1) + if v > 0 then v else 0
  }

  /** What the extraction can read: a subject per teacher position, required hours and slot values for every teacher. */
  predicate Extractable(ts: seq<string>, subjects: seq<string>, hours: map<string, int>, slots: SlotMap, values: seq<int>) {
    |subjects| == |ts| && (forall t :: t in ts ==> t in hours) && SlotsBelow(slots, ts, |values|)
  }

  /**
   * The record for teacher `t`: the subject of the first position holding its name, its
   * required hours, its positive slots and their total.
   */
  function ScheduleOf(ts: seq<string>, subjects: seq<string>, hours: map<string, int>, slots: SlotMap, values: seq<int>, t: string): TeacherSchedule
    requires Extractable(ts, subjects, hours, slots, values) && t in ts
  {
    TeacherSchedule(t, subjects[FirstIndex(ts, t)], hours[t],
      PositiveSlots(values, slots, t, WeekSlots), PositiveTotal(values, slots, t, WeekSlots))
  }

  /** The records for the first `n` teacher positions, in order. */
  function Schedules(ts: seq<string>, subjects: seq<string>, hours: map<string, int>, slots: SlotMap, values: seq<int>, n: nat): (r: seq<TeacherSchedule>)
    requires Extractable(ts, subjects, hours, slots, values) && n <= |ts|
    ensures |r| == n && forall i :: 0 <= i < n ==> r[i] == ScheduleOf(ts, subjects, hours, slots, values, ts[i])
  {
    seq(n, i requires 0 <= i < n => ScheduleOf(ts, subjects, hours, slots, values, ts[i]))
  }

  lemma SchedulesSnoc(ts: seq<string>, subjects: seq<string>, hours: map<string, int>, slots: SlotMap, values: seq<int>, n: nat)
    requires Extractable(ts, subjects, hours, slots, values) && n < |ts|
    ensures Schedules(ts, subjects, hours, slots, values, n + 1) ==
      Schedules(ts, subjects, hours, slots, values, n) + [ScheduleOf(ts, subjects, hours, slots, values, ts[n])]
  {
  }

  /** One more step of the day/period loops: what it appends to the entries and adds to the total. */
  lemma PositiveSlotsSnoc(values: seq<int>, slots: SlotMap, t: string, k: nat, d: nat, p: nat,
                          before: seq<TimeSlot>, total: int, after: seq<TimeSlot>, total': int)
    requires k < WeekSlots && WeekBelow(slots, t, |values|) && d < |Days| && p < |Periods| && k == 2 * d + p
    requires before == PositiveSlots(values, slots, t, k) && total == PositiveTotal(values, slots, t, k)
    requires var v := values[slots[SlotKeyAt(t, k)]];
      after == (if v > 0 then before + [TimeSlot(Days[d], Periods[p], v)] else before) &&
      total' == (if v > 0 then total + v else total)
    ensures after == PositiveSlots(values, slots, t, k + 1) && total' == PositiveTotal(values, slots, t, k + 1)
  {
    SlotKeyAtDayPeriod(t, k, d, p);
  }

  /** The status names for which `extract_solution` goes on. */
  const SolvedNames: seq<string> := ["OPTIMAL", "FEASIBLE"]

  class SchedulingSolver {
    const modelInstance: SchedulingModel
    /** The last answer of `self.solver`: its status and, after a success, one value per variable. */
    var response: SolveResponse
    /** `self.solution`: the last extracted solution. */
    var solution: Option<Solution>

    /** A successful answer carries one value per variable of the model. */
    ghost predicate Answered()
      reads this, modelInstance.model
    {
      (response.status == Optimal || response.status == Feasible) ==> |response.values| == |modelInstance.model.domains|
    }

    constructor (model: SchedulingModel)
      ensures modelInstance == model && response == SolveResponse(Unknown, []) && solution == None
    {
      modelInstance, response, solution := model, SolveResponse(Unknown, []), None;
    }

    /** `solve`: stores CP-SAT's answer and reports whether it holds a solution. */
    method Solve(outcome: SolveResponse) returns (found: bool)
      requires (outcome.status == Optimal || outcome.status == Feasible) ==> |outcome.values| == |modelInstance.model.domains|
      modifies this`response
      ensures response == outcome && Answered()
      ensures found <==> outcome.status == Optimal || outcome.status == Feasible
    {
      response := outcome;
      match outcome.status
      case Optimal => found := true;
      case Feasible => found := true;
      case Infeasible => found := false;
      case ModelInvalid => found := false;
      case Unknown => found := false;
    }

    /** `extract_solution`: None unless the status is OPTIMAL or FEASIBLE, else one record per teacher position. */
    method ExtractSolution() returns (r: Option<Solution>)
      requires modelInstance.Built() && Answered()
      modifies this`solution
      ensures StatusName(response.status) !in SolvedNames ==> r == None && solution == old(solution)
      ensures StatusName(response.status) in SolvedNames ==>
        var m := modelInstance;
        Extractable(m.teachers, m.subjects, m.hoursRequired, m.slots, response.values) &&
        r == Some(Solution(m.data.problemName, StatusName(response.status),
          Schedules(m.teachers, m.subjects, m.hoursRequired, m.slots, response.values, |m.teachers|))) &&
        solution == r
    {
      if StatusName(response.status) !in SolvedNames {
        return None;
      }
      var m := modelInstance;
      StatusNameSolved(response.status);
      BuiltExtractable(m, response.values);
      var schedules := ExtractSchedules();
      r := Some(Solution(m.data.problemName, StatusName(response.status), schedules));
      solution := r;
    }

    /** `extract_solution`'s loop over the teacher positions. */
    method ExtractSchedules() returns (schedules: seq<TeacherSchedule>)
      requires Extractable(modelInstance.teachers, modelInstance.subjects, modelInstance.hoursRequired, modelInstance.slots, response.values)
      ensures schedules == Schedules(modelInstance.teachers, modelInstance.subjects, modelInstance.hoursRequired,
        modelInstance.slots, response.values, |modelInstance.teachers|)
    {
      var m := modelInstance;
      schedules := [];
      for i := 0 to |m.teachers|
        invariant schedules == Schedules(m.teachers, m.subjects, m.hoursRequired, m.slots, response.values, i)
      {
        var teacher := m.teachers[i];
        assert WeekBelow(m.slots, teacher, |response.values|) by { assert teacher in m.teachers; }
        var timeSlots, total := TeacherSlots(teacher);
        var s := TeacherSchedule(teacher, m.subjects[FirstIndex(m.teachers, teacher)], m.hoursRequired[teacher], timeSlots, total);
        SchedulesSnoc(m.teachers, m.subjects, m.hoursRequired, m.slots, response.values, i);
        schedules := schedules + [s];
      }
    }

    /** The day/period loops of `extract_solution` for one teacher: its positive slots and their total. */
    method TeacherSlots(teacher: string) returns (timeSlots: seq<TimeSlot>, total: int)
      requires WeekBelow(modelInstance.slots, teacher, |response.values|)
      ensures timeSlots == PositiveSlots(response.values, modelInstance.slots, teacher, WeekSlots)
      ensures total == PositiveTotal(response.values, modelInstance.slots, teacher, WeekSlots)
    {
      var values, slots := response.values, modelInstance.slots;
      timeSlots, total := [], 0;
      ghost var k := 0;
      for d := 0 to |Days|
        invariant k == 2 * d
        invariant timeSlots == PositiveSlots(values, slots, teacher, k)
        invariant total == PositiveTotal(values, slots, teacher, k)
      {
        for p := 0 to |Periods|
          invariant k == 2 * d + p
          invariant timeSlots == PositiveSlots(values, slots, teacher, k)
          invariant total == PositiveTotal(values, slots, teacher, k)
        {
          SlotKeyAtDayPeriod(teacher, k, d, p);
          ghost var before, total0 := timeSlots, total;
          var hours := values[slots[(teacher, d, p)]];
          if hours > 0 {
            timeSlots := timeSlots + [TimeSlot(Days[d], Periods[p], hours)];
            total := total + hours;
          }
          PositiveSlotsSnoc(values, slots, teacher, k, d, p, before, total0, timeSlots, total);
          k := k + 1;
        }
      }
    }
  }

  // ---------------------------------------------------------------- what the extraction promises

  /** `extract_solution` goes on exactly when `solve` reported success. */
  lemma StatusNameSolved(s: Status)
    ensures StatusName(s) in SolvedNames <==> s == Optimal || s == Feasible
  {
    assert StatusName(s) in SolvedNames ==> StatusName(s) == "OPTIMAL" || StatusName(s) == "FEASIBLE";
  }

  /** A built model with a successful answer has everything the extraction reads. */
  lemma BuiltExtractable(m: SchedulingModel, values: seq<int>)
    requires m.Built() && |values| == |m.model.domains|
    ensures Extractable(m.teachers, m.subjects, m.hoursRequired, m.slots, values)
  {
    SlotVarsBelow(m.teachers, 0);
    forall t | t in m.teachers ensures t in m.hoursRequired {
      assert t in ToSet(m.teachers);
    }
  }

  /** Different loop positions or hours give different entries. */
  lemma SlotEntryInjective(j: nat, h: int, k: nat, g: int)
    requires j < WeekSlots && k < WeekSlots
    ensures SlotEntry(j, h) == SlotEntry(k, g) <==> j == k && h == g
  {
    if SlotEntry(j, h) == SlotEntry(k, g) {
      DaysDistinct();
      PeriodsDistinct();
      assert Days[j / 2] == Days[k / 2] && Periods[j % 2] == Periods[k % 2];
      assert j / 2 == k / 2 && j % 2 == k % 2;
    }
  }

  /**
   * Slot `j` has an entry, with hours `h`, exactly when it was reached and its value is the
   * positive number `h`: slots with value 0 produce no entry, and no slot produces two.
   */
  lemma {:induction false} PositiveSlotsExactly(values: seq<int>, slots: SlotMap, t: string, k: nat, j: nat, h: int)
    requires k <= WeekSlots && j < WeekSlots && WeekBelow(slots, t, |values|)
    ensures SlotEntry(j, h) in PositiveSlots(values, slots, t, k) <==>
      j < k && h > 0 && SlotValue(values, slots, t, j) == h
  {
    if k > 0 {
      var e := k - 1;
      PositiveSlotsExactly(values, slots, t, e, j, h);
      PositiveSlotsExactlyStep(values, slots, t, e, j, h);
      assert e + 1 == k;
    }
  }

  lemma PositiveSlotsExactlyStep(values: seq<int>, slots: SlotMap, t: string, k: nat, j: nat, h: int)
    requires k < WeekSlots && j < WeekSlots && WeekBelow(slots, t, |values|)
    requires SlotEntry(j, h) in PositiveSlots(values, slots, t, k) <==> j < k && h > 0 && SlotValue(values, slots, t, j) == h
    ensures SlotEntry(j, h) in PositiveSlots(values, slots, t, k + 1) <==>
      j < k + 1 && h > 0 && SlotValue(values, slots, t, j) == h
  {
    var v := SlotValue(values, slots, t, k);
    var added := if v > 0 then [SlotEntry(k, v)] else [];
    assert PositiveSlots(values, slots, t, k + 1) == PositiveSlots(values, slots, t, k) + added;
    SlotEntryInjective(j, h, k, v);
  }

  /** The position of an entry's slot in the day/period loops. */
  function Rank(e: TimeSlot): (k: nat)
    requires e.day in Days && e.period in Periods
    ensures k < WeekSlots
  {
    2 * DayIndex(e.day) + PeriodIndex(e.period)
  }

  lemma RankOf(k: nat, h: int)
    requires k < WeekSlots
    ensures SlotEntry(k, h).day in Days && SlotEntry(k, h).period in Periods && Rank(SlotEntry(k, h)) == k
  {
    DayIndexOf(k / 2);
    PeriodIndexOf(k % 2);
  }

  /** `e` is the entry of a slot before `k` whose value is the positive number `e.hours`. */
  predicate EntryBelow(e: TimeSlot, values: seq<int>, slots: SlotMap, t: string, k: nat)
    requires WeekBelow(slots, t, |values|)
  {
    e.day in Days && e.period in Periods && Rank(e) < k && e == SlotEntry(Rank(e), e.hours) &&
    e.hours > 0 && e.hours == SlotValue(values, slots, t, Rank(e))
  }

  /** Strictly increasing slot positions: day order, and within a day matin before après-midi. */
  predicate Ascending(es: seq<TimeSlot>) {
    forall i, j :: 0 <= i < j < |es| ==>
      es[i].day in Days && es[i].period in Periods && es[j].day in Days && es[j].period in Periods &&
      Rank(es[i]) < Rank(es[j])
  }

  /**
   * Entries name a weekday and a period, carry the positive value of their slot, and come in
   * strict day/period order (Lundi to Vendredi, matin before après-midi).
   */
  lemma {:induction false} PositiveSlotsOrdered(values: seq<int>, slots: SlotMap, t: string, k: nat)
    requires k <= WeekSlots && WeekBelow(slots, t, |values|)
    ensures var es := PositiveSlots(values, slots, t, k);
      (forall i :: 0 <= i < |es| ==> EntryBelow(es[i], values, slots, t, k)) && Ascending(es)
  {
    if k > 0 {
      var e := k - 1;
      PositiveSlotsOrdered(values, slots, t, e);
      PositiveSlotsOrderedStep(values, slots, t, e);
      assert e + 1 == k;
    }
  }

  lemma PositiveSlotsOrderedStep(values: seq<int>, slots: SlotMap, t: string, k: nat)
    requires k < WeekSlots && WeekBelow(slots, t, |values|)
    requires var es := PositiveSlots(values, slots, t, k);
      (forall i :: 0 <= i < |es| ==> EntryBelow(es[i], values, slots, t, k)) && Ascending(es)
    ensures var es := PositiveSlots(values, slots, t, k + 1);
      (forall i :: 0 <= i < |es| ==> EntryBelow(es[i], values, slots, t, k + 1)) && Ascending(es)
  {
    var before, v := PositiveSlots(values, slots, t, k), SlotValue(values, slots, t, k);
    EntriesGrow(before, values, slots, t, k);
    if v > 0 {
      RankOf(k, v);
      AppendEntry(before, SlotEntry(k, v), values, slots, t, k);
      assert PositiveSlots(values, slots, t, k + 1) == before + [SlotEntry(k, v)];
    } else {
      assert PositiveSlots(values, slots, t, k + 1) == before;
    }
  }

  lemma EntriesGrow(es: seq<TimeSlot>, values: seq<int>, slots: SlotMap, t: string, k: nat)
    requires WeekBelow(slots, t, |values|)
    requires forall i :: 0 <= i < |es| ==> EntryBelow(es[i], values, slots, t, k)
    ensures forall i :: 0 <= i < |es| ==> EntryBelow(es[i], values, slots, t, k + 1)
  {
  }

  /** Appending the entry of slot `k` after entries of earlier slots keeps them ascending. */
  lemma AppendEntry(es: seq<TimeSlot>, e: TimeSlot, values: seq<int>, slots: SlotMap, t: string, k: nat)
    requires WeekBelow(slots, t, |values|)
    requires forall i :: 0 <= i < |es| ==> EntryBelow(es[i], values, slots, t, k)
    requires (forall i :: 0 <= i < |es| ==> EntryBelow(es[i], values, slots, t, k + 1)) && Ascending(es)
    requires EntryBelow(e, values, slots, t, k + 1) && Rank(e) == k
    ensures forall i :: 0 <= i < |es + [e]| ==> EntryBelow((es + [e])[i], values, slots, t, k + 1)
    ensures Ascending(es + [e])
  {
    AppendBelow(es, e, values, slots, t, k + 1);
    AppendAscending(es, e, values, slots, t, k);
  }

  lemma AppendBelow(es: seq<TimeSlot>, e: TimeSlot, values: seq<int>, slots: SlotMap, t: string, k: nat)
    requires WeekBelow(slots, t, |values|)
    requires forall i :: 0 <= i < |es| ==> EntryBelow(es[i], values, slots, t, k)
    requires EntryBelow(e, values, slots, t, k)
    ensures forall i :: 0 <= i < |es + [e]| ==> EntryBelow((es + [e])[i], values, slots, t, k)
  {
    var all := es + [e];
    forall i | 0 <= i < |all| ensures EntryBelow(all[i], values, slots, t, k) {
      if i < |es| {
        assert all[i] == es[i];
      }
    }
  }

  lemma AppendAscending(es: seq<TimeSlot>, e: TimeSlot, values: seq<int>, slots: SlotMap, t: string, k: nat)
    requires WeekBelow(slots, t, |values|)
    requires forall i :: 0 <= i < |es| ==> EntryBelow(es[i], values, slots, t, k)
    requires Ascending(es) && e.day in Days && e.period in Periods && Rank(e) == k
    ensures Ascending(es + [e])
  {
    var all := es + [e];
    forall i, j | 0 <= i < j < |all| ensures Rank(all[i]) < Rank(all[j]) {
      assert all[i] == es[i];
      assert EntryBelow(es[i], values, slots, t, k);
      if j < |es| {
        assert all[j] == es[j];
      }
    }
  }

  /** `total_hours_assigned` is the sum of the hours of the emitted entries. */
  lemma {:induction false} TotalIsSlotHours(values: seq<int>, slots: SlotMap, t: string, k: nat)
    requires k <= WeekSlots && WeekBelow(slots, t, |values|)
    ensures PositiveTotal(values, slots, t, k) == SlotHours(PositiveSlots(values, slots, t, k))
  {
    if k > 0 {
      var e := k - 1;
      TotalIsSlotHours(values, slots, t, e);
      TotalIsSlotHoursStep(values, slots, t, e);
      assert e + 1 == k;
    }
  }

  lemma TotalIsSlotHoursStep(values: seq<int>, slots: SlotMap, t: string, k: nat)
    requires k < WeekSlots && WeekBelow(slots, t, |values|)
    requires PositiveTotal(values, slots, t, k) == SlotHours(PositiveSlots(values, slots, t, k))
    ensures PositiveTotal(values, slots, t, k + 1) == SlotHours(PositiveSlots(values, slots, t, k + 1))
  {
    var v := SlotValue(values, slots, t, k);
    var before := PositiveSlots(values, slots, t, k);
    if v > 0 {
      assert PositiveSlots(values, slots, t, k + 1) == before + [SlotEntry(k, v)];
      SlotHoursSnoc(before, SlotEntry(k, v));
    } else {
      assert PositiveSlots(values, slots, t, k + 1) == before;
    }
  }

  lemma SlotHoursSnoc(es: seq<TimeSlot>, e: TimeSlot)
    ensures SlotHours(es + [e]) == SlotHours(es) + e.hours
  {
    assert (es + [e])[..|es|] == es;
  }

  /** With no negative slot value, the extracted total is the sum of all the teacher's slots. */
  lemma {:induction false} TotalIsWeekTotal(values: seq<int>, slots: SlotMap, t: string, k: nat)
    requires k <= WeekSlots && WeekBelow(slots, t, |values|)
    requires forall j :: 0 <= j < WeekSlots ==> SlotValue(values, slots, t, j) >= 0
    ensures PositiveTotal(values, slots, t, k) == WeekTotal(values, slots, t, k)
  {
    if k > 0 {
      TotalIsWeekTotal(values, slots, t, k - 1);
    }
  }
}
