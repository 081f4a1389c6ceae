/**
 * The stages together: an assignment that satisfies the built model, extracted by the
 * solver, passes `validate_solution`, never places a teacher on a day it did not list,
 * and fills exactly the five-by-two grid.
 */
module Pipeline {
  import opened Seqs
  import opened Week
  import opened CpSat
  import opened Schedule
  import opened Model
  import opened ModelFacts
  import opened Solver
  import opened Visualize

  /** With at most one positive period per day, the extracted slots never repeat a day. */
  lemma NoRepeatedDay(values: seq<int>, slots: SlotMap, t: string)
    requires WeekBelow(slots, t, |values|) && NoDoubleDay(t, slots, |Days|, values)
    ensures NoDuplicates(DaysUsed(PositiveSlots(values, slots, t, WeekSlots)))
  {
    var es := PositiveSlots(values, slots, t, WeekSlots);
    PositiveSlotsOrdered(values, slots, t, WeekSlots);
    forall i, j | 0 <= i < j < |es| ensures es[i].day != es[j].day {
      DistinctDays(es[i], es[j], values, slots, t);
    }
  }

  /** Two extracted entries in increasing day/period order lie on different days. */
  lemma DistinctDays(a: TimeSlot, b: TimeSlot, values: seq<int>, slots: SlotMap, t: string)
    requires WeekBelow(slots, t, |values|) && NoDoubleDay(t, slots, |Days|, values)
    requires EntryBelow(a, values, slots, t, WeekSlots) && EntryBelow(b, values, slots, t, WeekSlots)
    requires Rank(a) < Rank(b)
    ensures a.day != b.day
  {
    DifferentDayRanks(values, slots, t, Rank(a), Rank(b));
    assert Rank(a) / 2 == DayIndex(a.day) && Rank(b) / 2 == DayIndex(b.day);
  }

  /** Two positive slots of a teacher with no double day, at different positions, lie on different days. */
  lemma DifferentDayRanks(values: seq<int>, slots: SlotMap, t: string, ra: nat, rb: nat)
    requires WeekBelow(slots, t, |values|) && NoDoubleDay(t, slots, |Days|, values)
    requires ra < rb < WeekSlots
    requires SlotValue(values, slots, t, ra) > 0 && SlotValue(values, slots, t, rb) > 0
    ensures ra / 2 != rb / 2
  {
    var d := ra / 2;
    assert !(SlotValue(values, slots, t, 2 * d) > 0 && SlotValue(values, slots, t, 2 * d + 1) > 0);
  }

  /** Every extracted slot lies on a day the teacher lists as available. */
  lemma NoUnavailableDay(values: seq<int>, slots: SlotMap, t: string, a: seq<string>)
    requires WeekBelow(slots, t, |values|) && IdleBelow(t, a, slots, values, WeekSlots)
    ensures forall e :: e in PositiveSlots(values, slots, t, WeekSlots) ==> e.day in a && e.day in Days && e.period in Periods
  {
    var es := PositiveSlots(values, slots, t, WeekSlots);
    PositiveSlotsOrdered(values, slots, t, WeekSlots);
    forall e | e in es ensures e.day in a && e.day in Days && e.period in Periods {
      assert EntryBelow(e, values, slots, t, WeekSlots);
      var k := Rank(e);
      assert e.day == Days[k / 2];
      assert SlotValue(values, slots, t, k) > 0;
    }
  }

  /**
   * An assignment that satisfies the built model yields records that all pass the
   * validator's two checks and list only days their teacher is available on.
   */
  lemma ExtractedPasses(m: SchedulingModel, values: seq<int>)
    requires m.Built() && Satisfies(m.model.domains, m.model.constraints, values)
    ensures Extractable(m.teachers, m.subjects, m.hoursRequired, m.slots, values)
    ensures var s := Schedules(m.teachers, m.subjects, m.hoursRequired, m.slots, values, |m.teachers|);
      forall i :: 0 <= i < |s| ==>
        Passes(s[i]) &&
        forall e :: e in s[i].timeSlots ==> e.day in m.availability[m.teachers[i]] && e.day in Days && e.period in Periods
  {
    var ts, hours, avail, slots := m.teachers, m.hoursRequired, m.availability, m.slots;
    BuiltExtractable(m, values);
    ModelMeaning(ts, hours, avail, values);
    BuiltTyped(ts, values);
    var s := Schedules(ts, m.subjects, hours, slots, values, |ts|);
    forall i | 0 <= i < |s|
      ensures Passes(s[i]) && forall e :: e in s[i].timeSlots ==> e.day in avail[ts[i]] && e.day in Days && e.period in Periods
    {
      var t := ts[i];
      assert t in ts;
      TotalIsWeekTotal(values, slots, t, WeekSlots);
      NoRepeatedDay(values, slots, t);
      NoUnavailableDay(values, slots, t, avail[t]);
    }
  }

  /** `validate_solution` accepts the solution extracted from an assignment that satisfies the built model. */
  lemma ExtractedIsValid(m: SchedulingModel, values: seq<int>, status: string)
    requires m.Built() && Satisfies(m.model.domains, m.model.constraints, values)
    ensures Extractable(m.teachers, m.subjects, m.hoursRequired, m.slots, values)
    ensures ValidationErrors(Solution(m.data.problemName, status,
      Schedules(m.teachers, m.subjects, m.hoursRequired, m.slots, values, |m.teachers|))) == []
  {
    ExtractedPasses(m, values);
    var sol := Solution(m.data.problemName, status,
      Schedules(m.teachers, m.subjects, m.hoursRequired, m.slots, values, |m.teachers|));
    forall t | t in sol.teachers ensures Passes(t) {
      var i :| 0 <= i < |sol.teachers| && sol.teachers[i] == t;
    }
    ValidIffAllPass(sol);
  }

  /**
   * The grid of that solution is filled without a KeyError and keeps exactly the five days
   * and two periods, each cell showing its last write or "-".
   */
  lemma ExtractedGrid(m: SchedulingModel, values: seq<int>)
    requires m.Built() && Satisfies(m.model.domains, m.model.constraints, values)
    ensures Extractable(m.teachers, m.subjects, m.hoursRequired, m.slots, values)
    ensures var ws := Writes(Schedules(m.teachers, m.subjects, m.hoursRequired, m.slots, values, |m.teachers|));
      var r := ApplyAll(Filled(EmptyGrid()), ws);
      r.Filled? && Shows(r.grid, ws) && forall day :: day in r.grid ==> r.grid[day].Keys == ToSet(Periods)
  {
    ExtractedPasses(m, values);
    var s := Schedules(m.teachers, m.subjects, m.hoursRequired, m.slots, values, |m.teachers|);
    WritesWithin(s);
    WeekdayGrid(Writes(s));
  }
}
