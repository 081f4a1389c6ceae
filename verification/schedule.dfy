/**
 * The solution records `extract_solution` produces and `validate_solution` and
 * `create_weekly_grid` consume. The float fields `objective_value` and
 * `solve_time_seconds` are not part of this model.
 */
module Schedule {

  datatype Option<T> = None | Some(value: T)

  /** One used slot: a day name, a period name and the hours (1 or 2) taught there. */
  datatype TimeSlot = TimeSlot(day: string, period: string, hours: int)

  /** One teacher's week as extracted from the solver's values. */
  datatype TeacherSchedule = TeacherSchedule(
    name: string,
    subject: string,
    hoursRequired: int,
    timeSlots: seq<TimeSlot>,
    totalHoursAssigned: int)

  datatype Solution = Solution(problemName: string, status: string, teachers: seq<TeacherSchedule>)

  /** The sum of the hours of `slots`. */
  function SlotHours(slots: seq<TimeSlot>): int {
    if slots == [] then 0 else SlotHours(slots[..|slots| - 1]) + slots[|slots| - 1].hours
  }

  /** `[slot['day'] for slot in slots]`. */
  function DaysUsed(slots: seq<TimeSlot>): (days: seq<string>)
    ensures |days| == |slots| && forall i :: 0 <= i < |slots| ==> days[i] == slots[i].day
  {
    seq(|slots|, i requires 0 <= i < |slots| => slots[i].day)
  }
}
