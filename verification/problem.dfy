/**
 * The shape of the problem record the scheduler consumes (the JSON produced by the
 * extraction front end): teachers, constraint descriptions and the objective.
 */
module Problem {

  /** One teacher: name, subject, weekly hours and the names of the days they can teach. */
  datatype Teacher = Teacher(name: string, subject: string, hoursPerWeek: int, availableDays: seq<string>)

  /** A constraint described in prose; `kind` is "hard", "soft" or anything else. */
  datatype ConstraintRecord = ConstraintRecord(id: int, description: string, kind: string)

  /** The objective descriptor; `kind` is expected to be "maximize" or "minimize". */
  datatype ObjectiveRecord = ObjectiveRecord(description: string, kind: string)

  datatype ProblemData = ProblemData(
    problemName: string,
    teachers: seq<Teacher>,
    constraints: seq<ConstraintRecord>,
    objective: ObjectiveRecord)
}
