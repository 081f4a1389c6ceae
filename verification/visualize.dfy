/**
 * Checking and displaying a solution (`validate_solution`, `create_weekly_grid`).
 * Both walk the teacher records with loops; the functions before each method say what
 * those loops compute, and the lemmas after them what that means.
 */
module Visualize {
  import opened Seqs
  import opened Week
  import opened Schedule

  // ---------------------------------------------------------------- validate_solution

  /** One entry of the `errors` list: the teacher it names and what failed. */
  datatype ValidationError =
    | WrongTotal(name: string, total: int, required: int)
    | SeveralSlotsSameDay(name: string)

  /** `len(days_used) != len(set(days_used))`. */
  predicate RepeatsDay(t: TeacherSchedule) {
    var days := DaysUsed(t.timeSlots);
    |days| != |ToSet(days)|
  }

  /** The errors the hours loop adds for `ts`, in order. */
  function HoursErrors(ts: seq<TeacherSchedule>): seq<ValidationError> {
    if ts == [] then []
    else
      var t := ts[|ts| - 1];
      HoursErrors(ts[..|ts| - 1]) +
        if t.hoursRequired != t.totalHoursAssigned then [WrongTotal(t.name, t.totalHoursAssigned, t.hoursRequired)] else []
  }

  /** The errors the duplicate-day loop adds for `ts`, in order. */
  function DayErrors(ts: seq<TeacherSchedule>): seq<ValidationError> {
    if ts == [] then []
    else
      var t := ts[|ts| - 1];
      DayErrors(ts[..|ts| - 1]) + if RepeatsDay(t) then [SeveralSlotsSameDay(t.name)] else []
  }

  /** The full `errors` list: first every hours error, then every duplicate-day error. */
  function ValidationErrors(s: Solution): seq<ValidationError> {
    HoursErrors(s.teachers) + DayErrors(s.teachers)
  }

  /** `validate_solution`: the solution is accepted exactly when no error was recorded. */
  method ValidateSolution(s: Solution) returns (valid: bool, errors: seq<ValidationError>)
    ensures errors == ValidationErrors(s)
    ensures valid <==> errors == []
  {
    var ts := s.teachers;
    errors := [];
    for i := 0 to |ts|
      invariant errors == HoursErrors(ts[..i])
    {
      var t := ts[i];
      assert ts[..i + 1][..i] == ts[..i];
      if t.hoursRequired != t.totalHoursAssigned {
        errors := errors + [WrongTotal(t.name, t.totalHoursAssigned, t.hoursRequired)];
      }
    }
    assert ts[..|ts|] == ts;
    ghost var hoursErrors := errors;
    for i := 0 to |ts|
      invariant errors == hoursErrors + DayErrors(ts[..i])
    {
      var t := ts[i];
      assert ts[..i + 1][..i] == ts[..i];
      var daysUsed := DaysUsed(t.timeSlots);
      if |daysUsed| != |ToSet(daysUsed)| {
        errors := errors + [SeveralSlotsSameDay(t.name)];
      }
    }
    valid := errors == [];
  }

  /** The duplicate test fires exactly when some day occurs twice in the teacher's slots. */
  lemma RepeatsDayMeaning(t: TeacherSchedule)
    ensures RepeatsDay(t) <==> exists i, j :: 0 <= i < j < |t.timeSlots| && t.timeSlots[i].day == t.timeSlots[j].day
  {
    var days := DaysUsed(t.timeSlots);
    ToSetCard(days);
    if !NoDuplicates(days) {
      var i, j :| 0 <= i < j < |days| && days[i] == days[j];
      assert t.timeSlots[i].day == t.timeSlots[j].day;
    }
  }

  /** The record's stored total equals its required hours and no day repeats in its slots. */
  predicate Passes(t: TeacherSchedule) {
    t.totalHoursAssigned == t.hoursRequired && NoDuplicates(DaysUsed(t.timeSlots))
  }

  /**
   * Each recorded hours error names a record whose stored total differs from its required
   * hours, and every such record gets one.
   */
  lemma {:induction false} HoursErrorsExactly(ts: seq<TeacherSchedule>, e: ValidationError)
    ensures e in HoursErrors(ts) <==>
      e.WrongTotal? &&
      (exists t :: t in ts && t.totalHoursAssigned != t.hoursRequired &&
        e == WrongTotal(t.name, t.totalHoursAssigned, t.hoursRequired))
  {
    if ts != [] {
      var init, t := ts[..|ts| - 1], ts[|ts| - 1];
      assert ts == init + [t];
      HoursErrorsExactly(init, e);
    }
  }

  /** Each recorded duplicate-day error names a record that repeats a day, and every such record gets one. */
  lemma {:induction false} DayErrorsExactly(ts: seq<TeacherSchedule>, e: ValidationError)
    ensures e in DayErrors(ts) <==>
      e.SeveralSlotsSameDay? && (exists t :: t in ts && RepeatsDay(t) && e == SeveralSlotsSameDay(t.name))
  {
    if ts != [] {
      var init, t := ts[..|ts| - 1], ts[|ts| - 1];
      assert ts == init + [t];
      DayErrorsExactly(init, e);
    }
  }

  /** The hours loop adds one error per record whose stored total differs from its required hours. */
  lemma {:induction false} HoursErrorsCount(ts: seq<TeacherSchedule>)
    ensures |HoursErrors(ts)| == |set i | 0 <= i < |ts| && ts[i].totalHoursAssigned != ts[i].hoursRequired|
  {
    var failing := set i | 0 <= i < |ts| && ts[i].totalHoursAssigned != ts[i].hoursRequired;
    if ts == [] {
      assert failing == {};
    } else {
      var n := |ts| - 1;
      var init := ts[..n];
      HoursErrorsCount(init);
      var before := set i | 0 <= i < |init| && init[i].totalHoursAssigned != init[i].hoursRequired;
      if ts[n].totalHoursAssigned != ts[n].hoursRequired {
        assert failing == before + {n};
      } else {
        assert failing == before;
      }
    }
  }

  /** The duplicate-day loop adds one error per record that repeats a day. */
  lemma {:induction false} DayErrorsCount(ts: seq<TeacherSchedule>)
    ensures |DayErrors(ts)| == |set i | 0 <= i < |ts| && RepeatsDay(ts[i])|
  {
    var failing := set i | 0 <= i < |ts| && RepeatsDay(ts[i]);
    if ts == [] {
      assert failing == {};
    } else {
      var n := |ts| - 1;
      var init := ts[..n];
      DayErrorsCount(init);
      var before := set i | 0 <= i < |init| && RepeatsDay(init[i]);
      if RepeatsDay(ts[n]) {
        assert failing == before + {n};
      } else {
        assert failing == before;
      }
    }
  }

  /**
   * `validate_solution` returns true exactly when every record's stored total equals its
   * required hours and no record repeats a day.
   */
  lemma ValidIffAllPass(s: Solution)
    ensures ValidationErrors(s) == [] <==> forall t :: t in s.teachers ==> Passes(t)
  {
    var ts := s.teachers;
    if (forall t :: t in ts ==> Passes(t)) && ValidationErrors(s) != [] {
      var e := ValidationErrors(s)[0];
      assert e in ValidationErrors(s);
      {
        HoursErrorsExactly(ts, e);
        DayErrorsExactly(ts, e);
        if e.SeveralSlotsSameDay? {
          var t :| t in ts && RepeatsDay(t) && e == SeveralSlotsSameDay(t.name);
          ToSetCard(DaysUsed(t.timeSlots));
        }
      }
    } else if exists t :: t in ts && !Passes(t) {
      var t :| t in ts && !Passes(t);
      if t.totalHoursAssigned != t.hoursRequired {
        HoursErrorsExactly(ts, WrongTotal(t.name, t.totalHoursAssigned, t.hoursRequired));
      } else {
        ToSetCard(DaysUsed(t.timeSlots));
        DayErrorsExactly(ts, SeveralSlotsSameDay(t.name));
      }
    }
  }

  // ---------------------------------------------------------------- create_weekly_grid

  /** A grid cell: "-" or the (teacher, subject, hours) its text is built from. */
  datatype Cell = Free | Taken(teacher: string, subject: string, hours: int)

  /** `grid[day][period]`. */
  type Grid = map<string, map<string, Cell>>

  datatype GridResult = Filled(grid: Grid) | KeyError(key: string)

  /** The initial grid of `create_weekly_grid`. */
  function EmptyGrid(): Grid {
    map day | day in Days :: map p | p in Periods :: Free
  }

  /** The initial grid has the five days as rows, each with its two periods, every cell "-". */
  lemma EmptyGridShape()
    ensures EmptyGrid().Keys == ToSet(Days)
    ensures forall day :: day in EmptyGrid() ==>
      EmptyGrid()[day].Keys == ToSet(Periods) && forall p :: p in EmptyGrid()[day] ==> EmptyGrid()[day][p] == Free
  {
  }

  /** One cell write of the fill loops. */
  datatype Write = Write(day: string, period: string, cell: Cell)

  /** The writes for one record's slots, in order. */
  function SlotWrites(t: TeacherSchedule): (ws: seq<Write>)
    ensures |ws| == |t.timeSlots|
  {
    seq(|t.timeSlots|, j requires 0 <= j < |t.timeSlots| =>
      Write(t.timeSlots[j].day, t.timeSlots[j].period, Taken(t.name, t.subject, t.timeSlots[j].hours)))
  }

  /** Every write of the fill loops, teacher by teacher. */
  function Writes(ts: seq<TeacherSchedule>): seq<Write> {
    if ts == [] then [] else Writes(ts[..|ts| - 1]) + SlotWrites(ts[|ts| - 1])
  }

  /** `grid[day][period] = cell`: KeyError when `day` is not a row of the grid; an unknown period adds a cell. */
  function Apply(g: GridResult, w: Write): GridResult {
    match g
    case KeyError(_) => g
    case Filled(grid) =>
      if w.day in grid then Filled(grid[w.day := grid[w.day][w.period := w.cell]]) else KeyError(w.day)
  }

  /** The writes applied in order, stopping at the first KeyError. */
  function ApplyAll(g: GridResult, ws: seq<Write>): GridResult {
    if ws == [] then g else Apply(ApplyAll(g, ws[..|ws| - 1]), ws[|ws| - 1])
  }

  /** Once a write has failed, the later ones leave the KeyError as it is. */
  lemma {:induction false} ApplyAllSticks(g: GridResult, ws: seq<Write>, n: nat)
    requires n <= |ws| && ApplyAll(g, ws[..n]).KeyError?
    ensures ApplyAll(g, ws) == ApplyAll(g, ws[..n])
  {
    if n < |ws| {
      assert ws[..|ws| - 1][..n] == ws[..n];
      ApplyAllSticks(g, ws[..|ws| - 1], n);
    } else {
      assert ws[..n] == ws;
    }
  }

  /** The writes of the first `i` records come first. */
  lemma {:induction false} WritesPrefix(ts: seq<TeacherSchedule>, i: nat)
    requires i <= |ts|
    ensures |Writes(ts[..i])| <= |Writes(ts)| && Writes(ts)[..|Writes(ts[..i])|] == Writes(ts[..i])
  {
    if i < |ts| {
      assert ts[..|ts| - 1][..i] == ts[..i];
      WritesPrefix(ts[..|ts| - 1], i);
    } else {
      assert ts[..i] == ts;
    }
  }

  /** Appending one write applies it to the result of the earlier ones. */
  lemma ApplyAllSnoc(g: GridResult, ws: seq<Write>, w: Write)
    ensures ApplyAll(g, ws + [w]) == Apply(ApplyAll(g, ws), w)
  {
    assert (ws + [w])[..|ws|] == ws;
  }

  /** A write to a known row extends the grid the earlier writes built. */
  lemma WriteStep(start: GridResult, done: seq<Write>, ws: seq<Write>, j: nat, before: Grid, after: Grid)
    requires j < |ws| && ApplyAll(start, done + ws[..j]) == Filled(before) && ws[j].day in before
    requires after == before[ws[j].day := before[ws[j].day][ws[j].period := ws[j].cell]]
    ensures ApplyAll(start, done + ws[..j + 1]) == Filled(after)
  {
    assert done + ws[..j + 1] == (done + ws[..j]) + [ws[j]];
    ApplyAllSnoc(start, done + ws[..j], ws[j]);
  }

  /** A write to a day that is not a row stops the fill for good. */
  lemma WriteFails(start: GridResult, done: seq<Write>, ws: seq<Write>, j: nat, grid: Grid)
    requires j < |ws| && ApplyAll(start, done + ws[..j]) == Filled(grid) && ws[j].day !in grid
    ensures ApplyAll(start, done + ws) == KeyError(ws[j].day)
  {
    ApplyAllSnoc(start, done + ws[..j], ws[j]);
    assert (done + ws)[..|done| + j + 1] == (done + ws[..j]) + [ws[j]];
    ApplyAllSticks(start, done + ws, |done| + j + 1);
  }

  /** The writes of the first `i + 1` records extend those of the first `i` with record `i`'s. */
  lemma WritesSnoc(ts: seq<TeacherSchedule>, i: nat)
    requires i < |ts|
    ensures Writes(ts[..i + 1]) == Writes(ts[..i]) + SlotWrites(ts[i])
  {
    assert ts[..i + 1][..i] == ts[..i];
  }

  /** `create_weekly_grid`. */
  method CreateWeeklyGrid(s: Solution) returns (r: GridResult)
    ensures r == ApplyAll(Filled(EmptyGrid()), Writes(s.teachers))
  {
    var ts := s.teachers;
    var grid := EmptyGrid();
    ghost var start := Filled(grid);
    for i := 0 to |ts|
      invariant ApplyAll(start, Writes(ts[..i])) == Filled(grid)
    {
      var filled := FillSlots(grid, ts[i], start, Writes(ts[..i]));
      WritesSnoc(ts, i);
      if filled.KeyError? {
        WritesPrefix(ts, i + 1);
        ApplyAllSticks(start, Writes(ts), |Writes(ts[..i + 1])|);
        return filled;
      }
      grid := filled.grid;
    }
    assert ts[..|ts|] == ts;
    r := Filled(grid);
  }

  /** The slot loop of `create_weekly_grid` for one record, on the grid the earlier writes `done` built. */
  method FillSlots(grid0: Grid, t: TeacherSchedule, ghost start: GridResult, ghost done: seq<Write>) returns (r: GridResult)
    requires ApplyAll(start, done) == Filled(grid0)
    ensures r == ApplyAll(start, done + SlotWrites(t))
  {
    var grid := grid0;
    ghost var ws := SlotWrites(t);
    assert done + ws[..0] == done;
    for j := 0 to |t.timeSlots|
      invariant ApplyAll(start, done + ws[..j]) == Filled(grid)
    {
      var slot := t.timeSlots[j];
      if slot.day !in grid {
        WriteFails(start, done, ws, j, grid);
        return KeyError(slot.day);
      }
      ghost var before := grid;
      grid := grid[slot.day := grid[slot.day][slot.period := Taken(t.name, t.subject, slot.hours)]];
      WriteStep(start, done, ws, j, before, grid);
    }
    assert ws[..|ws|] == ws;
    r := Filled(grid);
  }

  /** The cell of the last write to (`day`, `period`), if any. */
  function LastWrite(ws: seq<Write>, day: string, period: string): Option<Cell> {
    if ws == [] then None
    else if ws[|ws| - 1].day == day && ws[|ws| - 1].period == period then Some(ws[|ws| - 1].cell)
    else LastWrite(ws[..|ws| - 1], day, period)
  }

  /** What a finished grid shows at (`day`, `period`): the last write there, else "-". */
  function CellShown(ws: seq<Write>, day: string, period: string): Cell {
    match LastWrite(ws, day, period)
    case Some(c) => c
    case None => Free
  }

  /**
   * A grid built by `ws`: rows are exactly the five days; a row holds the two periods plus
   * any other period written to it; every cell holds the last write to it, or "-".
   */
  ghost predicate Shows(g: Grid, ws: seq<Write>) {
    && g.Keys == ToSet(Days)
    && (forall day, period :: day in g ==> (period in g[day] <==> period in Periods || LastWrite(ws, day, period).Some?))
    && (forall day, period :: day in g && period in g[day] ==> g[day][period] == CellShown(ws, day, period))
  }

  /** `ws[i]` is the first write whose day is not a row of the grid, and that day is `key`. */
  ghost predicate FirstUnknownDay(ws: seq<Write>, key: string) {
    exists i :: 0 <= i < |ws| && ws[i].day == key && key !in Days && forall j :: 0 <= j < i ==> ws[j].day in Days
  }

  /** `LastWrite` is the write to the cell that no later write overwrites. */
  lemma {:induction false} LastWriteMeaning(ws: seq<Write>, day: string, period: string)
    ensures LastWrite(ws, day, period).None? <==>
      forall i :: 0 <= i < |ws| ==> !(ws[i].day == day && ws[i].period == period)
    ensures LastWrite(ws, day, period).Some? ==>
      exists i :: 0 <= i < |ws| && ws[i] == Write(day, period, LastWrite(ws, day, period).value) &&
        forall j :: i < j < |ws| ==> !(ws[j].day == day && ws[j].period == period)
  {
    if ws != [] {
      var init := ws[..|ws| - 1];
      LastWriteMeaning(init, day, period);
      if LastWrite(ws, day, period).Some? && !(ws[|ws| - 1].day == day && ws[|ws| - 1].period == period) {
        var i :| 0 <= i < |init| && init[i] == Write(day, period, LastWrite(init, day, period).value) &&
          forall j :: i < j < |init| ==> !(init[j].day == day && init[j].period == period);
        assert ws[i] == init[i];
      }
      if forall i :: 0 <= i < |init| ==> !(init[i].day == day && init[i].period == period) {
        assert forall i :: 0 <= i < |ws| - 1 ==> ws[i] == init[i];
      }
    }
  }

  /** One more write to a known row keeps `Shows`. */
  lemma ShowsStep(g: Grid, ws: seq<Write>, w: Write)
    requires Shows(g, ws) && w.day in g
    ensures Shows(g[w.day := g[w.day][w.period := w.cell]], ws + [w])
  {
    var g', ws' := g[w.day := g[w.day][w.period := w.cell]], ws + [w];
    assert ws'[..|ws|] == ws;
    forall day, period | day in g'
      ensures period in g'[day] <==> period in Periods || LastWrite(ws', day, period).Some?
      ensures period in g'[day] ==> g'[day][period] == CellShown(ws', day, period)
    {
      if day == w.day && period == w.period {
        assert LastWrite(ws', day, period) == Some(w.cell);
      } else {
        assert LastWrite(ws', day, period) == LastWrite(ws, day, period);
      }
    }
  }

  /**
   * `create_weekly_grid` fills the grid exactly when every written day is one of the five
   * weekdays, the grid then shows the last write to each cell and "-" elsewhere, and
   * otherwise the KeyError names the first unknown day.
   */
  lemma {:induction false} GridOutcome(ws: seq<Write>)
    ensures ApplyAll(Filled(EmptyGrid()), ws).Filled? <==> forall i :: 0 <= i < |ws| ==> ws[i].day in Days
    ensures ApplyAll(Filled(EmptyGrid()), ws).Filled? ==> Shows(ApplyAll(Filled(EmptyGrid()), ws).grid, ws)
    ensures ApplyAll(Filled(EmptyGrid()), ws).KeyError? ==> FirstUnknownDay(ws, ApplyAll(Filled(EmptyGrid()), ws).key)
  {
    if ws == [] {
      EmptyGridShape();
      assert Shows(EmptyGrid(), ws);
    } else {
      var init, w := ws[..|ws| - 1], ws[|ws| - 1];
      assert ws == init + [w];
      GridOutcome(init);
      match ApplyAll(Filled(EmptyGrid()), init)
      case Filled(g) =>
        if w.day in Days {
          ShowsStep(g, init, w);
        } else {
          assert FirstUnknownDay(ws, w.day) by {
            assert forall j :: 0 <= j < |init| ==> ws[j] == init[j];
          }
        }
      case KeyError(k) =>
        var i :| 0 <= i < |init| && init[i].day == k && k !in Days && forall j :: 0 <= j < i ==> init[j].day in Days;
        assert ws[i] == init[i];
        assert forall j :: 0 <= j < i ==> ws[j] == init[j];
    }
  }

  /** Records whose slots all name a weekday and a period write only to the grid's own cells. */
  lemma {:induction false} WritesWithin(ts: seq<TeacherSchedule>)
    requires forall i, e :: 0 <= i < |ts| && e in ts[i].timeSlots ==> e.day in Days && e.period in Periods
    ensures forall w :: w in Writes(ts) ==> w.day in Days && w.period in Periods
  {
    if ts != [] {
      var init, t := ts[..|ts| - 1], ts[|ts| - 1];
      assert forall i :: 0 <= i < |init| ==> init[i] == ts[i];
      WritesWithin(init);
      forall j | 0 <= j < |t.timeSlots| ensures SlotWrites(t)[j].day in Days && SlotWrites(t)[j].period in Periods {
        assert t.timeSlots[j] in t.timeSlots;
      }
    }
  }

  /**
   * Writes that all name a weekday and a period fill the grid without a KeyError, and it
   * keeps exactly its five rows of two cells.
   */
  lemma WeekdayGrid(ws: seq<Write>)
    requires forall w :: w in ws ==> w.day in Days && w.period in Periods
    ensures var r := ApplyAll(Filled(EmptyGrid()), ws);
      r.Filled? && Shows(r.grid, ws) && forall day :: day in r.grid ==> r.grid[day].Keys == ToSet(Periods)
  {
    forall i | 0 <= i < |ws| ensures ws[i].day in Days {
      assert ws[i] in ws;
    }
    GridOutcome(ws);
    var g := ApplyAll(Filled(EmptyGrid()), ws).grid;
    forall day | day in g ensures g[day].Keys == ToSet(Periods) {
      RowKeys(g, ws, day);
    }
  }

  /** A row of a grid built only by writes to the two periods holds exactly those two cells. */
  lemma RowKeys(g: Grid, ws: seq<Write>, day: string)
    requires Shows(g, ws) && day in g
    requires forall w :: w in ws ==> w.period in Periods
    ensures g[day].Keys == ToSet(Periods)
  {
    forall period | period in g[day] ensures period in Periods {
      LastWriteMeaning(ws, day, period);
    }
  }
}
