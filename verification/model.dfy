/**
 * The model builder (`SchedulingModel`): one integer slot variable in 0..2 per
 * (teacher, day, period), then the availability, hours and one-period-per-day
 * constraints and the objective, all appended to a CP-SAT model kept as data.
 *
 * The functions before the class say which variables and constraints the nested loops
 * produce; the class methods run those loops and are proved to produce exactly them.
 * What the generated constraints mean for a solution is proved in module ModelFacts.
 */
module Model {
  import opened Seqs
  import opened Week
  import opened Problem
  import opened LoadProblem
  import opened CpSat

  /** `self.slots`: (teacher, day position, period position) to the number of its CP-SAT variable. */
  type SlotMap = map<SlotKey, nat>

  // ---------------------------------------------------------------- variables

  /** The entries one teacher's day/period loops add after `k` steps: the j-th slot gets variable `base + j`. */
  function TeacherSlotVars(t: string, base: nat, k: nat): SlotMap
    requires k <= WeekSlots
  {
    if k == 0 then map[] else TeacherSlotVars(t, base, k - 1)[SlotKeyAt(t, k - 1) := base + k - 1]
  }

  /** The entries `create_variables` adds when the next free variable is `base`: teacher i owns `base + 10 i ..`. */
  function SlotVars(ts: seq<string>, base: nat): SlotMap {
    if ts == [] then map[]
    else SlotVars(ts[..|ts| - 1], base) + TeacherSlotVars(ts[|ts| - 1], base + WeekSlots * (|ts| - 1), WeekSlots)
  }

  /** Every slot of teacher `t` has a variable. */
  predicate HasWeek(slots: SlotMap, t: string) {
    forall k :: 0 <= k < WeekSlots ==> SlotKeyAt(t, k) in slots
  }

  predicate HasWeeks(slots: SlotMap, ts: seq<string>) {
    forall t :: t in ts ==> HasWeek(slots, t)
  }

  /** The variable of teacher `t`'s k-th slot. */
  function SlotVar(slots: SlotMap, t: string, k: nat): nat
    requires HasWeek(slots, t) && k < WeekSlots
  {
    slots[SlotKeyAt(t, k)]
  }

  /** The ten keys of a teacher's week in loop order. */
  function WeekKeys(t: string): (keys: seq<SlotKey>)
    ensures |keys| == WeekSlots
  {
    seq(WeekSlots, k requires 0 <= k < WeekSlots => SlotKeyAt(t, k))
  }

  /** `[slots[key] for key in keys]`. */
  function Lookups(slots: SlotMap, keys: seq<SlotKey>): (vars: seq<nat>)
    requires forall i :: 0 <= i < |keys| ==> keys[i] in slots
    ensures |vars| == |keys| && forall i :: 0 <= i < |keys| ==> vars[i] == slots[keys[i]]
  {
    seq(|keys|, i requires 0 <= i < |keys| => slots[keys[i]])
  }

  /** The domains `__init__` leaves: ten 0..2 slots per teacher, then ten 0..1 indicators per teacher. */
  function BuiltDomains(n: nat): seq<Domain> {
    Repeat(Domain(0, 2), WeekSlots * n) + Repeat(Domain(0, 1), WeekSlots * n)
  }

  // ---------------------------------------------------------------- constraint 1: availability

  /** `slot == 0`. */
  function ZeroSlot(v: nat): LinearConstraint {
    LinearConstraint([v], Eq, 0, [])
  }

  /** The zero-forcing constraints for the first `k` slots of teacher `t`, whose listed days are `avail`. */
  function TeacherZeros(t: string, avail: seq<string>, slots: SlotMap, k: nat): seq<LinearConstraint>
    requires k <= WeekSlots && HasWeek(slots, t)
  {
    if k == 0 then []
    else
      var forced := if Days[(k - 1) / 2] in avail then [] else [ZeroSlot(SlotVar(slots, t, k - 1))];
      TeacherZeros(t, avail, slots, k - 1) + forced
  }

  /** The zero-forcing constraints for day `d`: both of its slots when `avail` does not list it. */
  function DayZeros(t: string, avail: seq<string>, slots: SlotMap, d: nat): seq<LinearConstraint>
    requires d < |Days| && HasWeek(slots, t)
  {
    if Days[d] in avail then [] else [ZeroSlot(SlotVar(slots, t, 2 * d)), ZeroSlot(SlotVar(slots, t, 2 * d + 1))]
  }

  /** Each teacher has an availability entry and ten slot variables. */
  predicate Covered<V>(ts: seq<string>, m: map<string, V>, slots: SlotMap) {
    forall t :: t in ts ==> t in m && HasWeek(slots, t)
  }

  /** Everything `constraint_availability` adds. */
  function AvailabilityConstraints(ts: seq<string>, avail: map<string, seq<string>>, slots: SlotMap): seq<LinearConstraint>
    requires Covered(ts, avail, slots)
  {
    if ts == [] then []
    else
      var t := ts[|ts| - 1];
      AvailabilityConstraints(ts[..|ts| - 1], avail, slots) + TeacherZeros(t, avail[t], slots, WeekSlots)
  }

  // ---------------------------------------------------------------- constraint 2: hours

  /** `sum(teacher's ten slots) == hours`. */
  function HoursConstraint(t: string, hours: int, slots: SlotMap): LinearConstraint
    requires HasWeek(slots, t)
  {
    LinearConstraint(Lookups(slots, WeekKeys(t)), Eq, hours, [])
  }

  /** Everything `constraint_hours_required` adds: one equality per teacher. */
  function HoursConstraints(ts: seq<string>, hours: map<string, int>, slots: SlotMap): seq<LinearConstraint>
    requires Covered(ts, hours, slots)
  {
    if ts == [] then []
    else
      var t := ts[|ts| - 1];
      HoursConstraints(ts[..|ts| - 1], hours, slots) + [HoursConstraint(t, hours[t], slots)]
  }

  // ---------------------------------------------------------------- constraint 3: one period per day

  /**
   * The five constraints for teacher `t` on day `d`, with indicator variables `m`
   * (morning used) and `m + 1` (afternoon used): each indicator is true exactly when its
   * slot is positive, and at most one indicator is true.
   */
  function DayExclusive(t: string, d: nat, slots: SlotMap, m: nat): seq<LinearConstraint>
    requires d < |Days| && HasWeek(slots, t)
  {
    PeriodExclusive(SlotVar(slots, t, 2 * d), SlotVar(slots, t, 2 * d + 1), m)
  }

  /** The same five constraints over the slot variables `morning` and `afternoon` themselves. */
  function PeriodExclusive(morning: nat, afternoon: nat, m: nat): seq<LinearConstraint> {
    [ LinearConstraint([morning], Gt, 0, [Pos(m)]),
      LinearConstraint([morning], Eq, 0, [Neg(m)]),
      LinearConstraint([afternoon], Gt, 0, [Pos(m + 1)]),
      LinearConstraint([afternoon], Eq, 0, [Neg(m + 1)]),
      LinearConstraint([m, m + 1], Le, 1, []) ]
  }

  /** The constraints for the first `d` days of teacher `t`, indicators numbered from `base`. */
  function TeacherExclusive(t: string, slots: SlotMap, base: nat, d: nat): seq<LinearConstraint>
    requires d <= |Days| && HasWeek(slots, t)
  {
    if d == 0 then []
    else TeacherExclusive(t, slots, base, d - 1) + DayExclusive(t, d - 1, slots, base + 2 * (d - 1))
  }

  /** Everything `constraint_one_slot_per_day` adds when the next free variable is `base`. */
  function OneSlotConstraints(ts: seq<string>, slots: SlotMap, base: nat): seq<LinearConstraint>
    requires HasWeeks(slots, ts)
  {
    if ts == [] then []
    else
      OneSlotConstraints(ts[..|ts| - 1], slots, base) +
      TeacherExclusive(ts[|ts| - 1], slots, base + WeekSlots * (|ts| - 1), |Days|)
  }

  /**
   * The constraints `add_constraints` adds, in order, when the next free variable is
   * `base`; `__init__` calls it with `base` = 10 * (number of teachers).
   */
  function GeneratedConstraints(
    ts: seq<string>, hours: map<string, int>, avail: map<string, seq<string>>, slots: SlotMap, base: nat): seq<LinearConstraint>
    requires Covered(ts, avail, slots) && Covered(ts, hours, slots)
  {
    AvailabilityConstraints(ts, avail, slots) + HoursConstraints(ts, hours, slots) + OneSlotConstraints(ts, slots, base)
  }

  // ---------------------------------------------------------------- objective

  /** A lookup as `add_objective` spells it: (teacher, day name as listed, period position). */
  type NamedKey = (string, string, nat)

  /** `slots[(teacher, day, period)]` finds an entry: the day is a weekday name and that slot exists. */
  predicate Resolves(slots: SlotMap, key: NamedKey) {
    key.1 in Days && (key.0, DayIndex(key.1), key.2) in slots
  }

  /** The variable a successful lookup returns. */
  function Resolve(slots: SlotMap, key: NamedKey): nat
    requires Resolves(slots, key)
  {
    slots[(key.0, DayIndex(key.1), key.2)]
  }

  /** The two lookups `add_objective` makes for one listed day. */
  function DayKeys(t: string, day: string): seq<NamedKey> {
    [(t, day, 0), (t, day, 1)]
  }

  /** The lookups made for one teacher: both periods of every listed day, in list order. */
  function TeacherObjectiveKeys(t: string, days: seq<string>): seq<NamedKey> {
    if days == [] then []
    else TeacherObjectiveKeys(t, days[..|days| - 1]) + DayKeys(t, days[|days| - 1])
  }

  /** Every lookup `add_objective` makes, in order. */
  function ObjectiveKeys(ts: seq<string>, avail: map<string, seq<string>>): seq<NamedKey>
    requires forall t :: t in ts ==> t in avail
  {
    if ts == [] then []
    else
      var t := ts[|ts| - 1];
      ObjectiveKeys(ts[..|ts| - 1], avail) + TeacherObjectiveKeys(t, avail[t])
  }

  /** Every lookup in `keys` finds an entry. */
  predicate AllResolve(slots: SlotMap, keys: seq<NamedKey>) {
    forall key :: key in keys ==> Resolves(slots, key)
  }

  /** No lookup of `add_objective` raises KeyError. */
  predicate ObjectiveLookupsSucceed(ts: seq<string>, avail: map<string, seq<string>>, slots: SlotMap)
    requires forall t :: t in ts ==> t in avail
  {
    AllResolve(slots, ObjectiveKeys(ts, avail))
  }

  /** The results of the lookups in `keys`, in order. */
  function Resolved(slots: SlotMap, keys: seq<NamedKey>): (vars: seq<nat>)
    requires AllResolve(slots, keys)
    ensures |vars| == |keys| && forall i :: 0 <= i < |keys| ==> vars[i] == Resolve(slots, keys[i])
  {
    seq(|keys|, i requires 0 <= i < |keys| => Resolve(slots, keys[i]))
  }

  /** The summed variables of the objective. */
  function ObjectiveTerms(ts: seq<string>, avail: map<string, seq<string>>, slots: SlotMap): seq<nat>
    requires forall t :: t in ts ==> t in avail
    requires ObjectiveLookupsSucceed(ts, avail, slots)
  {
    Resolved(slots, ObjectiveKeys(ts, avail))
  }

  /** The objective after the `maximize` / `minimize` dispatch; any other kind keeps `previous`. */
  function Directed(kind: string, terms: seq<nat>, previous: Objective): Objective {
    if kind == "maximize" then Maximize(terms)
    else if kind == "minimize" then Minimize(terms)
    else previous
  }

  // ---------------------------------------------------------------- the builder

  class SchedulingModel {
    const data: ProblemData
    const teachers: seq<string>
    const subjects: seq<string>
    const hoursRequired: map<string, int>
    const availability: map<string, seq<string>>
    /** `self.model`, the CP-SAT model being built. */
    const model: CpModel
    var slots: SlotMap
    /** `add_objective` stopped with KeyError: a listed day is not a weekday name. */
    var objectiveKeyError: bool

    /** The four fields `extract_teachers_info` fills. */
    ghost predicate Loaded() {
      var info := ExtractTeachersInfo(data);
      teachers == info.teachersList && subjects == info.subjects &&
      hoursRequired == info.hoursRequired && availability == info.availability
    }

    /** The state `__init__` leaves: every variable and constraint the builder generates, nothing else. */
    ghost predicate Built()
      reads this, model
    {
      Loaded() &&
      slots == SlotVars(teachers, 0) &&
      Covered(teachers, availability, slots) && Covered(teachers, hoursRequired, slots) &&
      model.domains == BuiltDomains(|teachers|) &&
      model.constraints == GeneratedConstraints(teachers, hoursRequired, availability, slots, WeekSlots * |teachers|)
    }

    constructor (data: ProblemData)
      ensures this.data == data && Built() && fresh(model)
      ensures objectiveKeyError == !ObjectiveLookupsSucceed(teachers, availability, slots)
      ensures model.objective ==
        if objectiveKeyError then NoObjective
        else Directed(data.objective.kind, ObjectiveTerms(teachers, availability, slots), NoObjective)
    {
      this.data := data;
      var info := ExtractTeachersInfo(data);
      teachers, subjects := info.teachersList, info.subjects;
      hoursRequired, availability := info.hoursRequired, info.availability;
      model := new CpModel();
      slots := map[];
      objectiveKeyError := false;
      new;
      forall t | t in teachers ensures t in availability && t in hoursRequired {
        assert t in ToSet(teachers);
      }
      Build();
    }

    /** The statements of `__init__` after the teacher data is loaded: variables, constraints, objective. */
    method Build()
      requires slots == map[] && model.domains == [] && model.constraints == [] && model.objective == NoObjective
      requires forall t :: t in teachers ==> t in availability && t in hoursRequired
      modifies this`slots, this`objectiveKeyError, model
      ensures slots == SlotVars(teachers, 0)
      ensures Covered(teachers, availability, slots) && Covered(teachers, hoursRequired, slots)
      ensures model.domains == BuiltDomains(|teachers|)
      ensures model.constraints == GeneratedConstraints(teachers, hoursRequired, availability, slots, WeekSlots * |teachers|)
      ensures objectiveKeyError == !ObjectiveLookupsSucceed(teachers, availability, slots)
      ensures model.objective ==
        if objectiveKeyError then NoObjective
        else Directed(data.objective.kind, ObjectiveTerms(teachers, availability, slots), NoObjective)
    {
      CreateVariables();
      assert slots == SlotVars(teachers, 0);
      SlotVarsHasWeeks(teachers, 0);
      AddConstraints();
      assert [] + GeneratedConstraints(teachers, hoursRequired, availability, slots, WeekSlots * |teachers|) ==
        GeneratedConstraints(teachers, hoursRequired, availability, slots, WeekSlots * |teachers|);
      var ok := AddObjective();
      objectiveKeyError := !ok;
    }

    /** `create_variables`: one 0..2 variable per (teacher, day, period), stored in `slots`. */
    method CreateVariables()
      modifies this`slots, model`domains
      ensures slots == old(slots) + SlotVars(teachers, |old(model.domains)|)
      ensures model.domains == old(model.domains) + Repeat(Domain(0, 2), WeekSlots * |teachers|)
    {
      ghost var base := |model.domains|;
      for i := 0 to |teachers|
        invariant slots == old(slots) + SlotVars(teachers[..i], base)
        invariant model.domains == old(model.domains) + Repeat(Domain(0, 2), WeekSlots * i)
      {
        CreateTeacherVariables(teachers[i]);
        SlotVarsSnoc(old(slots), teachers, base, i);
        RepeatAppend(Domain(0, 2), WeekSlots * i, WeekSlots);
      }
      assert teachers[..|teachers|] == teachers;
    }

    /** The body of `create_variables`' outer loop: the day/period loops for one teacher. */
    method CreateTeacherVariables(teacher: string)
      modifies this`slots, model`domains
      ensures slots == old(slots) + TeacherSlotVars(teacher, |old(model.domains)|, WeekSlots)
      ensures model.domains == old(model.domains) + Repeat(Domain(0, 2), WeekSlots)
    {
      ghost var first := |model.domains|;
      ghost var k: nat := 0;
      for d := 0 to |Days|
        invariant k == 2 * d
        invariant slots == old(slots) + TeacherSlotVars(teacher, first, k)
        invariant model.domains == old(model.domains) + Repeat(Domain(0, 2), k)
      {
        for p := 0 to |Periods|
          invariant k == 2 * d + p
          invariant slots == old(slots) + TeacherSlotVars(teacher, first, k)
          invariant model.domains == old(model.domains) + Repeat(Domain(0, 2), k)
        {
          var v := model.NewIntVar(0, 2);
          SlotKeyAtDayPeriod(teacher, k, d, p);
          TeacherSlotVarsStep(old(slots), teacher, first, k, v);
          RepeatSnoc(Domain(0, 2), k);
          slots := slots[(teacher, d, p) := v];
          k := k + 1;
        }
      }
    }

    /** `add_constraints`. */
    method AddConstraints()
      requires Covered(teachers, availability, slots) && Covered(teachers, hoursRequired, slots)
      modifies model`domains, model`constraints
      ensures model.domains == old(model.domains) + Repeat(Domain(0, 1), WeekSlots * |teachers|)
      ensures model.constraints ==
        old(model.constraints) + GeneratedConstraints(teachers, hoursRequired, availability, slots, |old(model.domains)|)
    {
      ghost var a := AvailabilityConstraints(teachers, availability, slots);
      ghost var h := HoursConstraints(teachers, hoursRequired, slots);
      ghost var o := OneSlotConstraints(teachers, slots, |model.domains|);
      var forbidden := ConstraintAvailability();
      ConstraintHoursRequired();
      var days := ConstraintOneSlotPerDay();
      assert model.constraints == old(model.constraints) + a + h + o;
    }

    /**
     * `constraint_availability`: both slots of every day a teacher does not list are
     * forced to 0; `count` is the number of constraints added (the count it prints).
     */
    method ConstraintAvailability() returns (count: nat)
      requires Covered(teachers, availability, slots)
      modifies model`constraints
      ensures model.constraints == old(model.constraints) + AvailabilityConstraints(teachers, availability, slots)
      ensures count == |AvailabilityConstraints(teachers, availability, slots)|
    {
      count := 0;
      for i := 0 to |teachers|
        invariant model.constraints == old(model.constraints) + AvailabilityConstraints(teachers[..i], availability, slots)
        invariant count == |AvailabilityConstraints(teachers[..i], availability, slots)|
      {
        var teacher := teachers[i];
        var availableDays := availability[teacher];
        var added := ForbidUnavailableDays(teacher, availableDays);
        count := count + added;
        AvailabilitySnoc(teachers, availability, slots, i);
      }
      assert teachers[..|teachers|] == teachers;
    }

    /** The body of `constraint_availability`'s outer loop for one teacher. */
    method ForbidUnavailableDays(teacher: string, availableDays: seq<string>) returns (added: nat)
      requires HasWeek(slots, teacher)
      modifies model`constraints
      ensures model.constraints == old(model.constraints) + TeacherZeros(teacher, availableDays, slots, WeekSlots)
      ensures added == |TeacherZeros(teacher, availableDays, slots, WeekSlots)|
    {
      added := 0;
      for d := 0 to |Days|
        invariant model.constraints == old(model.constraints) + TeacherZeros(teacher, availableDays, slots, 2 * d)
        invariant added == |TeacherZeros(teacher, availableDays, slots, 2 * d)|
      {
        ghost var before := model.constraints;
        var forced := ForbidDay(teacher, availableDays, d);
        assert model.constraints == before + DayZeros(teacher, availableDays, slots, d);
        added := added + forced;
        TeacherZerosDay(old(model.constraints), teacher, availableDays, slots, d);
      }
    }

    /** One day of `constraint_availability`: both slots are forced to 0 when the day is not listed. */
    method ForbidDay(teacher: string, availableDays: seq<string>, d: nat) returns (forced: nat)
      requires d < |Days| && HasWeek(slots, teacher)
      modifies model`constraints
      ensures model.constraints == old(model.constraints) + DayZeros(teacher, availableDays, slots, d)
      ensures forced == |DayZeros(teacher, availableDays, slots, d)|
    {
      forced := 0;
      var day := Days[d];
      if day !in availableDays {
        for p := 0 to |Periods|
          invariant model.constraints == old(model.constraints) + DayZeros(teacher, availableDays, slots, d)[..p]
          invariant forced == p
        {
          SlotKeyAtDayPeriod(teacher, 2 * d + p, d, p);
          ghost var before := model.constraints;
          model.Add(ZeroSlot(slots[(teacher, d, p)]));
          assert model.constraints == before + [DayZeros(teacher, availableDays, slots, d)[p]];
          assert DayZeros(teacher, availableDays, slots, d)[..p + 1] == DayZeros(teacher, availableDays, slots, d)[..p] + [DayZeros(teacher, availableDays, slots, d)[p]];
          forced := forced + 1;
        }
      }
    }

    /** `constraint_hours_required`: the ten slots of each teacher sum to its required hours. */
    method ConstraintHoursRequired()
      requires Covered(teachers, hoursRequired, slots)
      modifies model`constraints
      ensures model.constraints == old(model.constraints) + HoursConstraints(teachers, hoursRequired, slots)
    {
      for i := 0 to |teachers|
        invariant model.constraints == old(model.constraints) + HoursConstraints(teachers[..i], hoursRequired, slots)
      {
        var teacher := teachers[i];
        var hoursNeeded := hoursRequired[teacher];
        var hoursAssigned := WeekVariables(teacher);
        ghost var before := model.constraints;
        model.Add(LinearConstraint(hoursAssigned, Eq, hoursNeeded, []));
        assert model.constraints == before + [HoursConstraint(teacher, hoursNeeded, slots)];
        HoursSnoc(old(model.constraints), teachers, hoursRequired, slots, i);
      }
      assert teachers[..|teachers|] == teachers;
    }

    /** The list `hours_assigned` of one teacher: its ten slot variables in day/period order. */
    method WeekVariables(teacher: string) returns (hoursAssigned: seq<nat>)
      requires HasWeek(slots, teacher)
      ensures hoursAssigned == Lookups(slots, WeekKeys(teacher))
    {
      hoursAssigned := [];
      ghost var keys := WeekKeys(teacher);
      ghost var k: nat := 0;
      for d := 0 to |Days|
        invariant k == 2 * d
        invariant hoursAssigned == Lookups(slots, keys[..k])
      {
        for p := 0 to |Periods|
          invariant k == 2 * d + p
          invariant hoursAssigned == Lookups(slots, keys[..k])
        {
          SlotKeyAtDayPeriod(teacher, k, d, p);
          assert keys[k] == (teacher, d, p);
          LookupsSnoc(slots, keys, k);
          hoursAssigned := hoursAssigned + [slots[(teacher, d, p)]];
          k := k + 1;
        }
      }
      assert keys[..WeekSlots] == keys;
    }

    /**
     * `constraint_one_slot_per_day`: two indicator variables per (teacher, day), each
     * tied to "its slot > 0" in both directions, and at most one of them true. `count`
     * is the number of (teacher, day) pairs handled (the count it prints).
     */
    method ConstraintOneSlotPerDay() returns (count: nat)
      requires HasWeeks(slots, teachers)
      modifies model`domains, model`constraints
      ensures model.domains == old(model.domains) + Repeat(Domain(0, 1), WeekSlots * |teachers|)
      ensures model.constraints == old(model.constraints) + OneSlotConstraints(teachers, slots, |old(model.domains)|)
      ensures count == |Days| * |teachers|
    {
      ghost var base := |model.domains|;
      count := 0;
      for i := 0 to |teachers|
        invariant model.domains == old(model.domains) + Repeat(Domain(0, 1), WeekSlots * i)
        invariant model.constraints == old(model.constraints) + OneSlotConstraints(teachers[..i], slots, base)
        invariant count == |Days| * i
      {
        var teacher := teachers[i];
        assert HasWeek(slots, teacher) by { assert teacher in teachers; }
        var days := ExclusiveDays(teacher);
        count := count + days;
        OneSlotSnoc(old(model.constraints), teachers, slots, base, i);
        RepeatAppend(Domain(0, 1), WeekSlots * i, WeekSlots);
        assert WeekSlots * i + WeekSlots == WeekSlots * (i + 1);
      }
      assert teachers[..|teachers|] == teachers;
    }

    /** The body of `constraint_one_slot_per_day`'s outer loop for one teacher; `days` counts the days handled. */
    method ExclusiveDays(teacher: string) returns (days: nat)
      requires HasWeek(slots, teacher)
      modifies model`domains, model`constraints
      ensures model.domains == old(model.domains) + Repeat(Domain(0, 1), WeekSlots)
      ensures model.constraints == old(model.constraints) + TeacherExclusive(teacher, slots, |old(model.domains)|, |Days|)
      ensures days == |Days|
    {
      ghost var first := |model.domains|;
      days := 0;
      for d := 0 to |Days|
        invariant model.domains == old(model.domains) + Repeat(Domain(0, 1), 2 * d)
        invariant model.constraints == old(model.constraints) + TeacherExclusive(teacher, slots, first, d)
        invariant days == d
      {
        assert |model.domains| == first + 2 * d;
        ghost var before := model.constraints;
        LinkDay(teacher, d);
        assert model.constraints == before + DayExclusive(teacher, d, slots, first + 2 * d);
        RepeatGrow(old(model.domains), Domain(0, 1), 2 * d);
        RepeatGrow(old(model.domains), Domain(0, 1), 2 * d + 1);
        TeacherExclusiveSnoc(old(model.constraints), teacher, slots, first, d);
        days := days + 1;
      }
    }

    /** One day of `constraint_one_slot_per_day`: two indicators and their five constraints. */
    method LinkDay(teacher: string, d: nat)
      requires d < |Days| && HasWeek(slots, teacher)
      modifies model`domains, model`constraints
      ensures model.domains == old(model.domains) + [Domain(0, 1)] + [Domain(0, 1)]
      ensures model.constraints == old(model.constraints) + DayExclusive(teacher, d, slots, |old(model.domains)|)
    {
      var morningUsed := model.NewBoolVar();
      var afternoonUsed := model.NewBoolVar();
      SlotKeyAtDayPeriod(teacher, 2 * d, d, 0);
      SlotKeyAtDayPeriod(teacher, 2 * d + 1, d, 1);
      var morning, afternoon := slots[(teacher, d, 0)], slots[(teacher, d, 1)];
      model.Add(LinearConstraint([morning], Gt, 0, [Pos(morningUsed)]));
      model.Add(LinearConstraint([morning], Eq, 0, [Neg(morningUsed)]));
      model.Add(LinearConstraint([afternoon], Gt, 0, [Pos(afternoonUsed)]));
      model.Add(LinearConstraint([afternoon], Eq, 0, [Neg(afternoonUsed)]));
      model.Add(LinearConstraint([morningUsed, afternoonUsed], Le, 1, []));
      assert morning == SlotVar(slots, teacher, 2 * d) && afternoon == SlotVar(slots, teacher, 2 * d + 1);
      AppendFive(old(model.constraints), DayExclusive(teacher, d, slots, morningUsed));
    }

    /**
     * `add_objective`: the sum of both slots of every listed day, maximised or minimised
     * as the problem says. `ok` is false when a lookup raised KeyError; the objective is
     * then left as it was.
     */
    method AddObjective() returns (ok: bool)
      requires forall t :: t in teachers ==> t in availability
      modifies model`objective
      ensures ok <==> ObjectiveLookupsSucceed(teachers, availability, slots)
      ensures model.objective ==
        if ok then Directed(data.objective.kind, ObjectiveTerms(teachers, availability, slots), old(model.objective))
        else old(model.objective)
    {
      var objectiveType := data.objective.kind;
      var totalHoursAssigned: seq<nat> := [];
      for i := 0 to |teachers|
        invariant AllResolve(slots, ObjectiveKeys(teachers[..i], availability))
        invariant totalHoursAssigned == Resolved(slots, ObjectiveKeys(teachers[..i], availability))
        invariant model.objective == old(model.objective)
      {
        var teacher := teachers[i];
        var found, terms := TeacherLookups(teacher, availability[teacher]);
        if !found {
          TeacherKeysListed(teachers, availability, i);
          return false;
        }
        ObjectiveKeysSnoc(teachers, availability, i);
        ResolvedAppend(slots, ObjectiveKeys(teachers[..i], availability), TeacherObjectiveKeys(teacher, availability[teacher]));
        totalHoursAssigned := totalHoursAssigned + terms;
      }
      assert teachers[..|teachers|] == teachers;
      if objectiveType == "maximize" {
        model.SetObjective(Maximize(totalHoursAssigned));
      } else if objectiveType == "minimize" {
        model.SetObjective(Minimize(totalHoursAssigned));
      }
      ok := true;
    }

    /** The lookups of `add_objective` for one teacher; `found` is false when one raised KeyError. */
    method TeacherLookups(teacher: string, availableDays: seq<string>) returns (found: bool, terms: seq<nat>)
      ensures found <==> AllResolve(slots, TeacherObjectiveKeys(teacher, availableDays))
      ensures found ==> terms == Resolved(slots, TeacherObjectiveKeys(teacher, availableDays))
    {
      terms := [];
      for j := 0 to |availableDays|
        invariant AllResolve(slots, TeacherObjectiveKeys(teacher, availableDays[..j]))
        invariant terms == Resolved(slots, TeacherObjectiveKeys(teacher, availableDays[..j]))
      {
        var day := availableDays[j];
        assert availableDays[..j + 1][..j] == availableDays[..j];
        var dayFound, dayTerms := DayLookups(teacher, day);
        if !dayFound {
          if !Resolves(slots, (teacher, day, 0)) {
            TeacherObjectiveKeyListed(teacher, availableDays, j, 0);
          } else {
            TeacherObjectiveKeyListed(teacher, availableDays, j, 1);
          }
          return false, terms;
        }
        ResolvedAppend(slots, TeacherObjectiveKeys(teacher, availableDays[..j]), DayKeys(teacher, day));
        terms := terms + dayTerms;
      }
      assert availableDays[..|availableDays|] == availableDays;
      found := true;
    }

    /** `slots[(teacher, day, period)]` for both periods of one listed day. */
    method DayLookups(teacher: string, day: string) returns (found: bool, terms: seq<nat>)
      ensures found <==> Resolves(slots, (teacher, day, 0)) && Resolves(slots, (teacher, day, 1))
      ensures found ==> AllResolve(slots, DayKeys(teacher, day)) && terms == Resolved(slots, DayKeys(teacher, day))
    {
      terms := [];
      for p := 0 to |Periods|
        invariant forall q :: 0 <= q < p ==> Resolves(slots, (teacher, day, q))
        invariant |terms| == p && forall q :: 0 <= q < p ==> terms[q] == Resolve(slots, (teacher, day, q))
      {
        if !(day in Days && (teacher, DayIndex(day), p) in slots) {
          return false, terms;
        }
        terms := terms + [slots[(teacher, DayIndex(day), p)]];
      }
      found := true;
    }
  }

  // ---------------------------------------------------------------- facts the builder needs

  /** Slot `k` of the day/period loops is period `p` of day `d`. */
  lemma SlotKeyAtDayPeriod(t: string, k: nat, d: nat, p: nat)
    requires d < |Days| && p < |Periods| && k == 2 * d + p
    ensures k < WeekSlots && k / 2 == d && SlotKeyAt(t, k) == (t, d, p)
  {
  }

  /** One more step of a teacher's loops, on top of the entries made before. */
  lemma TeacherSlotVarsStep(before: SlotMap, t: string, first: nat, k: nat, v: nat)
    requires k < WeekSlots && v == first + k
    ensures (before + TeacherSlotVars(t, first, k))[SlotKeyAt(t, k) := v] == before + TeacherSlotVars(t, first, k + 1)
  {
    assert TeacherSlotVars(t, first, k + 1) == TeacherSlotVars(t, first, k)[SlotKeyAt(t, k) := v];
  }

  /** One more teacher of `constraint_one_slot_per_day`'s outer loop. */
  lemma OneSlotSnoc(before: seq<LinearConstraint>, ts: seq<string>, slots: SlotMap, base: nat, i: nat)
    requires HasWeeks(slots, ts) && i < |ts|
    ensures HasWeeks(slots, ts[..i]) && HasWeek(slots, ts[i])
    ensures before + OneSlotConstraints(ts[..i], slots, base) + TeacherExclusive(ts[i], slots, base + WeekSlots * i, |Days|) ==
      before + OneSlotConstraints(ts[..i + 1], slots, base)
  {
    assert ts[..i + 1][..i] == ts[..i];
  }

  /** One more teacher of `constraint_availability`'s outer loop. */
  lemma AvailabilitySnoc(ts: seq<string>, avail: map<string, seq<string>>, slots: SlotMap, i: nat)
    requires Covered(ts, avail, slots) && i < |ts|
    ensures Covered(ts[..i], avail, slots)
    ensures AvailabilityConstraints(ts[..i + 1], avail, slots) ==
      AvailabilityConstraints(ts[..i], avail, slots) + TeacherZeros(ts[i], avail[ts[i]], slots, WeekSlots)
  {
    assert ts[..i + 1][..i] == ts[..i];
  }

  lemma LookupsSnoc(slots: SlotMap, keys: seq<SlotKey>, k: nat)
    requires k < |keys| && forall i :: 0 <= i < |keys| ==> keys[i] in slots
    ensures Lookups(slots, keys[..k]) + [slots[keys[k]]] == Lookups(slots, keys[..k + 1])
  {
  }

  /** One more teacher of `constraint_hours_required`'s loop. */
  lemma HoursSnoc(before: seq<LinearConstraint>, ts: seq<string>, hours: map<string, int>, slots: SlotMap, i: nat)
    requires Covered(ts, hours, slots) && i < |ts|
    ensures Covered(ts[..i], hours, slots)
    ensures before + HoursConstraints(ts[..i], hours, slots) + [HoursConstraint(ts[i], hours[ts[i]], slots)] ==
      before + HoursConstraints(ts[..i + 1], hours, slots)
  {
    assert ts[..i + 1][..i] == ts[..i];
  }

  /** One more day of a teacher's `constraint_availability` loop. */
  lemma TeacherZerosDay(before: seq<LinearConstraint>, t: string, avail: seq<string>, slots: SlotMap, d: nat)
    requires d < |Days| && HasWeek(slots, t)
    ensures before + TeacherZeros(t, avail, slots, 2 * d) + DayZeros(t, avail, slots, d) ==
      before + TeacherZeros(t, avail, slots, 2 * (d + 1))
  {
    DayZerosExtend(t, avail, slots, d);
  }

  lemma DayZerosExtend(t: string, avail: seq<string>, slots: SlotMap, d: nat)
    requires d < |Days| && HasWeek(slots, t)
    ensures TeacherZeros(t, avail, slots, 2 * d) + DayZeros(t, avail, slots, d) == TeacherZeros(t, avail, slots, 2 * (d + 1))
  {
    var k := 2 * d;
    assert k / 2 == d && (k + 1) / 2 == d && k + 2 == 2 * (d + 1);
    var zeros := DayZeros(t, avail, slots, d);
    if Days[d] in avail {
      assert TeacherZeros(t, avail, slots, k + 1) == TeacherZeros(t, avail, slots, k);
      assert TeacherZeros(t, avail, slots, k + 2) == TeacherZeros(t, avail, slots, k + 1);
    } else {
      var z := TeacherZeros(t, avail, slots, k);
      assert TeacherZeros(t, avail, slots, k + 1) == z + [zeros[0]];
      assert TeacherZeros(t, avail, slots, k + 2) == z + [zeros[0]] + [zeros[1]];
      assert z + [zeros[0]] + [zeros[1]] == z + zeros;
    }
  }

  /** One more teacher of `create_variables`' outer loop, on top of the entries made before. */
  lemma SlotVarsSnoc(before: SlotMap, ts: seq<string>, base: nat, i: nat)
    requires i < |ts|
    ensures before + SlotVars(ts[..i], base) + TeacherSlotVars(ts[i], base + WeekSlots * i, WeekSlots) ==
      before + SlotVars(ts[..i + 1], base)
  {
    assert ts[..i + 1][..i] == ts[..i];
  }

  /** Appending a domain one variable at a time. */
  lemma RepeatGrow<T>(before: seq<T>, x: T, n: nat)
    ensures before + Repeat(x, n) + [x] == before + Repeat(x, n + 1)
  {
    assert Repeat(x, n) + [x] == Repeat(x, n + 1);
  }

  /** Five `Add` calls in a row append the five-element list. */
  lemma AppendFive<T>(start: seq<T>, cs: seq<T>)
    requires |cs| == 5
    ensures start + [cs[0]] + [cs[1]] + [cs[2]] + [cs[3]] + [cs[4]] == start + cs
  {
    assert cs == [cs[0]] + [cs[1]] + [cs[2]] + [cs[3]] + [cs[4]];
  }

  /** One more day of a teacher's `constraint_one_slot_per_day` loop. */
  lemma TeacherExclusiveSnoc(before: seq<LinearConstraint>, t: string, slots: SlotMap, first: nat, d: nat)
    requires d < |Days| && HasWeek(slots, t)
    ensures before + TeacherExclusive(t, slots, first, d) + DayExclusive(t, d, slots, first + 2 * d) ==
      before + TeacherExclusive(t, slots, first, d + 1)
  {
  }

  lemma RepeatAppend<T>(x: T, m: nat, n: nat)
    ensures Repeat(x, m) + Repeat(x, n) == Repeat(x, m + n)
  {
  }

  lemma RepeatSnoc<T>(x: T, n: nat)
    ensures Repeat(x, n) + [x] == Repeat(x, n + 1)
  {
  }

  /** After `k` steps a teacher's loops have given slot j < k the variable `base + j`. */
  lemma {:induction false} TeacherSlotVarsAt(t: string, base: nat, k: nat, j: nat)
    requires j < k <= WeekSlots
    ensures SlotKeyAt(t, j) in TeacherSlotVars(t, base, k)
    ensures TeacherSlotVars(t, base, k)[SlotKeyAt(t, j)] == base + j
  {
    var before := TeacherSlotVars(t, base, k - 1);
    assert TeacherSlotVars(t, base, k) == before[SlotKeyAt(t, k - 1) := base + k - 1];
    if j < k - 1 {
      TeacherSlotVarsAt(t, base, k - 1, j);
      SlotKeyAtInjective(t, j, t, k - 1);
    }
  }

  /** A teacher's loops add no key other than that teacher's first `k` slots. */
  lemma {:induction false} TeacherSlotVarsOnly(t: string, base: nat, k: nat, key: SlotKey)
    requires k <= WeekSlots && key in TeacherSlotVars(t, base, k)
    ensures exists j :: 0 <= j < k && key == SlotKeyAt(t, j)
  {
    if key != SlotKeyAt(t, k - 1) {
      TeacherSlotVarsOnly(t, base, k - 1, key);
    }
  }

  /** `create_variables` gives every teacher its ten slots. */
  lemma {:induction false} SlotVarsHasWeeks(ts: seq<string>, base: nat)
    ensures HasWeeks(SlotVars(ts, base), ts)
  {
    if ts != [] {
      var init, t := ts[..|ts| - 1], ts[|ts| - 1];
      SlotVarsHasWeeks(init, base);
      forall u, k | u in ts && 0 <= k < WeekSlots ensures SlotKeyAt(u, k) in SlotVars(ts, base) {
        if u == t {
          TeacherSlotVarsAt(t, base + WeekSlots * (|ts| - 1), WeekSlots, k);
        } else {
          assert u in init by { var i :| 0 <= i < |ts| && ts[i] == u; assert init[i] == u; }
        }
      }
    }
  }

  /** The lookups made for teachers[i] are among those `add_objective` makes. */
  lemma {:induction false} TeacherKeysListed(ts: seq<string>, avail: map<string, seq<string>>, i: nat)
    requires forall t :: t in ts ==> t in avail
    requires i < |ts|
    ensures forall key :: key in TeacherObjectiveKeys(ts[i], avail[ts[i]]) ==> key in ObjectiveKeys(ts, avail)
  {
    var init := ts[..|ts| - 1];
    if i < |ts| - 1 {
      assert ts[i] == init[i];
      TeacherKeysListed(init, avail, i);
    }
  }

  /** One more teacher of `add_objective`'s outer loop. */
  lemma ObjectiveKeysSnoc(ts: seq<string>, avail: map<string, seq<string>>, i: nat)
    requires forall t :: t in ts ==> t in avail
    requires i < |ts|
    ensures ObjectiveKeys(ts[..i + 1], avail) == ObjectiveKeys(ts[..i], avail) + TeacherObjectiveKeys(ts[i], avail[ts[i]])
  {
    assert ts[..i + 1][..i] == ts[..i];
  }

  lemma ResolvedAppend(slots: SlotMap, a: seq<NamedKey>, b: seq<NamedKey>)
    requires AllResolve(slots, a) && AllResolve(slots, b)
    ensures AllResolve(slots, a + b) && Resolved(slots, a + b) == Resolved(slots, a) + Resolved(slots, b)
  {
  }

  lemma {:induction false} TeacherObjectiveKeyListed(t: string, days: seq<string>, j: nat, p: nat)
    requires j < |days| && p < |Periods|
    ensures (t, days[j], p) in TeacherObjectiveKeys(t, days)
  {
    if j < |days| - 1 {
      TeacherObjectiveKeyListed(t, days[..|days| - 1], j, p);
    } else {
      assert DayKeys(t, days[j])[p] == (t, days[j], p);
    }
  }
}
