/**
 * What the variables and constraints of the model builder mean. Numbering: the slot map
 * gives teacher `t`'s k-th slot the variable `base + 10 * (last position of t) + k`.
 * Constraint semantics: each constraint family of module Model holds for an assignment
 * exactly when a plain statement about the slot values does.
 */
module ModelFacts {
  import opened Seqs
  import opened Week
  import opened CpSat
  import opened Model

  // ---------------------------------------------------------------- numbering and counts

  /** Keys of different teachers' loops never collide. */
  lemma {:induction false} TeacherSlotVarsOther(t: string, base: nat, k: nat, u: string, j: nat)
    requires k <= WeekSlots && j < WeekSlots && u != t
    ensures SlotKeyAt(u, j) !in TeacherSlotVars(t, base, k)
  {
    if SlotKeyAt(u, j) in TeacherSlotVars(t, base, k) {
      TeacherSlotVarsOnly(t, base, k, SlotKeyAt(u, j));
    }
  }

  /**
   * Every slot of a listed teacher has a variable, and it is the one created while the
   * loops visited the LAST position holding that name: a repeated name overwrites the
   * dictionary entries of its earlier occurrences.
   */
  lemma {:induction false} SlotVarsValue(ts: seq<string>, base: nat, t: string, k: nat)
    requires t in ts && k < WeekSlots
    ensures SlotKeyAt(t, k) in SlotVars(ts, base)
    ensures SlotVars(ts, base)[SlotKeyAt(t, k)] == base + WeekSlots * LastIndex(ts, t) + k
  {
    var init, last := ts[..|ts| - 1], ts[|ts| - 1];
    var lastBase := base + WeekSlots * (|ts| - 1);
    if t == last {
      TeacherSlotVarsAt(t, lastBase, WeekSlots, k);
    } else {
      assert t in init by {
        var i :| 0 <= i < |ts| && ts[i] == t;
        assert init[i] == t;
      }
      SlotVarsValue(init, base, t, k);
      TeacherSlotVarsOther(last, lastBase, WeekSlots, t, k);
    }
  }

  /** The slot map has no keys besides the ten slots of each listed teacher. */
  lemma {:induction false} SlotVarsOnly(ts: seq<string>, base: nat, key: SlotKey)
    requires key in SlotVars(ts, base)
    ensures exists t, k :: t in ts && 0 <= k < WeekSlots && key == SlotKeyAt(t, k)
  {
    var init, last := ts[..|ts| - 1], ts[|ts| - 1];
    var lastBase := base + WeekSlots * (|ts| - 1);
    if key in TeacherSlotVars(last, lastBase, WeekSlots) {
      TeacherSlotVarsOnly(last, lastBase, WeekSlots, key);
    } else {
      SlotVarsOnly(init, base, key);
      var t, k :| t in init && 0 <= k < WeekSlots && key == SlotKeyAt(t, k);
      assert t in ts;
    }
  }

  /** The ten slot keys of every name in `names`. */
  function KeysOf(names: set<string>): set<SlotKey> {
    set t, k | t in names && 0 <= k < WeekSlots :: SlotKeyAt(t, k)
  }

  /** The slot map holds the ten keys of each distinct name and nothing else. */
  lemma SlotVarsKeys(ts: seq<string>, base: nat)
    ensures SlotVars(ts, base).Keys == KeysOf(ToSet(ts))
  {
    forall key | key in SlotVars(ts, base) ensures key in KeysOf(ToSet(ts)) {
      SlotVarsOnly(ts, base, key);
    }
    forall key | key in KeysOf(ToSet(ts)) ensures key in SlotVars(ts, base) {
      var t, k :| t in ToSet(ts) && 0 <= k < WeekSlots && key == SlotKeyAt(t, k);
      SlotVarsValue(ts, base, t, k);
    }
  }

  /** Ten keys per name. */
  lemma {:induction false} KeysOfCount(names: set<string>)
    ensures |KeysOf(names)| == WeekSlots * |names|
    decreases names
  {
    if names != {} {
      var t :| t in names;
      var rest := names - {t};
      KeysOfCount(rest);
      KeysOfSplit(names, t);
      KeysOfSingle(t);
      UnionOfDisjoint(KeysOf(rest), KeysOf({t}));
    }
  }

  lemma KeysOfSplit(names: set<string>, t: string)
    requires t in names
    ensures KeysOf(names) == KeysOf(names - {t}) + KeysOf({t})
    ensures KeysOf(names - {t}) !! KeysOf({t})
  {
  }

  /** One name has exactly its ten week keys. */
  lemma KeysOfSingle(t: string)
    ensures |KeysOf({t})| == WeekSlots
  {
    var week := WeekKeys(t);
    forall i, j | 0 <= i < j < |week| ensures week[i] != week[j] {
      SlotKeyAtInjective(t, i, t, j);
    }
    ToSetCard(week);
    forall key | key in KeysOf({t}) ensures key in ToSet(week) {
      var u, k :| u in {t} && 0 <= k < WeekSlots && key == SlotKeyAt(u, k);
      assert week[k] == key;
    }
    assert KeysOf({t}) == ToSet(week);
  }

  lemma UnionOfDisjoint<T>(a: set<T>, b: set<T>)
    requires a !! b
    ensures |a + b| == |a| + |b|
  {
  }

  /** Ten variables per distinct teacher name (`len(self.slots)`). */
  lemma SlotVarsCount(ts: seq<string>, base: nat)
    ensures |SlotVars(ts, base).Keys| == WeekSlots * |ToSet(ts)|
  {
    SlotVarsKeys(ts, base);
    KeysOfCount(ToSet(ts));
  }

  /** With distinct teacher names there are exactly 10 x |teachers| slot variables. */
  lemma DistinctSlotCount(ts: seq<string>, base: nat)
    requires NoDuplicates(ts)
    ensures |SlotVars(ts, base).Keys| == WeekSlots * |ts|
  {
    SlotVarsCount(ts, base);
    ToSetCard(ts);
  }

  /** Slot variables are the first 10 n variables, each in 0..2; the indicators follow, each in 0..1. */
  lemma BuiltDomainsLayout(n: nat, v: nat)
    ensures |BuiltDomains(n)| == 2 * WeekSlots * n
    ensures v < WeekSlots * n ==> BuiltDomains(n)[v] == Domain(0, 2)
    ensures WeekSlots * n <= v < 2 * WeekSlots * n ==> BuiltDomains(n)[v] == Domain(0, 1)
  {
  }

  /** `create_variables` numbers the slots below `base + 10 n`. */
  lemma SlotVarsBelow(ts: seq<string>, base: nat)
    ensures SlotsBelow(SlotVars(ts, base), ts, base + WeekSlots * |ts|)
  {
    forall t | t in ts ensures WeekBelow(SlotVars(ts, base), t, base + WeekSlots * |ts|) {
      forall k | 0 <= k < WeekSlots
        ensures SlotKeyAt(t, k) in SlotVars(ts, base) && SlotVars(ts, base)[SlotKeyAt(t, k)] < base + WeekSlots * |ts|
      {
        SlotVarsValue(ts, base, t, k);
      }
    }
  }

  // ---------------------------------------------------------------- reading an assignment

  /** Every slot of teacher `t` has a variable below `n`. */
  predicate WeekBelow(slots: SlotMap, t: string, n: nat) {
    forall k :: 0 <= k < WeekSlots ==> SlotKeyAt(t, k) in slots && slots[SlotKeyAt(t, k)] < n
  }

  predicate SlotsBelow(slots: SlotMap, ts: seq<string>, n: nat) {
    forall t :: t in ts ==> WeekBelow(slots, t, n)
  }

  /** The value an assignment gives to teacher `t`'s k-th slot (`solver.Value(slots[...])`). */
  function SlotValue(values: seq<int>, slots: SlotMap, t: string, k: nat): int
    requires k < WeekSlots && WeekBelow(slots, t, |values|)
  {
    values[slots[SlotKeyAt(t, k)]]
  }

  /** The sum of teacher `t`'s first `k` slot values. */
  function WeekTotal(values: seq<int>, slots: SlotMap, t: string, k: nat): int
    requires k <= WeekSlots && WeekBelow(slots, t, |values|)
  {
    if k == 0 then 0 else WeekTotal(values, slots, t, k - 1) + SlotValue(values, slots, t, k - 1)
  }

  /** Every slot value of the listed teachers is at most 2. */
  predicate AtMostTwo(ts: seq<string>, slots: SlotMap, values: seq<int>)
    requires SlotsBelow(slots, ts, |values|)
  {
    forall t, k :: t in ts && 0 <= k < WeekSlots ==> SlotValue(values, slots, t, k) <= 2
  }

  /**
   * Values within the domains `__init__` declares give every slot of the built model a
   * value in 0..2 and every indicator a value in 0..1.
   */
  lemma BuiltTyped(ts: seq<string>, values: seq<int>)
    requires InDomains(BuiltDomains(|ts|), values)
    ensures var slots := SlotVars(ts, 0);
      HasWeeks(slots, ts) && SlotsBelow(slots, ts, |values|) && |values| == 2 * WeekSlots * |ts| &&
      Typed(ts, slots, WeekSlots * |ts|, values) && AtMostTwo(ts, slots, values)
  {
    BuiltDomainsLayout(|ts|, 0);
    SlotVarsHasWeeks(ts, 0);
    SlotVarsBelow(ts, 0);
    SlotsInRange(ts, values);
    IndicatorsInRange(|ts|, values);
  }

  /** Within the declared domains, every slot value is in 0..2. */
  lemma SlotsInRange(ts: seq<string>, values: seq<int>)
    requires InDomains(BuiltDomains(|ts|), values) && SlotsBelow(SlotVars(ts, 0), ts, |values|)
    ensures forall t, k :: t in ts && 0 <= k < WeekSlots ==> 0 <= SlotValue(values, SlotVars(ts, 0), t, k) <= 2
  {
    var slots := SlotVars(ts, 0);
    SlotVarsBelow(ts, 0);
    forall t, k | t in ts && 0 <= k < WeekSlots ensures 0 <= SlotValue(values, slots, t, k) <= 2 {
      BuiltDomainsLayout(|ts|, slots[SlotKeyAt(t, k)]);
    }
  }

  /** Within the declared domains, every indicator value is in 0..1. */
  lemma IndicatorsInRange(n: nat, values: seq<int>)
    requires InDomains(BuiltDomains(n), values)
    ensures forall v :: WeekSlots * n <= v < WeekSlots * n + WeekSlots * n ==> 0 <= values[v] <= 1
  {
    forall v | WeekSlots * n <= v < WeekSlots * n + WeekSlots * n ensures 0 <= values[v] <= 1 {
      BuiltDomainsLayout(n, v);
    }
  }

  // ---------------------------------------------------------------- availability

  /** Among teacher `t`'s first `n` slots, every one on a day missing from `a` is 0. */
  predicate IdleBelow(t: string, a: seq<string>, slots: SlotMap, values: seq<int>, n: nat)
    requires n <= WeekSlots && WeekBelow(slots, t, |values|)
  {
    forall j :: 0 <= j < n && Days[j / 2] !in a ==> SlotValue(values, slots, t, j) == 0
  }

  /** Both slots of every day a teacher does not list are 0. */
  predicate UnlistedDaysIdle(ts: seq<string>, avail: map<string, seq<string>>, slots: SlotMap, values: seq<int>)
    requires forall t :: t in ts ==> t in avail
    requires SlotsBelow(slots, ts, |values|)
  {
    forall t :: t in ts ==> IdleBelow(t, avail[t], slots, values, WeekSlots)
  }

  lemma ZeroSlotMeaning(values: seq<int>, v: nat)
    requires v < |values|
    ensures RefersWithin(ZeroSlot(v), |values|)
    ensures AllHold(values, [ZeroSlot(v)]) <==> values[v] == 0
  {
    assert Sum(values, [v]) == values[v] by {
      assert [v][..0] == [];
    }
    AllHoldSingleton(values, ZeroSlot(v));
  }

  lemma IdleBelowStep(t: string, a: seq<string>, slots: SlotMap, values: seq<int>, n: nat)
    requires n < WeekSlots && WeekBelow(slots, t, |values|)
    ensures IdleBelow(t, a, slots, values, n + 1) <==>
      IdleBelow(t, a, slots, values, n) && (Days[n / 2] !in a ==> SlotValue(values, slots, t, n) == 0)
  {
  }

  lemma {:induction false} TeacherZerosMeaning(t: string, a: seq<string>, slots: SlotMap, values: seq<int>, k: nat)
    requires k <= WeekSlots && HasWeek(slots, t) && WeekBelow(slots, t, |values|)
    ensures AllHold(values, TeacherZeros(t, a, slots, k)) <==> IdleBelow(t, a, slots, values, k)
  {
    if k > 0 {
      var n := k - 1;
      TeacherZerosMeaning(t, a, slots, values, n);
      var forced := if Days[n / 2] in a then [] else [ZeroSlot(SlotVar(slots, t, n))];
      assert TeacherZeros(t, a, slots, k) == TeacherZeros(t, a, slots, n) + forced;
      AllHoldAppend(values, TeacherZeros(t, a, slots, n), forced);
      if Days[n / 2] !in a {
        ZeroSlotMeaning(values, SlotVar(slots, t, n));
      }
      IdleBelowStep(t, a, slots, values, n);
      assert AllHold(values, forced) <==> (Days[n / 2] !in a ==> SlotValue(values, slots, t, n) == 0);
    }
  }

  /**
   * The availability constraints hold exactly when both slots of every day missing from a
   * teacher's list are 0.
   */
  lemma {:induction false} AvailabilityMeaning(ts: seq<string>, avail: map<string, seq<string>>, slots: SlotMap, values: seq<int>)
    requires Covered(ts, avail, slots) && SlotsBelow(slots, ts, |values|)
    ensures AllHold(values, AvailabilityConstraints(ts, avail, slots)) <==> UnlistedDaysIdle(ts, avail, slots, values)
  {
    if ts != [] {
      var init, t := ts[..|ts| - 1], ts[|ts| - 1];
      assert ts == init + [t];
      AvailabilityMeaning(init, avail, slots, values);
      TeacherZerosMeaning(t, avail[t], slots, values, WeekSlots);
      AllHoldAppend(values, AvailabilityConstraints(init, avail, slots), TeacherZeros(t, avail[t], slots, WeekSlots));
      assert UnlistedDaysIdle(ts, avail, slots, values) <==>
        UnlistedDaysIdle(init, avail, slots, values) && IdleBelow(t, avail[t], slots, values, WeekSlots);
    }
  }

  /** Number of the first `n` weekdays that `a` does not list. */
  function UnlistedCount(a: seq<string>, n: nat): (c: nat)
    requires n <= |Days|
    ensures c <= n
  {
    if n == 0 then 0 else UnlistedCount(a, n - 1) + (if Days[n - 1] in a then 0 else 1)
  }

  /** Number of (teacher position, weekday) pairs whose day the teacher does not list. */
  function ForbiddenPairs(ts: seq<string>, avail: map<string, seq<string>>): nat
    requires forall t :: t in ts ==> t in avail
  {
    if ts == [] then 0 else ForbiddenPairs(ts[..|ts| - 1], avail) + UnlistedCount(avail[ts[|ts| - 1]], |Days|)
  }

  lemma {:induction false} TeacherZerosCount(t: string, a: seq<string>, slots: SlotMap, d: nat)
    requires d <= |Days| && HasWeek(slots, t)
    ensures |TeacherZeros(t, a, slots, 2 * d)| == 2 * UnlistedCount(a, d)
  {
    if d > 0 {
      TeacherZerosCount(t, a, slots, d - 1);
      assert (2 * d - 1) / 2 == d - 1 && (2 * d - 2) / 2 == d - 1;
    }
  }

  /** The count `constraint_availability` reports is twice the number of forbidden (teacher, day) pairs. */
  lemma {:induction false} AvailabilityCount(ts: seq<string>, avail: map<string, seq<string>>, slots: SlotMap)
    requires Covered(ts, avail, slots)
    ensures |AvailabilityConstraints(ts, avail, slots)| == 2 * ForbiddenPairs(ts, avail)
  {
    if ts != [] {
      var init, t := ts[..|ts| - 1], ts[|ts| - 1];
      assert ts == init + [t];
      AvailabilityCount(init, avail, slots);
      TeacherZerosCount(t, avail[t], slots, |Days|);
    }
  }

  /** A listed entry that is not a weekday name changes nothing in the availability constraints. */
  lemma {:induction false} NonDayEntryIgnored(t: string, a: seq<string>, x: string, slots: SlotMap, k: nat)
    requires k <= WeekSlots && HasWeek(slots, t) && x !in Days
    ensures TeacherZeros(t, a + [x], slots, k) == TeacherZeros(t, a, slots, k)
  {
    if k > 0 {
      NonDayEntryIgnored(t, a, x, slots, k - 1);
      assert Days[(k - 1) / 2] in a + [x] <==> Days[(k - 1) / 2] in a;
    }
  }

  // ---------------------------------------------------------------- hours

  /** Every teacher's ten slot values sum to its required hours. */
  predicate HoursMet(ts: seq<string>, hours: map<string, int>, slots: SlotMap, values: seq<int>)
    requires forall t :: t in ts ==> t in hours
    requires SlotsBelow(slots, ts, |values|)
  {
    forall t :: t in ts ==> WeekTotal(values, slots, t, WeekSlots) == hours[t]
  }

  lemma {:induction false} WeekSum(values: seq<int>, slots: SlotMap, t: string, k: nat)
    requires k <= WeekSlots && HasWeek(slots, t) && WeekBelow(slots, t, |values|)
    ensures VarsWithin(Lookups(slots, WeekKeys(t))[..k], |values|)
    ensures Sum(values, Lookups(slots, WeekKeys(t))[..k]) == WeekTotal(values, slots, t, k)
  {
    if k > 0 {
      WeekSum(values, slots, t, k - 1);
      var vars := Lookups(slots, WeekKeys(t));
      assert vars[..k][..k - 1] == vars[..k - 1];
    }
  }

  /** The hours equalities hold exactly when each teacher's ten slots sum to its required hours. */
  lemma {:induction false} HoursMeaning(ts: seq<string>, hours: map<string, int>, slots: SlotMap, values: seq<int>)
    requires Covered(ts, hours, slots) && SlotsBelow(slots, ts, |values|)
    ensures |HoursConstraints(ts, hours, slots)| == |ts|
    ensures AllHold(values, HoursConstraints(ts, hours, slots)) <==> HoursMet(ts, hours, slots, values)
  {
    if ts != [] {
      var init, t := ts[..|ts| - 1], ts[|ts| - 1];
      assert ts == init + [t];
      HoursMeaning(init, hours, slots, values);
      WeekSum(values, slots, t, WeekSlots);
      var vars := Lookups(slots, WeekKeys(t));
      assert vars[..WeekSlots] == vars;
      var c := HoursConstraint(t, hours[t], slots);
      assert RefersWithin(c, |values|);
      AllHoldSingleton(values, c);
      AllHoldAppend(values, HoursConstraints(init, hours, slots), [c]);
    }
  }

  // ---------------------------------------------------------------- one period per day

  /** Among the first `d` days, none has both of teacher `t`'s periods positive. */
  predicate NoDoubleDay(t: string, slots: SlotMap, d: nat, values: seq<int>)
    requires d <= |Days| && WeekBelow(slots, t, |values|)
  {
    forall e :: 0 <= e < d ==> !(SlotValue(values, slots, t, 2 * e) > 0 && SlotValue(values, slots, t, 2 * e + 1) > 0)
  }

  /** The indicators numbered from `b` are 1 exactly where teacher `t`'s first `n` slots are positive. */
  predicate IndicatorsFrom(t: string, slots: SlotMap, b: nat, n: nat, values: seq<int>)
    requires n <= WeekSlots && WeekBelow(slots, t, |values|) && b + WeekSlots <= |values|
  {
    forall k :: 0 <= k < n ==> (values[b + k] == 1 <==> SlotValue(values, slots, t, k) > 0)
  }

  /** No teacher has both periods of a day positive. */
  predicate OnePeriodPerDay(ts: seq<string>, slots: SlotMap, values: seq<int>)
    requires SlotsBelow(slots, ts, |values|)
  {
    forall t :: t in ts ==> NoDoubleDay(t, slots, |Days|, values)
  }

  /** The indicator of position i's k-th slot (variable base + 10 i + k) is 1 exactly when that slot is positive. */
  predicate IndicatorsMatch(ts: seq<string>, slots: SlotMap, base: nat, values: seq<int>)
    requires SlotsBelow(slots, ts, |values|) && base + WeekSlots * |ts| <= |values|
  {
    forall i :: 0 <= i < |ts| ==> IndicatorsFrom(ts[i], slots, base + WeekSlots * i, WeekSlots, values)
  }

  /** What the variable domains guarantee: slot values are not negative, indicators are 0 or 1. */
  predicate Typed(ts: seq<string>, slots: SlotMap, base: nat, values: seq<int>)
    requires SlotsBelow(slots, ts, |values|) && base + WeekSlots * |ts| <= |values|
  {
    (forall t, k :: t in ts && 0 <= k < WeekSlots ==> SlotValue(values, slots, t, k) >= 0) &&
    (forall v :: base <= v < base + WeekSlots * |ts| ==> 0 <= values[v] <= 1)
  }

  lemma DayExclusiveMeaning(t: string, d: nat, slots: SlotMap, m: nat, values: seq<int>)
    requires d < |Days| && HasWeek(slots, t) && WeekBelow(slots, t, |values|) && m + 1 < |values|
    requires SlotValue(values, slots, t, 2 * d) >= 0 && SlotValue(values, slots, t, 2 * d + 1) >= 0
    requires 0 <= values[m] <= 1 && 0 <= values[m + 1] <= 1
    ensures AllHold(values, DayExclusive(t, d, slots, m)) <==>
      (values[m] == 1 <==> SlotValue(values, slots, t, 2 * d) > 0) &&
      (values[m + 1] == 1 <==> SlotValue(values, slots, t, 2 * d + 1) > 0) &&
      !(SlotValue(values, slots, t, 2 * d) > 0 && SlotValue(values, slots, t, 2 * d + 1) > 0)
  {
    PairExclusiveMeaning(SlotVar(slots, t, 2 * d), SlotVar(slots, t, 2 * d + 1), m, values);
  }

  /** The five constraints of one day, over plain variables: `a` and `b` the two slots, `m` and `m + 1` their indicators. */
  lemma PairExclusiveMeaning(a: nat, b: nat, m: nat, values: seq<int>)
    requires a < |values| && b < |values| && m + 1 < |values|
    requires values[a] >= 0 && values[b] >= 0 && 0 <= values[m] <= 1 && 0 <= values[m + 1] <= 1
    ensures AllHold(values, PeriodExclusive(a, b, m)) <==>
      (values[m] == 1 <==> values[a] > 0) && (values[m + 1] == 1 <==> values[b] > 0) && !(values[a] > 0 && values[b] > 0)
  {
    PairSums(a, b, m, values);
    var cs := PeriodExclusive(a, b, m);
    assert forall i :: 0 <= i < |cs| ==> RefersWithin(cs[i], |values|);
    if AllHold(values, cs) {
      assert Holds(values, cs[0]) && Holds(values, cs[1]) && Holds(values, cs[2]) && Holds(values, cs[3]) && Holds(values, cs[4]);
    } else if (values[m] == 1 <==> values[a] > 0) && (values[m + 1] == 1 <==> values[b] > 0) && !(values[a] > 0 && values[b] > 0) {
      PairExclusiveHolds(a, b, m, values);
    }
  }

  lemma PairSums(a: nat, b: nat, m: nat, values: seq<int>)
    requires a < |values| && b < |values| && m + 1 < |values|
    ensures Sum(values, [a]) == values[a] && Sum(values, [b]) == values[b]
    ensures Sum(values, [m, m + 1]) == values[m] + values[m + 1]
  {
    assert [a][..0] == [];
    assert [b][..0] == [];
    assert [m, m + 1][..1] == [m];
    assert [m][..0] == [];
  }

  lemma PairExclusiveHolds(a: nat, b: nat, m: nat, values: seq<int>)
    requires a < |values| && b < |values| && m + 1 < |values|
    requires (values[m] == 1 <==> values[a] > 0) && (values[m + 1] == 1 <==> values[b] > 0) && !(values[a] > 0 && values[b] > 0)
    requires values[a] >= 0 && values[b] >= 0 && 0 <= values[m] <= 1 && 0 <= values[m + 1] <= 1
    ensures forall i :: 0 <= i < 5 ==> RefersWithin(PeriodExclusive(a, b, m)[i], |values|)
    ensures AllHold(values, PeriodExclusive(a, b, m))
  {
    PairSums(a, b, m, values);
    var cs := PeriodExclusive(a, b, m);
    forall i | 0 <= i < |cs| ensures RefersWithin(cs[i], |values|) && Holds(values, cs[i]) {
      if i == 0 {
        assert Pos(m) in cs[0].enforcedIf;
      } else if i == 1 {
        assert Neg(m) in cs[1].enforcedIf;
      } else if i == 2 {
        assert Pos(m + 1) in cs[2].enforcedIf;
      } else if i == 3 {
        assert Neg(m + 1) in cs[3].enforcedIf;
      }
    }
  }

  /** One teacher position's indicators (numbered from `b`) match its first `2 d` slots, and no day of the first `d` has both periods positive. */
  predicate TeacherDaysMatch(t: string, slots: SlotMap, b: nat, d: nat, values: seq<int>)
    requires d <= |Days| && WeekBelow(slots, t, |values|) && b + WeekSlots <= |values|
  {
    IndicatorsFrom(t, slots, b, 2 * d, values) && NoDoubleDay(t, slots, d, values)
  }

  lemma {:induction false} TeacherExclusiveMeaning(t: string, slots: SlotMap, b: nat, d: nat, values: seq<int>)
    requires d <= |Days| && HasWeek(slots, t) && WeekBelow(slots, t, |values|) && b + WeekSlots <= |values|
    requires forall k :: 0 <= k < WeekSlots ==> SlotValue(values, slots, t, k) >= 0
    requires forall v :: b <= v < b + WeekSlots ==> 0 <= values[v] <= 1
    ensures AllHold(values, TeacherExclusive(t, slots, b, d)) <==> TeacherDaysMatch(t, slots, b, d, values)
  {
    if d > 0 {
      var e := d - 1;
      TeacherExclusiveMeaning(t, slots, b, e, values);
      TeacherExclusiveStep(t, slots, b, e, values);
      assert e + 1 == d;
    }
  }

  lemma TeacherExclusiveStep(t: string, slots: SlotMap, b: nat, e: nat, values: seq<int>)
    requires e < |Days| && HasWeek(slots, t) && WeekBelow(slots, t, |values|) && b + WeekSlots <= |values|
    requires forall k :: 0 <= k < WeekSlots ==> SlotValue(values, slots, t, k) >= 0
    requires forall v :: b <= v < b + WeekSlots ==> 0 <= values[v] <= 1
    requires AllHold(values, TeacherExclusive(t, slots, b, e)) <==> TeacherDaysMatch(t, slots, b, e, values)
    ensures AllHold(values, TeacherExclusive(t, slots, b, e + 1)) <==> TeacherDaysMatch(t, slots, b, e + 1, values)
  {
    var day := DayExclusive(t, e, slots, b + 2 * e);
    TeacherExclusiveUnfold(t, slots, b, e);
    DayExclusiveMeaning(t, e, slots, b + 2 * e, values);
    AllHoldAppend(values, TeacherExclusive(t, slots, b, e), day);
    TeacherDaysMatchStep(t, slots, b, e, values);
  }

  lemma TeacherExclusiveUnfold(t: string, slots: SlotMap, b: nat, e: nat)
    requires e < |Days| && HasWeek(slots, t)
    ensures TeacherExclusive(t, slots, b, e + 1) == TeacherExclusive(t, slots, b, e) + DayExclusive(t, e, slots, b + 2 * e)
  {
  }

  /** Matching through day `e + 1` is matching through day `e` plus day `e`'s own three facts. */
  lemma TeacherDaysMatchStep(t: string, slots: SlotMap, b: nat, e: nat, values: seq<int>)
    requires e < |Days| && WeekBelow(slots, t, |values|) && b + WeekSlots <= |values|
    ensures TeacherDaysMatch(t, slots, b, e + 1, values) <==>
      TeacherDaysMatch(t, slots, b, e, values) &&
      (values[b + 2 * e] == 1 <==> SlotValue(values, slots, t, 2 * e) > 0) &&
      (values[b + 2 * e + 1] == 1 <==> SlotValue(values, slots, t, 2 * e + 1) > 0) &&
      !(SlotValue(values, slots, t, 2 * e) > 0 && SlotValue(values, slots, t, 2 * e + 1) > 0)
  {
    IndicatorsFromStep(t, slots, b, 2 * e, values);
    IndicatorsFromStep(t, slots, b, 2 * e + 1, values);
    assert 2 * e + 1 + 1 == 2 * (e + 1);
    assert b + (2 * e + 1) == b + 2 * e + 1;
    NoDoubleDayStep(t, slots, e, values);
  }

  lemma NoDoubleDayStep(t: string, slots: SlotMap, e: nat, values: seq<int>)
    requires e < |Days| && WeekBelow(slots, t, |values|)
    ensures NoDoubleDay(t, slots, e + 1, values) <==>
      (NoDoubleDay(t, slots, e, values) &&
       !(SlotValue(values, slots, t, 2 * e) > 0 && SlotValue(values, slots, t, 2 * e + 1) > 0))
  {
  }

  lemma IndicatorsFromStep(t: string, slots: SlotMap, b: nat, n: nat, values: seq<int>)
    requires n < WeekSlots && WeekBelow(slots, t, |values|) && b + WeekSlots <= |values|
    ensures IndicatorsFrom(t, slots, b, n + 1, values) <==>
      IndicatorsFrom(t, slots, b, n, values) && (values[b + n] == 1 <==> SlotValue(values, slots, t, n) > 0)
  {
  }

  /**
   * With the domains respected, the one-period-per-day encoding holds exactly when every
   * indicator is 1 precisely when its slot is positive and no teacher uses both periods of a day.
   */
  lemma {:induction false} OneSlotMeaning(ts: seq<string>, slots: SlotMap, base: nat, values: seq<int>)
    requires HasWeeks(slots, ts) && SlotsBelow(slots, ts, |values|) && base + WeekSlots * |ts| <= |values|
    requires Typed(ts, slots, base, values)
    ensures AllHold(values, OneSlotConstraints(ts, slots, base)) <==>
      IndicatorsMatch(ts, slots, base, values) && OnePeriodPerDay(ts, slots, values)
  {
    if ts != [] {
      var init, t := ts[..|ts| - 1], ts[|ts| - 1];
      assert ts == init + [t];
      TypedPrefix(ts, slots, base, values);
      OneSlotMeaning(init, slots, base, values);
      OneSlotMeaningGrow(ts, slots, base, values);
    }
  }

  /** What holds of a list of positions holds of all but its last. */
  lemma TypedPrefix(ts: seq<string>, slots: SlotMap, base: nat, values: seq<int>)
    requires ts != [] && HasWeeks(slots, ts) && SlotsBelow(slots, ts, |values|) && base + WeekSlots * |ts| <= |values|
    requires Typed(ts, slots, base, values)
    ensures var init := ts[..|ts| - 1];
      HasWeeks(slots, init) && SlotsBelow(slots, init, |values|) && base + WeekSlots * |init| <= |values| &&
      Typed(init, slots, base, values)
  {
    assert forall t :: t in ts[..|ts| - 1] ==> t in ts;
  }

  /** The induction step of OneSlotMeaning: adding one teacher position's constraints. */
  lemma OneSlotMeaningGrow(ts: seq<string>, slots: SlotMap, base: nat, values: seq<int>)
    requires ts != [] && HasWeeks(slots, ts) && SlotsBelow(slots, ts, |values|) && base + WeekSlots * |ts| <= |values|
    requires Typed(ts, slots, base, values)
    requires var init := ts[..|ts| - 1];
      HasWeeks(slots, init) && SlotsBelow(slots, init, |values|) &&
      (AllHold(values, OneSlotConstraints(init, slots, base)) <==>
       IndicatorsMatch(init, slots, base, values) && OnePeriodPerDay(init, slots, values))
    ensures AllHold(values, OneSlotConstraints(ts, slots, base)) <==>
      IndicatorsMatch(ts, slots, base, values) && OnePeriodPerDay(ts, slots, values)
  {
    var init, t := ts[..|ts| - 1], ts[|ts| - 1];
    var b := base + WeekSlots * (|ts| - 1);
    OneSlotHoldSplit(ts, slots, base, values);
    TypedLast(ts, slots, base, values);
    TeacherExclusiveMeaning(t, slots, b, |Days|, values);
    OneSlotMeaningStep(ts, slots, base, values);
  }

  /** The one-period constraints of a list hold exactly when those of all but its last position and the last's hold. */
  lemma OneSlotHoldSplit(ts: seq<string>, slots: SlotMap, base: nat, values: seq<int>)
    requires ts != [] && HasWeeks(slots, ts)
    ensures HasWeeks(slots, ts[..|ts| - 1]) && HasWeek(slots, ts[|ts| - 1])
    ensures AllHold(values, OneSlotConstraints(ts, slots, base)) <==>
      AllHold(values, OneSlotConstraints(ts[..|ts| - 1], slots, base)) &&
      AllHold(values, TeacherExclusive(ts[|ts| - 1], slots, base + WeekSlots * (|ts| - 1), |Days|))
  {
    OneSlotUnfold(ts, slots, base);
    AllHoldAppend(values, OneSlotConstraints(ts[..|ts| - 1], slots, base),
      TeacherExclusive(ts[|ts| - 1], slots, base + WeekSlots * (|ts| - 1), |Days|));
  }

  /** The domains of the last position's slots and indicators, as TeacherExclusiveMeaning needs them. */
  lemma TypedLast(ts: seq<string>, slots: SlotMap, base: nat, values: seq<int>)
    requires ts != [] && SlotsBelow(slots, ts, |values|) && base + WeekSlots * |ts| <= |values|
    requires Typed(ts, slots, base, values)
    ensures var t, b := ts[|ts| - 1], base + WeekSlots * (|ts| - 1);
      WeekBelow(slots, t, |values|) && b + WeekSlots <= |values| &&
      (forall k :: 0 <= k < WeekSlots ==> SlotValue(values, slots, t, k) >= 0) &&
      (forall v :: b <= v < b + WeekSlots ==> 0 <= values[v] <= 1)
  {
    var t := ts[|ts| - 1];
    assert t in ts;
  }

  lemma OneSlotUnfold(ts: seq<string>, slots: SlotMap, base: nat)
    requires ts != [] && HasWeeks(slots, ts)
    ensures HasWeeks(slots, ts[..|ts| - 1]) && HasWeek(slots, ts[|ts| - 1])
    ensures OneSlotConstraints(ts, slots, base) ==
      OneSlotConstraints(ts[..|ts| - 1], slots, base) + TeacherExclusive(ts[|ts| - 1], slots, base + WeekSlots * (|ts| - 1), |Days|)
  {
  }

  lemma OneSlotMeaningStep(ts: seq<string>, slots: SlotMap, base: nat, values: seq<int>)
    requires ts != [] && SlotsBelow(slots, ts, |values|) && base + WeekSlots * |ts| <= |values|
    ensures var init, t, b := ts[..|ts| - 1], ts[|ts| - 1], base + WeekSlots * (|ts| - 1);
      IndicatorsMatch(ts, slots, base, values) && OnePeriodPerDay(ts, slots, values) <==>
      IndicatorsMatch(init, slots, base, values) && OnePeriodPerDay(init, slots, values) &&
      TeacherDaysMatch(t, slots, b, |Days|, values)
  {
    IndicatorsMatchStep(ts, slots, base, values);
    OnePeriodPerDayStep(ts, slots, values);
  }

  lemma IndicatorsMatchStep(ts: seq<string>, slots: SlotMap, base: nat, values: seq<int>)
    requires ts != [] && SlotsBelow(slots, ts, |values|) && base + WeekSlots * |ts| <= |values|
    ensures IndicatorsMatch(ts, slots, base, values) <==>
      IndicatorsMatch(ts[..|ts| - 1], slots, base, values) &&
      IndicatorsFrom(ts[|ts| - 1], slots, base + WeekSlots * (|ts| - 1), WeekSlots, values)
  {
    var init := ts[..|ts| - 1];
    assert forall i :: 0 <= i < |init| ==> ts[i] == init[i];
  }

  lemma OnePeriodPerDayStep(ts: seq<string>, slots: SlotMap, values: seq<int>)
    requires ts != [] && SlotsBelow(slots, ts, |values|)
    ensures OnePeriodPerDay(ts, slots, values) <==>
      OnePeriodPerDay(ts[..|ts| - 1], slots, values) && NoDoubleDay(ts[|ts| - 1], slots, |Days|, values)
  {
    assert ts == ts[..|ts| - 1] + [ts[|ts| - 1]];
  }

  // ---------------------------------------------------------------- objective

  /** Every availability entry of every listed teacher is a weekday name. */
  predicate ListsOnlyWeekdays(ts: seq<string>, avail: map<string, seq<string>>)
    requires forall t :: t in ts ==> t in avail
  {
    forall t, day :: t in ts && day in avail[t] ==> day in Days
  }

  /** A teacher's lookups are both periods of each listed day and nothing else. */
  lemma {:induction false} TeacherObjectiveKeysMembers(t: string, days: seq<string>, key: NamedKey)
    ensures key in TeacherObjectiveKeys(t, days) <==> key.0 == t && key.1 in days && key.2 < |Periods|
  {
    if days != [] {
      var init, day := days[..|days| - 1], days[|days| - 1];
      assert days == init + [day];
      TeacherObjectiveKeysMembers(t, init, key);
    }
  }

  /** `add_objective` looks up both periods of each day each teacher lists, and nothing else. */
  lemma {:induction false} ObjectiveKeysMembers(ts: seq<string>, avail: map<string, seq<string>>, key: NamedKey)
    requires forall t :: t in ts ==> t in avail
    ensures key in ObjectiveKeys(ts, avail) <==> key.0 in ts && key.1 in avail[key.0] && key.2 < |Periods|
  {
    if ts != [] {
      var init, t := ts[..|ts| - 1], ts[|ts| - 1];
      assert ts == init + [t];
      ObjectiveKeysMembers(init, avail, key);
      TeacherObjectiveKeysMembers(t, avail[t], key);
    }
  }

  /**
   * With every teacher's ten slots in place, the objective's lookups all succeed exactly
   * when every availability entry is a weekday name; otherwise `add_objective` raises KeyError.
   */
  lemma ObjectiveLookupsMeaning(ts: seq<string>, avail: map<string, seq<string>>, slots: SlotMap)
    requires forall t :: t in ts ==> t in avail
    requires HasWeeks(slots, ts)
    ensures ObjectiveLookupsSucceed(ts, avail, slots) <==> ListsOnlyWeekdays(ts, avail)
  {
    if ListsOnlyWeekdays(ts, avail) {
      forall key | key in ObjectiveKeys(ts, avail) ensures Resolves(slots, key) {
        ObjectiveKeysMembers(ts, avail, key);
        var d := DayIndex(key.1);
        SlotKeyAtDayPeriod(key.0, 2 * d + key.2, d, key.2);
      }
    } else {
      var t, day :| t in ts && day in avail[t] && day !in Days;
      ObjectiveKeysMembers(ts, avail, (t, day, 0));
    }
  }

  /** A listed entry that is not a weekday name makes `add_objective` raise KeyError. */
  lemma NonDayEntryBreaksObjective(ts: seq<string>, avail: map<string, seq<string>>, slots: SlotMap, t: string, x: string)
    requires forall u :: u in ts ==> u in avail
    requires t in ts && x in avail[t] && x !in Days
    ensures !ObjectiveLookupsSucceed(ts, avail, slots)
  {
    ObjectiveKeysMembers(ts, avail, (t, x, 0));
  }

  /** `v` is the variable of a slot of some listed teacher on a day that teacher lists. */
  predicate ListedSlotVar(ts: seq<string>, avail: map<string, seq<string>>, slots: SlotMap, v: nat)
    requires forall t :: t in ts ==> t in avail
  {
    exists t, d: nat, p: nat :: t in ts && d < |Days| && p < |Periods| && Days[d] in avail[t] &&
      (t, d, p) in slots && slots[(t, d, p)] == v
  }

  /** The objective sums exactly the slot variables of listed days: each such slot appears, and no other variable. */
  lemma ObjectiveTermsListed(ts: seq<string>, avail: map<string, seq<string>>, slots: SlotMap, v: nat)
    requires forall t :: t in ts ==> t in avail
    requires ObjectiveLookupsSucceed(ts, avail, slots)
    ensures v in ObjectiveTerms(ts, avail, slots) <==> ListedSlotVar(ts, avail, slots, v)
  {
    var keys := ObjectiveKeys(ts, avail);
    var terms := ObjectiveTerms(ts, avail, slots);
    if v in terms {
      var i :| 0 <= i < |terms| && terms[i] == v;
      var key := keys[i];
      ObjectiveKeysMembers(ts, avail, key);
      assert Resolves(slots, key);
      var d := DayIndex(key.1);
      assert slots[(key.0, d, key.2)] == v;
    }
    if ListedSlotVar(ts, avail, slots, v) {
      var t, d: nat, p: nat :| t in ts && d < |Days| && p < |Periods| && Days[d] in avail[t] &&
        (t, d, p) in slots && slots[(t, d, p)] == v;
      ObjectiveKeysMembers(ts, avail, (t, Days[d], p));
      var i :| 0 <= i < |keys| && keys[i] == (t, Days[d], p);
      DayIndexOf(d);
      assert terms[i] == v;
    }
  }

  // ---------------------------------------------------------------- the whole model

  /**
   * What a solution of the built model is: an assignment within the declared domains
   * satisfies every generated constraint exactly when unlisted days are idle, each
   * teacher's slots sum to its hours, the indicators mirror the slots and no teacher
   * uses both periods of a day.
   */
  lemma ModelMeaning(ts: seq<string>, hours: map<string, int>, avail: map<string, seq<string>>, values: seq<int>)
    requires forall t :: t in ts ==> t in avail && t in hours
    requires InDomains(BuiltDomains(|ts|), values)
    ensures var slots := SlotVars(ts, 0);
      HasWeeks(slots, ts) && SlotsBelow(slots, ts, |values|) && |values| == 2 * WeekSlots * |ts| &&
      Covered(ts, avail, slots) && Covered(ts, hours, slots) &&
      (Satisfies(BuiltDomains(|ts|), GeneratedConstraints(ts, hours, avail, slots, WeekSlots * |ts|), values) <==>
        UnlistedDaysIdle(ts, avail, slots, values) && HoursMet(ts, hours, slots, values) &&
        IndicatorsMatch(ts, slots, WeekSlots * |ts|, values) && OnePeriodPerDay(ts, slots, values))
  {
    var slots, base := SlotVars(ts, 0), WeekSlots * |ts|;
    BuiltTyped(ts, values);
    AvailabilityMeaning(ts, avail, slots, values);
    HoursMeaning(ts, hours, slots, values);
    OneSlotMeaning(ts, slots, base, values);
    var a, h, o := AvailabilityConstraints(ts, avail, slots), HoursConstraints(ts, hours, slots), OneSlotConstraints(ts, slots, base);
    AllHoldAppend(values, a + h, o);
    AllHoldAppend(values, a, h);
  }
}
