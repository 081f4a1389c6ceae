/**
 * When the built model has a solution. No constraint links two teachers, so the model is
 * satisfiable exactly when every teacher's required hours fit its listed weekdays: at
 * most one period per day, each worth at most 2 hours.
 */
module Feasibility {
  import opened Seqs
  import opened Week
  import opened CpSat
  import opened Model
  import opened ModelFacts

  /** Number of the first `n` weekdays that `a` lists. */
  function ListedCount(a: seq<string>, n: nat): (c: nat)
    requires n <= |Days|
    ensures c + UnlistedCount(a, n) == n
  {
    if n == 0 then 0 else ListedCount(a, n - 1) + (if Days[n - 1] in a then 1 else 0)
  }

  /** Every teacher's required hours lie in 0 .. 2 x (number of weekdays it lists). */
  predicate WithinCapacity(ts: seq<string>, hours: map<string, int>, avail: map<string, seq<string>>)
    requires forall t :: t in ts ==> t in avail && t in hours
  {
    forall t :: t in ts ==> 0 <= hours[t] <= 2 * ListedCount(avail[t], |Days|)
  }

  // ---------------------------------------------------------------- no solution above capacity

  /** Over the first `d` days, a teacher obeying the model's rules works between 0 and 2 hours per listed day. */
  lemma {:induction false} DaysBound(t: string, a: seq<string>, slots: SlotMap, values: seq<int>, d: nat)
    requires d <= |Days| && WeekBelow(slots, t, |values|)
    requires forall k :: 0 <= k < WeekSlots ==> 0 <= SlotValue(values, slots, t, k) <= 2
    requires IdleBelow(t, a, slots, values, WeekSlots) && NoDoubleDay(t, slots, |Days|, values)
    ensures 0 <= WeekTotal(values, slots, t, 2 * d) <= 2 * ListedCount(a, d)
  {
    if d > 0 {
      var e := d - 1;
      DaysBound(t, a, slots, values, e);
      assert (2 * e) / 2 == e && (2 * e + 1) / 2 == e;
      assert WeekTotal(values, slots, t, 2 * d) ==
        WeekTotal(values, slots, t, 2 * e) + SlotValue(values, slots, t, 2 * e) + SlotValue(values, slots, t, 2 * e + 1);
    }
  }

  /** Any solution of the built model has every teacher's hours within capacity. */
  lemma SolutionWithinCapacity(ts: seq<string>, hours: map<string, int>, avail: map<string, seq<string>>, values: seq<int>)
    requires forall t :: t in ts ==> t in avail && t in hours
    requires var slots := SlotVars(ts, 0);
      HasWeeks(slots, ts) &&
      Satisfies(BuiltDomains(|ts|), GeneratedConstraints(ts, hours, avail, slots, WeekSlots * |ts|), values)
    ensures WithinCapacity(ts, hours, avail)
  {
    var slots := SlotVars(ts, 0);
    ModelMeaning(ts, hours, avail, values);
    BuiltTyped(ts, values);
    forall t | t in ts ensures 0 <= hours[t] <= 2 * ListedCount(avail[t], |Days|) {
      assert WeekTotal(values, slots, t, WeekSlots) == hours[t];
      DaysBound(t, avail[t], slots, values, |Days|);
    }
  }

  // ---------------------------------------------------------------- a solution within capacity

  function Clamp(x: int): (r: int)
    ensures 0 <= r <= 2
  {
    if x < 0 then 0 else if x > 2 then 2 else x
  }

  /**
   * A plan for one teacher: the morning of each listed day takes up to 2 of the hours
   * still missing, afternoons stay free.
   */
  function Fill(h: int, a: seq<string>, k: nat): (r: int)
    requires k < WeekSlots
    ensures 0 <= r <= 2
  {
    if k % 2 == 1 || Days[k / 2] !in a then 0 else Clamp(h - 2 * ListedCount(a, k / 2))
  }

  /** An assignment for the built model: each slot follows its teacher's plan, each indicator mirrors its slot. */
  function Witness(ts: seq<string>, hours: map<string, int>, avail: map<string, seq<string>>): (w: seq<int>)
    requires forall t :: t in ts ==> t in avail && t in hours
    ensures |w| == 2 * WeekSlots * |ts|
  {
    var n := WeekSlots * |ts|;
    seq(2 * n, v requires 0 <= v < 2 * n =>
      var u := if v < n then v else v - n;
      var t := ts[u / WeekSlots];
      var f := Fill(hours[t], avail[t], u % WeekSlots);
      if v < n then f else if f > 0 then 1 else 0)
  }

  lemma WitnessAt(ts: seq<string>, hours: map<string, int>, avail: map<string, seq<string>>, i: nat, k: nat)
    requires forall t :: t in ts ==> t in avail && t in hours
    requires i < |ts| && k < WeekSlots
    ensures var w, n, f := Witness(ts, hours, avail), WeekSlots * |ts|, Fill(hours[ts[i]], avail[ts[i]], k);
      WeekSlots * i + k < n &&
      w[WeekSlots * i + k] == f && w[n + WeekSlots * i + k] == (if f > 0 then 1 else 0)
  {
    var n := WeekSlots * |ts|;
    assert (WeekSlots * i + k) / WeekSlots == i && (WeekSlots * i + k) % WeekSlots == k;
    assert n + WeekSlots * i + k - n == WeekSlots * i + k;
  }

  /** The witness gives every slot of teacher `t` the value of `t`'s plan. */
  lemma WitnessSlots(ts: seq<string>, hours: map<string, int>, avail: map<string, seq<string>>, t: string, k: nat)
    requires forall u :: u in ts ==> u in avail && u in hours
    requires t in ts && k < WeekSlots
    ensures var w, slots := Witness(ts, hours, avail), SlotVars(ts, 0);
      WeekBelow(slots, t, |w|) && SlotValue(w, slots, t, k) == Fill(hours[t], avail[t], k)
  {
    SlotVarsBelow(ts, 0);
    SlotVarsValue(ts, 0, t, k);
    WitnessAt(ts, hours, avail, LastIndex(ts, t), k);
  }

  /** Following the plan, the first `d` days hold as many of the `h` hours as fit in their listed days. */
  lemma {:induction false} FillTotal(t: string, h: int, a: seq<string>, slots: SlotMap, values: seq<int>, d: nat)
    requires 0 <= h && d <= |Days| && WeekBelow(slots, t, |values|)
    requires forall k :: 0 <= k < WeekSlots ==> SlotValue(values, slots, t, k) == Fill(h, a, k)
    ensures WeekTotal(values, slots, t, 2 * d) == if h <= 2 * ListedCount(a, d) then h else 2 * ListedCount(a, d)
  {
    if d > 0 {
      var e := d - 1;
      FillTotal(t, h, a, slots, values, e);
      FillTotalStep(t, h, a, slots, values, e);
      assert e + 1 == d;
    }
  }

  lemma FillTotalStep(t: string, h: int, a: seq<string>, slots: SlotMap, values: seq<int>, e: nat)
    requires 0 <= h && e < |Days| && WeekBelow(slots, t, |values|)
    requires SlotValue(values, slots, t, 2 * e) == Fill(h, a, 2 * e)
    requires SlotValue(values, slots, t, 2 * e + 1) == Fill(h, a, 2 * e + 1)
    requires WeekTotal(values, slots, t, 2 * e) == if h <= 2 * ListedCount(a, e) then h else 2 * ListedCount(a, e)
    ensures WeekTotal(values, slots, t, 2 * e + 2) == if h <= 2 * ListedCount(a, e + 1) then h else 2 * ListedCount(a, e + 1)
  {
    assert (2 * e) / 2 == e && (2 * e) % 2 == 0 && (2 * e + 1) % 2 == 1;
    assert WeekTotal(values, slots, t, 2 * e + 2) ==
      WeekTotal(values, slots, t, 2 * e) + SlotValue(values, slots, t, 2 * e) + SlotValue(values, slots, t, 2 * e + 1);
  }

  lemma WitnessInDomains(ts: seq<string>, hours: map<string, int>, avail: map<string, seq<string>>)
    requires forall t :: t in ts ==> t in avail && t in hours
    ensures InDomains(BuiltDomains(|ts|), Witness(ts, hours, avail))
  {
    var w, n := Witness(ts, hours, avail), |ts|;
    forall v | 0 <= v < |w| ensures BuiltDomains(n)[v].lo <= w[v] <= BuiltDomains(n)[v].hi {
      BuiltDomainsLayout(n, v);
      var u := if v < WeekSlots * n then v else v - WeekSlots * n;
      WitnessAt(ts, hours, avail, u / WeekSlots, u % WeekSlots);
    }
  }

  /** The witness gives every slot of every listed teacher the value of its plan. */
  lemma WitnessFollowsPlans(ts: seq<string>, hours: map<string, int>, avail: map<string, seq<string>>)
    requires forall t :: t in ts ==> t in avail && t in hours
    ensures var w, slots := Witness(ts, hours, avail), SlotVars(ts, 0);
      SlotsBelow(slots, ts, |w|) &&
      forall t, k :: t in ts && 0 <= k < WeekSlots ==> SlotValue(w, slots, t, k) == Fill(hours[t], avail[t], k)
  {
    var w, slots := Witness(ts, hours, avail), SlotVars(ts, 0);
    SlotVarsBelow(ts, 0);
    forall t, k | t in ts && 0 <= k < WeekSlots ensures SlotValue(w, slots, t, k) == Fill(hours[t], avail[t], k) {
      WitnessSlots(ts, hours, avail, t, k);
    }
  }

  lemma WitnessHours(ts: seq<string>, hours: map<string, int>, avail: map<string, seq<string>>)
    requires forall t :: t in ts ==> t in avail && t in hours
    requires WithinCapacity(ts, hours, avail)
    ensures var w, slots := Witness(ts, hours, avail), SlotVars(ts, 0);
      SlotsBelow(slots, ts, |w|) && HoursMet(ts, hours, slots, w)
  {
    var w, slots := Witness(ts, hours, avail), SlotVars(ts, 0);
    WitnessFollowsPlans(ts, hours, avail);
    forall t | t in ts ensures WeekTotal(w, slots, t, WeekSlots) == hours[t] {
      FillTotal(t, hours[t], avail[t], slots, w, |Days|);
    }
  }

  /** The witness's indicator for position i's k-th slot is 1 exactly when that slot is positive. */
  lemma WitnessIndicatorAt(ts: seq<string>, hours: map<string, int>, avail: map<string, seq<string>>, i: nat, k: nat)
    requires forall t :: t in ts ==> t in avail && t in hours
    requires i < |ts| && k < WeekSlots
    ensures var w, slots := Witness(ts, hours, avail), SlotVars(ts, 0);
      WeekBelow(slots, ts[i], |w|) && WeekSlots * |ts| + WeekSlots * i + k < |w| &&
      (w[WeekSlots * |ts| + WeekSlots * i + k] == 1 <==> SlotValue(w, slots, ts[i], k) > 0)
  {
    WitnessAt(ts, hours, avail, i, k);
    WitnessSlots(ts, hours, avail, ts[i], k);
  }

  lemma WitnessIndicators(ts: seq<string>, hours: map<string, int>, avail: map<string, seq<string>>)
    requires forall t :: t in ts ==> t in avail && t in hours
    ensures var w, slots := Witness(ts, hours, avail), SlotVars(ts, 0);
      SlotsBelow(slots, ts, |w|) && IndicatorsMatch(ts, slots, WeekSlots * |ts|, w)
  {
    var w, slots, n := Witness(ts, hours, avail), SlotVars(ts, 0), |ts|;
    SlotVarsBelow(ts, 0);
    forall i | 0 <= i < n ensures WeekBelow(slots, ts[i], |w|) {
      assert ts[i] in ts;
    }
    forall i | 0 <= i < n ensures IndicatorsFrom(ts[i], slots, WeekSlots * n + WeekSlots * i, WeekSlots, w) {
      forall k | 0 <= k < WeekSlots
        ensures w[WeekSlots * n + WeekSlots * i + k] == 1 <==> SlotValue(w, slots, ts[i], k) > 0
      {
        WitnessIndicatorAt(ts, hours, avail, i, k);
      }
    }
  }

  lemma WitnessOnePeriod(ts: seq<string>, hours: map<string, int>, avail: map<string, seq<string>>)
    requires forall t :: t in ts ==> t in avail && t in hours
    ensures var w, slots := Witness(ts, hours, avail), SlotVars(ts, 0);
      SlotsBelow(slots, ts, |w|) && OnePeriodPerDay(ts, slots, w) && UnlistedDaysIdle(ts, avail, slots, w)
  {
    var w, slots := Witness(ts, hours, avail), SlotVars(ts, 0);
    WitnessFollowsPlans(ts, hours, avail);
    forall t | t in ts ensures NoDoubleDay(t, slots, |Days|, w) {
      forall e | 0 <= e < |Days| ensures SlotValue(w, slots, t, 2 * e + 1) == 0 {
        assert (2 * e + 1) % 2 == 1;
      }
    }
  }

  /** Within capacity, the witness is a solution of the built model. */
  lemma WitnessSolves(ts: seq<string>, hours: map<string, int>, avail: map<string, seq<string>>)
    requires forall t :: t in ts ==> t in avail && t in hours
    requires WithinCapacity(ts, hours, avail)
    ensures var slots := SlotVars(ts, 0);
      HasWeeks(slots, ts) &&
      Satisfies(BuiltDomains(|ts|), GeneratedConstraints(ts, hours, avail, slots, WeekSlots * |ts|), Witness(ts, hours, avail))
  {
    WitnessInDomains(ts, hours, avail);
    ModelMeaning(ts, hours, avail, Witness(ts, hours, avail));
    WitnessHours(ts, hours, avail);
    WitnessIndicators(ts, hours, avail);
    WitnessOnePeriod(ts, hours, avail);
  }

  /**
   * The built model has a solution exactly when every teacher's required hours lie in
   * 0 .. 2 x (number of weekdays it lists).
   */
  lemma SatisfiableIffWithinCapacity(ts: seq<string>, hours: map<string, int>, avail: map<string, seq<string>>)
    requires forall t :: t in ts ==> t in avail && t in hours
    ensures var slots := SlotVars(ts, 0);
      HasWeeks(slots, ts) &&
      ((exists values :: Satisfies(BuiltDomains(|ts|), GeneratedConstraints(ts, hours, avail, slots, WeekSlots * |ts|), values))
       <==> WithinCapacity(ts, hours, avail))
  {
    var slots := SlotVars(ts, 0);
    SlotVarsHasWeeks(ts, 0);
    if WithinCapacity(ts, hours, avail) {
      WitnessSolves(ts, hours, avail);
    }
    if exists values :: Satisfies(BuiltDomains(|ts|), GeneratedConstraints(ts, hours, avail, slots, WeekSlots * |ts|), values) {
      var values :| Satisfies(BuiltDomains(|ts|), GeneratedConstraints(ts, hours, avail, slots, WeekSlots * |ts|), values);
      SolutionWithinCapacity(ts, hours, avail, values);
    }
  }

  /** A teacher listing Monday and Wednesday has room for 4 hours a week. */
  lemma TwoListedDays()
    ensures ListedCount(["Lundi", "Mercredi"], |Days|) == 2
  {
    var a := ["Lundi", "Mercredi"];
    assert Days[0] in a && Days[2] in a;
    assert Days[1] !in a && Days[3] !in a && Days[4] !in a;
  }

  /**
   * One teacher available on Monday and Wednesday: 4 required hours can be scheduled, 6 or
   * 18 cannot (each listed day gives one period of at most 2 hours).
   */
  lemma TwoDayTeacher(name: string)
    ensures var ts, avail := [name], map[name := ["Lundi", "Mercredi"]];
      var slots := SlotVars(ts, 0);
      HasWeeks(slots, ts) &&
      (exists values :: Satisfies(BuiltDomains(1), GeneratedConstraints(ts, map[name := 4], avail, slots, WeekSlots), values)) &&
      !(exists values :: Satisfies(BuiltDomains(1), GeneratedConstraints(ts, map[name := 6], avail, slots, WeekSlots), values)) &&
      !(exists values :: Satisfies(BuiltDomains(1), GeneratedConstraints(ts, map[name := 18], avail, slots, WeekSlots), values))
  {
    var ts, avail := [name], map[name := ["Lundi", "Mercredi"]];
    TwoListedDays();
    SatisfiableIffWithinCapacity(ts, map[name := 4], avail);
    SatisfiableIffWithinCapacity(ts, map[name := 6], avail);
    SatisfiableIffWithinCapacity(ts, map[name := 18], avail);
  }
}
