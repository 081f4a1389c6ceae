/**
 * Projection of the problem record into the lists and dictionaries the model builder
 * uses (`extract_teachers_info`, `extract_constraints_info`). Both are pure: they build
 * new values and leave the record alone.
 */
module LoadProblem {
  import opened Seqs
  import opened Problem

  /** The tuple (teachers_list, subjects, hours_required, availability). */
  datatype TeachersInfo = TeachersInfo(
    teachersList: seq<string>,
    subjects: seq<string>,
    hoursRequired: map<string, int>,
    availability: map<string, seq<string>>)

  /** The tuple (hard_constraints, soft_constraints). */
  datatype ConstraintsInfo = ConstraintsInfo(hard: seq<ConstraintRecord>, soft: seq<ConstraintRecord>)

  function Names(ts: seq<Teacher>): set<string> {
    set t | t in ts :: t.name
  }

  /** No later record carries the name of record `i`: its entry survives in a dict comprehension. */
  predicate IsLastWithName(ts: seq<Teacher>, i: nat)
    requires i < |ts|
  {
    forall j :: i < j < |ts| ==> ts[j].name != ts[i].name
  }

  /**
   * `{t['name']: field(t) for t in ts}`: the keys are the names; when a name repeats,
   * the last record carrying it wins (see ByNameLastWins).
   */
  function ByName<V>(ts: seq<Teacher>, field: Teacher -> V): (m: map<string, V>)
    ensures m.Keys == Names(ts)
  {
    if ts == [] then map[]
    else
      var init, last := ts[..|ts| - 1], ts[|ts| - 1];
      assert ts == init + [last];
      ByName(init, field)[last.name := field(last)]
  }

  /** Each name maps to the value of the last record carrying it. */
  lemma {:induction false} ByNameLastWins<V>(ts: seq<Teacher>, field: Teacher -> V, i: nat)
    requires i < |ts| && IsLastWithName(ts, i)
    ensures ts[i].name in ByName(ts, field) && ByName(ts, field)[ts[i].name] == field(ts[i])
  {
    var init := ts[..|ts| - 1];
    if i < |ts| - 1 {
      assert ts[|ts| - 1].name != ts[i].name;
      assert IsLastWithName(init, i) by {
        forall j | i < j < |init| ensures init[j].name != init[i].name {
          assert init[j] == ts[j];
        }
      }
      ByNameLastWins(init, field, i);
    }
  }

  function HoursOf(t: Teacher): int { t.hoursPerWeek }
  function DaysOf(t: Teacher): seq<string> { t.availableDays }

  /** `[t['name'] for t in ts]`. */
  function NameList(ts: seq<Teacher>): (r: seq<string>)
    ensures |r| == |ts| && forall i :: 0 <= i < |ts| ==> r[i] == ts[i].name
    ensures ToSet(r) == Names(ts)
  {
    var r := seq(|ts|, i requires 0 <= i < |ts| => ts[i].name);
    assert ToSet(r) == Names(ts) by {
      forall n | n in Names(ts) ensures n in ToSet(r) {
        var i :| 0 <= i < |ts| && ts[i].name == n;
        assert r[i] == n;
      }
    }
    r
  }

  /** `extract_teachers_info`. */
  function ExtractTeachersInfo(data: ProblemData): (info: TeachersInfo)
    ensures |info.teachersList| == |info.subjects| == |data.teachers|
    ensures forall i :: 0 <= i < |data.teachers| ==>
      info.teachersList[i] == data.teachers[i].name && info.subjects[i] == data.teachers[i].subject
    ensures info.hoursRequired.Keys == info.availability.Keys == ToSet(info.teachersList)
    ensures forall i :: 0 <= i < |data.teachers| && IsLastWithName(data.teachers, i) ==>
      info.hoursRequired[data.teachers[i].name] == data.teachers[i].hoursPerWeek &&
      info.availability[data.teachers[i].name] == data.teachers[i].availableDays
  {
    var ts := data.teachers;
    LastWinsBoth(ts);
    TeachersInfo(
      NameList(ts),
      seq(|ts|, i requires 0 <= i < |ts| => ts[i].subject),
      ByName(ts, HoursOf),
      ByName(ts, DaysOf))
  }

  lemma LastWinsBoth(ts: seq<Teacher>)
    ensures forall i :: 0 <= i < |ts| && IsLastWithName(ts, i) ==>
      ByName(ts, HoursOf)[ts[i].name] == ts[i].hoursPerWeek &&
      ByName(ts, DaysOf)[ts[i].name] == ts[i].availableDays
  {
    forall i | 0 <= i < |ts| && IsLastWithName(ts, i)
      ensures ByName(ts, HoursOf)[ts[i].name] == ts[i].hoursPerWeek
      ensures ByName(ts, DaysOf)[ts[i].name] == ts[i].availableDays
    {
      ByNameLastWins(ts, HoursOf, i);
      ByNameLastWins(ts, DaysOf, i);
    }
  }

  /** `[c for c in cs if c['type'] == kind]`. */
  function OfKind(cs: seq<ConstraintRecord>, kind: string): (r: seq<ConstraintRecord>)
    ensures forall c :: c in r <==> c in cs && c.kind == kind
    ensures forall c :: multiset(r)[c] == if c.kind == kind then multiset(cs)[c] else 0
    ensures IsSubsequence(r, cs)
  {
    if cs == [] then []
    else
      var init, last := cs[..|cs| - 1], cs[|cs| - 1];
      assert cs == init + [last];
      assert multiset(cs) == multiset(init) + multiset{last};
      var kept := OfKind(init, kind);
      if last.kind == kind then
        assert (kept + [last])[..|kept|] == kept;
        assert multiset(kept + [last]) == multiset(kept) + multiset{last};
        kept + [last]
      else
        kept
  }

  /** `extract_constraints_info`. */
  function ExtractConstraintsInfo(data: ProblemData): (info: ConstraintsInfo)
    ensures forall c :: c in info.hard <==> c in data.constraints && c.kind == "hard"
    ensures forall c :: c in info.soft <==> c in data.constraints && c.kind == "soft"
    ensures forall c :: multiset(info.hard)[c] == if c.kind == "hard" then multiset(data.constraints)[c] else 0
    ensures forall c :: multiset(info.soft)[c] == if c.kind == "soft" then multiset(data.constraints)[c] else 0
    ensures IsSubsequence(info.hard, data.constraints) && IsSubsequence(info.soft, data.constraints)
  {
    ConstraintsInfo(OfKind(data.constraints, "hard"), OfKind(data.constraints, "soft"))
  }

  /** Filtering by two different kinds never keeps more records than there are. */
  lemma {:induction false} OfKindTwoBound(cs: seq<ConstraintRecord>, k1: string, k2: string)
    requires k1 != k2
    ensures |OfKind(cs, k1)| + |OfKind(cs, k2)| <= |cs|
  {
    if cs != [] {
      OfKindTwoBound(cs[..|cs| - 1], k1, k2);
    }
  }

  /** The hard and soft lists are disjoint, and together no longer than the input list. */
  lemma HardSoftPartition(data: ProblemData)
    ensures var info := ExtractConstraintsInfo(data);
      (forall c :: !(c in info.hard && c in info.soft)) &&
      |info.hard| + |info.soft| <= |data.constraints|
  {
    OfKindTwoBound(data.constraints, "hard", "soft");
  }
}
