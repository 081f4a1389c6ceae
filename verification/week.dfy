/** The fixed weekly grid every stage of the scheduler walks: five weekdays, two periods per day. */
module Week {
  import opened Seqs

  const Days: seq<string> := ["Lundi", "Mardi", "Mercredi", "Jeudi", "Vendredi"]
  const Morning: string := "matin"
  const Afternoon: string := "après-midi"
  const Periods: seq<string> := [Morning, Afternoon]

  /** Number of (day, period) pairs in one teacher's week. */
  const WeekSlots: nat := 10

  /**
   * The key of the slot dictionary: (teacher name, day, period), where the day and the
   * period are given by their positions in Days and Periods. Both lists are free of
   * duplicates (DaysDistinct, PeriodsDistinct), so a position stands for exactly one name.
   */
  type SlotKey = (string, nat, nat)

  /**
   * The k-th slot of a teacher's week in the order the nested day/period loops
   * visit it: day k / 2, morning (even k) before afternoon (odd k).
   */
  function SlotKeyAt(teacher: string, k: nat): SlotKey
    requires k < WeekSlots
  {
    (teacher, k / 2, k % 2)
  }

  lemma DaysDistinct()
    ensures |Days| == 5 && NoDuplicates(Days)
  {
  }

  lemma PeriodsDistinct()
    ensures |Periods| == 2 && NoDuplicates(Periods) && Periods[0] == Morning && Periods[1] == Afternoon
  {
  }

  /** Distinct (teacher, k) give distinct keys. */
  lemma SlotKeyAtInjective(t: string, k: nat, t': string, k': nat)
    requires k < WeekSlots && k' < WeekSlots
    ensures SlotKeyAt(t, k) == SlotKeyAt(t', k') <==> t == t' && k == k'
  {
    if SlotKeyAt(t, k) == SlotKeyAt(t', k') {
      assert k / 2 == k' / 2;
      assert k % 2 == k' % 2;
    }
  }

  /** Position of a weekday name in `Days`. */
  function DayIndex(day: string): (d: nat)
    requires day in Days
    ensures d < |Days| && Days[d] == day
  {
    FirstIndex(Days, day)
  }

  /** Position of a period name in `Periods`. */
  function PeriodIndex(period: string): (p: nat)
    requires period in Periods
    ensures p < |Periods| && Periods[p] == period
  {
    FirstIndex(Periods, period)
  }

  /** The position of a weekday name is the position it was taken from. */
  lemma DayIndexOf(d: nat)
    requires d < |Days|
    ensures DayIndex(Days[d]) == d
  {
    DaysDistinct();
  }

  /** The position of a period name is the position it was taken from. */
  lemma PeriodIndexOf(p: nat)
    requires p < |Periods|
    ensures PeriodIndex(Periods[p]) == p
  {
    PeriodsDistinct();
  }
}
