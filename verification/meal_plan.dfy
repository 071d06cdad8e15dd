/**
 * Pantree.Core.Planning.MealPlan: one planned day for each day of the week, enumerated as the week
 * that begins on the start date's weekday.
 */
module MealPlans {
  import opened Primitives
  import opened Meals
  import opened PlannedDays

  /** System.DayOfWeek: Sunday is 0, Saturday is 6. */
  type DayOfWeek = d: int | 0 <= d < 7

  const SUNDAY: DayOfWeek := 0
  const MONDAY: DayOfWeek := 1

  /**
   * `DateOnly.DayOfWeek` of a date given by its day number: day 0 (1 January 0001) was a Monday.
   */
  function DayOfWeekOf(dayNumber: int): (d: DayOfWeek)
    ensures dayNumber % 7 == 0 ==> d == MONDAY
  {
    (dayNumber + 1) % 7
  }

  /** The weekdays of the week starting on `start`: the `i`-th is `(start + i) % 7`. */
  function Week(start: DayOfWeek): (w: seq<DayOfWeek>)
    ensures |w| == 7 && w[0] == start
    ensures forall i :: 0 <= i < 7 ==> w[i] == (start + i) % 7
  {
    seq(7, i requires 0 <= i < 7 => (start + i) % 7)
  }

  class MealPlan {
    /** The days of the plan, by weekday. */
    var plannedDays: map<DayOfWeek, PlannedDay>
    /** `StartDate`, as a day number. */
    const startDate: int

    /** Every weekday has a planned day, and no two weekdays share one. */
    predicate Valid()
      reads this
    {
      && (forall d: DayOfWeek :: d in plannedDays)
      && (forall d: DayOfWeek, e: DayOfWeek :: d != e ==> plannedDays[d] != plannedDays[e])
    }

    /** `new MealPlan(startDate)`: a new, empty planned day for each of the seven weekdays. */
    constructor(startDate: int)
      ensures this.startDate == startDate
      ensures Valid()
      ensures forall d: DayOfWeek :: fresh(plannedDays[d]) && plannedDays[d].meals == []
    {
      this.startDate := startDate;
      var days := NewWeek();
      plannedDays := days;
    }

    /**
     * `new MealPlan(startDate, templateDay)`: as above, then every weekday's entry is replaced by its
     * own clone of the template, weekday by weekday.
     */
    constructor FromTemplate(startDate: int, templateDay: PlannedDay)
      ensures this.startDate == startDate
      ensures Valid()
      ensures forall d: DayOfWeek :: fresh(plannedDays[d]) && IsCloneOf(plannedDays[d], templateDay)
      ensures forall d: DayOfWeek, i :: 0 <= i < |plannedDays[d].meals| ==> fresh(plannedDays[d].meals[i])
    {
      this.startDate := startDate;
      var days := CloneWeek(templateDay);
      plannedDays := days;
    }

    /** The indexer: the planned day of weekday `key`. */
    function Get(key: DayOfWeek): (day: PlannedDay)
      reads this
      requires Valid()
      ensures day == plannedDays[key]
    {
      plannedDays[key]
    }

    /**
     * `OrderedDays`, what enumerating the plan yields: seven pairs of a weekday and its planned day,
     * starting from the start date's weekday and counting up modulo 7.
     */
    method OrderedDays() returns (days: seq<(DayOfWeek, PlannedDay)>)
      requires Valid()
      ensures |days| == 7
      ensures forall i :: 0 <= i < 7 ==>
        days[i] == (Week(DayOfWeekOf(startDate))[i], Get(Week(DayOfWeekOf(startDate))[i]))
    {
      days := [];
      for iDay := 0 to 7
        invariant |days| == iDay
        invariant forall i :: 0 <= i < iDay ==>
          days[i] == (Week(DayOfWeekOf(startDate))[i], Get(Week(DayOfWeekOf(startDate))[i]))
      {
        var day: DayOfWeek := (DayOfWeekOf(startDate) + iDay) % 7;
        days := days + [(day, Get(day))];
      }
    }
  }

  /**
   * `c` holds copies of the template's meals: as many, each with its original's name, goal and
   * foods, and no two of them the same object.
   */
  predicate IsCloneOf(c: PlannedDay, template: PlannedDay)
    reads c, c.meals, template, template.meals
  {
    && |c.meals| == |template.meals|
    && (forall i :: 0 <= i < |c.meals| ==> SameMeal(c.meals[i], template.meals[i]))
    && (forall i, j :: 0 <= i < j < |c.meals| ==> c.meals[i] != c.meals[j])
  }

  /** The weekdays' entries replaced, one by one, by clones of the template. */
  method CloneWeek(templateDay: PlannedDay) returns (days: map<DayOfWeek, PlannedDay>)
    ensures forall d: DayOfWeek :: d in days && fresh(days[d]) && IsCloneOf(days[d], templateDay)
    ensures forall d: DayOfWeek, e: DayOfWeek :: d != e ==> days[d] != days[e]
    ensures forall d: DayOfWeek, i :: 0 <= i < |days[d].meals| ==> fresh(days[d].meals[i])
    ensures forall d: DayOfWeek :: DayEquals(days[d], templateDay)
  {
    days := NewWeek();
    for day := 0 to 7
      invariant forall d: DayOfWeek :: d in days && fresh(days[d])
      invariant forall d: DayOfWeek, e: DayOfWeek :: d != e ==> days[d] != days[e]
      invariant forall d: DayOfWeek :: d < day ==> IsCloneOf(days[d], templateDay)
      invariant forall d: DayOfWeek, i :: d < day && 0 <= i < |days[d].meals| ==> fresh(days[d].meals[i])
    {
      days := ReplaceByClone(days, day, templateDay);
    }
    forall d: DayOfWeek ensures DayEquals(days[d], templateDay) {
      ClonesEqual(days[d], templateDay);
    }
  }

  /**
   * `days[weekday] = templateDay.Clone()`: only the entry of `weekday` changes, to a new clone; the
   * other entries keep what they held.
   */
  method ReplaceByClone(days: map<DayOfWeek, PlannedDay>, weekday: DayOfWeek, templateDay: PlannedDay)
    returns (r: map<DayOfWeek, PlannedDay>)
    requires forall d: DayOfWeek :: d in days
    ensures forall d: DayOfWeek :: d in r
    ensures forall d: DayOfWeek :: d != weekday ==> r[d] == days[d]
    ensures fresh(r[weekday]) && IsCloneOf(r[weekday], templateDay)
    ensures forall i :: 0 <= i < |r[weekday].meals| ==> fresh(r[weekday].meals[i])
    ensures forall d: DayOfWeek :: d != weekday && old(IsCloneOf(days[d], templateDay)) ==> IsCloneOf(r[d], templateDay)
  {
    var clone := templateDay.Clone();
    r := days[weekday := clone];
  }

  /** Seven new, empty planned days, one per weekday. */
  method NewWeek() returns (days: map<DayOfWeek, PlannedDay>)
    ensures forall d: DayOfWeek :: d in days && fresh(days[d]) && days[d].meals == []
    ensures forall d: DayOfWeek, e: DayOfWeek :: d != e ==> days[d] != days[e]
  {
    var sunday := new PlannedDay();
    var monday := new PlannedDay();
    var tuesday := new PlannedDay();
    var wednesday := new PlannedDay();
    var thursday := new PlannedDay();
    var friday := new PlannedDay();
    var saturday := new PlannedDay();
    days := map[0 := sunday, 1 := monday, 2 := tuesday, 3 := wednesday,
                4 := thursday, 5 := friday, 6 := saturday];
  }

  // ---------------------------------------------------------------------------------------------
  // Properties

  /** The week begins on its start weekday and holds every weekday exactly once. */
  lemma {:induction false} WeekHasEveryDayOnce(start: DayOfWeek)
    ensures Week(start)[0] == start
    ensures forall d: DayOfWeek :: d in Week(start)
    ensures forall i, j :: 0 <= i < j < 7 ==> Week(start)[i] != Week(start)[j]
  {
    var w := Week(start);
    assert forall i :: 0 <= i < 7 ==> w[i] == if start + i < 7 then start + i else start + i - 7;
    forall d: DayOfWeek ensures d in w {
      var i := if start <= d then d - start else d - start + 7;
      assert w[i] == d;
    }
  }

  /** Weekdays repeat every seven days, and the day after any date falls on the next weekday. */
  lemma WeekdaysCycle(dayNumber: int)
    ensures DayOfWeekOf(dayNumber + 7) == DayOfWeekOf(dayNumber)
    ensures DayOfWeekOf(dayNumber + 1) == (DayOfWeekOf(dayNumber) + 1) % 7
  {
  }

  /** A plan starting on a Monday date lists its days Monday first and Sunday last. */
  lemma MondayStart(startDate: int)
    requires DayOfWeekOf(startDate) == MONDAY
    ensures Week(DayOfWeekOf(startDate)) == [1, 2, 3, 4, 5, 6, 0]
  {
  }
}
