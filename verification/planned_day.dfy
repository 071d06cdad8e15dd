/**
 * Pantree.Core.Planning.PlannedDay: the list of meals planned for one day, with the `IList<Meal>`
 * operations changing it in place, and the day's totals.
 */
module PlannedDays {
  import opened Wrappers
  import opened Primitives
  import opened Lists
  import opened Ingredients
  import opened Recipes
  import opened Meals
  import N = CookingNutrition

  // ---------------------------------------------------------------------------------------------
  // Functions of a list of meals

  /** `meals.Sum(x => x.CalorieGoal)`, before the conversion back to `uint`. */
  function GoalTotal(meals: seq<Meal>): nat
    reads meals
  {
    if |meals| == 0 then 0 else GoalTotal(meals[..|meals| - 1]) + meals[|meals| - 1].calorieGoal
  }

  /** `meals.SelectMany(x => x.Foods)`: every food of every meal, meal by meal. */
  function AllFoods(meals: seq<Meal>): (foods: seq<Ingredient>)
    reads meals
    ensures |meals| == 1 ==> foods == meals[0].foods
  {
    if |meals| == 0 then [] else AllFoods(meals[..|meals| - 1]) + meals[|meals| - 1].foods
  }

  /** `meal` is not null and equal to `x` under `Meal.Equals`. */
  predicate EqualMeal(x: Meal, meal: Meal?)
    reads x, meal
  {
    meal != null && MealEquals(x, meal)
  }

  /** `List.IndexOf`: the index of the first meal equal to `meal`, or -1. */
  function IndexOfMeal(meals: seq<Meal>, meal: Meal?): (r: int)
    reads meals, meal
    ensures -1 <= r < |meals|
    ensures r == -1 <==> forall i :: 0 <= i < |meals| ==> !EqualMeal(meals[i], meal)
    ensures 0 <= r ==> EqualMeal(meals[r], meal) && forall i :: 0 <= i < r ==> !EqualMeal(meals[i], meal)
  {
    if |meals| == 0 then -1
    else if EqualMeal(meals[0], meal) then 0
    else
      var k := IndexOfMeal(meals[1..], meal);
      assert forall i :: 1 <= i < |meals| ==> meals[i] == meals[1..][i - 1];
      if k == -1 then -1 else k + 1
  }

  // ---------------------------------------------------------------------------------------------
  // The class

  class PlannedDay {
    /** The meals, in order. */
    var meals: seq<Meal>

    /** `new PlannedDay(meals)`: the initial meals are copied in order. */
    constructor(meals: seq<Meal> := [])
      ensures this.meals == meals
    {
      this.meals := meals;
    }

    /** `CalorieGoal`: the sum of the meals' goals; a sum past `uint.MaxValue` throws, so it is excluded. */
    function CalorieGoal(): (goal: UInt32)
      reads this, meals
      requires GoalTotal(meals) < UINT32_MODULUS
      ensures goal == GoalTotal(meals)
    {
      GoalTotal(meals)
    }

    /** `PlannedNutrition`: the fold of the meal fold over every food of every meal, in order. */
    function PlannedNutrition(newId: Guid): (r: Result<N.Nutrition>)
      reads this, meals
      requires IngredientsDefined(AllFoods(meals))
      ensures r == PlannedNutritionOf(AllFoods(meals), newId)
    {
      PlannedNutritionOf(AllFoods(meals), newId)
    }

    /** The indexer's getter; an index out of range throws, so it is excluded. */
    function Get(index: int): (meal: Meal)
      reads this
      requires 0 <= index < |meals|
      ensures meal == meals[index]
    {
      meals[index]
    }

    /** The indexer's setter: only the meal at `index` is replaced. */
    method Set(index: int, meal: Meal)
      requires 0 <= index < |meals|
      modifies this
      ensures meals == old(meals)[index := meal]
    {
      meals := meals[index := meal];
    }

    function Count(): (n: nat)
      reads this
      ensures n == |meals|
    {
      |meals|
    }

    /** `Add`: the meal is appended. */
    method Add(meal: Meal)
      modifies this
      ensures meals == old(meals) + [meal]
    {
      meals := meals + [meal];
    }

    /** `AddRange`: the meals are appended in order. */
    method AddRange(range: seq<Meal>)
      modifies this
      ensures meals == old(meals) + range
    {
      meals := meals + range;
    }

    /** `Clear`: no meal is left. */
    method Clear()
      modifies this
      ensures meals == []
    {
      meals := [];
    }

    /** `Contains`: some meal is equal to `meal`. */
    function Contains(meal: Meal?): (b: bool)
      reads this, meals, meal
      ensures b <==> exists i :: 0 <= i < |meals| && EqualMeal(meals[i], meal)
    {
      IndexOfMeal(meals, meal) >= 0
    }

    /** `IndexOf`: the index of the first meal equal to `meal`, or -1 when there is none. */
    function IndexOf(meal: Meal?): (r: int)
      reads this, meals, meal
      ensures r == IndexOfMeal(meals, meal)
    {
      IndexOfMeal(meals, meal)
    }

    /**
     * `CopyTo`: the meals are written into `target` (the source's `array`) from `arrayIndex` on, and no other slot changes.
     * An index or a length that does not fit throws, so it is excluded.
     */
    method CopyTo(target: array<Meal?>, arrayIndex: int)
      requires 0 <= arrayIndex && arrayIndex + |meals| <= target.Length
      modifies target
      ensures forall i :: 0 <= i < |meals| ==> target[arrayIndex + i] == meals[i]
      ensures forall j :: 0 <= j < target.Length && !(arrayIndex <= j < arrayIndex + |meals|) ==>
        target[j] == old(target[j])
    {
      forall j | arrayIndex <= j < arrayIndex + |meals| {
        target[j] := meals[j - arrayIndex];
      }
    }

    /** `Insert`: `meal` lands at `index` and the later meals shift right; a bad index is excluded. */
    method Insert(index: int, meal: Meal)
      requires 0 <= index <= |meals|
      modifies this
      ensures meals == InsertAt(old(meals), index, meal)
    {
      meals := InsertAt(meals, index, meal);
    }

    /**
     * `Remove`: the first meal equal to `meal` is removed and true returned; without an equal meal
     * nothing changes and false is returned.
     */
    method Remove(meal: Meal?) returns (removed: bool)
      modifies this
      ensures removed <==> exists i :: 0 <= i < |old(meals)| && EqualMeal(old(meals)[i], meal)
      ensures !removed ==> meals == old(meals)
      ensures removed ==> meals == Lists.RemoveAt(old(meals), old(IndexOfMeal(meals, meal)))
    {
      var k := IndexOfMeal(meals, meal);
      if k == -1 {
        removed := false;
      } else {
        removed := true;
        meals := Lists.RemoveAt(meals, k);
      }
    }

    /** `RemoveAt`: the meal at `index` goes and the later meals shift left; a bad index is excluded. */
    method RemoveAt(index: int)
      requires 0 <= index < |meals|
      modifies this
      ensures meals == Lists.RemoveAt(old(meals), index)
    {
      meals := Lists.RemoveAt(meals, index);
    }

    /**
     * `Clone`: a new day holding a clone of each meal, in order. Every clone is a new object, no
     * two of them are the same object, and each has its original's name, goal and foods.
     */
    method Clone() returns (clone: PlannedDay)
      ensures fresh(clone)
      ensures |clone.meals| == |meals|
      ensures forall i :: 0 <= i < |meals| ==> fresh(clone.meals[i])
      ensures forall i, j :: 0 <= i < j < |meals| ==> clone.meals[i] != clone.meals[j]
      ensures forall i :: 0 <= i < |meals| ==> SameMeal(clone.meals[i], meals[i])
      ensures DayEquals(clone, this)
    {
      clone := new PlannedDay();
      for i := 0 to |meals|
        invariant fresh(clone)
        invariant |clone.meals| == i
        invariant forall j :: 0 <= j < i ==> fresh(clone.meals[j])
        invariant forall j, k :: 0 <= j < k < i ==> clone.meals[j] != clone.meals[k]
        invariant forall j :: 0 <= j < i ==> SameMeal(clone.meals[j], meals[j])
      {
        var c := meals[i].Clone();
        clone.Add(c);
      }
      ClonesEqual(clone, this);
    }

    /**
     * `Equals(PlannedDay? other)`: a non-null day with as many meals, then equal total goals, then
     * the meals pairwise, all folded into one flag. The goals are only computed when the counts
     * agree, and then they must not overflow.
     */
    method Equals(other: PlannedDay?) returns (equal: bool)
      requires other != null && |other.meals| == |meals| ==>
        GoalTotal(meals) < UINT32_MODULUS && GoalTotal(other.meals) < UINT32_MODULUS
      ensures equal <==> other != null && DayEquals(this, other)
    {
      if other == null || other.Count() != Count() {
        return false;
      }
      equal := CalorieGoal() == other.CalorieGoal();
      for i := 0 to |meals|
        invariant equal <==>
          && GoalTotal(meals) == GoalTotal(other.meals)
          && forall j :: 0 <= j < i ==> MealEquals(meals[j], other.meals[j])
      {
        var same := meals[i].Equals(other.meals[i]);
        equal := equal && same;
      }
    }
  }

  /** A meal with the same name, goal and foods as another. */
  predicate SameMeal(a: Meal, b: Meal)
    reads a, b
  {
    a.name == b.name && a.calorieGoal == b.calorieGoal && a.foods == b.foods
  }

  /** Two days are equal when their meal counts and total goals agree and their meals are pairwise equal. */
  predicate DayEquals(a: PlannedDay, b: PlannedDay)
    reads a, a.meals, b, b.meals
  {
    && |a.meals| == |b.meals|
    && GoalTotal(a.meals) == GoalTotal(b.meals)
    && forall i :: 0 <= i < |a.meals| ==> MealEquals(a.meals[i], b.meals[i])
  }

  // ---------------------------------------------------------------------------------------------
  // Properties

  /** Lists of meals whose goals agree one by one have the same total goal. */
  lemma {:induction false} GoalTotalOfSameGoals(a: seq<Meal>, b: seq<Meal>)
    requires |a| == |b|
    requires forall i :: 0 <= i < |a| ==> a[i].calorieGoal == b[i].calorieGoal
    ensures GoalTotal(a) == GoalTotal(b)
  {
    if |a| > 0 {
      GoalTotalOfSameGoals(a[..|a| - 1], b[..|b| - 1]);
    }
  }

  /** A day whose meals have their originals' names, goals and foods equals the original day. */
  lemma ClonesEqual(a: PlannedDay, b: PlannedDay)
    requires |a.meals| == |b.meals|
    requires forall i :: 0 <= i < |a.meals| ==> SameMeal(a.meals[i], b.meals[i])
    ensures DayEquals(a, b)
  {
    GoalTotalOfSameGoals(a.meals, b.meals);
    forall i | 0 <= i < |a.meals| ensures MealEquals(a.meals[i], b.meals[i]) {
      SameFoodsEqual(a.meals[i], b.meals[i]);
    }
  }

  /** Appending a meal adds its goal to the total: the goal of a day is the plain sum of its meals' goals. */
  lemma GoalTotalAppend(meals: seq<Meal>, meal: Meal)
    ensures GoalTotal(meals + [meal]) == GoalTotal(meals) + meal.calorieGoal
  {
    assert (meals + [meal])[..|meals|] == meals;
  }

  /** The foods of two lists of meals, one after the other, are the foods of the joined list. */
  lemma {:induction false} AllFoodsAppend(a: seq<Meal>, b: seq<Meal>)
    ensures AllFoods(a + b) == AllFoods(a) + AllFoods(b)
  {
    if |b| == 0 {
      assert a + b == a;
    } else {
      var last := b[|b| - 1];
      assert (a + b)[..|a + b| - 1] == a + b[..|b| - 1];
      AllFoodsAppend(a, b[..|b| - 1]);
    }
  }

  /** A day of one meal plans exactly that meal's nutrition. */
  lemma OneMealDay(day: PlannedDay, newId: Guid)
    requires |day.meals| == 1
    requires IngredientsDefined(day.meals[0].foods)
    ensures IngredientsDefined(AllFoods(day.meals))
    ensures day.PlannedNutrition(newId) == day.meals[0].PlannedNutrition(newId)
  {
  }

  /** A removed meal inserted back at its old index restores the day's list. */
  lemma RemoveThenInsert(meals: seq<Meal>, index: nat)
    requires index < |meals|
    ensures InsertAt(Lists.RemoveAt(meals, index), index, meals[index]) == meals
  {
    InsertRemoved(meals, index);
  }
}
