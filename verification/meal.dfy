/**
 * Pantree.Core.Planning.Meal: a named list of foods with a calorie goal. The list is changed in
 * place by its methods; the planned nutrition is a fold over it.
 */
module Meals {
  import opened Wrappers
  import opened Primitives
  import opened Lists
  import opened Ingredients
  import opened Recipes
  import N = CookingNutrition

  // ---------------------------------------------------------------------------------------------
  // The planned nutrition of a list of foods

  /**
   * `foods.Aggregate(null, (sum, ing) => sum + ing.Nutrition) ?? new()`: the foods' nutritions added
   * up in order, or the all-unknown record when none is known. A getter that throws ends the fold.
   * Field by field, the result is unknown exactly where no food knows the field, and otherwise the
   * 32-bit wrapped total of the known values.
   */
  function PlannedNutritionOf(foods: seq<Ingredient>, newId: Guid): (r: Result<N.Nutrition>)
    requires IngredientsDefined(foods)
    ensures r.Err? <==> exists i :: 0 <= i < |foods| && NutritionOf(foods[i], newId).Err?
    ensures r.Ok? ==> forall k ::
      var ns := NutritionsOf(foods, newId).value;
      && (N.Get(r.value, k).None? <==> !N.AnyKnown(ns, k))
      && (N.Get(r.value, k).Some? ==> N.Get(r.value, k).value == N.KnownTotal(ns, k) % UINT32_MODULUS)
  {
    var ns :- NutritionsOf(foods, newId);
    SumOrEmptyFieldwise(ns, newId);
    var sum := N.Sum(ns, newId);
    Ok(if sum.Some? then sum.value else N.Empty(newId))
  }

  lemma SumOrEmptyFieldwise(ns: seq<Option<N.Nutrition>>, newId: Guid)
    ensures var sum := N.Sum(ns, newId);
      var r := if sum.Some? then sum.value else N.Empty(newId);
      forall k ::
        && (N.Get(r, k).None? <==> !N.AnyKnown(ns, k))
        && (N.Get(r, k).Some? ==> N.Get(r, k).value == N.KnownTotal(ns, k) % UINT32_MODULUS)
  {
    var sum := N.Sum(ns, newId);
    if sum.Some? {
      forall k
        ensures N.Get(sum.value, k).None? <==> !N.AnyKnown(ns, k)
        ensures N.Get(sum.value, k).Some? ==> N.Get(sum.value, k).value == N.KnownTotal(ns, k) % UINT32_MODULUS
      {
        N.SumFieldwise(ns, newId, k);
      }
    } else {
      N.SumAbsent(ns, newId);
    }
  }

  /** Whether an ingredient equals `food` under the record's equality; `List.Remove` looks for it. */
  function SameFood(food: Ingredient): Ingredient -> bool {
    x => IngredientEquals(x, food)
  }

  // ---------------------------------------------------------------------------------------------
  // The class

  class Meal {
    var name: string
    var calorieGoal: UInt32
    /** `Foods`, in the order they were added. */
    var foods: seq<Ingredient>

    /** `new Meal(name, calorieGoal, foods)`: the initial foods are copied in order. */
    constructor(name: string, calorieGoal: UInt32, foods: seq<Ingredient> := [])
      ensures this.name == name && this.calorieGoal == calorieGoal && this.foods == foods
    {
      this.name := name;
      this.calorieGoal := calorieGoal;
      this.foods := foods;
    }

    /** `PlannedNutrition`: the fold over this meal's foods. */
    function PlannedNutrition(newId: Guid): (r: Result<N.Nutrition>)
      reads this
      requires IngredientsDefined(foods)
      ensures r == PlannedNutritionOf(foods, newId)
    {
      PlannedNutritionOf(foods, newId)
    }

    /** `AddRecipe`: the recipe's ingredients are appended in order; nothing else changes. */
    method AddRecipe(recipe: Recipe)
      modifies this
      ensures foods == old(foods) + recipe.ingredients
      ensures name == old(name) && calorieGoal == old(calorieGoal)
    {
      foods := foods + recipe.ingredients;
    }

    /** `AddFood`: the food is appended at the end; nothing else changes. */
    method AddFood(food: Ingredient)
      modifies this
      ensures foods == old(foods) + [food]
      ensures name == old(name) && calorieGoal == old(calorieGoal)
    {
      foods := foods + [food];
    }

    /**
     * `RemoveFood`: the first food equal to `food` is removed and true returned; without an equal
     * food the list is left as it is and false returned.
     */
    method RemoveFood(food: Ingredient) returns (removed: bool)
      modifies this
      ensures removed <==> exists i :: 0 <= i < |old(foods)| && IngredientEquals(old(foods)[i], food)
      ensures !removed ==> foods == old(foods)
      ensures removed ==> foods == RemoveAt(old(foods), FirstIndexOf(old(foods), SameFood(food)))
      ensures name == old(name) && calorieGoal == old(calorieGoal)
    {
      var r := RemoveFirst(foods, SameFood(food));
      removed, foods := r.0, r.1;
    }

    /** `Clone`: a new meal with the same name and goal, built by adding the foods one by one. */
    method Clone() returns (clone: Meal)
      ensures fresh(clone)
      ensures clone.name == name && clone.calorieGoal == calorieGoal && clone.foods == foods
      ensures MealEquals(clone, this)
    {
      clone := new Meal(name, calorieGoal);
      for i := 0 to |foods|
        invariant clone.name == name && clone.calorieGoal == calorieGoal
        invariant clone.foods == foods[..i]
      {
        clone.AddFood(foods[i]);
      }
      assert clone.foods == foods;
      SameFoodsEqual(clone, this);
    }

    /**
     * `Equals(Meal? other)`: a non-null meal with as many foods, then the name and goal, then the
     * foods pairwise, all folded into one flag.
     */
    method Equals(other: Meal?) returns (equal: bool)
      ensures equal <==> other != null && MealEquals(this, other)
    {
      if other == null || |foods| != |other.foods| {
        return false;
      }
      equal := name == other.name && calorieGoal == other.calorieGoal;
      for i := 0 to |foods|
        invariant equal <==>
          && name == other.name && calorieGoal == other.calorieGoal
          && forall j :: 0 <= j < i ==> IngredientEquals(foods[j], other.foods[j])
      {
        equal := equal && IngredientEquals(foods[i], other.foods[i]);
      }
    }
  }

  /** Two meals are equal when their names, goals and food counts agree and their foods are pairwise equal. */
  predicate MealEquals(a: Meal, b: Meal)
    reads a, b
  {
    && |a.foods| == |b.foods|
    && a.name == b.name
    && a.calorieGoal == b.calorieGoal
    && forall i :: 0 <= i < |a.foods| ==> IngredientEquals(a.foods[i], b.foods[i])
  }

  // ---------------------------------------------------------------------------------------------
  // Properties

  /** Meals with the same name, goal and foods are equal; in particular every meal equals itself. */
  lemma SameFoodsEqual(a: Meal, b: Meal)
    requires a.name == b.name && a.calorieGoal == b.calorieGoal && a.foods == b.foods
    ensures MealEquals(a, b)
  {
    forall i | 0 <= i < |a.foods| ensures IngredientEquals(a.foods[i], b.foods[i]) {
      IngredientEqualsReflexive(a.foods[i]);
    }
  }

  /** Meal equality does not depend on the order of the operands. */
  lemma MealEqualsSymmetric(a: Meal, b: Meal)
    requires MealEquals(a, b)
    ensures MealEquals(b, a)
  {
    forall i | 0 <= i < |b.foods| ensures IngredientEquals(b.foods[i], a.foods[i]) {
      IngredientEqualsSymmetric(a.foods[i], b.foods[i]);
    }
  }

  /**
   * Removing a food just appended to a list that held no equal food gives the list back: the
   * removal finds the appended food, and only it.
   */
  lemma {:induction false} RemoveAfterAdd(foods: seq<Ingredient>, food: Ingredient)
    requires forall i :: 0 <= i < |foods| ==> !IngredientEquals(foods[i], food)
    ensures RemoveFirst(foods + [food], SameFood(food)) == (true, foods)
  {
    var s := foods + [food];
    IngredientEqualsReflexive(food);
    assert SameFood(food)(s[|foods|]);
    assert forall i :: 0 <= i < |foods| ==> !SameFood(food)(s[i]);
    assert FirstIndexOf(s, SameFood(food)) == |foods|;
    assert RemoveAt(s, |foods|) == foods;
  }

  /** A meal whose foods all lack nutrition plans the all-unknown record. */
  lemma NothingKnownPlansEmpty(foods: seq<Ingredient>, newId: Guid)
    requires forall i :: 0 <= i < |foods| ==> !Labelled(foods[i])
    ensures IngredientsDefined(foods)
    ensures PlannedNutritionOf(foods, newId).Ok?
    ensures forall k :: N.Get(PlannedNutritionOf(foods, newId).value, k).None?
  {
    var ns := NutritionsOf(foods, newId).value;
    assert forall i :: 0 <= i < |ns| ==> ns[i].None?;
  }
}
