/**
 * Pantree.Core.Cooking.Recipe: ingredients with a number of servings and optional preparation and
 * cooking times, and the totals derived from them. `Description` and `Instructions` are plain
 * storage and not part of this model.
 */
module Recipes {
  import opened Wrappers
  import opened Primitives
  import opened Ingredients
  import N = CookingNutrition

  datatype Recipe = Recipe(
    id: Guid,
    name: string,
    ingredients: seq<Ingredient>,
    servings: UInt32,
    preparationTime: Option<TimeSpan>,
    cookingTime: Option<TimeSpan>)

  const DEFAULT_NAME: string := "New Recipe"

  /** `new Recipe(name = "New Recipe")`: one serving, no ingredients and no times. */
  function NewRecipe(newId: Guid, name: string := DEFAULT_NAME): (r: Recipe)
    ensures r.id == newId && r.name == name
    ensures r.servings == 1 && r.ingredients == []
    ensures r.preparationTime.None? && r.cookingTime.None?
  {
    Recipe(newId, name, [], 1, None, None)
  }

  /** `TotalTime`: null when both times are null, otherwise their sum with a missing time taken as zero. */
  function TotalTime(r: Recipe): (t: Option<TimeSpan>)
    ensures t.None? <==> r.preparationTime.None? && r.cookingTime.None?
    ensures t.Some? ==> t.value.ticks == r.preparationTime.GetOr(ZeroSpan).ticks + r.cookingTime.GetOr(ZeroSpan).ticks
  {
    if r.preparationTime.None? && r.cookingTime.None? then None
    else Some(AddSpans(r.preparationTime.GetOr(ZeroSpan), r.cookingTime.GetOr(ZeroSpan)))
  }

  /** Every ingredient's nutrition getter is defined. */
  predicate IngredientsDefined(ings: seq<Ingredient>) {
    forall i :: 0 <= i < |ings| ==> NutritionDefined(ings[i])
  }

  /**
   * `TotalNutrition` (`GetAggregateNutrition`): null for no ingredients; otherwise the seedless left
   * fold of `+` over the ingredients' non-null nutritions, or null when there are none. Every record
   * the fold creates gets id `newId`.
   */
  function TotalNutrition(r: Recipe, newId: Guid): (t: Result<Option<N.Nutrition>>)
    requires IngredientsDefined(r.ingredients)
    ensures |r.ingredients| == 0 ==> t == Ok(None)
    ensures t.Err? <==> NutritionsOf(r.ingredients, newId).Err?
    ensures t.Ok? ==> t.value == N.Sum(NutritionsOf(r.ingredients, newId).value, newId)
    ensures t.Ok? ==>
      (t.value.None? <==> forall i :: 0 <= i < |r.ingredients| ==> NutritionsOf(r.ingredients, newId).value[i].None?)
  {
    if |r.ingredients| == 0 then Ok(None)
    else
      var ns :- NutritionsOf(r.ingredients, newId);
      var present := N.Present(ns);
      N.SumSkipsAbsent(ns, newId);
      N.SumAbsent(ns, newId);
      if |present| > 0 then Ok(Some(N.Aggregate(present, newId))) else Ok(None)
  }

  /** `NutritionPerServing`: the total divided by `Servings`, null when the total is null. */
  function NutritionPerServing(r: Recipe, newId: Guid): (p: Result<Option<N.Nutrition>>)
    requires IngredientsDefined(r.ingredients)
    ensures TotalNutrition(r, newId).Err? ==> p.Err?
    ensures TotalNutrition(r, newId) == Ok(None) ==> p == Ok(None)
    ensures TotalNutrition(r, newId).Ok? && TotalNutrition(r, newId).value.Some? ==>
      var total := TotalNutrition(r, newId).value.value;
      && (p.Err? <==> r.servings == 0)
      && (p.Err? ==> p.error == ArgumentError("divisor"))
      && (p.Ok? ==> p.value.Some? && N.ScaledFrom(p.value.value, total, 1.0 / r.servings as real))
  {
    var total :- TotalNutrition(r, newId);
    if total.None? then Ok(None)
    else
      if r.servings > 0 then
        N.Reciprocal(r.servings);
        N.ScaleFitsBelowOne(total.value, 1.0 / r.servings as real);
        N.DivideNullable(total, r.servings as real, newId)
      else
        N.DivideNullable(total, r.servings as real, newId)
  }

  // ---------------------------------------------------------------------------------------------
  // Properties

  /** A new recipe has no time and no nutrition, and one serving. */
  lemma NewRecipeIsEmpty(newId: Guid, name: string, id2: Guid)
    ensures TotalTime(NewRecipe(newId, name)).None?
    ensures TotalNutrition(NewRecipe(newId, name), id2) == Ok(None)
    ensures NutritionPerServing(NewRecipe(newId, name), id2) == Ok(None)
  {
  }

  /** With only one of the two times given, the total time is that time. */
  lemma TotalTimeOfOnePart(r: Recipe)
    ensures r.preparationTime.None? && r.cookingTime.Some? ==> TotalTime(r) == r.cookingTime
    ensures r.preparationTime.Some? && r.cookingTime.None? ==> TotalTime(r) == r.preparationTime
  {
  }

  /** A recipe of one serving has the total as its per-serving nutrition, field for field. */
  lemma {:induction false} OneServing(r: Recipe, newId: Guid)
    requires IngredientsDefined(r.ingredients)
    requires r.servings == 1
    requires TotalNutrition(r, newId).Ok? && TotalNutrition(r, newId).value.Some?
    ensures NutritionPerServing(r, newId).Ok? && NutritionPerServing(r, newId).value.Some?
    ensures N.Equals(NutritionPerServing(r, newId).value.value, TotalNutrition(r, newId).value.value)
  {
    var total := TotalNutrition(r, newId).value.value;
    var p := NutritionPerServing(r, newId).value.value;
    assert N.ScaledFrom(p, total, 1.0);
    N.ScaleByWholeNumber(total, 1, newId);
    forall k ensures N.Get(p, k) == N.Get(total, k) {
      N.FloorOfWholeProduct(if N.Get(total, k).Some? then N.Get(total, k).value else 0, 1);
    }
    N.EqualsFieldwise(p, total);
  }

  /**
   * Field by field, the total is unknown only where no ingredient knows the field, and otherwise it
   * is the 32-bit wrapped total of the known values.
   */
  lemma TotalNutritionFieldwise(r: Recipe, newId: Guid, k: N.Nutrient)
    requires IngredientsDefined(r.ingredients)
    requires TotalNutrition(r, newId).Ok? && TotalNutrition(r, newId).value.Some?
    ensures var ns := NutritionsOf(r.ingredients, newId).value;
      var f := N.Get(TotalNutrition(r, newId).value.value, k);
      && (f.None? <==> !N.AnyKnown(ns, k))
      && (f.Some? ==> f.value == N.KnownTotal(ns, k) % UINT32_MODULUS)
  {
    N.SumFieldwise(NutritionsOf(r.ingredients, newId).value, newId, k);
  }
}
