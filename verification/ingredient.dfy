/**
 * Pantree.Core.Cooking.Food and Pantree.Core.Cooking.Ingredient: a food with its label (nutrition
 * per labelled measurement), and a quantity of a food, whose nutrition is the label scaled by how
 * many labelled measurements the quantity holds.
 */
module Ingredients {
  import opened Wrappers
  import opened Primitives
  import opened Measurements
  import opened FoodUnits
  import N = CookingNutrition

  /** `Food`: a plain record; its nutrition is given per `measurement` of the food. */
  datatype Food = Food(
    id: Guid,
    name: string,
    nutrition: Option<N.Nutrition>,
    measurement: Option<Measurement<FoodUnit>>)

  /** `Ingredient(food, quantity)`: the record stores both unchanged, next to its own id. */
  datatype Ingredient = Ingredient(id: Guid, food: Food, quantity: Measurement<FoodUnit>)

  // ---------------------------------------------------------------------------------------------
  // Record equality (the compiler-generated equality of the record structs)

  /** Equality of two `Measurement?` fields: null equals only null, otherwise tolerant equality. */
  predicate MeasurementFieldEquals(a: Option<Measurement<FoodUnit>>, b: Option<Measurement<FoodUnit>>) {
    if a.None? then b.None? else Equals(a.value, b)
  }

  predicate FoodEquals(a: Food, b: Food) {
    && a.id == b.id
    && a.name == b.name
    && N.EqualsNullable(a.nutrition, b.nutrition)
    && MeasurementFieldEquals(a.measurement, b.measurement)
  }

  predicate IngredientEquals(a: Ingredient, b: Ingredient) {
    a.id == b.id && FoodEquals(a.food, b.food) && Equals(a.quantity, Some(b.quantity))
  }

  /** Every ingredient equals itself, so a list always finds an ingredient it holds. */
  lemma IngredientEqualsReflexive(a: Ingredient)
    ensures IngredientEquals(a, a)
  {
    Reflexive(a.quantity, DEFAULT_TOLERANCE);
    if a.food.measurement.Some? {
      Reflexive(a.food.measurement.value, DEFAULT_TOLERANCE);
    }
  }

  /** Ingredient equality does not depend on the order of the operands. */
  lemma IngredientEqualsSymmetric(a: Ingredient, b: Ingredient)
    requires IngredientEquals(a, b)
    ensures IngredientEquals(b, a)
  {
    Symmetric(a.quantity, b.quantity, DEFAULT_TOLERANCE);
    if a.food.measurement.Some? {
      Symmetric(a.food.measurement.value, b.food.measurement.value, DEFAULT_TOLERANCE);
    }
  }

  // ---------------------------------------------------------------------------------------------
  // Nutrition of an ingredient

  /** The food has both a nutrition label and a labelled measurement. */
  predicate Labelled(ing: Ingredient) {
    ing.food.nutrition.Some? && ing.food.measurement.Some?
  }

  /** How many labelled measurements the quantity holds: converted to the label's unit, divided by its value. */
  function LabelRatio(ing: Ingredient): (r: real)
    requires ing.food.measurement.Some? && ing.food.measurement.value.value != 0.0
    ensures r * ing.food.measurement.value.value == ConvertFood(ing.quantity, ing.food.measurement.value.unit).value
  {
    var lab := ing.food.measurement.value;
    Divide(ConvertFood(ing.quantity, lab.unit), lab.value).value
  }

  /**
   * What the getter needs to be defined here: a labelled value that is not zero (a zero value would
   * make the ratio an IEEE infinity or NaN) and, for a non-negative ratio, fields that fit a `uint`
   * once scaled.
   */
  predicate NutritionDefined(ing: Ingredient) {
    Labelled(ing) ==>
      && ing.food.measurement.value.value != 0.0
      && (LabelRatio(ing) < 0.0 || N.ScaleFits(ing.food.nutrition.value, LabelRatio(ing)))
  }

  /**
   * The `Nutrition` getter: null without a label; otherwise the label scaled by `LabelRatio`, which
   * fails like `Nutrition * double` for a negative ratio. The new record gets id `newId`.
   */
  function NutritionOf(ing: Ingredient, newId: Guid): (r: Result<Option<N.Nutrition>>)
    requires NutritionDefined(ing)
    ensures !Labelled(ing) ==> r == Ok(None)
    ensures Labelled(ing) ==> (r.Err? <==> LabelRatio(ing) < 0.0)
    ensures r.Err? ==> r.error == ArgumentError("coefficient")
    ensures Labelled(ing) && r.Ok? ==>
      && r.value.Some? && r.value.value.id == newId
      && N.ScaledFrom(r.value.value, ing.food.nutrition.value, LabelRatio(ing))
  {
    if ing.food.nutrition.None? || ing.food.measurement.None? then Ok(None)
    else N.ScaleNullable(ing.food.nutrition, LabelRatio(ing), newId)
  }

  /** The nutrition of each ingredient in order; the first getter that throws ends the walk. */
  function NutritionsOf(ings: seq<Ingredient>, newId: Guid): (r: Result<seq<Option<N.Nutrition>>>)
    requires forall i :: 0 <= i < |ings| ==> NutritionDefined(ings[i])
    ensures r.Ok? ==> |r.value| == |ings| && forall i :: 0 <= i < |ings| ==> NutritionOf(ings[i], newId) == Ok(r.value[i])
    ensures r.Err? <==> exists i :: 0 <= i < |ings| && NutritionOf(ings[i], newId).Err?
  {
    if |ings| == 0 then Ok([])
    else
      var head :- NutritionOf(ings[0], newId);
      var tail :- NutritionsOf(ings[1..], newId);
      assert forall i :: 1 <= i < |ings| ==> ings[i] == ings[1..][i - 1];
      Ok([head] + tail)
  }

  // ---------------------------------------------------------------------------------------------
  // Properties

  /** A food's nutrition stays unknown without a labelled measurement, and vice versa. */
  lemma UnlabelledHasNoNutrition(ing: Ingredient, newId: Guid)
    requires ing.food.nutrition.None? || ing.food.measurement.None?
    ensures NutritionOf(ing, newId) == Ok(None)
  {
  }

  /** An ingredient of exactly the labelled measurement has the label's nutrition. */
  lemma {:induction false} QuantityAtLabel(ing: Ingredient, newId: Guid)
    requires Labelled(ing) && ing.quantity == ing.food.measurement.value
    requires ing.quantity.value != 0.0
    ensures NutritionDefined(ing)
    ensures NutritionOf(ing, newId).Ok? && NutritionOf(ing, newId).value.Some?
    ensures N.Equals(NutritionOf(ing, newId).value.value, ing.food.nutrition.value)
  {
    var n := ing.food.nutrition.value;
    assert LabelRatio(ing) == 1.0;
    N.ScaleByWholeNumber(n, 1, newId);
    var r := NutritionOf(ing, newId).value.value;
    assert r == N.Scale(n, 1.0, newId).value;
    forall k ensures N.Get(r, k) == N.Get(n, k) {
      assert N.MultipliedFrom(r, n, 1);
    }
    N.EqualsFieldwise(r, n);
  }

  /** An ingredient of `m` labelled measurements (a whole number) has every known field multiplied by `m`. */
  lemma {:induction false} WholeMultipleOfLabel(ing: Ingredient, m: nat, newId: Guid)
    requires Labelled(ing)
    requires ing.food.measurement.value.value != 0.0
    requires ing.quantity == Multiply(ing.food.measurement.value, m as real)
    requires N.ScaleFits(ing.food.nutrition.value, m as real)
    ensures NutritionDefined(ing)
    ensures NutritionOf(ing, newId).Ok? && NutritionOf(ing, newId).value.Some?
    ensures N.MultipliedFrom(NutritionOf(ing, newId).value.value, ing.food.nutrition.value, m)
  {
    var lab := ing.food.measurement.value;
    assert ConvertFood(ing.quantity, lab.unit) == ing.quantity;
    MultiplyThenDivide(lab, m as real);
    assert LabelRatio(ing) == m as real;
    N.ScaleByWholeNumber(ing.food.nutrition.value, m, newId);
  }

  lemma MultiplyThenDivide(lab: Measurement<FoodUnit>, m: real)
    requires lab.value != 0.0
    ensures Divide(Multiply(lab, m), lab.value).value == m
  {
  }

  /** With a positive labelled value, a negative quantity makes the getter throw the coefficient error. */
  lemma NegativeQuantityFails(ing: Ingredient, newId: Guid)
    requires Labelled(ing) && ing.food.measurement.value.value > 0.0 && ing.quantity.value < 0.0
    ensures NutritionDefined(ing)
    ensures NutritionOf(ing, newId) == Err(ArgumentError("coefficient"))
  {
    var lab := ing.food.measurement.value;
    var c := ConvertFood(ing.quantity, lab.unit);
    ConvertFoodKeepsSign(ing.quantity, lab.unit);
    assert c.value / lab.value < 0.0;
  }
}
