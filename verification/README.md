# Pantree.Core in Dafny

A Dafny model of Pantree.Core, a small food-tracking domain library written in C#.

**Cooking.** A `Nutrition` label holds ten optional `uint` nutrients. An absent nutrient means "unknown", not zero. Labels can be:
- added, with an absent side counting as 0 unless both sides are absent;
- scaled, truncating each product toward zero;
- divided, as scaling by the reciprocal.

Equality and hashing ignore the label's `Id`. `Models/Nutrition.cs` is an older copy of the label. It is modelled on its own and shown to agree with the current one.

**Measurements.** A `Measurement` is a value in a unit. Two measurements are equal when their units match and their values differ by less than a tolerance. A `UnitConverter` is a registry of (to-base, from-base) function pairs. It converts through the base unit, with an identity fast path and two ordered "unregistered unit" errors. `FoodUnitConverter` registers the eleven food units by their weight in grams, with the gram as base unit.

An `Ingredient` is a quantity of a `Food`. Its nutrition is the food's label scaled by how many labelled measurements the quantity holds. A `Recipe` adds up its ingredients' nutrition and divides the total by its servings.

**Planning.** A `Meal` is a list of foods changed in place. A `PlannedDay` is a list of meals changed in place. A `MealPlan` maps the seven weekdays to planned days and lists them as the week that begins on the start date's weekday. The planned nutrition of a meal or a day is a left fold of `+` that starts from "absent".

**Inventory.** A `Perishable` computes its expiry date from whole days. A `Pantry` is a list of perishables with filters on how soon they expire.

**Form of the model.** Each source file is one module:
- Value types (labels, measurements, foods, ingredients, recipes, perishables) are datatypes, and their operations are functions.
- Classes whose lists are changed in place are Dafny classes with `seq` fields. Their methods state the new list in terms of the old one. This covers `Meal`, `PlannedDay`, `MealPlan`, `Pantry` and the converter registry.
- Loops in the source stay loops with invariants: `Meal.Clone`, `Meal.Equals`, `PlannedDay.Clone`, `PlannedDay.Equals`, `MealPlan.OrderedDays` and the template constructor.

**Representations.**
- `double` is `real`.
- `uint` is `0 <= x < 2^32`.
- A `Guid` is an opaque value; each operation that creates a record takes the new id as a parameter.
- A date is its `DayNumber`.
- A `TimeSpan` is its count of ticks.
- "Today" is a parameter.
- Exceptions the source throws on bad input become either an `Err` result or a precondition:
  - The argument errors of the nutrition operators and `Convert`, and the `TimeSpan` overflow of the pantry filter, are `Err` results with the parameter name the source reports.
  - An index out of range is a precondition.

`Wrappers` (Option and Result), `Primitives` (the .NET value types) and `Lists` (the `List<T>` operations the classes delegate to) support the modules above.

## Model

| member | source | states |
|---|---|---|
| Primitives.AsInt32 | Pantree.Core/Cooking/Nutrition.cs:202-235 | the unchecked reinterpretation of a 32-bit unsigned value as `int` agrees with it modulo 2^32 |
| Primitives.Days | Pantree.Core/Inventory/Perishable.cs:41 | `TimeSpan.Days` is the whole-day part truncated toward zero: for a non-negative span, d days ≤ span < d+1 days; for a negative one, d−1 days < span ≤ d days ≤ 0 |
| Primitives.DaysOfWholeDays | Pantree.Core/Inventory/Perishable.cs:41 | a span of exactly n days (n of either sign) has `Days` n |
| Lists.FirstIndexOf | Pantree.Core/Inventory/Pantry.cs:94 | the result is −1 iff no element matches; otherwise the element at the result matches and none before it does |
| Lists.RemoveAt | Pantree.Core/Planning/PlannedDay.cs:119 | one element shorter; elements before the index stay, later ones shift one place left |
| Lists.InsertAt | Pantree.Core/Planning/PlannedDay.cs:106 | one element longer with `x` at the index; earlier elements stay, later ones shift one place right |
| Lists.RemoveFirst | Pantree.Core/Inventory/Pantry.cs:84 | reports true iff some element matches; then exactly the first match is removed, otherwise the list is unchanged |
| Lists.InsertRemoved | Pantree.Core/Planning/PlannedDay.cs:106-119 | inserting a removed element back at its index restores the list |
| CookingNutrition.Empty | Pantree.Core/Cooking/Nutrition.cs:66 | a new label has the given id and every nutrient absent |
| CookingNutrition.AddNullable | Pantree.Core/Cooking/Nutrition.cs:160-170 | absent iff both sides are absent; otherwise the sum with an absent side as 0, wrapped modulo 2^32 |
| CookingNutrition.Add | Pantree.Core/Cooking/Nutrition.cs:74-96 | absent + absent is absent; an absent side returns the other side unchanged (same id); two labels give a new label whose every nutrient is `AddNullable` of the operands' |
| CookingNutrition.ScaleField | Pantree.Core/Cooking/Nutrition.cs:116-125 | an absent nutrient stays absent; a present one becomes the product truncated toward zero (r ≤ v·c < r+1) |
| CookingNutrition.Scale | Pantree.Core/Cooking/Nutrition.cs:109-127 | fails with an argument error on `coefficient` iff the coefficient is negative; otherwise a new label, every nutrient scaled and truncated, absence kept |
| CookingNutrition.ScaleLeft | Pantree.Core/Cooking/Nutrition.cs:129 | `c * n` gives the same result as `n * c` |
| CookingNutrition.Divide | Pantree.Core/Cooking/Nutrition.cs:141-147 | fails with an argument error on `divisor` iff the divisor is ≤ 0 (zero included); otherwise it is scaling by 1/divisor |
| CookingNutrition.ScaleNullable | Pantree.Core/Cooking/Ingredient.cs:38 | an absent label scaled stays absent without any check; a present one fails or succeeds exactly as `Scale` |
| CookingNutrition.DivideNullable | Pantree.Core/Cooking/Recipe.cs:74 | an absent label divided stays absent without any check; a present one fails iff the divisor is ≤ 0, otherwise it is `Divide` |
| CookingNutrition.Present | Pantree.Core/Cooking/Recipe.cs:96-100 | the present labels of a nullable list: no more of them than entries, and a label is kept iff it occurs present in the list |
| CookingNutrition.Equals | Pantree.Core/Cooking/Nutrition.cs:185-197 | two labels are equal iff they are the same record once the id is ignored |
| CookingNutrition.EqualsNullable | Pantree.Core/Cooking/Nutrition.cs:173-197 | null equals only null; two labels are equal iff they are the same record once the id is ignored |
| CookingNutrition.HashCode | Pantree.Core/Cooking/Nutrition.cs:200-237 | the unchecked 32-bit hash starting from 37, times 397 and plus each present nutrient in turn; the id takes no part, and `EqualsHashCode` proves equal labels hash alike |
| CookingNutrition.HashCodeNullable | Pantree.Core/Cooking/Nutrition.cs:200-237 | 0 for null, otherwise the label's hash |
| CookingNutrition.Sum | Pantree.Core/Planning/Meal.cs:33-34 | the left fold of `+` from null; `SumAbsent` and `FoldFieldwise` give it meaning: null iff nothing is known, otherwise the per-nutrient totals modulo 2^32 |
| CookingNutrition.Aggregate | Pantree.Core/Cooking/Recipe.cs:103 | the seedless left fold of `+` over present labels; `SumSkipsAbsent` proves it equals the seeded fold |
| CookingNutrition.EqualsFieldwise | Pantree.Core/Cooking/Nutrition.cs:185-197 | two labels are equal iff they agree on exactly the ten nutrients |
| CookingNutrition.EqualsIgnoresId | Pantree.Core/Cooking/Nutrition.cs:185-197 | equality is record identity once the ids are aligned: the id never matters |
| CookingNutrition.EqualsHashCode | Pantree.Core/Cooking/Nutrition.cs:200-237 | equal labels have equal hash codes, whatever their ids |
| CookingNutrition.AddCommutes | Pantree.Core/Cooking/Nutrition.cs:74-96 | `a + b` and `b + a` are equal and hash alike, for present and absent operands |
| CookingNutrition.ScaleByZero | Pantree.Core/Cooking/Nutrition.cs:109-127 | scaling by 0 never fails, sets every present nutrient to 0 and keeps absent ones absent |
| CookingNutrition.ScaleByWholeNumber | Pantree.Core/Cooking/Nutrition.cs:116-125 | scaling by a whole number m multiplies every present nutrient by exactly m |
| CookingNutrition.ScaleFitsBelowOne | Pantree.Core/Cooking/Nutrition.cs:146 | scaling by a coefficient in [0, 1] always fits a `uint`, so dividing by a divisor ≥ 1 never overflows the cast |
| CookingNutrition.DivideUndoesScale | Pantree.Core/Cooking/Nutrition.cs:109-147 | dividing by a positive whole number m undoes scaling by m: the result equals the original label |
| CookingNutrition.ScaleTruncates | Pantree.Core/Cooking/Nutrition.cs:116-125 | 5 g of saturated fat scaled by 0.5 is 2, not 3: the cast truncates |
| CookingNutrition.SumAbsent | Pantree.Core/Planning/Meal.cs:33-34 | the fold of `+` from absent is absent iff every entry is absent |
| CookingNutrition.UnknownTotal | Pantree.Core/Planning/Meal.cs:33-34 | a nutrient no entry knows totals 0 |
| CookingNutrition.FoldFieldwise | Pantree.Core/Planning/Meal.cs:33-34 | over any list, field k of the fold of `+` from absent is absent iff no entry knows it, otherwise the known values' total modulo 2^32 |
| CookingNutrition.SumFieldwise | Pantree.Core/Planning/Meal.cs:33-34 | per nutrient, the fold is absent iff no entry knows the nutrient; otherwise it is the total of the known values modulo 2^32 |
| CookingNutrition.SumSkipsAbsent | Pantree.Core/Cooking/Recipe.cs:96-104 | the seeded fold from absent equals the seedless fold over the present labels, or absent when there are none |
| ModelsNutrition.AsLabel | Pantree.Core/Models/Nutrition.cs:11 | the legacy label's id is always the empty Guid |
| ModelsNutrition.Add | Pantree.Core/Models/Nutrition.cs:74-96 | absent + absent is absent, an absent side returns the other; two labels give per nutrient the `AddNullable` of the operands' |
| ModelsNutrition.Scale | Pantree.Core/Models/Nutrition.cs:108-126 | fails with an argument error on `coefficient` iff it is negative; otherwise every nutrient is scaled and truncated, absence kept |
| ModelsNutrition.ScaleLeft | Pantree.Core/Models/Nutrition.cs:128 | `c * n` gives the same result as `n * c` |
| ModelsNutrition.AddAgrees | Pantree.Core/Models/Nutrition.cs:74-96 | the legacy sum is the current sum, read as labels |
| ModelsNutrition.ScaleAgrees | Pantree.Core/Models/Nutrition.cs:108-126 | the legacy scaling fails exactly when the current one does and otherwise gives the same label |
| ModelsNutrition.EqualityIsFieldEquality | Pantree.Core/Models/Nutrition.cs:11 | with the id fixed, record equality is exactly agreement on the ten nutrients |
| ModelsNutrition.AddCommutes | Pantree.Core/Models/Nutrition.cs:74-96 | `a + b` and `b + a` are the same record |
| Measurements.NotEquals | Pantree.Core/Utilities/Measurement/Measurement.cs:100 | `!=` holds iff the other side is null, the units differ or the values are at least the default tolerance apart |
| Measurements.EqualsWithin | Pantree.Core/Utilities/Measurement/Measurement.cs:64-65 | equal iff the other is not null, the units match and the other value lies strictly within `tolerance` of this one |
| Measurements.Equals | Pantree.Core/Utilities/Measurement/Measurement.cs:52 | `EqualsWithin` with the default tolerance 1e-6; `Reflexive`, `Symmetric` and `NotTransitive` state its laws |
| Measurements.Multiply | Pantree.Core/Utilities/Measurement/Measurement.cs:108-109 | the value is multiplied and the unit kept |
| Measurements.MultiplyLeft | Pantree.Core/Utilities/Measurement/Measurement.cs:111-112 | `c * m` gives the same measurement as `m * c` |
| Measurements.Divide | Pantree.Core/Utilities/Measurement/Measurement.cs:120-121 | the unit is kept and the new value times the divisor is the old value |
| Measurements.Reflexive | Pantree.Core/Utilities/Measurement/Measurement.cs:64-65 | every measurement equals itself for any positive tolerance |
| Measurements.Symmetric | Pantree.Core/Utilities/Measurement/Measurement.cs:64-65 | equality does not depend on the order of the operands |
| Measurements.NotTransitive | Pantree.Core/Utilities/Measurement/Measurement.cs:52 | with the default tolerance, 0 = 0.0000006 = 0.0000012 but 0 ≠ 0.0000012 |
| Measurements.DifferentUnitsNeverEqual | Pantree.Core/Utilities/Measurement/Measurement.cs:64-65 | measurements in different units are never equal, whatever the values and tolerance |
| Measurements.DivideUndoesMultiply | Pantree.Core/Utilities/Measurement/Measurement.cs:108-121 | dividing by a nonzero coefficient undoes multiplying by it |
| UnitConverters.CoefficientInvertible | Pantree.Core/Utilities/Measurement/UnitConverter.cs:62-63 | a coefficient registration multiplies to the base unit and divides back, and the two undo each other |
| UnitConverters.UnitConverter.constructor | Pantree.Core/Utilities/Measurement/UnitConverter.cs:49-55 | a converter starts with its base unit and an empty registry |
| UnitConverters.UnitConverter.RegisterConversion | Pantree.Core/Utilities/Measurement/UnitConverter.cs:69-70 | only the unit's entry is inserted or overwritten; every other entry and the base unit are unchanged |
| UnitConverters.UnitConverter.RegisterCoefficient | Pantree.Core/Utilities/Measurement/UnitConverter.cs:62-63 | registers the multiply/divide pair for the unit |
| UnitConverters.Convert | Pantree.Core/Utilities/Measurement/UnitConverter.cs:82-103 | a measurement already in the desired unit is returned as is; otherwise an argument error on `measurement` when its unit is unregistered, then on `desiredUnit`; otherwise the value is the target's from-base function applied to the source's to-base function of the value (the base unit's own functions never applied), in the desired unit |
| UnitConverters.ConvertRoundTrip | Pantree.Core/Utilities/Measurement/UnitConverter.cs:82-103 | with invertible registrations, converting to any registered unit and back returns the original measurement |
| UnitConverters.ConvertFromBase | Pantree.Core/Utilities/Measurement/UnitConverter.cs:96-102 | from the base unit only the target's from-base function is applied |
| UnitConverters.ConvertToBase | Pantree.Core/Utilities/Measurement/UnitConverter.cs:96-102 | to the base unit only the source's to-base function is applied |
| UnitConverters.UnregisteredBaseFails | Pantree.Core/Utilities/Measurement/UnitConverter.cs:87-94 | the base unit must itself be registered to convert to or from it |
| UnitConverters.ConvertByCoefficients | Pantree.Core/Utilities/Measurement/UnitConverter.cs:82-103 | with coefficient registrations, the result is value × source coefficient ÷ target coefficient |
| FoodUnits.GramsPer | Pantree.Core/Cooking/FoodUnit.cs:49-60 | every registered coefficient is positive |
| FoodUnits.FoodConversions | Pantree.Core/Cooking/FoodUnit.cs:49-60 | every food unit is registered, by its coefficient |
| FoodUnits.RegistrationsAreTable | Pantree.Core/Cooking/FoodUnit.cs:49-60 | the eleven registrations in turn build exactly that table |
| FoodUnits.NewFoodUnitConverter | Pantree.Core/Cooking/FoodUnit.cs:45-61 | the configured converter has base unit Gram and exactly that table |
| FoodUnits.ConvertFood | Pantree.Core/Cooking/Ingredient.cs:36 | converting with the food converter never fails and yields the desired unit |
| FoodUnits.ConvertFoodValue | Pantree.Core/Cooking/FoodUnit.cs:45-61 | the converted value is the weight in grams divided by the grams in one of the desired unit |
| FoodUnits.ConvertFoodKeepsSign | Pantree.Core/Cooking/FoodUnit.cs:49-60 | a conversion keeps the value's sign, and zero stays zero |
| FoodUnits.AllUnitsRegistered | Pantree.Core/Cooking/FoodUnit.cs:49-60 | the food converter never reports an unregistered unit |
| FoodUnits.FoodRoundTrip | Pantree.Core/Cooking/FoodUnit.cs:45-61 | converting a quantity to any unit and back gives it back: exactly over reals, and so under the tolerant `==` the source's round-trip test uses |
| FoodUnits.OneToOneUnits | Pantree.Core/Cooking/FoodUnit.cs:49-55 | 1 Unit is 1 Gram and 1 Gram is 1 Milliliter |
| FoodUnits.CupIsEightFluidOunces | Pantree.Core/Cooking/FoodUnit.cs:59-60 | a cup converts to grams as exactly eight fluid ounces |
| FoodUnits.MetricConversions | Pantree.Core/Cooking/FoodUnit.cs:50-56 | 3 g is 3000 mg and 1 g is 0.001 l |
| FoodUnits.OunceConversions | Pantree.Core/Cooking/FoodUnit.cs:51-53 | 1 oz is 28349.5 mg, and 8 oz equals 0.5 lb within the default tolerance |
| FoodUnits.PoundIsNotSixteenOunces | Pantree.Core/Utilities/Measurement/Measurement.cs:64-65 | 16 oz and 1 lb are not equal measurements |
| Ingredients.IngredientEqualsReflexive | Pantree.Core/Cooking/Ingredient.cs:10-23 | every ingredient equals itself under the record's equality |
| Ingredients.IngredientEqualsSymmetric | Pantree.Core/Cooking/Ingredient.cs:10-23 | ingredient equality does not depend on the order of the operands |
| Ingredients.MeasurementFieldEquals | Pantree.Core/Cooking/Food.cs:34 | the record equality of a `Measurement?` field: null equals only null, otherwise tolerant measurement equality |
| Ingredients.FoodEquals | Pantree.Core/Cooking/Food.cs:15-34 | the record equality of foods: same id and name, equal nullable labels (ids ignored), equal nullable measurements |
| Ingredients.IngredientEquals | Pantree.Core/Cooking/Ingredient.cs:10-23 | the record equality of ingredients: same id, equal foods, tolerantly equal quantities; reflexive and symmetric by the two lemmas |
| Ingredients.LabelRatio | Pantree.Core/Cooking/Ingredient.cs:35-36 | the ratio times the labelled value is the quantity converted to the label's unit |
| Ingredients.NutritionOf | Pantree.Core/Cooking/Ingredient.cs:28-40 | absent without a label or labelled measurement; otherwise the label scaled by the converted quantity over the labelled value (new id, absence kept, truncated), failing on `coefficient` iff that ratio is negative |
| Ingredients.NutritionsOf | Pantree.Core/Cooking/Recipe.cs:96-97 | the getter of each ingredient in order; fails iff some getter fails |
| Ingredients.UnlabelledHasNoNutrition | Pantree.Core/Cooking/Ingredient.cs:32-33 | without a label or a labelled measurement the nutrition is absent |
| Ingredients.QuantityAtLabel | Pantree.Core/Cooking/Ingredient.cs:35-38 | a quantity equal to the labelled measurement has exactly the label's nutrition |
| Ingredients.WholeMultipleOfLabel | Pantree.Core/Cooking/Ingredient.cs:35-38 | m labelled measurements multiply every present nutrient by m, e.g. double the quantity doubles them |
| Ingredients.NegativeQuantityFails | Pantree.Core/Cooking/Ingredient.cs:38 | with a positive labelled value, a negative quantity fails with the negative-coefficient error |
| Recipes.NewRecipe | Pantree.Core/Cooking/Recipe.cs:81-84 | a new recipe has the given (or default "New Recipe") name, one serving, no ingredients and no times |
| Recipes.TotalTime | Pantree.Core/Cooking/Recipe.cs:56-58 | absent iff both times are absent; otherwise their sum with a missing part as zero |
| Recipes.TotalNutrition | Pantree.Core/Cooking/Recipe.cs:91-105 | absent for no ingredients; fails iff a getter fails; otherwise the fold of `+` over the ingredients' nutrition, absent iff no ingredient has any |
| Recipes.NutritionPerServing | Pantree.Core/Cooking/Recipe.cs:73-75 | absent iff the total is absent; with a total, fails on `divisor` iff `Servings` is 0, otherwise the total scaled by 1/`Servings` |
| Recipes.NewRecipeIsEmpty | Pantree.Core/Cooking/Recipe.cs:81-84 | a new recipe has no total time, no total and no per-serving nutrition |
| Recipes.TotalTimeOfOnePart | Pantree.Core/Cooking/Recipe.cs:56-58 | with only one time given, the total time is that time |
| Recipes.OneServing | Pantree.Core/Cooking/Recipe.cs:73-75 | with one serving, the per-serving nutrition equals the total |
| Recipes.TotalNutritionFieldwise | Pantree.Core/Cooking/Recipe.cs:96-103 | per nutrient the total is absent iff no ingredient knows it, otherwise the known values' total modulo 2^32 |
| Meals.PlannedNutritionOf | Pantree.Core/Planning/Meal.cs:33-34 | fails iff some food's getter fails; otherwise per nutrient absent iff no food knows it, else the known values' total modulo 2^32 (the all-absent label when nothing is known) |
| Meals.Meal.constructor | Pantree.Core/Planning/Meal.cs:42-48 | stores the name, the goal and the initial foods in order |
| Meals.Meal.PlannedNutrition | Pantree.Core/Planning/Meal.cs:33-34 | the meal's planned nutrition is the fold over its foods |
| Meals.Meal.AddRecipe | Pantree.Core/Planning/Meal.cs:54 | the recipe's ingredients are appended in order; name and goal unchanged |
| Meals.Meal.AddFood | Pantree.Core/Planning/Meal.cs:60 | the food is appended; name and goal unchanged |
| Meals.Meal.RemoveFood | Pantree.Core/Planning/Meal.cs:67 | true iff some food is equal; then the first equal food is removed, otherwise nothing changes |
| Meals.Meal.Clone | Pantree.Core/Planning/Meal.cs:78-84 | a new meal with the same name, goal and foods, equal to the original |
| Meals.Meal.Equals | Pantree.Core/Planning/Meal.cs:90-100 | true iff the other meal is not null, has as many foods, the same name and goal, and pairwise equal foods |
| Meals.MealEquals | Pantree.Core/Planning/Meal.cs:90-100 | the specification of `Meal.Equals`: same food count, name and goal, and foods pairwise equal |
| Meals.SameFoodsEqual | Pantree.Core/Planning/Meal.cs:90-100 | meals with the same name, goal and foods are equal; every meal equals itself |
| Meals.MealEqualsSymmetric | Pantree.Core/Planning/Meal.cs:90-100 | meal equality does not depend on the order of the operands |
| Meals.RemoveAfterAdd | Pantree.Core/Planning/Meal.cs:60-67 | removing a food just added to a list with no equal food gives the list back |
| Meals.NothingKnownPlansEmpty | Pantree.Core/Planning/Meal.cs:33-34 | a meal whose foods have no label plans the all-absent label |
| PlannedDays.GoalTotal | Pantree.Core/Planning/PlannedDay.cs:25 | the sum of the meals' goals before the `uint` conversion; `GoalTotalAppend` and `GoalTotalOfSameGoals` state how it grows and what it depends on |
| PlannedDays.DayEquals | Pantree.Core/Planning/PlannedDay.cs:143-154 | the specification of `PlannedDay.Equals`: same meal count and goal total, and meals pairwise equal |
| PlannedDays.AllFoods | Pantree.Core/Planning/PlannedDay.cs:31 | every food of every meal, meal by meal: a single meal gives its foods, and `AllFoodsAppend` proves the foods of joined lists are the joined foods |
| PlannedDays.IndexOfMeal | Pantree.Core/Planning/PlannedDay.cs:99 | −1 iff no meal is equal; otherwise the meal there is equal and none before it is |
| PlannedDays.PlannedDay.constructor | Pantree.Core/Planning/PlannedDay.cs:38-42 | stores the initial meals in order |
| PlannedDays.PlannedDay.CalorieGoal | Pantree.Core/Planning/PlannedDay.cs:25 | the sum of the meals' goals, when it fits a `uint` |
| PlannedDays.PlannedDay.PlannedNutrition | Pantree.Core/Planning/PlannedDay.cs:30-32 | the fold over every food of every meal in order |
| PlannedDays.PlannedDay.Get | Pantree.Core/Planning/PlannedDay.cs:53 | the meal at the index |
| PlannedDays.PlannedDay.Set | Pantree.Core/Planning/PlannedDay.cs:54 | only the meal at the index is replaced |
| PlannedDays.PlannedDay.Count | Pantree.Core/Planning/PlannedDay.cs:58 | the number of meals |
| PlannedDays.PlannedDay.Add | Pantree.Core/Planning/PlannedDay.cs:67 | the meal is appended |
| PlannedDays.PlannedDay.AddRange | Pantree.Core/Planning/PlannedDay.cs:73 | the meals are appended in order |
| PlannedDays.PlannedDay.Clear | Pantree.Core/Planning/PlannedDay.cs:78 | no meal is left |
| PlannedDays.PlannedDay.Contains | Pantree.Core/Planning/PlannedDay.cs:85 | true iff some meal is equal to the argument |
| PlannedDays.PlannedDay.IndexOf | Pantree.Core/Planning/PlannedDay.cs:99 | the first index of an equal meal, or −1 |
| PlannedDays.PlannedDay.CopyTo | Pantree.Core/Planning/PlannedDay.cs:92 | the meals land in the array from the start index on; every other slot is unchanged |
| PlannedDays.PlannedDay.Insert | Pantree.Core/Planning/PlannedDay.cs:106 | the meal lands at the index and later meals shift right |
| PlannedDays.PlannedDay.Remove | Pantree.Core/Planning/PlannedDay.cs:113 | true iff some meal is equal; then the first equal meal is removed, otherwise nothing changes |
| PlannedDays.PlannedDay.RemoveAt | Pantree.Core/Planning/PlannedDay.cs:119 | the meal at the index goes and later meals shift left |
| PlannedDays.PlannedDay.Clone | Pantree.Core/Planning/PlannedDay.cs:131-137 | a new day of new, pairwise distinct meals with their originals' names, goals and foods, equal to the original day |
| PlannedDays.PlannedDay.Equals | Pantree.Core/Planning/PlannedDay.cs:143-153 | true iff the other day is not null, has as many meals, the same total goal and pairwise equal meals |
| PlannedDays.GoalTotalOfSameGoals | Pantree.Core/Planning/PlannedDay.cs:25 | meal lists whose goals agree one by one have the same total goal |
| PlannedDays.ClonesEqual | Pantree.Core/Planning/PlannedDay.cs:131-153 | a day of meals copying another day's meals equals that day |
| PlannedDays.GoalTotalAppend | Pantree.Core/Planning/PlannedDay.cs:25 | appending a meal adds its goal to the total |
| PlannedDays.AllFoodsAppend | Pantree.Core/Planning/PlannedDay.cs:30-32 | the foods of joined meal lists are the foods of each list, in order |
| PlannedDays.OneMealDay | Pantree.Core/Planning/PlannedDay.cs:30-32 | a day of one meal plans exactly that meal's nutrition |
| PlannedDays.RemoveThenInsert | Pantree.Core/Planning/PlannedDay.cs:106-119 | a removed meal inserted back at its index restores the day |
| MealPlans.DayOfWeekOf | Pantree.Core/Planning/MealPlan.cs:76 | a day number divisible by 7 falls on a Monday |
| MealPlans.Week | Pantree.Core/Planning/MealPlan.cs:74-78 | seven weekdays starting with the start weekday, counting up modulo 7; `WeekHasEveryDayOnce` proves it holds every weekday exactly once |
| MealPlans.MealPlan.constructor | Pantree.Core/Planning/MealPlan.cs:16-39 | stores the start date; every weekday has its own new, empty planned day |
| MealPlans.MealPlan.FromTemplate | Pantree.Core/Planning/MealPlan.cs:49-53 | stores the start date; every weekday has its own new day of new, distinct clones of the template's meals |
| MealPlans.MealPlan.Get | Pantree.Core/Planning/MealPlan.cs:59 | the planned day of the weekday |
| MealPlans.MealPlan.OrderedDays | Pantree.Core/Planning/MealPlan.cs:69-79 | seven pairs, the i-th being weekday (start weekday + i) mod 7 and the very day the indexer returns for it |
| MealPlans.CloneWeek | Pantree.Core/Planning/MealPlan.cs:51-52 | every weekday gets a new clone of the template, no two weekdays share one, and each equals the template |
| MealPlans.ReplaceByClone | Pantree.Core/Planning/MealPlan.cs:52 | only the weekday's entry changes, to a new clone of the template |
| MealPlans.NewWeek | Pantree.Core/Planning/MealPlan.cs:16-25 | seven new, empty, distinct planned days, one per weekday |
| MealPlans.WeekHasEveryDayOnce | Pantree.Core/Planning/MealPlan.cs:74-78 | the week begins on its start weekday and holds every weekday exactly once |
| MealPlans.WeekdaysCycle | Pantree.Core/Planning/MealPlan.cs:76 | weekdays repeat every seven days and the next date falls on the next weekday |
| MealPlans.MondayStart | Pantree.Core/Planning/MealPlan.cs:74-78 | a plan starting on a Monday lists Monday first and Sunday last |
| Perishables.FromShelfLife | Pantree.Core/Inventory/Perishable.cs:37-42 | stores the id, ingredient and purchase date; the expiry is the purchase date plus the shelf life's whole days, toward zero |
| Perishables.FromExpiration | Pantree.Core/Inventory/Perishable.cs:55-64 | stores the id, ingredient and purchase date; the expiry is the given date, moved by the extension's whole days when one is given |
| Perishables.PerishableEquals | Pantree.Core/Inventory/Perishable.cs:10-28 | the record equality: same id and dates, equal ingredients; reflexive by `PerishableEqualsReflexive` |
| Perishables.PerishableEqualsReflexive | Pantree.Core/Inventory/Perishable.cs:10-28 | every item equals itself under the record's equality |
| Perishables.WholeDaysShelfLife | Pantree.Core/Inventory/Perishable.cs:41 | a shelf life of n whole days expires n days after the purchase |
| Perishables.HalfDayShelfLife | Pantree.Core/Inventory/Perishable.cs:41 | a half-day shelf life expires on the purchase date |
| Perishables.NegativeExtension | Pantree.Core/Inventory/Perishable.cs:61-63 | an extension of minus a day and a half moves the expiry one day earlier |
| Perishables.ConstructorsAgree | Pantree.Core/Inventory/Perishable.cs:37-64 | a shelf life from the purchase date equals that date extended by the shelf life, or the computed expiry without extension |
| Pantries.ExpiringBy | Pantree.Core/Inventory/Pantry.cs:41 | the result is no longer than the pantry and holds exactly the items with expiry − today ≤ threshold; `ExpiringByAppend` proves it keeps pantry order |
| Pantries.Pantry.constructor | Pantree.Core/Inventory/Pantry.cs:27-31 | stores the id and the initial contents in order |
| Pantries.Pantry.Count | Pantree.Core/Inventory/Pantry.cs:62 | the number of items |
| Pantries.Pantry.Add | Pantree.Core/Inventory/Pantry.cs:71 | the item is appended |
| Pantries.Pantry.AddRange | Pantree.Core/Inventory/Pantry.cs:77 | the items are appended in order |
| Pantries.Pantry.Remove | Pantree.Core/Inventory/Pantry.cs:84 | true iff some item is equal; then the first equal item is removed, otherwise nothing changes |
| Pantries.Pantry.Clear | Pantree.Core/Inventory/Pantry.cs:87 | no item is left |
| Pantries.Pantry.Contains | Pantree.Core/Inventory/Pantry.cs:94 | true iff some item is equal to the argument |
| Pantries.Pantry.CopyTo | Pantree.Core/Inventory/Pantry.cs:101 | the items land in the array from the start index on; every other slot is unchanged |
| Pantries.Pantry.ItemsExpiringSoon | Pantree.Core/Inventory/Pantry.cs:38-42 | the items expiring at most the threshold (default 3) days after today, in pantry order |
| Pantries.Pantry.ItemsExpiringWithin | Pantree.Core/Inventory/Pantry.cs:46-47 | fails with an overflow iff the span's whole days are negative or do not fit a `uint`; otherwise the filter with that many days |
| Pantries.Pantry.ExpiredItems | Pantree.Core/Inventory/Pantry.cs:56 | the filter with threshold 0: exactly the items expiring today or earlier |
| Pantries.ExpiringByAppend | Pantree.Core/Inventory/Pantry.cs:41 | the filter keeps pantry order: filtering two runs is filtering each in turn |
| Pantries.ThresholdMonotone | Pantree.Core/Inventory/Pantry.cs:38-42 | raising the threshold never drops an item: the small-threshold result is the large-threshold result filtered again |
| Pantries.ExpiredIsExpiringSoon | Pantree.Core/Inventory/Pantry.cs:56 | every expired item is also expiring soon, for any threshold |
| Pantries.RemoveAfterAdd | Pantree.Core/Inventory/Pantry.cs:71-84 | removing an item just added to a pantry with no equal item gives the old list back |

## Left out

**Arithmetic and numbers**
- IEEE-754 arithmetic: `double` is `real`, so there is no rounding, NaN or infinity.
  - A zero labelled value in `Ingredient.Nutrition` would divide by zero, so it is excluded.
  - So are a zero coefficient in `RegisterConversion` and a zero divisor in `Measurement /`.
  - Round-trip and whole-multiple lemmas are stated exactly; they hold of the real-number model, not of IEEE doubles.
- CookingNutrition.DivideUndoesScale: holds of the real-number model only. In doubles `49 * (1.0 / 49)` is 0.9999999999999999, and the truncating `(uint?)` cast turns that into 0, so a 49-serving recipe totalling 49 kcal gives 0 kcal per serving in the program and 1 in the model.
- Ingredients.WholeMultipleOfLabel: holds of the real-number model only. With a labelled value of 0.7 and a quantity of three labels, the double ratio is 2.9999999999999996 and the cast truncates a 1 kcal label to 2 kcal, not 3.
- FoodUnits.FoodRoundTrip: the exact equality holds of the real-number model only. In doubles 3 oz comes back as 2.9999999999999996 oz, which the source accepts only through the tolerant `==`, also stated.
- CookingNutrition.Scale: requires every product to fit a `uint`. The C# cast of an out-of-range `double` is unspecified, so it is not modelled. `Ingredients.NutritionOf` and `Recipes.NutritionPerServing` carry the same condition: `NutritionDefined` for the first, and for the second it is proved to hold.
- PlannedDays.PlannedDay.CalorieGoal: requires the sum to fit a `uint`, because `Convert.ToUInt32` throws an overflow otherwise. `PlannedDays.PlannedDay.Equals` carries the same condition where it computes the goals.
- `uint` addition in `AddNullable` is unchecked in the source and wraps silently, so it is modelled as wrap-around modulo 2^32 rather than excluded by a precondition. The fold lemmas therefore state totals modulo 2^32.

**Ids, dates and times**
- `Guid.NewGuid()`: every created record takes its id as a parameter. Within one fold, every record the fold creates gets the same id. Those intermediate records are never observable, and label equality ignores ids.
- `DateTime.Today` is a parameter.
- `DateOnly` is its day number; the range checks of `DateOnly.AddDays` are not modelled.
- `TimeSpan` is its tick count; the range checks of `TimeSpan` arithmetic are not modelled.
- The weekday of a day number is `(n + 1) mod 7`, because day 0 is a Monday.

**Hashing and text**
- `Measurement.GetHashCode` and `ToString`: hashing of `double`s and enums and number formatting are .NET internals.

**Registry and collections**
- The static registry of `UnitConverter` and the static constructor of `FoodUnitConverter`: there are no static fields, initialization order or thread safety. The converter is an explicit object, built by `FoodUnits.NewFoodUnitConverter`, and `Convert` is a function of its registry and base unit.
  - `Convert` returns the same measurement object on its fast path. Measurements are values here, so aliasing is not modelled.
- Enumerators, `IEnumerable` and `IsReadOnly`: only the order of the yielded elements is modelled. A lazy `Where` filter is evaluated when it is called, not when it is enumerated.
- `Meal.Foods` and `Pantry.Items` as read-only views: the model reads the list field directly.
- Null elements in the meal and pantry lists are not modelled; a `Meal?` argument may be null where the source accepts one.
- Index and argument exceptions of `List<T>` (indexer, `Insert`, `RemoveAt`, `CopyTo`) are preconditions.
- MealPlans.MealPlan.FromTemplate: does not state in its own contract that each day equals the template, nor that no meal object is shared between two weekdays. The loop lives in `MealPlans.CloneWeek`, which ensures the equality (through `PlannedDays.ClonesEqual`). Sharing across weekdays is not stated.
- The overwriting of dictionary entries while enumerating its keys in the template constructor is modelled as the loop over the seven weekdays.

**Other parts of the library**
- The interfaces `ICloneable` and `Identifiable` have no behaviour.
- The two `Food` constructors and the `Ingredient` and `Measurement` constructors are the datatypes' own constructors.
- `Recipe.Description` and `Recipe.Instructions` are plain storage.
- The summary doc comment of `Nutrition * double` speaks of rounding, but the cast truncates. The model follows the code, and `CookingNutrition.ScaleTruncates` pins this down.
