/**
 * Pantree.Core.Models.Nutrition: the older copy of the nutrition label. Its `Id` is initialised
 * with `new()` and never set, so every record carries the empty Guid; it has no division and no
 * hand-written equality, so the compiler-generated record equality compares every field.
 */
module ModelsNutrition {
  import opened Wrappers
  import opened Primitives
  import C = CookingNutrition

  datatype Nutrition = Nutrition(
    calories: Option<UInt32>,
    totalFat: Option<UInt32>,
    saturatedFat: Option<UInt32>,
    transFat: Option<UInt32>,
    cholesterol: Option<UInt32>,
    sodium: Option<UInt32>,
    carbohydrates: Option<UInt32>,
    fiber: Option<UInt32>,
    sugar: Option<UInt32>,
    protein: Option<UInt32>)
  {
    /** `Id`: always the default (empty) Guid. */
    const id: Guid := EmptyGuid
  }

  /** The same label as a record of the current nutrition type, with the legacy (empty) id. */
  function AsLabel(n: Nutrition): (r: C.Nutrition)
    ensures r.id == EmptyGuid
  {
    C.Nutrition(n.id, n.calories, n.totalFat, n.saturatedFat, n.transFat, n.cholesterol,
                n.sodium, n.carbohydrates, n.fiber, n.sugar, n.protein)
  }

  /** `operator +(Nutrition?, Nutrition?)`, with the private `AddNullable` on every field. */
  function Add(lhs: Option<Nutrition>, rhs: Option<Nutrition>): (r: Option<Nutrition>)
    ensures lhs.None? && rhs.None? ==> r.None?
    ensures lhs.None? ==> r == rhs
    ensures rhs.None? ==> r == lhs
    ensures lhs.Some? && rhs.Some? ==>
      && r.Some?
      && forall k :: C.Get(AsLabel(r.value), k) == C.AddNullable(C.Get(AsLabel(lhs.value), k), C.Get(AsLabel(rhs.value), k))
  {
    if lhs.None? && rhs.None? then None
    else if lhs.None? then rhs
    else if rhs.None? then lhs
    else
      var a, b := lhs.value, rhs.value;
      Some(Nutrition(
        C.AddNullable(a.calories, b.calories),
        C.AddNullable(a.totalFat, b.totalFat),
        C.AddNullable(a.saturatedFat, b.saturatedFat),
        C.AddNullable(a.transFat, b.transFat),
        C.AddNullable(a.cholesterol, b.cholesterol),
        C.AddNullable(a.sodium, b.sodium),
        C.AddNullable(a.carbohydrates, b.carbohydrates),
        C.AddNullable(a.fiber, b.fiber),
        C.AddNullable(a.sugar, b.sugar),
        C.AddNullable(a.protein, b.protein)))
  }

  /** `operator *(Nutrition, double)`: a negative coefficient throws; otherwise every field is truncated. */
  function Scale(n: Nutrition, coefficient: real): (r: Result<Nutrition>)
    requires coefficient < 0.0 || C.ScaleFits(AsLabel(n), coefficient)
    ensures r.Err? <==> coefficient < 0.0
    ensures r.Err? ==> r.error == ArgumentError("coefficient")
    ensures r.Ok? ==> C.ScaledFrom(AsLabel(r.value), AsLabel(n), coefficient)
  {
    if coefficient < 0.0 then Err(ArgumentError("coefficient"))
    else
      var r := Nutrition(
        C.ScaleField(n.calories, coefficient),
        C.ScaleField(n.totalFat, coefficient),
        C.ScaleField(n.saturatedFat, coefficient),
        C.ScaleField(n.transFat, coefficient),
        C.ScaleField(n.cholesterol, coefficient),
        C.ScaleField(n.sodium, coefficient),
        C.ScaleField(n.carbohydrates, coefficient),
        C.ScaleField(n.fiber, coefficient),
        C.ScaleField(n.sugar, coefficient),
        C.ScaleField(n.protein, coefficient));
      C.ScaledFieldByField(AsLabel(r), AsLabel(n), coefficient);
      Ok(r)
  }

  /** `operator *(double, Nutrition)`, defined as the other operand order. */
  function ScaleLeft(coefficient: real, n: Nutrition): (r: Result<Nutrition>)
    requires coefficient < 0.0 || C.ScaleFits(AsLabel(n), coefficient)
    ensures r == Scale(n, coefficient)
  {
    Scale(n, coefficient)
  }

  // ---------------------------------------------------------------------------------------------
  // Properties

  /** The legacy sum is the current sum, once both are read as labels. */
  lemma AddAgrees(lhs: Option<Nutrition>, rhs: Option<Nutrition>)
    ensures var r := Add(lhs, rhs);
      var labels := C.Add(if lhs.Some? then Some(AsLabel(lhs.value)) else None,
                          if rhs.Some? then Some(AsLabel(rhs.value)) else None, EmptyGuid);
      r.None? == labels.None? && (r.Some? ==> AsLabel(r.value) == labels.value)
  {
  }

  /** The legacy scaling is the current scaling, once both are read as labels. */
  lemma ScaleAgrees(n: Nutrition, coefficient: real)
    requires coefficient < 0.0 || C.ScaleFits(AsLabel(n), coefficient)
    ensures Scale(n, coefficient).Err? == C.Scale(AsLabel(n), coefficient, EmptyGuid).Err?
    ensures Scale(n, coefficient).Ok? ==>
      AsLabel(Scale(n, coefficient).value) == C.Scale(AsLabel(n), coefficient, EmptyGuid).value
  {
  }

  /** With the id fixed to the empty Guid, record equality is exactly equality of the ten fields. */
  lemma {:induction false} EqualityIsFieldEquality(a: Nutrition, b: Nutrition)
    ensures a == b <==> C.Equals(AsLabel(a), AsLabel(b))
  {
    assert a.id == b.id;
    if C.Equals(AsLabel(a), AsLabel(b)) {
      assert AsLabel(a) == AsLabel(b);
    }
  }

  /** Sums in either order are equal records. */
  lemma AddCommutes(a: Option<Nutrition>, b: Option<Nutrition>)
    ensures Add(a, b) == Add(b, a)
  {
    if a.Some? && b.Some? {
      AddAgrees(a, b);
      AddAgrees(b, a);
      C.AddCommutes(Some(AsLabel(a.value)), Some(AsLabel(b.value)), EmptyGuid, EmptyGuid);
      EqualityIsFieldEquality(Add(a, b).value, Add(b, a).value);
    }
  }
}
