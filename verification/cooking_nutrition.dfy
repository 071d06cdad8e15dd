/**
 * Pantree.Core.Cooking.Nutrition: a nutrition label with ten optional `uint` fields, where an absent
 * field means "unknown" (not zero), and the arithmetic the rest of the system performs on it.
 */
module CookingNutrition {
  import opened Wrappers
  import opened Primitives

  /** The ten fields of a label, used to state field-by-field properties once. */
  datatype Nutrient =
    | Calories | TotalFat | SaturatedFat | TransFat | Cholesterol
    | Sodium | Carbohydrates | Fiber | Sugar | Protein

  datatype Nutrition = Nutrition(
    id: Guid,
    calories: Option<UInt32>,
    totalFat: Option<UInt32>,
    saturatedFat: Option<UInt32>,
    transFat: Option<UInt32>,
    cholesterol: Option<UInt32>,
    sodium: Option<UInt32>,
    carbohydrates: Option<UInt32>,
    fiber: Option<UInt32>,
    sugar: Option<UInt32>,
    protein: Option<UInt32>)

  /** The value of one field. */
  function Get(n: Nutrition, k: Nutrient): Option<UInt32> {
    match k
    case Calories => n.calories
    case TotalFat => n.totalFat
    case SaturatedFat => n.saturatedFat
    case TransFat => n.transFat
    case Cholesterol => n.cholesterol
    case Sodium => n.sodium
    case Carbohydrates => n.carbohydrates
    case Fiber => n.fiber
    case Sugar => n.sugar
    case Protein => n.protein
  }

  /** `new Nutrition()`: a newId id and every field unknown. */
  function Empty(newId: Guid): (n: Nutrition)
    ensures n.id == newId
    ensures forall k :: Get(n, k).None?
  {
    Nutrition(newId, None, None, None, None, None, None, None, None, None, None)
  }

  /** Add two nullable `uint`s, treating null as 0 unless both are null; `uint` addition wraps. */
  function AddNullable(lhs: Option<UInt32>, rhs: Option<UInt32>): (r: Option<UInt32>)
    ensures r.None? <==> lhs.None? && rhs.None?
    ensures r.Some? ==> r.value == (lhs.GetOr(0) + rhs.GetOr(0)) % UINT32_MODULUS
  {
    if lhs.None? && rhs.None? then None
    else if lhs.None? then rhs
    else if rhs.None? then lhs
    else Some((lhs.value + rhs.value) % UINT32_MODULUS)
  }

  /** `operator +(Nutrition?, Nutrition?)`: a new record (id `newId`) when both sides are present. */
  function Add(lhs: Option<Nutrition>, rhs: Option<Nutrition>, newId: Guid): (r: Option<Nutrition>)
    ensures lhs.None? && rhs.None? ==> r.None?
    ensures lhs.None? ==> r == rhs
    ensures rhs.None? ==> r == lhs
    ensures lhs.Some? && rhs.Some? ==>
      && r.Some? && r.value.id == newId
      && forall k :: Get(r.value, k) == AddNullable(Get(lhs.value, k), Get(rhs.value, k))
  {
    if lhs.None? && rhs.None? then None
    else if lhs.None? then rhs
    else if rhs.None? then lhs
    else
      var a, b := lhs.value, rhs.value;
      Some(Nutrition(
        newId,
        AddNullable(a.calories, b.calories),
        AddNullable(a.totalFat, b.totalFat),
        AddNullable(a.saturatedFat, b.saturatedFat),
        AddNullable(a.transFat, b.transFat),
        AddNullable(a.cholesterol, b.cholesterol),
        AddNullable(a.sodium, b.sodium),
        AddNullable(a.carbohydrates, b.carbohydrates),
        AddNullable(a.fiber, b.fiber),
        AddNullable(a.sugar, b.sugar),
        AddNullable(a.protein, b.protein)))
  }

  /** The `(uint?)` cast of `field * c` is defined: `c` is non-negative and the product fits. */
  predicate FieldScaleFits(f: Option<UInt32>, c: real) {
    0.0 <= c && (f.Some? ==> (f.value as real * c).Floor < UINT32_MODULUS)
  }

  predicate ScaleFits(n: Nutrition, c: real) {
    && FieldScaleFits(n.calories, c) && FieldScaleFits(n.totalFat, c) && FieldScaleFits(n.saturatedFat, c)
    && FieldScaleFits(n.transFat, c) && FieldScaleFits(n.cholesterol, c) && FieldScaleFits(n.sodium, c)
    && FieldScaleFits(n.carbohydrates, c) && FieldScaleFits(n.fiber, c) && FieldScaleFits(n.sugar, c)
    && FieldScaleFits(n.protein, c)
  }

  /** `(uint?)(field * c)`: null stays null, a value is multiplied and truncated toward zero. */
  function ScaleField(f: Option<UInt32>, c: real): (r: Option<UInt32>)
    requires FieldScaleFits(f, c)
    ensures r.None? <==> f.None?
    ensures r.Some? ==> r.value == (f.value as real * c).Floor
    ensures r.Some? ==> r.value as real <= f.value as real * c < r.value as real + 1.0
  {
    if f.None? then None else Some((f.value as real * c).Floor)
  }

  /** Every field of `r` is the matching field of `n` times `c`, truncated; unknown stays unknown. */
  predicate ScaledFrom(r: Nutrition, n: Nutrition, c: real) {
    forall k ::
      && (Get(r, k).None? <==> Get(n, k).None?)
      && (Get(n, k).Some? ==> Get(r, k).value == (Get(n, k).value as real * c).Floor)
  }

  /** `operator *(Nutrition, double)`: a negative coefficient throws; otherwise scale every field. */
  function Scale(n: Nutrition, coefficient: real, newId: Guid): (r: Result<Nutrition>)
    requires coefficient < 0.0 || ScaleFits(n, coefficient)
    ensures r.Err? <==> coefficient < 0.0
    ensures r.Err? ==> r.error == ArgumentError("coefficient")
    ensures r.Ok? ==> r.value.id == newId && ScaledFrom(r.value, n, coefficient)
  {
    if coefficient < 0.0 then Err(ArgumentError("coefficient"))
    else
      var r := Nutrition(
        newId,
        ScaleField(n.calories, coefficient),
        ScaleField(n.totalFat, coefficient),
        ScaleField(n.saturatedFat, coefficient),
        ScaleField(n.transFat, coefficient),
        ScaleField(n.cholesterol, coefficient),
        ScaleField(n.sodium, coefficient),
        ScaleField(n.carbohydrates, coefficient),
        ScaleField(n.fiber, coefficient),
        ScaleField(n.sugar, coefficient),
        ScaleField(n.protein, coefficient));
      ScaledFieldByField(r, n, coefficient);
      Ok(r)
  }

  lemma ScaledFieldByField(r: Nutrition, n: Nutrition, c: real)
    requires ScaleFits(n, c)
    requires r.calories == ScaleField(n.calories, c) && r.totalFat == ScaleField(n.totalFat, c)
    requires r.saturatedFat == ScaleField(n.saturatedFat, c) && r.transFat == ScaleField(n.transFat, c)
    requires r.cholesterol == ScaleField(n.cholesterol, c) && r.sodium == ScaleField(n.sodium, c)
    requires r.carbohydrates == ScaleField(n.carbohydrates, c) && r.fiber == ScaleField(n.fiber, c)
    requires r.sugar == ScaleField(n.sugar, c) && r.protein == ScaleField(n.protein, c)
    ensures ScaledFrom(r, n, c)
  {
    forall k ensures (Get(r, k).None? <==> Get(n, k).None?)
      && (Get(n, k).Some? ==> Get(r, k).value == (Get(n, k).value as real * c).Floor)
    {
      assert Get(r, k) == ScaleField(Get(n, k), c) by { match k { case _ => } }
    }
  }

  /** `operator *(double, Nutrition)`, defined as the other operand order. */
  function ScaleLeft(coefficient: real, n: Nutrition, newId: Guid): (r: Result<Nutrition>)
    requires coefficient < 0.0 || ScaleFits(n, coefficient)
    ensures r == Scale(n, coefficient, newId)
  {
    Scale(n, coefficient, newId)
  }

  /** `operator /(Nutrition, double)`: a divisor that is not strictly positive throws. */
  function Divide(n: Nutrition, divisor: real, newId: Guid): (r: Result<Nutrition>)
    requires divisor <= 0.0 || ScaleFits(n, 1.0 / divisor)
    ensures r.Err? <==> divisor <= 0.0
    ensures r.Err? ==> r.error == ArgumentError("divisor")
    ensures 0.0 < divisor ==> r == Scale(n, 1.0 / divisor, newId)
  {
    if divisor <= 0.0 then Err(ArgumentError("divisor"))
    else Scale(n, 1.0 / divisor, newId)
  }

  /** The C# lifted `Nutrition? * double`: a null operand gives null without checking the coefficient. */
  function ScaleNullable(n: Option<Nutrition>, coefficient: real, newId: Guid): (r: Result<Option<Nutrition>>)
    requires n.Some? ==> coefficient < 0.0 || ScaleFits(n.value, coefficient)
    ensures n.None? ==> r == Ok(None)
    ensures n.Some? ==> r.Err? == Scale(n.value, coefficient, newId).Err?
    ensures n.Some? && r.Ok? ==> r.value == Some(Scale(n.value, coefficient, newId).value)
  {
    match n
    case None => Ok(None)
    case Some(x) =>
      var y :- Scale(x, coefficient, newId);
      Ok(Some(y))
  }

  /** The C# lifted `Nutrition? / double`. */
  function DivideNullable(n: Option<Nutrition>, divisor: real, newId: Guid): (r: Result<Option<Nutrition>>)
    requires n.Some? ==> divisor <= 0.0 || ScaleFits(n.value, 1.0 / divisor)
    ensures n.None? ==> r == Ok(None)
    ensures n.Some? ==> (r.Err? <==> divisor <= 0.0)
    ensures n.Some? && r.Ok? ==> r.value == Some(Divide(n.value, divisor, newId).value)
  {
    match n
    case None => Ok(None)
    case Some(x) =>
      var y :- Divide(x, divisor, newId);
      Ok(Some(y))
  }

  /** `Equals(Nutrition)`: the ten fields, and never the id. */
  predicate Equals(a: Nutrition, b: Nutrition): (r: bool)
    ensures r <==> a.(id := b.id) == b
  {
    && a.calories == b.calories
    && a.totalFat == b.totalFat
    && a.saturatedFat == b.saturatedFat
    && a.transFat == b.transFat
    && a.cholesterol == b.cholesterol
    && a.sodium == b.sodium
    && a.carbohydrates == b.carbohydrates
    && a.fiber == b.fiber
    && a.sugar == b.sugar
    && a.protein == b.protein
  }

  /** Equality of `Nutrition?` values: null only equals null. */
  predicate EqualsNullable(a: Option<Nutrition>, b: Option<Nutrition>): (r: bool)
    ensures r <==> (a.None? && b.None?) || (a.Some? && b.Some? && a.value.(id := b.value.id) == b.value)
  {
    if a.None? || b.None? then a.None? && b.None? else Equals(a.value, b.value)
  }

  /** One step of `GetHashCode`: `result *= 397; if (f != null) result += f.GetHashCode();`, wrapping. */
  function HashStep(acc: UInt32, f: Option<UInt32>): UInt32 {
    (acc * 397 + f.GetOr(0)) % UINT32_MODULUS
  }

  /** `GetHashCode()`, in unchecked 32-bit arithmetic starting from 37; the id takes no part. */
  function HashCode(n: Nutrition): Int32 {
    var h := HashStep(HashStep(HashStep(HashStep(HashStep(37, n.calories), n.totalFat), n.saturatedFat),
                               n.transFat), n.cholesterol);
    AsInt32(HashStep(HashStep(HashStep(HashStep(HashStep(h, n.sodium), n.carbohydrates), n.fiber),
                              n.sugar), n.protein))
  }

  /** `Nullable<Nutrition>.GetHashCode()`: 0 for null. */
  function HashCodeNullable(n: Option<Nutrition>): Int32 {
    if n.None? then 0 else HashCode(n.value)
  }

  /** The left fold `Aggregate(null, (sum, x) => sum + x)`; every record it creates gets id `newId`. */
  function Sum(ns: seq<Option<Nutrition>>, newId: Guid): Option<Nutrition> {
    if |ns| == 0 then None else Add(Sum(ns[..|ns| - 1], newId), ns[|ns| - 1], newId)
  }

  /** The seedless left fold `Aggregate((sum, x) => (sum + x)!.Value)` over present records. */
  function Aggregate(ns: seq<Nutrition>, newId: Guid): Nutrition
    requires |ns| > 0
  {
    if |ns| == 1 then ns[0]
    else Add(Some(Aggregate(ns[..|ns| - 1], newId)), Some(ns[|ns| - 1]), newId).value
  }

  /** The present records of a list of nullable ones, in order (`Where(x => x is not null)`). */
  function Present(ns: seq<Option<Nutrition>>): (r: seq<Nutrition>)
    ensures |r| <= |ns|
    ensures forall x :: x in r <==> Some(x) in ns
  {
    if |ns| == 0 then []
    else if ns[|ns| - 1].None? then Present(ns[..|ns| - 1])
    else
      assert ns == ns[..|ns| - 1] + [ns[|ns| - 1]];
      Present(ns[..|ns| - 1]) + [ns[|ns| - 1].value]
  }

  // ---------------------------------------------------------------------------------------------
  // Properties

  /** Equality is field-by-field agreement on exactly the ten nutrients. */
  lemma {:induction false} EqualsFieldwise(a: Nutrition, b: Nutrition)
    ensures Equals(a, b) <==> forall k :: Get(a, k) == Get(b, k)
  {
    if forall k :: Get(a, k) == Get(b, k) {
      assert Get(a, Calories) == Get(b, Calories) && Get(a, TotalFat) == Get(b, TotalFat);
      assert Get(a, SaturatedFat) == Get(b, SaturatedFat) && Get(a, TransFat) == Get(b, TransFat);
      assert Get(a, Cholesterol) == Get(b, Cholesterol) && Get(a, Sodium) == Get(b, Sodium);
      assert Get(a, Carbohydrates) == Get(b, Carbohydrates) && Get(a, Fiber) == Get(b, Fiber);
      assert Get(a, Sugar) == Get(b, Sugar) && Get(a, Protein) == Get(b, Protein);
    }
  }

  /** The id never matters: two records are equal exactly when they agree once the ids are aligned. */
  lemma EqualsIgnoresId(a: Nutrition, b: Nutrition)
    ensures Equals(a, b) <==> a.(id := b.id) == b
  {
  }

  /** Equal records have equal hash codes, whatever their ids. */
  lemma EqualsHashCode(a: Nutrition, b: Nutrition)
    requires Equals(a, b)
    ensures HashCode(a) == HashCode(b)
  {
  }

  /** `lhs + rhs` and `rhs + lhs` are equal and hash alike, for present and absent operands alike. */
  lemma AddCommutes(a: Option<Nutrition>, b: Option<Nutrition>, id1: Guid, id2: Guid)
    ensures EqualsNullable(Add(a, b, id1), Add(b, a, id2))
    ensures HashCodeNullable(Add(a, b, id1)) == HashCodeNullable(Add(b, a, id2))
  {
    if a.Some? && b.Some? {
      var x, y := Add(a, b, id1).value, Add(b, a, id2).value;
      forall k ensures Get(x, k) == Get(y, k) {
        assert Get(x, k) == AddNullable(Get(a.value, k), Get(b.value, k));
      }
      EqualsFieldwise(x, y);
      EqualsHashCode(x, y);
    }
  }

  /** A coefficient of 0 is informative: every known field becomes 0, unknown fields stay unknown. */
  lemma ScaleByZero(n: Nutrition, newId: Guid)
    ensures ScaleFits(n, 0.0)
    ensures Scale(n, 0.0, newId).Ok?
    ensures forall k :: Get(Scale(n, 0.0, newId).value, k) == if Get(n, k).Some? then Some(0) else None
  {
    var r := Scale(n, 0.0, newId).value;
    forall k ensures Get(r, k) == if Get(n, k).Some? then Some(0) else None {
      assert ScaledFrom(r, n, 0.0);
    }
  }

  /** Multiplying by a whole number lands on a whole number, which the truncation keeps. */
  lemma FloorOfWholeProduct(v: nat, m: nat)
    ensures (v as real * m as real).Floor == v * m
  {
    assert v as real * m as real == (v * m) as real;
  }

  /** `(v * m) / m` computed as `v * m * (1 / m)` and truncated gives back `v`. */
  lemma FloorOfWholeQuotient(v: nat, m: nat)
    requires 0 < m
    ensures ((v * m) as real * (1.0 / m as real)).Floor == v
  {
    assert (v * m) as real == v as real * m as real;
    assert (v * m) as real * (1.0 / m as real) == v as real;
  }

  /** Every field of `r` is the matching field of `n` times the whole number `m`, exactly. */
  predicate MultipliedFrom(r: Nutrition, n: Nutrition, m: nat) {
    forall k ::
      && (Get(r, k).None? <==> Get(n, k).None?)
      && (Get(n, k).Some? ==> Get(r, k).value == Get(n, k).value * m)
  }

  /** A whole-number coefficient multiplies every known field exactly (nothing is truncated). */
  lemma ScaleByWholeNumber(n: Nutrition, m: nat, newId: Guid)
    requires ScaleFits(n, m as real)
    ensures Scale(n, m as real, newId).Ok?
    ensures MultipliedFrom(Scale(n, m as real, newId).value, n, m)
  {
    WholeScaling(Scale(n, m as real, newId).value, n, m);
  }

  lemma WholeScaling(r: Nutrition, n: Nutrition, m: nat)
    requires ScaledFrom(r, n, m as real)
    ensures MultipliedFrom(r, n, m)
  {
    forall k | Get(n, k).Some? ensures Get(r, k).value == Get(n, k).value * m {
      FloorOfWholeProduct(Get(n, k).value, m);
    }
  }

  /** Every field of a record fits when scaled by a coefficient in [0, 1]. */
  lemma ScaleFitsBelowOne(n: Nutrition, c: real)
    requires 0.0 <= c <= 1.0
    ensures ScaleFits(n, c)
  {
    forall k | Get(n, k).Some? ensures (Get(n, k).value as real * c).Floor < UINT32_MODULUS {
      var v := Get(n, k).value as real;
      var f := (v * c).Floor;
      assert f as real <= v * c <= v < UINT32_MODULUS as real;
      assert f < UINT32_MODULUS;
    }
    assert forall k :: FieldScaleFits(Get(n, k), c);
    assert FieldScaleFits(Get(n, Calories), c) && FieldScaleFits(Get(n, TotalFat), c);
    assert FieldScaleFits(Get(n, SaturatedFat), c) && FieldScaleFits(Get(n, TransFat), c);
    assert FieldScaleFits(Get(n, Cholesterol), c) && FieldScaleFits(Get(n, Sodium), c);
    assert FieldScaleFits(Get(n, Carbohydrates), c) && FieldScaleFits(Get(n, Fiber), c);
    assert FieldScaleFits(Get(n, Sugar), c) && FieldScaleFits(Get(n, Protein), c);
  }

  lemma Reciprocal(m: nat)
    requires 0 < m
    ensures 0.0 < 1.0 / m as real <= 1.0
  {
    var x := 1.0 / m as real;
    assert x * m as real == 1.0;
  }

  lemma RestoreField(n: Nutrition, s: Nutrition, d: Nutrition, m: nat, k: Nutrient)
    requires 0 < m
    requires MultipliedFrom(s, n, m)
    requires ScaledFrom(d, s, 1.0 / m as real)
    ensures Get(d, k) == Get(n, k)
  {
    if Get(n, k).Some? {
      var v := Get(n, k).value;
      assert Get(s, k).value == v * m;
      assert Get(d, k).value == ((v * m) as real * (1.0 / m as real)).Floor;
      FloorOfWholeQuotient(v, m);
    }
  }

  /** Dividing by a positive whole number undoes scaling by it. */
  lemma DivideUndoesScale(n: Nutrition, m: nat, id1: Guid, id2: Guid)
    requires 0 < m && ScaleFits(n, m as real)
    ensures Scale(n, m as real, id1).Ok?
    ensures ScaleFits(Scale(n, m as real, id1).value, 1.0 / m as real)
    ensures Divide(Scale(n, m as real, id1).value, m as real, id2).Ok?
    ensures Equals(Divide(Scale(n, m as real, id1).value, m as real, id2).value, n)
  {
    ScaleByWholeNumber(n, m, id1);
    var s := Scale(n, m as real, id1).value;
    Reciprocal(m);
    ScaleFitsBelowOne(s, 1.0 / m as real);
    var d := Divide(s, m as real, id2).value;
    assert ScaledFrom(d, s, 1.0 / m as real);
    forall k ensures Get(d, k) == Get(n, k) {
      RestoreField(n, s, d, m, k);
    }
    EqualsFieldwise(d, n);
  }

  /** The cast truncates rather than rounds: 5 grams of saturated fat at half a serving is 2, not 3. */
  lemma ScaleTruncates(n: Nutrition, newId: Guid)
    requires n == Empty(n.id).(saturatedFat := Some(5))
    ensures Scale(n, 0.5, newId).Ok?
    ensures Scale(n, 0.5, newId).value.saturatedFat == Some(2)
  {
    assert ScaledFrom(Scale(n, 0.5, newId).value, n, 0.5);
    assert Get(n, SaturatedFat).value as real * 0.5 == 2.5;
  }

  // ---------------------------------------------------------------------------------------------
  // Folds

  /** Some record in the list knows field `k`. */
  predicate AnyKnown(ns: seq<Option<Nutrition>>, k: Nutrient) {
    exists i :: 0 <= i < |ns| && ns[i].Some? && Get(ns[i].value, k).Some?
  }

  /** The plain (unbounded) total of field `k` over the list, counting an unknown field as 0. */
  function KnownTotal(ns: seq<Option<Nutrition>>, k: Nutrient): nat {
    if |ns| == 0 then 0
    else KnownTotal(ns[..|ns| - 1], k) + (if ns[|ns| - 1].Some? then Get(ns[|ns| - 1].value, k).GetOr(0) else 0)
  }

  lemma AddModulo(a: int, b: int)
    ensures (a % UINT32_MODULUS + b) % UINT32_MODULUS == (a + b) % UINT32_MODULUS
  {
  }

  /** The fold of `+` from null is null exactly for a list of nulls. */
  lemma {:induction false} SumAbsent(ns: seq<Option<Nutrition>>, newId: Guid)
    ensures Sum(ns, newId).None? <==> forall i :: 0 <= i < |ns| ==> ns[i].None?
  {
    if |ns| > 0 {
      var init := ns[..|ns| - 1];
      SumAbsent(init, newId);
      assert forall i :: 0 <= i < |init| ==> init[i] == ns[i];
    }
  }

  lemma AnyKnownSnoc(ns: seq<Option<Nutrition>>, k: Nutrient)
    requires |ns| > 0
    ensures AnyKnown(ns, k) <==>
      AnyKnown(ns[..|ns| - 1], k) || (ns[|ns| - 1].Some? && Get(ns[|ns| - 1].value, k).Some?)
  {
    var init := ns[..|ns| - 1];
    if AnyKnown(init, k) {
      var i :| 0 <= i < |init| && init[i].Some? && Get(init[i].value, k).Some?;
      assert ns[i] == init[i];
    }
  }

  /** A field no record knows totals 0. */
  lemma {:induction false} UnknownTotal(ns: seq<Option<Nutrition>>, k: Nutrient)
    ensures !AnyKnown(ns, k) ==> KnownTotal(ns, k) == 0
  {
    if |ns| > 0 {
      UnknownTotal(ns[..|ns| - 1], k);
      AnyKnownSnoc(ns, k);
    }
  }

  lemma AddField(a: Nutrition, b: Nutrition, newId: Guid, k: Nutrient)
    ensures Add(Some(a), Some(b), newId).Some?
    ensures Get(Add(Some(a), Some(b), newId).value, k) == AddNullable(Get(a, k), Get(b, k))
  {
  }

  /** One step of the fold on one field: adding a value to a running total kept as the wrapped sum. */
  lemma FieldStep(f: Option<UInt32>, g: Option<UInt32>, known: bool, total: nat)
    requires f.None? <==> !known
    requires f.Some? ==> f.value == total % UINT32_MODULUS
    requires !known ==> total == 0
    ensures AddNullable(f, g).None? <==> !known && g.None?
    ensures AddNullable(f, g).Some? ==> AddNullable(f, g).value == (total + g.GetOr(0)) % UINT32_MODULUS
  {
    if f.Some? {
      AddModulo(total, g.GetOr(0));
    }
  }

  /** Field `k` of the fold of `+` from null, or null when the fold itself is null. */
  function SumField(ns: seq<Option<Nutrition>>, newId: Guid, k: Nutrient): Option<UInt32> {
    if Sum(ns, newId).Some? then Get(Sum(ns, newId).value, k) else None
  }

  /** One step of the fold, on field `k` alone: the field is `AddNullable` of the running field and the new one. */
  lemma SumFieldStep(ns: seq<Option<Nutrition>>, newId: Guid, k: Nutrient)
    requires |ns| > 0
    ensures SumField(ns, newId, k) == AddNullable(SumField(ns[..|ns| - 1], newId, k),
      if ns[|ns| - 1].Some? then Get(ns[|ns| - 1].value, k) else None)
  {
    var s, last := Sum(ns[..|ns| - 1], newId), ns[|ns| - 1];
    if s.Some? && last.Some? {
      AddField(s.value, last.value, newId, k);
    }
  }

  /**
   * The fold of `+` from null, field by field, over any list: field `k` is unknown exactly when no
   * record knows it, and otherwise it is the 32-bit wrapped total with unknown values counted as 0.
   */
  lemma {:induction false} FoldFieldwise(ns: seq<Option<Nutrition>>, newId: Guid, k: Nutrient)
    ensures SumField(ns, newId, k).None? <==> !AnyKnown(ns, k)
    ensures SumField(ns, newId, k).Some? ==> SumField(ns, newId, k).value == KnownTotal(ns, k) % UINT32_MODULUS
  {
    if |ns| > 0 {
      var init, last := ns[..|ns| - 1], ns[|ns| - 1];
      FoldFieldwise(init, newId, k);
      SumFieldStep(ns, newId, k);
      AnyKnownSnoc(ns, k);
      UnknownTotal(init, k);
      FieldStep(SumField(init, newId, k), if last.Some? then Get(last.value, k) else None,
        AnyKnown(init, k), KnownTotal(init, k));
    }
  }

  /**
   * The fold of `+` from null, field by field: a field of the total is unknown only when no record
   * knows it, and otherwise it is the 32-bit wrapped total with unknown values counted as 0.
   */
  lemma SumFieldwise(ns: seq<Option<Nutrition>>, newId: Guid, k: Nutrient)
    requires Sum(ns, newId).Some?
    ensures Get(Sum(ns, newId).value, k).None? <==> !AnyKnown(ns, k)
    ensures Get(Sum(ns, newId).value, k).Some? ==>
      Get(Sum(ns, newId).value, k).value == KnownTotal(ns, k) % UINT32_MODULUS
  {
    FoldFieldwise(ns, newId, k);
  }

  /** The seeded fold of `+` from null equals the seedless fold over the present records, or null. */
  lemma {:induction false} SumSkipsAbsent(ns: seq<Option<Nutrition>>, newId: Guid)
    ensures Sum(ns, newId) == if |Present(ns)| == 0 then None else Some(Aggregate(Present(ns), newId))
  {
    if |ns| > 0 {
      var init, last := ns[..|ns| - 1], ns[|ns| - 1];
      SumSkipsAbsent(init, newId);
      var p := Present(init);
      if last.Some? {
        assert Present(ns) == p + [last.value];
        assert (p + [last.value])[..|p|] == p;
      }
    }
  }
}
