/**
 * Pantree.Core.Cooking.FoodUnit and FoodUnitConverter: the units a quantity of food is given in,
 * and the converter that registers each of them by its weight in grams (volumes at the density of
 * water), with the gram as base unit.
 */
module FoodUnits {
  import opened Wrappers
  import opened Measurements
  import opened UnitConverters

  datatype FoodUnit =
    | Unit | Gram | Milligram | Ounce | Pound
    | Milliliter | Liter | Teaspoon | Tablespoon | FluidOunce | Cup

  /** The coefficient each unit is registered with: grams in one of the unit. */
  function GramsPer(u: FoodUnit): (g: real)
    ensures 0.0 < g
  {
    match u
    case Unit => 1.0
    case Gram => 1.0
    case Milligram => 0.001
    case Ounce => 28.3495
    case Pound => 453.59237
    case Milliliter => 1.0
    case Liter => 1000.0
    case Teaspoon => 4.92892
    case Tablespoon => 14.7868
    case FluidOunce => 29.574
    case Cup => 8.0 * 29.574
  }

  const ALL_UNITS: set<FoodUnit> :=
    {Unit, Gram, Milligram, Ounce, Pound, Milliliter, Liter, Teaspoon, Tablespoon, FluidOunce, Cup}

  lemma {:induction false} EveryUnitListed(u: FoodUnit)
    ensures u in ALL_UNITS
  {
    match u
    case Unit =>
    case Gram =>
    case Milligram =>
    case Ounce =>
    case Pound =>
    case Milliliter =>
    case Liter =>
    case Teaspoon =>
    case Tablespoon =>
    case FluidOunce =>
    case Cup =>
  }

  /** The registry once the converter is configured: every unit, by its coefficient. */
  function FoodConversions(): (r: map<FoodUnit, UnitConversion>)
    ensures forall u :: u in r && r[u] == Coefficient(GramsPer(u))
  {
    forall u ensures u in ALL_UNITS {
      EveryUnitListed(u);
    }
    map u | u in ALL_UNITS :: Coefficient(GramsPer(u))
  }

  /** The registrations of the static constructor, one after the other. */
  ghost function Registrations(): map<FoodUnit, UnitConversion> {
    map[][Unit := Coefficient(1.0)][Gram := Coefficient(1.0)][Milligram := Coefficient(0.001)]
      [Ounce := Coefficient(28.3495)][Pound := Coefficient(453.59237)][Milliliter := Coefficient(1.0)]
      [Liter := Coefficient(1000.0)][Teaspoon := Coefficient(4.92892)][Tablespoon := Coefficient(14.7868)]
      [FluidOunce := Coefficient(29.574)][Cup := Coefficient(8.0 * 29.574)]
  }

  lemma {:induction false} RegistrationOf(u: FoodUnit)
    ensures u in Registrations() && Registrations()[u] == Coefficient(GramsPer(u))
  {
    match u
    case Unit =>
    case Gram =>
    case Milligram =>
    case Ounce =>
    case Pound =>
    case Milliliter =>
    case Liter =>
    case Teaspoon =>
    case Tablespoon =>
    case FluidOunce =>
    case Cup =>
  }

  /** The eleven registrations build exactly the table. */
  lemma RegistrationsAreTable()
    ensures Registrations() == FoodConversions()
  {
    forall u ensures u in Registrations() && Registrations()[u] == FoodConversions()[u] {
      RegistrationOf(u);
    }
  }

  /** The static constructor of `FoodUnitConverter`: set the base unit, then register eleven units in turn. */
  method NewFoodUnitConverter() returns (c: UnitConverter<FoodUnit>)
    ensures fresh(c)
    ensures c.baseUnit == Gram && c.conversions == FoodConversions()
  {
    c := new UnitConverter(Gram);
    c.RegisterCoefficient(Unit, 1.0);
    c.RegisterCoefficient(Gram, 1.0);
    c.RegisterCoefficient(Milligram, 0.001);
    c.RegisterCoefficient(Ounce, 28.3495);
    c.RegisterCoefficient(Pound, 453.59237);
    c.RegisterCoefficient(Milliliter, 1.0);
    c.RegisterCoefficient(Liter, 1000.0);
    c.RegisterCoefficient(Teaspoon, 4.92892);
    c.RegisterCoefficient(Tablespoon, 14.7868);
    c.RegisterCoefficient(FluidOunce, 29.574);
    c.RegisterCoefficient(Cup, 8.0 * 29.574);
    assert c.conversions == Registrations();
    RegistrationsAreTable();
  }

  /**
   * `new FoodUnitConverter().Convert(m, desiredUnit)`, which never fails since every unit is registered.
   */
  function ConvertFood(m: Measurement<FoodUnit>, desiredUnit: FoodUnit): (r: Measurement<FoodUnit>)
    ensures Convert(FoodConversions(), Gram, m, desiredUnit) == Ok(r)
    ensures r.unit == desiredUnit
  {
    Convert(FoodConversions(), Gram, m, desiredUnit).value
  }

  /** The converted value is the weight in grams divided by the grams in one of the desired unit. */
  lemma {:induction false} ConvertFoodValue(m: Measurement<FoodUnit>, desiredUnit: FoodUnit)
    ensures ConvertFood(m, desiredUnit).value == m.value * GramsPer(m.unit) / GramsPer(desiredUnit)
  {
    ConvertByCoefficients(FoodConversions(), Gram, m, desiredUnit, GramsPer(m.unit), GramsPer(desiredUnit));
  }

  lemma SignOfScaled(v: real, g: real, d: real)
    requires 0.0 < g && 0.0 < d
    ensures v < 0.0 <==> v * g / d < 0.0
    ensures v == 0.0 <==> v * g / d == 0.0
  {
    var p := v * g;
    assert v < 0.0 <==> p < 0.0;
    assert v == 0.0 <==> p == 0.0;
  }

  /** Every coefficient is positive, so a conversion keeps the sign of the value. */
  lemma ConvertFoodKeepsSign(m: Measurement<FoodUnit>, desiredUnit: FoodUnit)
    ensures m.value < 0.0 <==> ConvertFood(m, desiredUnit).value < 0.0
    ensures m.value == 0.0 <==> ConvertFood(m, desiredUnit).value == 0.0
  {
    ConvertFoodValue(m, desiredUnit);
    SignOfScaled(m.value, GramsPer(m.unit), GramsPer(desiredUnit));
  }

  // ---------------------------------------------------------------------------------------------
  // Properties

  /** Every food unit is registered, so the food converter never reports an unregistered unit. */
  lemma AllUnitsRegistered(m: Measurement<FoodUnit>, desiredUnit: FoodUnit)
    ensures m.unit in FoodConversions() && desiredUnit in FoodConversions()
    ensures Convert(FoodConversions(), Gram, m, desiredUnit).Ok?
  {
  }

  /**
   * Converting a food quantity to another unit and back gives the quantity back: exactly in real
   * arithmetic, and so also under the tolerant `==` of measurements.
   */
  lemma FoodRoundTrip(m: Measurement<FoodUnit>, other: FoodUnit)
    ensures ConvertFood(ConvertFood(m, other), m.unit) == m
    ensures Equals(ConvertFood(ConvertFood(m, other), m.unit), Some(m))
  {
    var t := FoodConversions();
    assert AllInvertible(t) by {
      forall u | u in t ensures Invertible(t[u]) {
        CoefficientInvertible(GramsPer(u));
      }
    }
    AllUnitsRegistered(m, other);
    ConvertRoundTrip(t, Gram, m, other);
    Reflexive(m, DEFAULT_TOLERANCE);
  }

  /** Unit, Gram and Milliliter all weigh one gram: 1 Unit is 1 Gram and 1 Gram is 1 Milliliter. */
  lemma OneToOneUnits()
    ensures ConvertFood(Measurement(1.0, Unit), Gram) == Measurement(1.0, Gram)
    ensures ConvertFood(Measurement(1.0, Gram), Milliliter) == Measurement(1.0, Milliliter)
  {
  }

  /** A cup is registered as exactly eight fluid ounces. */
  lemma CupIsEightFluidOunces(x: real)
    ensures FoodConversions()[Cup].toBase(x) == 8.0 * FoodConversions()[FluidOunce].toBase(x)
  {
  }

  /** 3 grams are 3000 milligrams, and 1 gram is 0.001 liters. */
  lemma MetricConversions()
    ensures ConvertFood(Measurement(3.0, Gram), Milligram) == Measurement(3000.0, Milligram)
    ensures ConvertFood(Measurement(1.0, Gram), Liter) == Measurement(0.001, Liter)
  {
  }

  /** 1 ounce is 28349.5 milligrams, and 8 ounces are half a pound within the default tolerance. */
  lemma OunceConversions()
    ensures ConvertFood(Measurement(1.0, Ounce), Milligram) == Measurement(28349.5, Milligram)
    ensures Equals(Measurement(0.5, Pound), Some(ConvertFood(Measurement(8.0, Ounce), Pound)))
  {
  }

  /** 16 ounces and 1 pound weigh about the same but are not equal measurements. */
  lemma PoundIsNotSixteenOunces()
    ensures !Equals(Measurement(16.0, Ounce), Some(Measurement(1.0, Pound)))
  {
    DifferentUnitsNeverEqual(Measurement(16.0, Ounce), Measurement(1.0, Pound), DEFAULT_TOLERANCE);
  }
}
