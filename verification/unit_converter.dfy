/**
 * Pantree.Core.Utilities.Measurement.UnitConverter: a registry from units to a pair of functions
 * converting to and from a base unit, and the conversion that routes through the base unit.
 *
 * The registry and the base unit are process-wide statics in the source; here they are the fields
 * of an explicitly constructed converter object, and `Convert` is a function of their values.
 */
module UnitConverters {
  import opened Wrappers
  import opened Measurements

  /** `UnitConversion`: how to reach the base unit from a unit, and back. */
  datatype UnitConversion = UnitConversion(toBase: real -> real, fromBase: real -> real)

  /** The two functions of a conversion undo each other. */
  ghost predicate Invertible(c: UnitConversion) {
    && (forall x {:trigger c.fromBase(c.toBase(x))} :: c.fromBase(c.toBase(x)) == x)
    && (forall x {:trigger c.toBase(c.fromBase(x))} :: c.toBase(c.fromBase(x)) == x)
  }

  /**
   * The conversion registered by `RegisterConversion(unit, coefficient)`: multiply by the coefficient
   * on the way to the base unit, divide on the way back.
   */
  function Coefficient(coefficient: real): UnitConversion
    requires coefficient != 0.0
  {
    UnitConversion(x => x * coefficient, x => x / coefficient)
  }

  /** A coefficient conversion multiplies on the way to the base unit and divides back, so it is invertible. */
  lemma CoefficientInvertible(coefficient: real)
    requires coefficient != 0.0
    ensures forall x :: Coefficient(coefficient).toBase(x) == x * coefficient
    ensures forall x :: Coefficient(coefficient).fromBase(x) == x / coefficient
    ensures Invertible(Coefficient(coefficient))
  {
    var r := Coefficient(coefficient);
    forall x ensures r.fromBase(r.toBase(x)) == x {
      assert r.toBase(x) / coefficient == x;
    }
  }

  class UnitConverter<U(==)> {
    /** `BaseUnit`: values are converted to and from this unit. */
    var baseUnit: U
    /** `Conversions`: the registered units. */
    var conversions: map<U, UnitConversion>

    /** A converter with the given base unit and nothing registered yet. */
    constructor(baseUnit: U)
      ensures this.baseUnit == baseUnit && conversions == map[]
    {
      this.baseUnit := baseUnit;
      conversions := map[];
    }

    /** `RegisterConversion(unit, toBase, fromBase)`: add or overwrite the entry of `unit` only. */
    method RegisterConversion(unit: U, toBase: real -> real, fromBase: real -> real)
      modifies this
      ensures conversions == old(conversions)[unit := UnitConversion(toBase, fromBase)]
      ensures forall u :: u != unit ==> (u in conversions <==> u in old(conversions))
      ensures forall u :: u != unit && u in conversions ==> conversions[u] == old(conversions)[u]
      ensures baseUnit == old(baseUnit)
    {
      conversions := conversions[unit := UnitConversion(toBase, fromBase)];
    }

    /** `RegisterConversion(unit, coefficient)`: `x => x * coefficient` and `x => x / coefficient`. */
    method RegisterCoefficient(unit: U, coefficient: real)
      requires coefficient != 0.0
      modifies this
      ensures conversions == old(conversions)[unit := Coefficient(coefficient)]
      ensures baseUnit == old(baseUnit)
    {
      var c := Coefficient(coefficient);
      RegisterConversion(unit, c.toBase, c.fromBase);
    }
  }

  /** The value of `value` (in `unit`) in the base unit; the base unit's own functions are never applied. */
  function InBase<U(==)>(conversions: map<U, UnitConversion>, baseUnit: U, unit: U, value: real): real
    requires unit in conversions
  {
    if unit == baseUnit then value else conversions[unit].toBase(value)
  }

  /** The value of base-unit `value` in `unit`. */
  function FromBaseTo<U(==)>(conversions: map<U, UnitConversion>, baseUnit: U, unit: U, value: real): real
    requires unit in conversions
  {
    if unit == baseUnit then value else conversions[unit].fromBase(value)
  }

  /**
   * `Convert(measurement, desiredUnit)`: a measurement already in the desired unit is returned as it is;
   * otherwise both units must be registered (the measurement's unit is checked first) and the value is
   * taken through the base unit.
   */
  function Convert<U(==)>(conversions: map<U, UnitConversion>, baseUnit: U, m: Measurement<U>, desiredUnit: U)
    : (r: Result<Measurement<U>>)
    ensures m.unit == desiredUnit ==> r == Ok(m)
    ensures m.unit != desiredUnit && m.unit !in conversions ==> r == Err(ArgumentError("measurement"))
    ensures m.unit != desiredUnit && m.unit in conversions && desiredUnit !in conversions ==>
      r == Err(ArgumentError("desiredUnit"))
    ensures r.Ok? <==> m.unit == desiredUnit || (m.unit in conversions && desiredUnit in conversions)
    ensures r.Ok? ==> r.value.unit == desiredUnit
    ensures m.unit != desiredUnit && m.unit in conversions && desiredUnit in conversions ==>
      r == Ok(Measurement(FromBaseTo(conversions, baseUnit, desiredUnit, InBase(conversions, baseUnit, m.unit, m.value)),
                          desiredUnit))
  {
    if m.unit == desiredUnit then Ok(m)
    else if m.unit !in conversions then Err(ArgumentError("measurement"))
    else if desiredUnit !in conversions then Err(ArgumentError("desiredUnit"))
    else
      var valueInBase := InBase(conversions, baseUnit, m.unit, m.value);
      Ok(Measurement(FromBaseTo(conversions, baseUnit, desiredUnit, valueInBase), desiredUnit))
  }

  // ---------------------------------------------------------------------------------------------
  // Properties

  /** Every registered conversion has functions that undo each other. */
  ghost predicate AllInvertible<U>(conversions: map<U, UnitConversion>) {
    forall u :: u in conversions ==> Invertible(conversions[u])
  }

  /** Converting to a unit and back gives the original measurement, when every conversion is invertible. */
  lemma {:induction false} ConvertRoundTrip<U>(
    conversions: map<U, UnitConversion>, baseUnit: U, m: Measurement<U>, other: U)
    requires AllInvertible(conversions)
    requires m.unit in conversions && other in conversions
    ensures Convert(conversions, baseUnit, m, other).Ok?
    ensures Convert(conversions, baseUnit, Convert(conversions, baseUnit, m, other).value, m.unit) == Ok(m)
  {
    if m.unit != other {
      var b := InBase(conversions, baseUnit, m.unit, m.value);
      var w := FromBaseTo(conversions, baseUnit, other, b);
      assert InBase(conversions, baseUnit, other, w) == b by {
        if other != baseUnit {
          assert Invertible(conversions[other]);
        }
      }
      assert FromBaseTo(conversions, baseUnit, m.unit, b) == m.value by {
        if m.unit != baseUnit {
          assert Invertible(conversions[m.unit]);
        }
      }
    }
  }

  /** From the base unit, only the target's `fromBase` is applied. */
  lemma ConvertFromBase<U>(conversions: map<U, UnitConversion>, baseUnit: U, value: real, desiredUnit: U)
    requires baseUnit in conversions && desiredUnit in conversions && desiredUnit != baseUnit
    ensures Convert(conversions, baseUnit, Measurement(value, baseUnit), desiredUnit)
      == Ok(Measurement(conversions[desiredUnit].fromBase(value), desiredUnit))
  {
  }

  /** To the base unit, only the source's `toBase` is applied. */
  lemma ConvertToBase<U>(conversions: map<U, UnitConversion>, baseUnit: U, m: Measurement<U>)
    requires baseUnit in conversions && m.unit in conversions && m.unit != baseUnit
    ensures Convert(conversions, baseUnit, m, baseUnit)
      == Ok(Measurement(conversions[m.unit].toBase(m.value), baseUnit))
  {
  }

  /** The base unit has to be registered like any other unit before it can be converted from or to. */
  lemma UnregisteredBaseFails<U>(conversions: map<U, UnitConversion>, baseUnit: U, m: Measurement<U>)
    requires m.unit != baseUnit && baseUnit !in conversions
    ensures Convert(conversions, baseUnit, m, baseUnit).Err?
    ensures Convert(conversions, baseUnit, Measurement(m.value, baseUnit), m.unit).Err?
  {
  }

  /** A coefficient conversion applied to one value. */
  lemma CoefficientApplied(coefficient: real, x: real)
    requires coefficient != 0.0
    ensures Coefficient(coefficient).toBase(x) == x * coefficient
    ensures Coefficient(coefficient).fromBase(x) == x / coefficient
  {
  }

  lemma InBaseByCoefficient<U>(conversions: map<U, UnitConversion>, baseUnit: U, unit: U, value: real, c: real)
    requires c != 0.0 && unit in conversions && conversions[unit] == Coefficient(c)
    requires unit == baseUnit ==> c == 1.0
    ensures InBase(conversions, baseUnit, unit, value) == value * c
  {
    CoefficientApplied(c, value);
  }

  lemma FromBaseByCoefficient<U>(conversions: map<U, UnitConversion>, baseUnit: U, unit: U, value: real, c: real)
    requires c != 0.0 && unit in conversions && conversions[unit] == Coefficient(c)
    requires unit == baseUnit ==> c == 1.0
    ensures FromBaseTo(conversions, baseUnit, unit, value) == value / c
  {
    CoefficientApplied(c, value);
  }

  lemma Cancel(v: real, source: real, target: real)
    requires source == target && target != 0.0
    ensures v * source / target == v
  {
  }

  lemma Route(v: real, source: real, target: real, b: real, w: real)
    requires target != 0.0 && b == v * source && w == b / target
    ensures w == v * source / target
  {
  }

  /**
   * With coefficient registrations, and the base unit registered with coefficient 1, converting
   * multiplies by the source unit's coefficient and divides by the target's.
   */
  lemma {:induction false} ConvertByCoefficients<U>(
    conversions: map<U, UnitConversion>, baseUnit: U, m: Measurement<U>, desiredUnit: U, source: real, target: real)
    requires source != 0.0 && target != 0.0
    requires m.unit in conversions && conversions[m.unit] == Coefficient(source)
    requires desiredUnit in conversions && conversions[desiredUnit] == Coefficient(target)
    requires m.unit == baseUnit ==> source == 1.0
    requires desiredUnit == baseUnit ==> target == 1.0
    requires m.unit == desiredUnit ==> source == target
    ensures Convert(conversions, baseUnit, m, desiredUnit).Ok?
    ensures Convert(conversions, baseUnit, m, desiredUnit).value.value == m.value * source / target
  {
    var r := Convert(conversions, baseUnit, m, desiredUnit);
    if m.unit == desiredUnit {
      assert r == Ok(m);
      Cancel(m.value, source, target);
    } else {
      var b := InBase(conversions, baseUnit, m.unit, m.value);
      var w := FromBaseTo(conversions, baseUnit, desiredUnit, b);
      InBaseByCoefficient(conversions, baseUnit, m.unit, m.value, source);
      FromBaseByCoefficient(conversions, baseUnit, desiredUnit, b, target);
      assert r == Ok(Measurement(w, desiredUnit));
      Route(m.value, source, target, b, w);
    }
  }
}
