/**
 * Pantree.Core.Utilities.Measurement.Measurement: a value of some unit, compared with a tolerance.
 * `double` is modelled by `real`, so the arithmetic here is exact.
 */
module Measurements {
  import opened Wrappers

  datatype Measurement<U> = Measurement(value: real, unit: U)

  /** The tolerance used by `Equals(other)`, `==` and `!=`. */
  const DEFAULT_TOLERANCE: real := 0.000001

  function Abs(x: real): (r: real)
    ensures 0.0 <= r && (r == x || r == -x)
  {
    if x < 0.0 then -x else x
  }

  /** `Equals(other, tolerance)`: `other` is not null, the units match and the values are closer than `tolerance`. */
  predicate EqualsWithin<U(==)>(m: Measurement<U>, other: Option<Measurement<U>>, tolerance: real): (r: bool)
    ensures r <==>
      && other.Some? && other.value.unit == m.unit
      && m.value - tolerance < other.value.value < m.value + tolerance
  {
    other.Some? && m.unit == other.value.unit && Abs(m.value - other.value.value) < tolerance
  }

  /** `Equals(other)` and `lhs == rhs`, with the default tolerance. */
  predicate Equals<U(==)>(m: Measurement<U>, other: Option<Measurement<U>>) {
    EqualsWithin(m, other, DEFAULT_TOLERANCE)
  }

  /** `lhs != rhs`. */
  function NotEquals<U(==)>(lhs: Measurement<U>, rhs: Option<Measurement<U>>): (r: bool)
    ensures r <==> rhs.None? || lhs.unit != rhs.value.unit || Abs(lhs.value - rhs.value.value) >= DEFAULT_TOLERANCE
  {
    !Equals(lhs, rhs)
  }

  /** `measurement * coefficient`: the value is scaled and the unit kept. */
  function Multiply<U>(m: Measurement<U>, coefficient: real): (r: Measurement<U>)
    ensures r.unit == m.unit && r.value == m.value * coefficient
  {
    Measurement(m.value * coefficient, m.unit)
  }

  /** `coefficient * measurement`: the same as the other operand order. */
  function MultiplyLeft<U>(coefficient: real, m: Measurement<U>): (r: Measurement<U>)
    ensures r == Multiply(m, coefficient)
  {
    Measurement(m.value * coefficient, m.unit)
  }

  /** `measurement / coefficient`: the value is divided and the unit kept (a zero divisor is excluded, see README). */
  function Divide<U>(m: Measurement<U>, coefficient: real): (r: Measurement<U>)
    requires coefficient != 0.0
    ensures r.unit == m.unit && r.value * coefficient == m.value
  {
    Measurement(m.value / coefficient, m.unit)
  }

  // ---------------------------------------------------------------------------------------------
  // Properties

  /** Every measurement equals itself for any positive tolerance. */
  lemma Reflexive<U>(m: Measurement<U>, tolerance: real)
    requires 0.0 < tolerance
    ensures EqualsWithin(m, Some(m), tolerance)
  {
  }

  /** Equality does not depend on the order of the operands. */
  lemma Symmetric<U>(a: Measurement<U>, b: Measurement<U>, tolerance: real)
    ensures EqualsWithin(a, Some(b), tolerance) <==> EqualsWithin(b, Some(a), tolerance)
  {
  }

  /** Equality is not transitive: 0, 0.0000006 and 0.0000012 grams chain, but the ends differ. */
  lemma NotTransitive<U>(u: U)
    ensures var a, b, c := Measurement(0.0, u), Measurement(0.0000006, u), Measurement(0.0000012, u);
      Equals(a, Some(b)) && Equals(b, Some(c)) && !Equals(a, Some(c))
  {
  }

  /** Measurements in different units are never equal, whatever their values. */
  lemma DifferentUnitsNeverEqual<U>(a: Measurement<U>, b: Measurement<U>, tolerance: real)
    requires a.unit != b.unit
    ensures !EqualsWithin(a, Some(b), tolerance)
  {
  }

  /** Dividing by a nonzero coefficient undoes multiplying by it. */
  lemma {:induction false} DivideUndoesMultiply<U>(m: Measurement<U>, coefficient: real)
    requires coefficient != 0.0
    ensures Divide(Multiply(m, coefficient), coefficient) == m
  {
    var d := Divide(Multiply(m, coefficient), coefficient);
    assert d.value * coefficient == m.value * coefficient;
  }
}
