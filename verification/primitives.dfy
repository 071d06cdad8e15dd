/** The .NET value types the model needs: 32-bit integers, Guids and TimeSpans. */
module Primitives {

  const UINT32_MODULUS: int := 0x1_0000_0000

  /** System.UInt32 */
  type UInt32 = x: int | 0 <= x < UINT32_MODULUS

  /** System.Int32 */
  type Int32 = x: int | -0x8000_0000 <= x < 0x8000_0000

  /** Reinterpret the 32 bits of an unsigned value as a signed one, as an `unchecked` cast does. */
  function AsInt32(x: UInt32): (r: Int32)
    ensures r % UINT32_MODULUS == x
  {
    if x < 0x8000_0000 then x else x - UINT32_MODULUS
  }

  /** An opaque System.Guid; the model never generates one, fresh ids are passed in. */
  datatype Guid = Guid(bits: nat)

  /** `default(Guid)`, i.e. Guid.Empty */
  const EmptyGuid: Guid := Guid(0)

  /** A System.TimeSpan, by its signed count of 100-nanosecond ticks. */
  datatype TimeSpan = TimeSpan(ticks: int)

  const TICKS_PER_DAY: nat := 864_000_000_000

  const ZeroSpan: TimeSpan := TimeSpan(0)

  function FromDays(days: int): TimeSpan {
    TimeSpan(days * TICKS_PER_DAY)
  }

  function AddSpans(a: TimeSpan, b: TimeSpan): TimeSpan {
    TimeSpan(a.ticks + b.ticks)
  }

  /** `TimeSpan.Days`: the whole-day part, truncated toward zero (not floored) for negative spans. */
  function Days(t: TimeSpan): (d: int)
    ensures 0 <= t.ticks ==> 0 <= d * TICKS_PER_DAY <= t.ticks < (d + 1) * TICKS_PER_DAY
    ensures t.ticks <= 0 ==> (d - 1) * TICKS_PER_DAY < t.ticks <= d * TICKS_PER_DAY <= 0
  {
    if t.ticks >= 0 then t.ticks / TICKS_PER_DAY else -((-t.ticks) / TICKS_PER_DAY)
  }

  lemma DaysOfWholeDays(days: int)
    ensures Days(FromDays(days)) == days
  {
    var d := Days(FromDays(days));
    if days >= 0 {
      assert d * TICKS_PER_DAY <= days * TICKS_PER_DAY < (d + 1) * TICKS_PER_DAY;
    } else {
      assert (d - 1) * TICKS_PER_DAY < days * TICKS_PER_DAY <= d * TICKS_PER_DAY;
    }
  }
}
