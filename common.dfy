/** Shared vocabulary of the loan domain: optional values, the exceptions the
    domain throws (as values), identifiers, 32-bit integers and clock ticks. */
module Common {

  datatype Option<+T> = None | Some(value: T)

  /** The three exception types the domain model throws. */
  datatype ErrorKind = ArgumentException | ArgumentNullException | InvalidOperationException

  /** The value of an operation that either returns or throws. */
  datatype Result<+T> = Ok(value: T) | Err(error: ErrorKind)

  /** The outcome of a `void` operation that either completes or throws. */
  datatype Outcome = Pass | Fail(error: ErrorKind)

  /** A 128-bit GUID, represented by its numeric value; 0 is `Guid.Empty`. */
  type Guid = nat
  const EmptyGuid: Guid := 0

  /** C#'s `int`. */
  const MinInt32: int := -0x8000_0000
  const MaxInt32: int := 0x7fff_ffff
  type Int32 = x: int | MinInt32 <= x <= MaxInt32

  /** Unchecked 32-bit arithmetic: the two's-complement value of `x`. */
  function Wrap32(x: int): (r: Int32)
    ensures (r - x) % 0x1_0000_0000 == 0
    ensures MinInt32 <= x <= MaxInt32 ==> r == x
  {
    var m := (x - MinInt32) % 0x1_0000_0000;
    m + MinInt32
  }

  /** Truncating integer division, as C#'s `/` on `int`. */
  function TruncDiv(a: int, b: int): (q: int)
    requires b > 0
    ensures a >= 0 ==> q >= 0 && q * b <= a < q * b + b
    ensures a < 0 ==> q <= 0 && a <= q * b < a + b
  {
    if a >= 0 then a / b else -((-a) / b)
  }

  /** A `DateTime`, as its count of 100-nanosecond ticks. */
  type Ticks = int
  const TicksPerDay: int := 864_000_000_000

  /** `DateTime.AddDays(days)` for a whole number of days. */
  function AddDays(t: Ticks, days: int): Ticks {
    t + days * TicksPerDay
  }

  /** `TimeSpan.Days` of the span `later - earlier`: whole days, truncated toward zero. */
  function DaysBetween(later: Ticks, earlier: Ticks): (d: int)
    ensures later >= earlier ==> 0 <= d && d * TicksPerDay <= later - earlier < (d + 1) * TicksPerDay
    ensures later < earlier ==> d <= 0 && later - earlier <= d * TicksPerDay < later - earlier + TicksPerDay
  {
    TruncDiv(later - earlier, TicksPerDay)
  }

  /** Adding whole days and measuring them again gives back the same number of days. */
  lemma DaysBetweenAddDays(t: Ticks, days: int)
    ensures DaysBetween(AddDays(t, days), t) == days
  {
    var d := DaysBetween(AddDays(t, days), t);
    if days >= 0 {
      assert d * TicksPerDay <= days * TicksPerDay < (d + 1) * TicksPerDay;
    } else {
      assert days * TicksPerDay <= d * TicksPerDay < days * TicksPerDay + TicksPerDay;
    }
  }
}
