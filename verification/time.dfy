/**
 * DateTime and TimeSpan arithmetic. A DateTime is its count of 100-nanosecond
 * ticks, so `end - start` is the TimeSpan between two instants, in ticks.
 */
module Time {

  type DateTime = int

  const TicksPerMinute: int := 600_000_000
  const TicksPerHour: int := 36_000_000_000

  /** TimeSpan.TotalHours, as an exact real rather than a double. */
  function TotalHours(ticks: int): real
  {
    ticks as real / 36_000_000_000.0
  }

  /** Math.Ceiling(TimeSpan.TotalHours): the least whole number of hours covering the span. */
  function CeilingHours(ticks: int): (hours: int)
    ensures (hours - 1) * TicksPerHour < ticks <= hours * TicksPerHour
  {
    -((-ticks) / TicksPerHour)
  }

  /** The whole hours are the ceiling of the fractional hours. */
  lemma CeilingHoursBoundsTotalHours(ticks: int)
    ensures (CeilingHours(ticks) - 1) as real < TotalHours(ticks) <= CeilingHours(ticks) as real
  {
    var h := CeilingHours(ticks);
    var H := TicksPerHour as real;
    assert (h - 1) as real * H < ticks as real <= h as real * H;
  }

  /** A longer span never needs fewer whole hours. */
  lemma CeilingHoursMonotone(a: int, b: int)
    requires a <= b
    ensures CeilingHours(a) <= CeilingHours(b)
  {
  }
}
