/** The clock that the Redis clients sample, and the rounding of its readings. */
module Clocks {

  /** `10 ** places`. */
  function Divisor(places: nat): (d: real)
    ensures d >= 1.0
  {
    if places == 0 then 1.0 else 10.0 * Divisor(places - 1)
  }

  function Ceiling(x: real): int {
    -(-x).Floor
  }

  function RoundedReading(time: real, ceil: bool, divisor: real): real
    requires divisor > 0.0
  {
    if ceil then Ceiling(time * divisor) as real / divisor
    else (time * divisor).Floor as real / divisor
  }

  /** A clock reading rounded down (or up) to `places` decimal digits. */
  function Now(time: real, ceil: bool, places: nat): real {
    RoundedReading(time, ceil, Divisor(places))
  }

  /** The two readings that the semaphore uses, rounded to tenths of a second. */
  function FloorNow(time: real): real { Now(time, false, 1) }

  function CeilNow(time: real): real { Now(time, true, 1) }

  /** `x` is a whole number of tenths of a second. */
  predicate OnGrid(x: real) {
    (10.0 * x).Floor as real == 10.0 * x
  }

  /** A positive factor may be cancelled from a comparison. */
  lemma CancelFactor(x: real, y: real, d: real)
    requires d > 0.0
    ensures x * d < y * d ==> x < y
    ensures x * d <= y * d ==> x <= y
  {
    assert x * d - y * d == (x - y) * d;
  }

  /** From the scaled values back to the values themselves, one unit being `1 / d`. */
  lemma LessThanOneUnitAbove(x: real, q: real, d: real)
    requires d > 0.0 && x * d < q * d + 1.0
    ensures x < q + 1.0 / d
  {
    var unit := 1.0 / d;
    Quotient(1.0, d);
    assert (q + unit) * d == q * d + unit * d;
    CancelFactor(x, q + unit, d);
  }

  lemma RoundingBrackets(time: real, d: real)
    requires d > 0.0
    ensures RoundedReading(time, false, d) <= time < RoundedReading(time, false, d) + 1.0 / d
    ensures time <= RoundedReading(time, true, d) < time + 1.0 / d
  {
    var down, up := RoundedReading(time, false, d), RoundedReading(time, true, d);
    ScaledReadings(time, d);
    CancelFactor(down, time, d);
    LessThanOneUnitAbove(time, down, d);
    CancelFactor(time, up, d);
    LessThanOneUnitAbove(up, time, d);
  }

  lemma ScaledReadings(time: real, d: real)
    requires d > 0.0
    ensures RoundedReading(time, false, d) * d <= time * d < RoundedReading(time, false, d) * d + 1.0
    ensures time * d <= RoundedReading(time, true, d) * d < time * d + 1.0
  {
    Quotient((time * d).Floor as real, d);
    Quotient(Ceiling(time * d) as real, d);
  }

  /** A rounded reading is within one unit of its last digit of the clock, on the side asked for. */
  lemma NowBrackets(time: real, places: nat)
    ensures Now(time, false, places) <= time < Now(time, false, places) + 1.0 / Divisor(places)
    ensures time <= Now(time, true, places) < time + 1.0 / Divisor(places)
  {
    RoundingBrackets(time, Divisor(places));
  }

  lemma Quotient(a: real, d: real)
    requires d > 0.0
    ensures (a / d) * d == a
  {
  }

  lemma Tenths(time: real)
    ensures FloorNow(time) == (10.0 * time).Floor as real / 10.0
    ensures CeilNow(time) == Ceiling(10.0 * time) as real / 10.0
  {
    assert Divisor(0) == 1.0 && Divisor(1) == 10.0;
    assert time * Divisor(1) == 10.0 * time;
  }

  /** The semaphore's two readings, in plain numbers. */
  lemma TenthsBracket(time: real)
    ensures FloorNow(time) <= time < FloorNow(time) + 0.1
    ensures time <= CeilNow(time) < time + 0.1
    ensures OnGrid(FloorNow(time)) && OnGrid(CeilNow(time))
  {
    Tenths(time);
    assert 10.0 * FloorNow(time) == (10.0 * time).Floor as real;
    assert 10.0 * CeilNow(time) == Ceiling(10.0 * time) as real;
  }

  /** Once the clock has reached a grid point, the floored reading has reached it too. */
  lemma FloorReachesGrid(time: real, point: real)
    requires OnGrid(point) && point <= time
    ensures point <= FloorNow(time)
  {
    Tenths(time);
    assert (10.0 * point).Floor <= (10.0 * time).Floor;
  }

  lemma GridIsClosed(x: real, y: real)
    requires OnGrid(x) && OnGrid(y)
    ensures OnGrid(x + y)
  {
    assert 10.0 * (x + y) == ((10.0 * x).Floor + (10.0 * y).Floor) as real;
  }

  function Max(x: real, y: real): real { if x < y then y else x }

  /**
   One global clock. It never runs backwards; how far it runs is up to the environment. `asked` adds up the
   seconds that its users asked to sleep.
   */
  class Clock {
    var time: real
    var asked: real

    constructor (start: real)
      ensures time == start && asked == 0.0
    {
      time, asked := start, 0.0;
    }

    /** Sleeping wakes up no earlier than asked for, and possibly much later. */
    method Sleep(seconds: real)
      modifies this
      ensures time >= old(time) + Max(0.0, seconds)
      ensures asked == old(asked) + Max(0.0, seconds)
    {
      asked := asked + Max(0.0, seconds);
      var late: real := *;
      time := time + Max(0.0, seconds) + Max(0.0, late);
    }
  }
}
