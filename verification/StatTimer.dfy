/** The timer that brackets every socket operation. */
module StatTimer {

  const MILLISECONDS_CONVERSION: nat := 1000
  const MICROSECONDS_CONVERSION: nat := 1_000_000
  const TWO32: nat := 0x1_0000_0000

  datatype Timeval = Timeval(sec: int, usec: int)

  const ZERO_TIME: Timeval := Timeval(0, 0)

  predicate Normalised(t: Timeval) {
    0 <= t.usec < MICROSECONDS_CONVERSION
  }

  function Micros(t: Timeval): int {
    t.sec * MICROSECONDS_CONVERSION + t.usec
  }

  /** The difference is computed in signed arithmetic and converted to 32 bits unsigned. */
  function Elapsed(start: Timeval, end: Timeval): nat {
    ((end.sec - start.sec) * MICROSECONDS_CONVERSION + (end.usec - start.usec)) % TWO32
  }

  class Timer {
    var start: Timeval
    var end: Timeval

    constructor ()
      ensures start == ZERO_TIME && end == ZERO_TIME
    {
      start, end := ZERO_TIME, ZERO_TIME;
    }

    method Initialize()
      modifies this
      ensures start == ZERO_TIME && end == ZERO_TIME
    {
      start, end := ZERO_TIME, ZERO_TIME;
    }

    /** `now` is the reading of gettimeofday. */
    method SetStartTime(now: Timeval)
      modifies this`start
      ensures start == now
    {
      start := now;
    }

    method SetEndTime(now: Timeval)
      modifies this`end
      ensures end == now
    {
      end := now;
    }

    method GetMicroSeconds() returns (us: nat)
      ensures us == (Micros(end) - Micros(start)) % TWO32
    {
      us := Elapsed(start, end);
    }

    method GetMilliSeconds() returns (ms: nat)
      ensures ms * 1000 <= Elapsed(start, end) < (ms + 1) * 1000
    {
      ms := Elapsed(start, end) / MILLISECONDS_CONVERSION;
    }

    method GetSeconds() returns (s: nat)
      ensures s * 1_000_000 <= Elapsed(start, end) < (s + 1) * 1_000_000
    {
      s := Elapsed(start, end) / MICROSECONDS_CONVERSION;
    }
  }

  /** Exact below 2^32 microseconds, also when the microsecond field has to borrow. */
  lemma ElapsedExact(start: Timeval, end: Timeval)
    requires Normalised(start) && Normalised(end) && Micros(start) <= Micros(end)
    ensures Elapsed(start, end) == (Micros(end) - Micros(start)) % TWO32
    ensures Elapsed(start, end) == Micros(end) - Micros(start) <==> Micros(end) - Micros(start) < TWO32
    ensures start.sec <= end.sec
  {
    var d := Micros(end) - Micros(start);
    assert d == (end.sec - start.sec) * MICROSECONDS_CONVERSION + (end.usec - start.usec);
    if d >= TWO32 {
      assert Elapsed(start, end) < TWO32;
    }
  }

  /** Adjacent intervals add up modulo 2^32. */
  lemma ElapsedAdds(a: Timeval, b: Timeval, c: Timeval)
    ensures (Elapsed(a, b) + Elapsed(b, c)) % TWO32 == Elapsed(a, c)
  {
    var x := Micros(b) - Micros(a);
    var y := Micros(c) - Micros(b);
    assert Elapsed(a, b) == x % TWO32 && Elapsed(b, c) == y % TWO32 && Elapsed(a, c) == (x + y) % TWO32;
    ModAdds(x, y);
  }

  lemma ModAdds(x: int, y: int)
    ensures (x % TWO32 + y % TWO32) % TWO32 == (x + y) % TWO32
  {
    var q := x / TWO32 + y / TWO32;
    var r := x % TWO32 + y % TWO32;
    assert x + y == q * TWO32 + r;
    assert (x + y) % TWO32 == r % TWO32;
  }

  // --- Readings of the clock

  /** The two timestamps of a timer. */
  datatype Reading = Reading(start: Timeval, end: Timeval)

  /** What gettimeofday stores when the clock shows `now` microseconds. */
  function Stamp(now: nat): (t: Timeval)
    ensures Normalised(t) && Micros(t) == now
  {
    Timeval(now / MICROSECONDS_CONVERSION, now % MICROSECONDS_CONVERSION)
  }

  /** GetMicroSeconds of a reading. */
  function Shown(r: Reading): nat {
    Elapsed(r.start, r.end)
  }

  /** Two stamps show the time between them modulo 2^32; a start without an end shows minus
      the start, which is 0 only if the clock was a multiple of 2^32. */
  lemma ShownStamps(from: nat, to: nat)
    ensures Shown(Reading(Stamp(from), Stamp(to))) == (to - from) % TWO32
    ensures Shown(Reading(Stamp(from), ZERO_TIME)) == -(from as int) % TWO32
    ensures Shown(Reading(Stamp(from), ZERO_TIME)) == 0 <==> from % TWO32 == 0
  {
    var r := Reading(Stamp(from), ZERO_TIME);
    assert (r.end.sec - r.start.sec) * MICROSECONDS_CONVERSION + (r.end.usec - r.start.usec) == -(from as int);
    ModAdds(from, -(from as int));
  }
}
