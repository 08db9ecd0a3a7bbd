/** The stopwatch: milliseconds since the last start, computed on the seconds
    and microseconds of a timeval with a borrow. */
module Stopwatch {

  datatype TimeVal = TimeVal(sec: int, usec: int)

  predicate Normal(t: TimeVal) {
    0 <= t.usec < 1_000_000
  }

  /** The time as one number. */
  function Micros(t: TimeVal): int {
    t.sec * 1_000_000 + t.usec
  }

  class Watch {
    var tv1: TimeVal

    constructor (now: TimeVal)
      ensures tv1 == now
    {
      tv1 := now;
    }

    /** stopwatch_start */
    method Start(now: TimeVal)
      modifies this
      ensures tv1 == now
    {
      tv1 := now;
    }

    /** stopwatch_watch: whatever borrow is taken, the result is the floor of
        the elapsed microseconds over a thousand, also when the clock was set
        back. */
    method Elapsed(now: TimeVal) returns (ms: int)
      requires Normal(tv1) && Normal(now)
      ensures ms == (Micros(now) - Micros(tv1)) / 1000
    {
      var sec := now.sec - tv1.sec;
      var usec := now.usec - tv1.usec;
      if usec < 0 {
        sec := sec - 1;
        usec := usec + 1_000_000;
      }
      ms := sec * 1000 + usec / 1000;
    }
  }

  /** The elapsed time never runs backwards, and a limit in milliseconds is
      passed exactly when the next whole millisecond is complete. */
  lemma ElapsedAgainstLimit(start: TimeVal, t: TimeVal, u: TimeVal, limit: int)
    requires Micros(t) <= Micros(u)
    ensures (Micros(t) - Micros(start)) / 1000 <= (Micros(u) - Micros(start)) / 1000
    ensures (Micros(t) - Micros(start)) / 1000 > limit <==> Micros(t) - Micros(start) >= (limit + 1) * 1000
  {
  }
}
