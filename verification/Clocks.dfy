/** The wall clock every operation reads: it never goes back, and nothing else is known about it. */
module Clocks {
  class Clock {
    var now: real

    constructor (start: real)
      ensures now == start
    {
      now := start;
    }

    method Read() returns (t: real)
      modifies this
      ensures now == t && old(now) <= t
    {
      t := *;
      if t < now {
        t := now;
      }
      now := t;
    }
  }
}
