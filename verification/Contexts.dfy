module Contexts {
  /** A context: once it is done it stays done. */
  class Context {
    var done: bool

    constructor ()
      ensures !done
    {
      done := false;
    }

    method Expired() returns (b: bool)
      modifies this
      ensures b == done && (old(done) ==> done)
    {
      if * {
        done := true;
      }
      b := done;
    }
  }

  /** The time, which only goes on. */
  class Clock {
    var now: int

    method Passes()
      modifies this
      ensures old(now) <= now
    {
      var d: int := *;
      if d > 0 {
        now := now + d;
      }
    }
  }
}
