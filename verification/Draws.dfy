/**
 The random source as an oracle: each draw is any value in the range the caller
 asked for. What is proved of a method that draws holds for every sequence of draws.
 */
module Draws {
  method Uniform(low: real, high: real) returns (x: real)
    ensures low <= high ==> low <= x <= high
  {
    x := *;
    if x < low {
      x := low;
    } else if high < x {
      x := high;
    }
  }

  /** A quantity scaled by a factor drawn between two bounds. */
  method Scaled(whole: real, low: real, high: real) returns (x: real)
    requires whole >= 0.0 && low <= high
    ensures low * whole <= x <= high * whole
  {
    var factor := Uniform(low, high);
    x := whole * factor;
    assert whole * (factor - low) >= 0.0 && whole * (high - factor) >= 0.0;
  }

  method Below(n: nat) returns (i: nat)
    requires n > 0
    ensures i < n
  {
    i := *;
    if i >= n {
      i := 0;
    }
  }

  method Between(low: int, high: int) returns (i: int)
    requires low <= high
    ensures low <= i <= high
  {
    i := *;
    if i < low || high < i {
      i := low;
    }
  }
}
