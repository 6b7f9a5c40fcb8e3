/**
 * `Math.random()`: the sequence of numbers it returns is a parameter of the
 * model, so every random choice of the source is a deterministic function of
 * that sequence and of how many numbers were drawn before it.
 */
module Randomness {

  /** A number `Math.random()` can return: in `[0, 1)`. */
  type Unit = r: real | 0.0 <= r < 1.0

  /** A draw `r` scaled by `n` and floored: one of `0 .. n-1`. */
  function Scaled(r: Unit, n: nat): (k: int)
    requires n > 0
    ensures 0 <= k < n
  {
    ScaledBelow(r, n);
    (r * n as real).Floor
  }

  lemma ScaledBelow(r: Unit, n: nat)
    requires n > 0
    ensures 0.0 <= r * n as real < n as real
  {
    assert r * n as real <= r * n as real;
  }

  /** The stream of numbers `Math.random()` returns, and how many were drawn. */
  class RandomSource {
    const values: nat -> Unit
    var drawn: nat

    constructor (values: nat -> Unit)
      ensures this.values == values && drawn == 0
    {
      this.values := values;
      drawn := 0;
    }

    /** `Math.random()`: the next number of the stream. */
    method Random() returns (r: Unit)
      modifies this
      ensures r == values(old(drawn)) && drawn == old(drawn) + 1
    {
      r := values(drawn);
      drawn := drawn + 1;
    }
  }
}
