// The random source both DFO engines draw from (numpy's global generator in
// the source: np.random.rand and np.random.uniform). The model injects it as
// an object; only the ranges of its draws matter to the proofs, so any
// generator with the same ranges would do. The linear congruential step below
// merely gives the methods a body; it is not numpy's algorithm.
module RandomSource {

  const Modulus: nat := 0x8000_0000
  const Multiplier: nat := 1103515245
  const Increment: nat := 12345

  class Rng {
    var state: nat

    ghost predicate Valid()
      reads this
    {
      state < Modulus
    }

    constructor (seed: nat)
      ensures Valid()
    {
      state := seed % Modulus;
    }

    /** np.random.rand(): a draw in [0, 1). */
    method Rand() returns (r: real)
      requires Valid()
      modifies this
      ensures Valid()
      ensures 0.0 <= r < 1.0
    {
      state := (Multiplier * state + Increment) % Modulus;
      r := (state as real) / (Modulus as real);
    }

    /** np.random.uniform(lo, hi): a draw in [lo, hi] (in [lo, hi) when lo < hi). */
    method Uniform(lo: real, hi: real) returns (u: real)
      requires Valid() && lo <= hi
      modifies this
      ensures Valid()
      ensures lo <= u <= hi
    {
      var r := Rand();
      var width := hi - lo;
      assert 0.0 <= width * r <= width by {
        assert width * (1.0 - r) >= 0.0;
      }
      u := lo + width * r;
    }
  }
}
