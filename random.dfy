/**
 * `Rng` (`random.rs`): the splitmix64 generator on a `u64` state. The
 * additions and multiplications wrap modulo 2^64, as in a build without
 * overflow checks.
 */
module Random {
  import opened Ints

  /** The increment added to the state on every draw. */
  const GOLDEN_GAMMA: u64 := 0x9e3779b97f4a7c15

  /** `a + b` on `u64`, wrapping. */
  function WrappingAdd(a: u64, b: u64): (r: u64)
    ensures r == if a + b < U64_LIMIT then a + b else a + b - U64_LIMIT
  {
    (a + b) % U64_LIMIT
  }

  /** `a * b` on `u64`, wrapping. */
  function WrappingMul(a: u64, b: u64): u64
  {
    (a * b) % U64_LIMIT
  }

  /** `z ^ (z >> shift)`. */
  function XorShift(z: u64, shift: nat): u64
    requires shift < 64
  {
    var b := z as bv64;
    (b ^ (b >> shift)) as int
  }

  /** The output of a draw: a fixed mixing function of the new state. */
  function Mix(state: u64): u64
  {
    var z1 := WrappingMul(XorShift(state, 30), 0xbf58476d1ce4e5b9);
    var z2 := WrappingMul(XorShift(z1, 27), 0x94d049bb133111eb);
    XorShift(z2, 31)
  }

  /** The state after `k` draws from `seed`. */
  function StateAfter(seed: u64, k: nat): u64
  {
    if k == 0 then seed else WrappingAdd(StateAfter(seed, k - 1), GOLDEN_GAMMA)
  }

  /** The first `k` values of `output` applied to the states that follow `seed`. */
  function Outputs(output: u64 -> u64, seed: u64, k: nat): (r: seq<u64>)
    ensures |r| == k
    ensures forall i :: 0 <= i < k ==> r[i] == output(StateAfter(seed, i + 1))
  {
    if k == 0 then [] else Outputs(output, seed, k - 1) + [output(StateAfter(seed, k))]
  }

  /** The first `k` outputs from `seed`. */
  function Draws(seed: u64, k: nat): seq<u64>
  {
    Outputs(Mix, seed, k)
  }

  /** The state after `k` draws is the seed plus `k` increments, modulo 2^64. */
  lemma {:induction false} StateAfterClosedForm(seed: u64, k: nat)
    ensures StateAfter(seed, k) == (seed + k * GOLDEN_GAMMA) % U64_LIMIT
  {
    if k > 0 {
      StateAfterClosedForm(seed, k - 1);
      var before := seed + (k - 1) * GOLDEN_GAMMA;
      ModAddStep(before, GOLDEN_GAMMA);
      assert before + GOLDEN_GAMMA == seed + k * GOLDEN_GAMMA;
    }
  }

  lemma ModAddStep(x: int, c: int)
    requires x >= 0
    ensures (x % U64_LIMIT + c) % U64_LIMIT == (x + c) % U64_LIMIT
  {
    var q := x / U64_LIMIT;
    assert x == q * U64_LIMIT + x % U64_LIMIT;
    ModMultiple(x % U64_LIMIT + c, q);
  }

  lemma ModMultiple(y: int, q: int)
    ensures (y + q * U64_LIMIT) % U64_LIMIT == y % U64_LIMIT
  {
  }

  lemma {:induction false} StateAfterSplit(seed: u64, a: nat, b: nat)
    ensures StateAfter(seed, a + b) == StateAfter(StateAfter(seed, a), b)
  {
    if b > 0 {
      StateAfterSplit(seed, a, b - 1);
    }
  }

  lemma {:induction false} OutputsSplit(output: u64 -> u64, seed: u64, a: nat, b: nat)
    ensures Outputs(output, seed, a + b) == Outputs(output, seed, a) + Outputs(output, StateAfter(seed, a), b)
  {
    if b > 0 {
      OutputsSplit(output, seed, a, b - 1);
      StateAfterSplit(seed, a, b);
    }
  }

  /** Drawing `a + b` values is drawing `a`, then `b` from where that left off. */
  lemma DrawsSplit(seed: u64, a: nat, b: nat)
    ensures Draws(seed, a + b) == Draws(seed, a) + Draws(StateAfter(seed, a), b)
  {
    OutputsSplit(Mix, seed, a, b);
  }

  /** Draw `i` is the mix of the state after `i + 1` steps. */
  lemma DrawsAt(seed: u64, k: nat, i: nat)
    requires i < k
    ensures |Draws(seed, k)| == k
    ensures Draws(seed, k)[i] == Mix(StateAfter(seed, i + 1))
  {
  }

  class Rng {
    var state: u64

    /** `Rng::new`: the seed is the initial state. */
    constructor (seed: u64)
      ensures state == seed
    {
      state := seed;
    }

    /** `next`: advances the state by the increment and returns its mix. */
    method Next() returns (r: u64)
      modifies this
      ensures state == WrappingAdd(old(state), GOLDEN_GAMMA)
      ensures r == Mix(state)
    {
      state := WrappingAdd(state, GOLDEN_GAMMA);
      var z := state;
      z := WrappingMul(XorShift(z, 30), 0xbf58476d1ce4e5b9);
      z := WrappingMul(XorShift(z, 27), 0x94d049bb133111eb);
      r := XorShift(z, 31);
    }
  }

  /**
   * `count` successive draws: the generator's stream from the current
   * state, so equal states give equal draws.
   */
  method DrawMany(rng: Rng, count: nat) returns (values: seq<u64>)
    modifies rng
    ensures values == Draws(old(rng.state), count)
    ensures rng.state == StateAfter(old(rng.state), count)
  {
    values := [];
    var i := 0;
    while i < count
      invariant 0 <= i <= count
      invariant values == Draws(old(rng.state), i)
      invariant rng.state == StateAfter(old(rng.state), i)
    {
      var v := rng.Next();
      values := values + [v];
      i := i + 1;
    }
  }
}
