/** The engine's pseudo-random number utility (`util::Random`).

    A single global engine (a 32-bit Mersenne Twister, `std::mt19937`, in `Random.cpp`) is
    seeded, drawn from and advanced.  The engine itself is abstract here: it
    is a function `engine(seed, k)` giving the k-th raw 32-bit draw of the
    stream started from `seed`, and the engine object only remembers which
    seed it was started from and how many draws it has consumed.  What is
    modelled exactly is the reduction of each raw draw into the range the
    caller asked for. */
module Random {

  /** Largest value `Random::next()` returns; every raw draw is masked with it
      (INT_MAX, the value the header `utils/Random.h` gives it). */
  const MaxValue: int := 0x7FFF_FFFF

  /** Seed of a default-constructed 32-bit Mersenne Twister engine. */
  const DefaultSeed: nat := 5489

  /** The raw range of the engine: its draws are unsigned 32-bit values. */
  const RawMax: int := 0xFFFF_FFFF

  /** A raw engine draw: an unsigned 32-bit value. */
  type Raw = x: int | 0 <= x <= RawMax

  function Abs(x: int): int { if x < 0 then -x else x }

  /** C++ `%` on `int`: the quotient is truncated toward zero, so the
      remainder takes the sign of the dividend (unlike Dafny's `%`). */
  function CRem(a: int, b: int): (r: int)
    requires b != 0
    ensures -Abs(b) < r < Abs(b)
    ensures a >= 0 ==> r >= 0
    ensures a <= 0 ==> r <= 0
    ensures Abs(r) == Abs(a) % Abs(b)
  {
    if a >= 0 then a % Abs(b) else -((-a) % Abs(b))
  }

  /** `m_rng() & Random::MAX_VALUE`: a raw draw with its top bit cleared.
      MAX_VALUE is 2^31 - 1, so the mask keeps the low 31 bits, that is the
      draw modulo 2^31. */
  function Masked(raw: Raw): (r: int)
    ensures 0 <= r <= MaxValue
    ensures raw <= MaxValue ==> r == raw
    ensures raw > MaxValue ==> r == raw - (MaxValue + 1)
  {
    raw % (MaxValue + 1)
  }

  /** `Random::next(modulus)`: reduce a masked draw into `[0, modulus)`. */
  function ReduceModulus(draw: int, modulus: int): (r: int)
    requires 0 <= draw && modulus > 1
    ensures 0 <= r < modulus
    ensures r == draw % modulus
    ensures draw < modulus ==> r == draw
  {
    var r := CRem(draw, modulus);
    assert draw < modulus ==> r == draw by {
      if draw < modulus { SmallRemainder(draw, modulus); }
    }
    r
  }

  lemma SmallRemainder(a: int, m: int)
    requires 0 <= a < m
    ensures a % m == a
  {
    assert a == 0 * m + a;
  }

  /** `Random::next(low, high)`: reduce a masked draw into `[low, high]`.
      The range `high - low + 1` must be positive, as `Random.cpp` asserts. */
  function ReduceRange(draw: int, low: int, high: int): (r: int)
    requires 0 <= draw && high - low + 1 > 0
    ensures low <= r <= high
    ensures r - low == draw % (high - low + 1)
    ensures low == high ==> r == low
  {
    low + CRem(draw, high - low + 1)
  }

  /** The global engine object (`RandomImpl`): which seed started the current
      stream and how many raw draws have been consumed from it. */
  class RandomImpl {
    /** `engine(s, k)` is draw k (counting from 0) of the stream seeded with s. */
    const engine: (nat, nat) -> Raw
    var seed: nat
    var position: nat

    /** Draw k of the current stream, masked as `next()` returns it. */
    function Peek(k: nat): (r: int)
      reads this
      ensures 0 <= r <= MaxValue
    {
      Masked(engine(seed, position + k))
    }

    constructor (engine: (nat, nat) -> Raw)
      ensures this.engine == engine
      ensures seed == DefaultSeed && position == 0
    {
      this.engine := engine;
      seed := DefaultSeed;
      position := 0;
    }

    /** `RandomImpl::seed`: restart the stream from `val`. */
    method Seed(val: nat)
      requires val <= RawMax
      modifies this
      ensures seed == val && position == 0
    {
      seed := val;
      position := 0;
    }

    /** `RandomImpl::next`: consume exactly one raw draw and mask it. */
    method Next() returns (r: int)
      modifies this
      ensures r == old(Peek(0))
      ensures 0 <= r <= MaxValue
      ensures seed == old(seed) && position == old(position) + 1
    {
      r := Masked(engine(seed, position));
      position := position + 1;
    }

    /** `RandomImpl::advance`: discard `distance` raw draws. */
    method Advance(distance: nat)
      modifies this
      ensures seed == old(seed) && position == old(position) + distance
      ensures forall k: nat :: Peek(k) == old(Peek(distance + k))
    {
      position := position + distance;
    }
  }

  /** `Random::seed`: the value must be positive, as `Random.cpp` asserts. */
  method Seed(rng: RandomImpl, val: nat)
    requires 0 < val <= RawMax
    modifies rng
    ensures rng.seed == val && rng.position == 0
    ensures forall k: nat :: rng.Peek(k) == Masked(rng.engine(val, k))
  {
    rng.Seed(val);
  }

  /** `Random::next()`: one draw in `[0, MaxValue]`. */
  method Next(rng: RandomImpl) returns (r: int)
    modifies rng
    ensures 0 <= r <= MaxValue
    ensures r == old(rng.Peek(0))
    ensures rng.seed == old(rng.seed) && rng.position == old(rng.position) + 1
  {
    r := rng.Next();
  }

  /** `Random::next(modulus)`: one draw reduced into `[0, modulus)`. */
  method NextModulus(rng: RandomImpl, modulus: int) returns (r: int)
    requires modulus > 1
    modifies rng
    ensures 0 <= r < modulus
    ensures r == ReduceModulus(old(rng.Peek(0)), modulus)
    ensures rng.seed == old(rng.seed) && rng.position == old(rng.position) + 1
  {
    var d := Next(rng);
    r := CRem(d, modulus);
  }

  /** `Random::next(low, high)`: one draw reduced into `[low, high]`. */
  method NextRange(rng: RandomImpl, low: int, high: int) returns (r: int)
    requires high - low + 1 > 0
    modifies rng
    ensures low <= r <= high
    ensures r == ReduceRange(old(rng.Peek(0)), low, high)
    ensures rng.seed == old(rng.seed) && rng.position == old(rng.position) + 1
  {
    var range := high - low + 1;
    var d := rng.Next();
    r := low + CRem(d, range);
  }

  /** `Random::advance`: skip `distance` draws. */
  method Advance(rng: RandomImpl, distance: nat)
    modifies rng
    ensures rng.seed == old(rng.seed) && rng.position == old(rng.position) + distance
    ensures forall k: nat :: rng.Peek(k) == old(rng.Peek(distance + k))
  {
    rng.Advance(distance);
  }

  /** Two engines over the same stream, seeded alike, produce the same draws;
      after `advance(d)` the next draw is draw d of the fresh stream. */
  method SeedAdvanceNext(a: RandomImpl, b: RandomImpl, val: nat, d: nat) returns (x: int, y: int)
    requires a != b && a.engine == b.engine
    requires 0 < val <= RawMax
    modifies a, b
    ensures x == y == Masked(a.engine(val, d))
  {
    Seed(a, val);
    Seed(b, val);
    Advance(a, d);
    x := Next(a);
    var skipped := 0;
    while skipped < d
      invariant 0 <= skipped <= d
      invariant b.seed == val && b.position == skipped
      invariant a.seed == val && a.position == d + 1
    {
      var _ := Next(b);
      skipped := skipped + 1;
    }
    y := Next(b);
  }
}
