/** The pseudo-random generator, reduced to a stream of draws in [0, 1). Every call
    to `random()` or `choice(...)` consumes the next draw of the stream. */
module Randomness {

  /** One draw of the generator, a real in [0, 1). */
  type Draw = u: real | 0.0 <= u < 1.0

  /** The draws the generator will produce, by position. */
  type Stream = nat -> Draw

  /** The index a draw `u` selects among `n` equally likely items. */
  function Pick(u: Draw, n: nat): (k: nat)
    requires n > 0
    ensures k < n
  {
    assert 0.0 <= u * n as real < n as real by {
      assert u * n as real <= 1.0 * n as real;
    }
    (u * n as real).Floor
  }

  /** The shared generator: a fixed stream and how much of it has been consumed. */
  class RandomSource {
    const stream: Stream
    var pos: nat

    constructor (stream: Stream)
      ensures this.stream == stream && pos == 0
    {
      this.stream := stream;
      pos := 0;
    }

    /** `random.random()`: the next draw. */
    method Random() returns (u: Draw)
      modifies this
      ensures u == stream(old(pos)) && pos == old(pos) + 1
    {
      u := stream(pos);
      pos := pos + 1;
    }

    /** `random.choice(items)`: the item the next draw selects. */
    method Choice<T>(items: seq<T>) returns (x: T)
      requires |items| > 0
      modifies this
      ensures x == items[Pick(stream(old(pos)), |items|)] && pos == old(pos) + 1
    {
      x := items[Pick(stream(pos), |items|)];
      pos := pos + 1;
    }
  }
}
