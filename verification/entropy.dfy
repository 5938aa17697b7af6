/** The random source of the password generator, modelled as an oracle.

    The generator asks its `math/rand` source for numbers through `Intn(n)`,
    which promises a value in `[0, n)` and panics when `n <= 0`. Here the
    source is a finite tape of the values it will hand out, consumed from the
    front. A tape that runs out, or whose next value breaks the `[0, n)`
    promise, ends the draw with `None`.
 */
module Entropy {
  import opened Wrappers

  /** The values the random source will return, in order. */
  type Tape = seq<int>

  /** One value taken from the tape, with what is left of it. */
  datatype Draw = Draw(value: nat, rest: Tape)

  /** `rand.Intn(n)`: the next value of the tape, provided it honours the
      `[0, n)` contract. Exactly one value is consumed. */
  function Intn(n: int, tape: Tape): (r: Option<Draw>)
    requires n > 0
    ensures r.Some? ==> r.value.value < n && |r.value.rest| == |tape| - 1
    ensures r.Some? ==> tape == [r.value.value] + r.value.rest
    ensures r.None? <==> |tape| == 0 || !(0 <= tape[0] < n)
  {
    if |tape| > 0 && 0 <= tape[0] < n then Some(Draw(tape[0], tape[1..])) else None
  }
}
