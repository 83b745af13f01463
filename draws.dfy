/** The random stream the generator reads, made an explicit input.

    `rng(k)` is the raw outcome of the k-th call into Python's `random` module
    (counting from 0 after `random.seed`). How each kind of call turns a raw
    outcome into its value is fixed here; the distributions themselves
    (uniformity, the normal shape of `gauss`) are not modelled. */
module Draws {

  type Rng = nat -> int

  /** `random.randint(lo, hi)`. */
  function RandInt(x: int, lo: int, hi: int): (r: int)
    requires lo <= hi
    ensures lo <= r <= hi
  {
    lo + x % (hi - lo + 1)
  }

  /** `random.choice(options)`. */
  function Choice<T>(x: int, options: seq<T>): (r: T)
    requires |options| > 0
    ensures r in options
  {
    options[x % |options|]
  }

  /** `random.random() < perMille / 1000`: the outcome of a biased coin. */
  predicate Below(x: int, perMille: nat): (heads: bool)
    ensures perMille >= 1000 ==> heads
    ensures perMille == 0 ==> !heads
  {
    x % 1000 < perMille
  }
}
