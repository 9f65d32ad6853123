/** Option, used for the source's `null` and `Infinity` sentinels. */
module Wrappers {
  datatype Option<T> = None | Some(value: T)
}

/** The source draws randomness with `Math.floor(Math.random() * n)`.
    A draw is modelled as an explicit real `u` with `0 <= u < 1`. */
module Chance {
  predicate IsDraw(u: real) { 0.0 <= u < 1.0 }

  /** `Math.floor(u * n)`: an index into a collection of `n` elements. */
  function RandomIndex(u: real, n: nat): (k: nat)
    requires IsDraw(u) && n > 0
    ensures k < n
  {
    ProductBounds(u, n);
    (u * n as real).Floor
  }

  lemma ProductBounds(u: real, n: nat)
    requires IsDraw(u) && n > 0
    ensures 0.0 <= u * n as real < n as real
  {
  }

  /** Every index is the image of some draw, so no candidate is excluded. */
  lemma EveryIndexReachable(n: nat, k: nat)
    requires k < n
    ensures IsDraw(k as real / n as real)
    ensures RandomIndex(k as real / n as real, n) == k
  {
    var u := k as real / n as real;
    assert u * n as real == k as real;
  }
}
