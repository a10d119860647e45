/** Optional values, for Rust's `Option`. */
module Wrappers {

  datatype Option<+T> = None | Some(value: T)

  /** Smaller of two naturals, the length `zip` stops at. */
  function Min(a: nat, b: nat): (m: nat)
    ensures m <= a && m <= b && (m == a || m == b)
  {
    if a <= b then a else b
  }
}
