/** Small helpers shared by the whole model. */
module Basics {

  /** A value that may be missing: `Some(value)` or `None`, mirroring Rust's `Option<T>`. */
  datatype Option<+T> = None | Some(value: T) {

    /** The wrapped value, or `default` when there is none (Rust's `unwrap_or`). */
    function GetOr(default: T): (r: T) {
      match this
      case Some(v) => v
      case None => default
    }
  }

  /** The smaller of two integers (Rust's `Ord::min`). */
  function Min(a: int, b: int): (m: int)
    ensures m <= a && m <= b
    ensures m == a || m == b
  {
    if a <= b then a else b
  }

  /** The first `n` elements of `s`, or all of `s` when it is shorter. */
  function Take<T>(n: nat, s: seq<T>): (r: seq<T>)
    ensures |r| == Min(n, |s|)
    ensures r <= s
  {
    if n <= |s| then s[..n] else s
  }
}
