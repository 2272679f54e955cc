/** Shared by every module: options, results, the fixed-width integers of the client, and a little real arithmetic. */
module Prelude {

  datatype Option<+T> = None | Some(value: T)

  datatype Result<+T, +E> = Ok(value: T) | Err(error: E)

  const TWO_8 := 0x100
  const TWO_16 := 0x1_0000
  const TWO_64 := 0x1_0000_0000_0000_0000

  type byte = x: int | 0 <= x < TWO_8
  type uint16 = x: int | 0 <= x < TWO_16
  /** Go's int. */
  type int64 = x: int | -0x8000_0000_0000_0000 <= x < 0x8000_0000_0000_0000
  type uint64 = x: int | 0 <= x < TWO_64

  /** uint64 addition: wraps modulo 2^64. */
  function Add64(a: uint64, b: uint64): uint64 {
    (a + b) % TWO_64
  }

  /** uint64 subtraction: wraps modulo 2^64. */
  function Sub64(a: uint64, b: uint64): uint64 {
    (a - b) % TWO_64
  }

  /** Scaling keeps the order of reals. */
  lemma Stretch(a: real, b: real, c: real)
    requires a <= b && c > 0.0
    ensures a * c <= b * c
    ensures a < b ==> a * c < b * c
  {
  }

  predicate AddsAt(f: real -> real, a: real, b: real) {
    f(a + b) == f(a) + f(b)
  }

  /** A function that takes sums to sums. */
  ghost predicate Additive(f: real -> real) {
    f(0.0) == 0.0 && forall a, b :: AddsAt(f, a, b)
  }
}
