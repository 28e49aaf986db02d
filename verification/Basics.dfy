/** Shared result types and the numeric helpers of `packages/location-core/src/internal.ts`. */
module Basics {

  datatype Option<+T> = None | Some(value: T)

  /** A value, or the error the source throws or returns instead. */
  datatype Result<+T, +E> = Success(value: T) | Failure(error: E) {
    predicate IsFailure() {
      Failure?
    }

    function PropagateFailure<U>(): Result<U, E>
      requires Failure?
    {
      Failure(error)
    }

    function Extract(): T
      requires Success?
    {
      value
    }
  }

  type byte = b: int | 0 <= b < 256
  type Bytes = seq<byte>

  function Zeros(n: nat): (bs: Bytes)
    ensures |bs| == n && forall i :: 0 <= i < n ==> bs[i] == 0
  {
    seq(n, _ => 0)
  }

  /** A JavaScript number: a finite value (taken exactly), or NaN or an infinity. */
  datatype Num = Finite(value: real) | NonFinite

  datatype Range = Range(min: real, max: real)

  function Min(a: real, b: real): real {
    if a <= b then a else b
  }

  function Max(a: real, b: real): real {
    if a >= b then a else b
  }

  function Abs(a: real): real {
    if a >= 0.0 then a else -a
  }

  /** `Math.round`: to the nearest integer, halves upwards. */
  function Round(x: real): int {
    (x + 0.5).Floor
  }

  predicate Integral(x: real) {
    x == x.Floor as real
  }

  function FiniteOr(x: Option<Num>, fallback: real): real {
    if x.Some? && x.value.Finite? then x.value.value else fallback
  }

  /** Clamp into the range; a non-finite number collapses to the minimum. */
  function ClampInto(x: Num, range: Range): real {
    match x
    case NonFinite => range.min
    case Finite(v) => if v < range.min then range.min else if v > range.max then range.max else v
  }

  predicate Within(x: real, range: Range) {
    range.min <= x <= range.max
  }

  /** The point of the range that no other point of it is closer to `v` than. */
  ghost predicate Nearest(x: real, v: real, range: Range) {
    Within(x, range) && forall y: real :: Within(y, range) ==> Abs(x - v) <= Abs(y - v)
  }

  lemma ClampIsNearest(v: real, range: Range)
    requires range.min <= range.max
    ensures Nearest(ClampInto(Finite(v), range), v, range)
    ensures Nearest(Min(range.max, Max(range.min, v)), v, range)
  {
  }

  lemma {:induction false} SubsetSize<T>(a: set<T>, b: set<T>)
    requires a <= b
    ensures |a| <= |b|
  {
    if a != {} {
      var x :| x in a;
      SubsetSize(a - {x}, b - {x});
    }
  }
}
