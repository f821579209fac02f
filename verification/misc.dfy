/** `megane.utils.misc.with_batch_mode`: a decorator that lets a function be
    called on one value, or with `batch=True` on a list of values. The extra
    positional and keyword arguments are bundled into one value `args`. */
module Misc {

  /** How the wrapped function is called: on one value (`batch=False`, the
      default) or on a list of values (`batch=True`). */
  datatype Call<X> = Single(x: X) | Batched(xs: seq<X>)

  /** What the wrapped function returns: `f`'s own result, or a list of them. */
  datatype Outcome<Y> = Value(value: Y) | Values(values: seq<Y>)

  /** `[f(x_i, *a, **k) for x_i in x]`, computed element by element. */
  function Batch<X, A, Y>(f: (X, A) -> Y, xs: seq<X>, args: A): (r: seq<Y>)
    ensures |r| == |xs|
    ensures forall i :: 0 <= i < |xs| ==> r[i] == f(xs[i], args)
  {
    if |xs| == 0 then []
    else Batch(f, xs[..|xs| - 1], args) + [f(xs[|xs| - 1], args)]
  }

  /** The function `with_batch_mode(f)` returns, applied to `call` and to the
      extra arguments `args`. */
  function Wrapped<X, A, Y>(f: (X, A) -> Y, call: Call<X>, args: A): (r: Outcome<Y>)
    ensures call.Single? ==> r == Value(f(call.x, args))
    ensures call.Batched? ==> r.Values? && |r.values| == |call.xs|
    ensures call.Batched? ==> forall i :: 0 <= i < |call.xs| ==> r.values[i] == f(call.xs[i], args)
  {
    match call
    case Single(x) => Value(f(x, args))
    case Batched(xs) => Values(Batch(f, xs, args))
  }

  /** Batch mode over an empty list returns an empty list, and over a
      one-element list returns the single call's result in a list. */
  lemma BatchSmall<X, A, Y>(f: (X, A) -> Y, x: X, args: A)
    ensures Wrapped(f, Batched([]), args) == Values([])
    ensures Wrapped(f, Batched([x]), args) == Values([Wrapped(f, Single(x), args).value])
  {
  }
}
