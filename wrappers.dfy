/** Failure-carrying values shared by the whole model: an optional value
    (JavaScript's `null`/`undefined`), a success-or-error result, and the
    two kinds of value a `catch` clause can receive. */
module Wrappers {

  datatype Option<+T> = None | Some(value: T) {
    /** The value, or `default` when absent (JavaScript's `??`). */
    function GetOr(default: T): (r: T)
      ensures Some? ==> r == value
      ensures None? ==> r == default
    {
      match this
      case Some(v) => v
      case None => default
    }
  }

  datatype Result<+R, +E> = Success(value: R) | Failure(error: E)

  /** Pass or fail without a value (a `void` function that may throw). */
  datatype Outcome<+E> = Pass | Fail(error: E)

  /** What a `catch (error)` clause receives: an `Error` object carrying a
      message, or any other thrown value. */
  datatype Thrown = ErrorThrown(message: string) | NonErrorThrown

  /** Looks a key up in a map, giving `None` for a missing key. */
  function Lookup<K, V>(m: map<K, V>, k: K): (r: Option<V>)
    ensures r.Some? <==> k in m
    ensures r.Some? ==> r.value == m[k]
  {
    if k in m then Some(m[k]) else None
  }
}
