/** Option and Result: the model's stand-ins for Java's nullable references
    and for operations that may throw. */
module Wrappers {

  /** A nullable reference: None is Java's null. */
  datatype Option<+T> = None | Some(value: T) {

    /** The wrapped value, or the given default when this is None. */
    function GetOr(default: T): T {
      match this
      case Some(v) => v
      case None => default
    }
  }

  /** The outcome of a call that either returns a value or throws. */
  datatype Result<+R, +E> = Success(value: R) | Failure(error: E) {

    /** Turns a thrown error into null, as a catch block returning null does. */
    function ToOption(): Option<R> {
      match this
      case Success(v) => Some(v)
      case Failure(_) => None
    }
  }

  /** Java's Map.get on a Map whose absent keys read as null. */
  function Lookup<K, V>(m: map<K, V>, k: K): (r: Option<V>)
    ensures r.Some? <==> k in m
    ensures r.Some? ==> r.value == m[k]
  {
    if k in m then Some(m[k]) else None
  }
}
