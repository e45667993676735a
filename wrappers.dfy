/** Optional values and error-carrying results shared by every module. */
module Wrappers {
  datatype Option<T> = None | Some(value: T)

  /** The outcome of an operation that may fail with an error of type E. */
  datatype Result<T, E> = Ok(value: T) | Err(error: E)

  /**
   * One key of a request's `Map<String, Object>`: missing, mapped to null,
   * or mapped to a value of the expected type.
   */
  datatype Entry<T> = Absent | Null | Present(value: T)

  /** `map.get(key)`: a missing key and a null value both read as null. */
  function Get<T>(e: Entry<T>): (r: Option<T>)
    ensures r.Some? <==> e.Present?
    ensures r.Some? ==> r.value == e.value
  {
    if e.Present? then Some(e.value) else None
  }

  /** A nullable column under `if (map.containsKey(k)) set(map.get(k))`. */
  function PatchNullable<T>(prev: Option<T>, e: Entry<T>): (r: Option<T>)
    ensures e.Absent? ==> r == prev
    ensures !e.Absent? ==> r == Get(e)
  {
    if e.Absent? then prev else Get(e)
  }

  /**
   * A non-null column under `if (map.containsKey(k)) set(map.get(k))`; a
   * present null is refused when the row is saved, so it never reaches here.
   */
  function Patch<T>(prev: T, e: Entry<T>): (r: T)
    ensures e.Present? ==> r == e.value
    ensures !e.Present? ==> r == prev
  {
    if e.Present? then e.value else prev
  }
}
