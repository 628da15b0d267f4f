/** Optional values and the outcome of a call into a search provider. */
module Wrappers {

  /** A value that may be absent: a missing key or attribute, or Python's None. */
  datatype Option<+T> = None | Some(value: T) {

    /** The value, or `default` when absent (`dict.get(key, default)`, `getattr(obj, name, default)`). */
    function GetOr(default: T): T {
      match this
      case Some(v) => v
      case None => default
    }
  }

  /**
   * What a call into a provider (an HTTP request, an SDK call, parsing its
   * JSON) gives back: a value, or the text of the exception it raised.
   */
  datatype Outcome<+T> = Ok(value: T) | Err(msg: string)
}
