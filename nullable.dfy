/** Java's boxed, nullable values: `None` stands for `null`. */
module Nullable {

  datatype Option<+T> = None | Some(value: T) {

    /** The value, or `default` when this is `null`. */
    function GetOr(default: T): T {
      match this
      case Some(v) => v
      case None => default
    }
  }

  /** `patch` when it is non-null, otherwise `current`: how a partial update copies one field. */
  function Overlay<T>(current: Option<T>, patch: Option<T>): (r: Option<T>)
    ensures patch.Some? ==> r == patch
    ensures patch.None? ==> r == current
  {
    if patch.Some? then patch else current
  }
}
