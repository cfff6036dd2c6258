/** Optional values: the model of a TypeScript field declared with `?`. */
module Wrappers {

  /** `None` stands for an absent (`undefined`) value, `Some(v)` for a present one. */
  datatype Option<+T> = None | Some(value: T) {

    /** The value, or `default` when absent: TypeScript's `value ?? default`. */
    function GetOr(default: T): (r: T)
      ensures Some? ==> r == value
      ensures None? ==> r == default
    {
      match this
      case Some(v) => v
      case None => default
    }
  }
}
