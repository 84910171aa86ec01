/** Optional values, shared by the records and the number formatter. */
module Options {

  /** An optional value: absent, or present with a value. */
  datatype Option<T> = None | Some(value: T) {

    /** The contained value, or `default` when absent (the `??` operator). */
    function GetOr(default: T): T {
      match this
      case Some(v) => v
      case None => default
    }
  }
}
