/** Python's `None` / value pair, used for every stage result of the classifier. */
module Options {

  datatype Option<T> = None | Some(value: T) {

    /** The value, or `default` when there is none (Python's `dict.get(key, default)`). */
    function GetOr(default: T): T {
      match this
      case Some(v) => v
      case None => default
    }
  }
}
