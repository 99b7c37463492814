/** An optional value: how the model represents a React prop the caller may omit. */
module Optional {

  datatype Option<+T> = None | Some(value: T) {

    /** The value, or the given default when it is absent (a destructuring default). */
    function GetOr(default: T): T {
      match this
      case Some(v) => v
      case None => default
    }
  }
}
