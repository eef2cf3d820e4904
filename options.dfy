/** Nullable values of the Kotlin source (`T?`) become `Option<T>`. */
module Options {

  datatype Option<+T> = None | Some(value: T) {

    /** The Kotlin elvis operator `x ?: default`. */
    function OrElse(default: T): T {
      match this
      case Some(v) => v
      case None => default
    }
  }
}
