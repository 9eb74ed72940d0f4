/** The nullable values of the source (Kotlin `T?`) and its elvis operator `?:`. */
module Options {

  datatype Option<+T> = None | Some(value: T) {

    /** Kotlin `x ?: default`. */
    function GetOr(default: T): T {
      match this
      case Some(v) => v
      case None => default
    }

    /** Kotlin `x ?: y` with a nullable right-hand side. */
    function OrElse(other: Option<T>): Option<T> {
      if Some? then this else other
    }
  }
}
