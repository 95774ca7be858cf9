/** A value that may be absent: the engine's nullable singletons (the shooting
    star) and the answers of lookups that can miss. */
module Options {

  datatype Option<+T> = None | Some(value: T) {

    /** The carried value, or `default` when there is none. */
    function GetOr(default: T): T {
      match this
      case Some(v) => v
      case None => default
    }
  }
}
