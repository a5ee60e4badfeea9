/** A value that may be absent: stands for a Java reference that may be null. */
module Optional {

  datatype Option<+T> = None | Some(value: T) {

    /** The value, or the given default when absent */
    function GetOr(default: T): T {
      match this
      case Some(v) => v
      case None => default
    }
  }
}
