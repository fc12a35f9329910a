/** Optional values, standing for Java's nullable references and java.util.Optional. */
module Common {

  datatype Option<+T> = None | Some(value: T) {

    /** The value, or `default` when absent (Optional.orElse). */
    function GetOr(default: T): T {
      match this
      case Some(v) => v
      case None => default
    }
  }
}
