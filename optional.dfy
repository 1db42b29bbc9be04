/** A value that may be absent: the model of a JavaScript `undefined`/`null`. */
module Optional {

  datatype Option<+T> = None | Some(value: T) {

    /** The `??` operator: the value if present, else the fallback. */
    function GetOr(fallback: T): T {
      match this
      case Some(v) => v
      case None => fallback
    }
  }
}
