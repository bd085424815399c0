/** The nullable value of a table cell: polars' null is `None`. */
module Options {

  datatype Option<+T> = None | Some(value: T) {

    /** The value, or `default` for a null cell. */
    function GetOr(default: T): T {
      match this
      case Some(v) => v
      case None => default
    }
  }
}
