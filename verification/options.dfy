/** The optional value used throughout the model for `undefined`-or-value,
    for "this call throws", and for `NaN` results of arithmetic on dates. */
module Options {

  datatype Option<+T> = None | Some(value: T) {

    /** The value, or `default` when there is none. */
    function GetOr(default: T): T {
      match this
      case Some(v) => v
      case None => default
    }
  }
}
