/** The datatypes that stand for the source's `undefined`/`null` results. */
module Wrappers {

  datatype Option<+T> = None | Some(value: T)
  {
    /** The `value ?? default` of the source. */
    function GetOr(default: T): T {
      match this
      case None => default
      case Some(v) => v
    }
  }
}
