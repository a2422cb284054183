/** A value that may be absent: JavaScript's `undefined` for a missing
    property, or a reply that never came. */
module Wrappers {

  datatype Option<+T> = None | Some(value: T)
  {
    function GetOr(default: T): T
    {
      match this
      case Some(v) => v
      case None => default
    }
  }
}
