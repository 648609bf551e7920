/** Option type shared by the modules of the Jelly model: a C# null reference
    or an absent dictionary entry is `None`. */
module Wrappers {

  datatype Option<+T> = None | Some(value: T) {

    /** The value held, or `default` when absent. */
    function GetOr(default: T): T {
      match this
      case Some(v) => v
      case None => default
    }
  }
}
