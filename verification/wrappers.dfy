/** The optional-value type used for absent or unparsable inputs. */
module Wrappers {

  /** A value that may be missing: `parseInt` returning NaN, a field absent
      from the stored record, a prompt slot that holds nothing. */
  datatype Option<+T> = None | Some(value: T) {

    /** The carried value, or `default` when there is none. */
    function GetOr(default: T): (r: T)
      ensures Some? ==> r == value
      ensures None? ==> r == default
    {
      match this
      case Some(v) => v
      case None => default
    }
  }
}
