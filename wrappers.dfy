/** The optional value used wherever the source returns `null` or `None`. */
module Wrappers {

  datatype Option<+T> = None | Some(value: T)
  {
    /** The value, or `default` when there is none (Python's `dict.get(key, default)`). */
    function GetOr(default: T): T
    {
      if Some? then value else default
    }
  }
}
