/** Optional values, and the Python exceptions the export readers raise on malformed input. */
module Errors {

  datatype Option<T> = None | Some(value: T)

  /** The exception a script raises; the readers never catch any of them. */
  datatype Error =
    | AttributeError     // `.group` on a failed regex search, `.append` on a value that is not a list
    | IndexError         // an index past the end of a row, a list, a string or a split
    | ValueError         // `list.index` of an absent name, `int()` of a non-number, a row of the wrong width
    | TypeError          // `str + Match`, an array dimension that is not an int, item assignment into a str or an int
    | UnboundLocalError  // a local read on a path that never assigned it
    | KeyError           // a dictionary key that is absent

  datatype Result<T> = Ok(value: T) | Err(error: Error)
}
