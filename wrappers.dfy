/** Optional values, standing for Python's `Optional[...]` / `None`. */
module Wrappers {

  datatype Option<+T> = None | Some(value: T)

  /** A value read from a metadata dictionary: the key may be absent,
      present with `None`, or present with a value. */
  datatype Field<+T> = Absent | Null | Present(value: T) {
    /** What `dict.get(key)` yields: `None` for an absent key and for `None`. */
    function Get(): Option<T> {
      match this
      case Present(v) => Some(v)
      case _ => None
    }
  }
}
