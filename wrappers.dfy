/** Option and Result, the two failure-carrying types every other module uses. */
module Wrappers {

  datatype Option<+T> = None | Some(value: T) {
    function GetOr(default: T): T {
      match this
      case Some(v) => v
      case None => default
    }
  }

  datatype Result<+T, +E> = Ok(value: T) | Err(error: E)

  /** A dictionary field as Python's `dict.get` sees it: the key can be absent,
      present with the value None, or present with a value. */
  datatype Field<+T> = Absent | Null | Has(value: T) {
    /** `d.get(key, default)`: the default only replaces an absent key. */
    function GetOrNull(default: T): Option<T> {
      match this
      case Absent => Some(default)
      case Null => None
      case Has(v) => Some(v)
    }
    /** `d.get(key)` with no default: absent and None are the same. */
    function Get(): Option<T> {
      match this
      case Has(v) => Some(v)
      case _ => None
    }
  }
}
