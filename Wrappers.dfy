/** Optional values and dictionary entries as the source's records hold them. */
module Wrappers {

  /** A value that may be missing (`None` in the source). */
  datatype Option<+T> = None | Some(value: T) {
    /** The value, or `default` when it is missing (the source's `d.get(key, default)`). */
    function GetOr(default: T): (r: T)
      ensures Some? ==> r == value
      ensures None? ==> r == default
    {
      match this
      case Some(v) => v
      case None => default
    }
  }

  /**
   * A dictionary entry that distinguishes a missing key (`Absent`) from a key
   * that is present with the value `None` (`Null`): `d.get(key, default)`
   * yields the default only for `Absent`, while `key in d` holds for both
   * `Null` and `Present`.
   */
  datatype Field<+T> = Absent | Null | Present(value: T) {
    predicate InDict() { !Absent? }
  }
}
