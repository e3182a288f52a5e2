/** Optional values: a missing table cell (pandas' NaN), or the non-string
    argument `validate_email` rejects. */
module Wrappers {
  datatype Option<+T> = None | Some(value: T)
}
