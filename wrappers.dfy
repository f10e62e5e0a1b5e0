/** Optional values: a parsed number that may be absent (NaN) and the style a run chose. */
module Wrappers {
  datatype Option<+T> = None | Some(value: T)
}
