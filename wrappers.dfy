/** The optional value used wherever the source can produce "nothing"
    (a missing key, a date that fails to parse, pandas' NaT). */
module Wrappers {
  datatype Option<+T> = None | Some(value: T)
}
