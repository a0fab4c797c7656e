/** The Go idioms (value, ok) and (value, error) as datatypes. */
module Wrappers {
  datatype Option<+T> = None | Some(value: T)
}
