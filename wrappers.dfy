/** The optional value returned by cache lookups and carried by invalidation contexts. */
module Wrappers {
  datatype Option<+T> = None | Some(value: T)
}
