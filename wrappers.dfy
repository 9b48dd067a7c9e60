/** The optional value used for prompt results, query parameters and parse results. */
module Wrappers {
  datatype Option<+T> = None | Some(value: T)
}
