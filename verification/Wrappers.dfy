/** What a search or a request gives: something or nothing. */
module Wrappers {
  datatype Option<T> = None | Some(value: T)
}
