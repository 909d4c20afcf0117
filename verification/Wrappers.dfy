module Wrappers {
  /** A result that the source may fail to produce. */
  datatype Option<T> = None | Some(value: T)
}
