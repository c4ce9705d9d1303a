/** The source's nullable results and thrown exceptions, as values. */
module Wrappers {

  /** A value that may be missing: `None` stands for Kotlin's `null` or for an
      operation that threw. */
  datatype Option<+T> = None | Some(value: T)
}
