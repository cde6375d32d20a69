/** The optional value used for a sensor reading that may be missing and for a log line that may be skipped. */
module Wrappers {
  datatype Option<T> = None | Some(value: T)
}
