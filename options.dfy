/** The usual optional-value wrapper, used for Go's `error` results that may be nil. */
module Options {
  datatype Option<+T> = None | Some(value: T)
}
