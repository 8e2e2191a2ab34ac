/** A value that may be missing: a port that cannot be read, a clock that does not answer, nothing found. */
module Options {
  datatype Option<T> = None | Some(value: T)
}
