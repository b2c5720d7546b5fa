/** Small shared vocabulary: an optional value. */
module Common {

  /** A value that may be missing. */
  datatype Option<+T> = None | Some(value: T)
}
