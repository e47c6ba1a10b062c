/** Values shared by the scorer and the section observer. */
module Common {

  /** A value that may be absent: a missing JSON field, a `null` element reference. */
  datatype Option<T> = None | Some(value: T)
}
