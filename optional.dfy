/** The absent-or-present value used throughout the model (`undefined` / `null` in the source). */
module Optional {

  datatype Option<+T> = None | Some(value: T)
}
