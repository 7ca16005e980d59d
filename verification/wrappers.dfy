/** The optional-value datatype used for nullable handles and partial parses. */
module Wrappers {

  /** `None` stands for a null pointer or a failed parse; `Some(v)` for a held value. */
  datatype Option<+T> = None | Some(value: T)
}
