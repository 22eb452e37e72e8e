/** Small value wrappers shared by both checklist models. */
module Wrappers {

  /** A value that may be absent: a dialog that was cancelled, a form
      field that was not posted, a nullable column. */
  datatype Option<+T> = None | Some(value: T)
}
