/** Small value wrappers shared by the mini-games. */
module Wrappers {

  /** A value that may be absent, e.g. the result of parsing the text of an input box. */
  datatype Option<+T> = None | Some(value: T)
}
