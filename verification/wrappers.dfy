/** The optional value the screens use wherever JavaScript has `null` or a missing key. */
module Wrappers {
  datatype Option<+T> = None | Some(value: T)
}
