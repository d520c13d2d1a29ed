/** The conventional optional value, used for C#'s nullable references and `int?`. */
module Wrappers {

  datatype Option<+T> = None | Some(value: T)
}
