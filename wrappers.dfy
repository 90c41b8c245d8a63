/** The optional value used where the program yields "no match" or "no record". */
module Wrappers {

  datatype Option<+T> = None | Some(value: T)
}
