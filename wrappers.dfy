/** The optional value used where the Python code returns "something or nothing". */
module Wrappers {

  datatype Option<+T> = None | Some(value: T)

}
