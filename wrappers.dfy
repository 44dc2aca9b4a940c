/** The optional value that the program's `Option<T>` stands for. */
module Wrappers {

  datatype Option<+T> = None | Some(value: T)
}
