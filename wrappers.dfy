/** The optional value used for a decode that may fail. */
module Wrappers {

  datatype Option<+T> = None | Some(value: T)

}
