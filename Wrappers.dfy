/** Option stands for a nullable reference in the inventory model. */
module Wrappers {

  datatype Option<+T> = None | Some(value: T)

}
