/** Option stands for a pointer that may be NULL: a window or no window. */
module Wrappers {

  datatype Option<+T> = None | Some(value: T)

}
