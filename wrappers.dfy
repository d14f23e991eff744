/** The optional value shared by the modules: an absent result, or a present
    one. */
module Wrappers {

  datatype Option<T> = None | Some(value: T)
}
