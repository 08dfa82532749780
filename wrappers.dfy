/** The optional value used wherever the source may find nothing (`Array.find`,
    a parse that fails, a handler that does not fire). */
module Wrappers {

  datatype Option<T> = None | Some(value: T)
}
