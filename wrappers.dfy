/** Option and Result: the values the model returns where the source may find
    nothing (a `querySelector` that matches no element) or fail (a thrown error). */
module Wrappers {

  datatype Option<+T> = None | Some(value: T)

  datatype Result<+T, +E> = Ok(value: T) | Err(error: E)
}
