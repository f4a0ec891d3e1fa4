/** Optional values and results shared by every module of the model. */
module Wrappers {

  datatype Option<+T> = None | Some(value: T)

  datatype Result<+T, +E> = Ok(value: T) | Err(error: E)

  // Whoever is to be told that something can go on; told apart by number.
  type Waker = nat
}
