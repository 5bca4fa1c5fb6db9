/** Optional values, standing for C#'s nullable references and `Guid?`. */
module Wrappers {
  datatype Option<+T> = None | Some(value: T)
}
