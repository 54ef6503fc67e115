/** Option, standing for C#'s nullable references (`T?`) and for an
    operation that may fail without further detail. */
module Wrappers {

  datatype Option<+T> = None | Some(value: T)
}
