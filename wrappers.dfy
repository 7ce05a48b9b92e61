/** The optional value returned by the configuration provider (Guava's Optional). */
module Wrappers {

  datatype Option<+T> = None | Some(value: T)
}
