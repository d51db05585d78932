/** The optional value used for C# `null` references and Python `None` arguments. */
module Wrappers {
  datatype Option<T> = None | Some(value: T)
}
