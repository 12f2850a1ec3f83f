/** An optional value, standing for JavaScript's `null`/`undefined` or NaN. */
module Wrappers {

  datatype Option<T> = None | Some(value: T)
}
