/** The usual optional value: `None` stands for JavaScript's `null`/`NaN` results and SQL's "no row". */
module Wrappers {
  datatype Option<T> = None | Some(value: T)
}
