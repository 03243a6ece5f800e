/** An optional value. It stands for Python's `None` and for an external call
    that raised: `None` is "no value", `Some(v)` carries the value. */
module Wrappers {
  datatype Option<+T> = None | Some(value: T)
}
