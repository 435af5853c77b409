/** The optional-value type used across the model, in place of Python's `None`/`False` returns. */
module Wrappers {

  datatype Option<+T> = None | Some(value: T)
}
