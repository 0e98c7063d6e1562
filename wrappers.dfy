/** The optional value the model uses wherever the source has `null`, `undefined`
    or a failed lookup. */
module Wrappers {

  datatype Option<+T> = None | Some(value: T)
}
