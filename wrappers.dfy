/** The optional value used for every rate that a fetch may fail to produce
    (Python's `None`, JavaScript's `null`). */
module Wrappers {

  datatype Option<+T> = None | Some(value: T)
}
