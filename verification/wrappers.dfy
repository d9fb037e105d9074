/** The optional value the simulation uses for fields that start out unset
    (Python's `None`): response time, completion time, the running process. */
module Wrappers {

  datatype Option<+T> = None | Some(value: T)
}
