/** Small failure-carrying datatypes used by the resolver and the entry point. */
module Wrappers {

  /** A value that may be absent: Python's `Optional[...]`, or a lookup that raised and was swallowed. */
  datatype Option<+T> = None | Some(value: T)

  /** The outcome of a call into code outside the model: it returned `value`, or it raised with `message`. */
  datatype Attempt<+T> = Done(value: T) | Raised(message: string)
}
