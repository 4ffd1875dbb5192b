/** Failure-carrying values used by the driver model. */
module Wrappers {

  /** `None` stands for the source's not-a-number sentinel (or any absent value). */
  datatype Option<+T> = None | Some(value: T)
}
