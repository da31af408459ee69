/** The optional-value datatype used for the check's unset thresholds and failed matches. */
module Wrappers {

  /** `None` stands for Ruby's `nil`. */
  datatype Option<+T> = None | Some(value: T)
}
