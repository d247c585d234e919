/** An optional value: `None` or `Some`. */
module Wrappers {

  /** `None` stands for a missing value: an unset field, or a parse that gave NaN. */
  datatype Option<+T> = None | Some(value: T)
}
