/** The "value or missing" wrapper used for table cells. */
module Wrappers {

  /** `None` is the missing marker (pandas' `None` in an object column);
      `Some(v)` carries a present value. */
  datatype Option<+T> = None | Some(value: T)
}
