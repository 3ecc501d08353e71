/** Optional values: the C++ `std::optional`. */
module Wrappers {

  datatype Option<+T> = None | Some(value: T) {
    /** The C++ `value_or`. */
    function ValueOr(default: T): T {
      if None? then default else value
    }
  }
}
