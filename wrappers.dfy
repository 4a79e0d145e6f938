/** Optional values: `None` stands for the C++ library's "not found" results
    (`std::string::npos`, a null pointer) and for exceptions that the source
    catches and turns into an absent value. */
module Wrappers {

  datatype Option<+T> = None | Some(value: T) {

    /** The value, or `default` when there is none. */
    function GetOr(default: T): T
    {
      match this
      case Some(v) => v
      case None => default
    }
  }
}
