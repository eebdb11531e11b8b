/** Optional values, standing in for `std::string::npos` and for the
    "not found" end iterator of `std::map::find`. */
module Wrappers {

  datatype Option<+T> = None | Some(value: T)
}
