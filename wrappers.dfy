/** Optional values, used for the nil-able message fields and for decoding that may fail. */
module Wrappers {

  datatype Option<+T> = None | Some(value: T)
}
