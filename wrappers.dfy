/** Optional values, used for the results of decoders and of the JSON oracle. */
module Wrappers {

  datatype Option<+T> = None | Some(value: T)
}
