/** Optional values: a part of a response that may or may not carry an image,
    a caption that may be absent, a generation request that may not be sent. */
module Wrappers {

  datatype Option<+T> = None | Some(value: T)
}
