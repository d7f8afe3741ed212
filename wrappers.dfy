/** Optional values: a pointer that may be null, a region the free list may fail to find. */
module Wrappers {
  datatype Option<+T> = None | Some(value: T)
}
