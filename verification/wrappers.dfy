/** Optional values shared by the tracker and the validator. */
module Wrappers {

  /** A value that may be missing: the tracker's "no tab to activate". */
  datatype Option<+T> = None | Some(value: T)
}
