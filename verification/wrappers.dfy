/** Optional values, used for the nullable references of the engine and for
    guarded transitions that are not enabled. */
module Wrappers {

  datatype Option<+T> = None | Some(value: T)
}
