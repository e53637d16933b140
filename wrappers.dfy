/** Optional values, used wherever the pipeline may have nothing to give. */
module Wrappers {

  datatype Option<+T> = None | Some(value: T)

}
