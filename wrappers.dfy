/** Optional values: the dashboard's "no data" outcome is `None`. */
module Wrappers {

  datatype Option<+T> = None | Some(value: T)
}
