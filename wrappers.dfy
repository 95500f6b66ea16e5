/** Optional values, standing in for nullable references and "nothing sent". */
module Wrappers {

  datatype Option<+T> = None | Some(value: T)
}
