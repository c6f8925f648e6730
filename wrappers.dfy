/** Optional values. `None` stands for the NaN that pandas puts in an indicator
    column where the indicator is not yet defined. */
module Wrappers {

  datatype Option<+T> = None | Some(value: T)
}
