/** Optional values and results with an error, used for the planner's
    optional fields and for the failures it reports. */
module Outcomes {

  datatype Option<+T> = None | Some(value: T)

  datatype Result<+T, +E> = Ok(value: T) | Err(error: E)
}
