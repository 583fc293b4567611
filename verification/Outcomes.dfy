/** Optional values, and results that carry the stable failure code the platform reports. */
module Outcomes {

  datatype Option<+T> = None | Some(value: T)

  datatype Result<+T> = Ok(value: T) | Failed(code: string)
}
