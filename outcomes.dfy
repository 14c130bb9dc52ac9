/**
 * Result shapes shared by the whole model.
 */
module Outcomes {

  datatype Option<+T> = None | Some(value: T)

  /**
   * Why a mapping call stopped early: an exception the .NET code throws
   * (a missing member, a null target, a duplicate dictionary key, a type
   * without default constructor, ...), or the depth bound that this model
   * puts on the otherwise unbounded recursion.
   */
  datatype Error = Thrown | DepthExhausted

  datatype Outcome<+T> = Ok(value: T) | Err(error: Error)
}
