/** Optional values and replies, shared by every module. */
module Wrappers {
  datatype Option<+T> = None | Some(value: T)

  /** What a service call answers: success, or the exception it throws. */
  datatype Reply = Done | NotFound | BadRequest | Forbidden
}
