/** Small shared vocabulary. */
module Prelude {

  datatype Option<+T> = None | Some(value: T)

  datatype TaskStatus =
    | Queued
    | Starting
    | Running
    | WaitingApproval
    | Completed
    | Failed
    | Cancelled

  function Max(a: int, b: int): int {
    if a < b then b else a
  }
}
