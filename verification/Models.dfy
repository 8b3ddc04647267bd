/** Vocabulary shared by the components of the service. */
module Models {

  datatype Option<+T> = None | Some(value: T)

  datatype RunStatus =
    | Queued
    | Running
    | Completed
    | Incomplete
    | Cancelled
    | Failed
    | Interrupted

  function Min(a: int, b: int): int {
    if a < b then a else b
  }

  function Max(a: int, b: int): int {
    if a < b then b else a
  }
}
