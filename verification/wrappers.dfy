/** Small result types shared by the other modules. */
module Wrappers {

  /** A value that may be absent: a Go pointer or map lookup that may come back empty. */
  datatype Option<+T> = None | Some(value: T)

  /** How a piece of Go code left its caller: normally, through an error, or by panicking. */
  datatype Verdict = Passed | Failed | Panicked
}
