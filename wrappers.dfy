/** Failure-compatible wrappers shared by the modules of this project. */
module Wrappers {

  /** An optional value: Rust's `Option`, TypeScript's `null | T` and the `'no-place'` sentinel. */
  datatype Option<+T> = None | Some(value: T)

  /** The result of an operation that may abort: `Fail` stands for a Rust `panic!` or `expect`
      failure, or a TypeScript `throw`. */
  datatype Outcome<+E> = Pass | Fail(error: E)
}
