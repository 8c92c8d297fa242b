/** Small result types shared by the model.

    - Option<T> stands for a Go value that may be nil (a pointer, an error, a
      function value).
    - Outcome<T> separates a normal return from a Go panic: every panic of the
      library is an explicit Fatal(message) value, never stack unwinding.
 */
module Wrappers {

  datatype Option<+T> = None | Some(value: T)

  datatype Outcome<+T> = Done(value: T) | Fatal(message: string)
}
