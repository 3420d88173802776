/** An optional value: Go's nil-able results (an error or nothing, a context
    value or nothing). */
module Options {
  datatype Option<+T> = None | Some(value: T)
}
