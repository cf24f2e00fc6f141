/** Value shapes shared by the whole model: Go's nil-able pointer, a decode
    result carrying an error text, and the outcome of a Go call that may panic. */
module Results {

  /** A Go pointer: `nil` is None. */
  datatype Option<+T> = None | Some(value: T)

  /** A Go `(T, error)` pair where a non-nil error makes the value meaningless. */
  datatype Result<+T> = Ok(value: T) | Err(error: string)

  /** A Go call that either returns a value or unwinds with `log.Panic`;
      `reason` is the text the panic carries. */
  datatype Call<+V> = Return(value: V) | Panic(reason: string)
}
