/** Shared vocabulary of the model: the 64-bit integer width of every id
    column, optional values, and the request-level error a handler
    propagates with `?`. */
module Base {

  /** A signed 64-bit integer (`i64` in the handlers, `Int8` in the tenants table). */
  type I64 = x: int | -0x8000_0000_0000_0000 <= x < 0x8000_0000_0000_0000

  datatype Option<+T> = None | Some(value: T)

  /** The three kinds of failure a handler passes on to the framework unchanged. */
  datatype Error =
    | SessionError   // a session value that does not decode at the requested type
    | ProviderError  // the identity provider's code exchange or profile fetch failed
    | StoreError     // a tenant-store read or write failed

  datatype Result<+T> = Success(value: T) | Failure(error: Error)
}
