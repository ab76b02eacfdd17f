/** The shape of an HTTP reply produced by a route handler. */
module Http {
  import opened Wrappers

  /** `Ok` carries the status and the JSON body; `Err` the status and the
      `{'error': ..., 'detail': ...}` body (`detail` only where the handler adds one). */
  datatype Reply<+T> =
    | Ok(status: int, body: T)
    | Err(status: int, error: string, detail: Option<string>)
}
