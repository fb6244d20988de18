/** The short-link record and the errors the core reports. */
module Domain {

  /** One shortened link. `createdAt` is the creation instant as a number of the
      caller's choosing; `id` is an opaque identifier supplied by the caller. */
  datatype URL = URL(
    id: string,
    originalURL: string,
    shortCode: string,
    createdAt: int,
    accessCount: int)

  datatype Error =
    | NotFound          // the short code is absent from the store asked
    | Unavailable       // the store could not be reached
    | GenerationFailed  // the short-ID encoder reported an error
    | RetriesExhausted  // every salt index produced a code that is already taken

  datatype Option<+T> = None | Some(value: T)

  datatype Result<+T> = Ok(value: T) | Err(error: Error)

  /** What the transport does to one call on a store: `None` when the call reaches
      the store, `Some(e)` when it fails with `e` before the store is touched. A store
      call can only fail with a store error, never with one of the service's own. */
  type Fault = f: Option<Error> | f.None? || f.value == NotFound || f.value == Unavailable
    witness None
}
