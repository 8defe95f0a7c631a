/** The counting backend's interface (internal/limiter/store/store.go): the shapes of
    the replies that every backend gives to Increment, IsBlocked and GetRequestCount.
    Durations are counts of nanoseconds, as Go's time.Duration is. */
module Store {

  datatype Option<+T> = None | Some(value: T)

  /** The only failure the in-process backend reports (ErrStorageFailure). */
  datatype Error = StorageFailure

  /** A reply, or the error that replaced it. */
  datatype Result<+T> = Ok(value: T) | Err(error: Error)

  /** Increment's (allowed, ttl): whether the request may pass, and a time-to-live. */
  datatype IncrementReply = IncrementReply(allowed: bool, ttl: int)

  /** IsBlocked's (blocked, ttl): whether a live block exists, and its remaining time. */
  datatype BlockReply = BlockReply(blocked: bool, ttl: int)
}
