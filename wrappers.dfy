/** Option and Result values standing for Rust's `Option<T>` and `io::Result<T>`. */
module Wrappers {

  datatype Option<+T> = None | Some(value: T)

  /** The kinds of `io::Error` the core produces. */
  datatype ErrorKind =
    | InvalidData
    | Other
    | Endless  // stands for a read that never returns: the source loops without end

  /** An `io::Error`: its kind and its message. */
  datatype IoError = IoError(kind: ErrorKind, message: string)

  datatype Result<+T> = Ok(value: T) | Err(error: IoError)
}

/** The core never looks inside a handler or a stream: each is identified by a number. */
module Handlers {

  /** A shared handler reference (`Arc<Mutex<Handler>>`), identified by its allocation. */
  type HandlerId = nat

  /** A TCP stream handed from the accept loop to a worker line. */
  type StreamId = nat
}
