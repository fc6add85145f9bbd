/** Shared vocabulary of the service: optional values, gRPC statuses, handler
    replies, the fixed-width integers of the wire format and client addresses. */
module Common {

  datatype Option<+T> = None | Some(value: T)

  /** The gRPC status code the service raises (tonic's Status::invalid_argument). */
  datatype Code = InvalidArgument

  datatype Status = Status(code: Code, message: string)

  /** What a handler hands back to the transport: a response, a gRPC error, or a
      panic of the task that runs the handler (the message Rust panics with). */
  datatype Reply<+T> = Ok(value: T) | Err(status: Status) | Panic(reason: string)

  /** Rust's i32, the type of the protobuf `count` field. */
  newtype i32 = x: int | -0x8000_0000 <= x < 0x8000_0000

  /** Rust's u32, the type of the monitor's inactivity counter. */
  newtype u32 = x: int | 0 <= x < 0x1_0000_0000

  /** A client's socket address; the service only compares addresses. */
  type Addr(==, !new)
}
