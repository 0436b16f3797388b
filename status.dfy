/** The RPC status returned to a client: a gRPC status code and a message,
    as carried by tonic's `Status`. */
module Rpc {

  /** The seventeen gRPC status codes. */
  datatype Code =
    | Ok | Cancelled | Unknown | InvalidArgument | DeadlineExceeded
    | NotFound | AlreadyExists | PermissionDenied | ResourceExhausted
    | FailedPrecondition | Aborted | OutOfRange | Unimplemented
    | Internal | Unavailable | DataLoss | Unauthenticated

  datatype Status = Status(code: Code, message: string) {

    /** `Status::already_exists(msg)` */
    static function AlreadyExists(message: string): Status { Status(Code.AlreadyExists, message) }

    /** `Status::permission_denied(msg)` */
    static function PermissionDenied(message: string): Status { Status(Code.PermissionDenied, message) }

    /** `Status::internal(msg)` */
    static function Internal(message: string): Status { Status(Code.Internal, message) }

    /** `Status::resource_exhausted(msg)` */
    static function ResourceExhausted(message: string): Status { Status(Code.ResourceExhausted, message) }
  }
}
