/** Identifiers, optional values, results and the error kinds the routers report. */
module Common {

  /** Record ids (uuid/cuid strings generated by the database). */
  type Id = string

  datatype Option<T> = None | Some(value: T)

  datatype Result<T, E> = Ok(value: T) | Err(error: E)

  /** What lies behind an INTERNAL_SERVER_ERROR: tRPC wraps every exception that is not a TRPCError. */
  datatype Cause =
    | RecordNotFound            // Prisma: update/delete/connect of a row that does not exist
    | StatusCheckOnUnpaidOrder  // the plain Error thrown by checkOrderStatus
    | GatewayFailure            // the payment gateway call threw

  /** The tRPC error codes the procedures can end with. */
  datatype ApiError =
    | BadRequest                // zod input validation failed
    | NotFound                  // TRPCError NOT_FOUND
    | UnprocessableContent      // TRPCError UNPROCESSABLE_CONTENT
    | InternalServerError(cause: Cause)
}
