/** Failure-carrying values shared by the services: the Java code signals its error paths
    with exceptions (IllegalArgumentException, RuntimeException) or a bad-request response;
    here they are values of `Error`. */
module Results {

  /** A possibly-null reference of the Java model. */
  datatype Option<+T> = None | Some(value: T)

  /** The three ways an operation of the services can fail. */
  datatype Error =
    | IllegalArgument(message: string)  // validation failure, with the exception's message
    | NotFound(id: nat)                 // lookup of a missing order id
    | BadRequest                        // a controller guard refused the request

  datatype Result<+T> = Ok(value: T) | Err(error: Error)
}
