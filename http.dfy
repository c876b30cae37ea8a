/** What a route handler sends back: a status code with its JSON body. */
module Http {

  /** A success status with its payload, or an error status with the `{ error }` message. */
  datatype Reply<+T> = Ok(status: nat, value: T) | Fail(status: nat, error: string)
}
