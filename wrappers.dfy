/** Option and Result values, used where the plugin returns null or throws. */
module Wrappers {

  datatype Option<+T> = None | Some(value: T)

  /** The outcome of a handler: a value, or the exception it throws. */
  datatype Result<+T, +E> = Ok(value: T) | Err(error: E)
}

/** The exceptions the plugin's handlers throw, one constructor per message. */
module Errors {

  datatype Error =
    | PermissionDenied                    // a request to the plugin that is not a POST
    | SaveFailed                          // the nonce table's save() returned false
    | ConcordiumAccountNotFound           // no nonce record for the account address
    | ClientReturnsNothing                // a node RPC call returned nothing
    | UnknownServerType                   // server_type is neither JSON-RPC nor gRPC
    | ValidationFailed                    // the signature did not verify
    | JoomlaAccountNotFound               // the linked user cannot be loaded
    | LoginRejected                       // an onUserLogin handler returned false
    | AccountNotFound                     // verified, but no user is linked
    | AccountNotFoundRegistrationAllowed  // the same, on a site that allows registration
}
