/** The `AuthenticationFailed` exception of the authentication module: an error
    body (a machine-readable code, a human description and, for token decoding
    failures, the decoder's message) together with the HTTP status to answer with. */
module AuthErrors {
  import opened Wrappers

  datatype AuthenticationFailed =
    AuthenticationFailed(code: string, description: string, message: Option<string>, status: int)

  const Unauthorized := 401
  const InternalServerError := 500
}
