/** How `decode_jwt` turns the exceptions of the token library into
    authentication failures. Signature, expiry, audience and issuer checking
    themselves belong to that library and are not part of this model. */
module TokenDecoding {
  import opened Wrappers
  import opened AuthErrors

  /** The exception classes `decode_jwt` tells apart, most specific first: an
      expired signature, a wrong audience or issuer, any other error of the token
      library (with its message), and any other exception at all. */
  datatype DecodeFailure = ExpiredSignature | ClaimsMismatch | TokenLibraryError(message: string) | Unexpected

  /** The failure raised for each kind: 401 for every fault of the token, 500 for
      an error not attributable to it; only library errors carry their message.
      Each kind has its own code; a malformed token reuses `invalid_header`, the
      code of header parsing errors. */
  function DecodeFailureToAuth(f: DecodeFailure): (e: AuthenticationFailed)
    ensures e.status == (if f.Unexpected? then InternalServerError else Unauthorized)
    ensures e.message.Some? <==> f.TokenLibraryError?
    ensures f.TokenLibraryError? ==> e.message == Some(f.message)
    ensures e.code == "token_expired" <==> f.ExpiredSignature?
    ensures e.code == "invalid_claims" <==> f.ClaimsMismatch?
    ensures e.code == "invalid_header" <==> f.TokenLibraryError?
    ensures e.code == "internal_server_error" <==> f.Unexpected?
  {
    match f
    case ExpiredSignature =>
      AuthenticationFailed("token_expired", "token is expired", None, Unauthorized)
    case ClaimsMismatch =>
      AuthenticationFailed("invalid_claims", "incorrect claims, please check the audience and issuer", None, Unauthorized)
    case TokenLibraryError(message) =>
      AuthenticationFailed("invalid_header", "Unable to parse authentication token.", Some(message), Unauthorized)
    case Unexpected =>
      AuthenticationFailed("internal_server_error", "The server could not process the request.", None, InternalServerError)
  }
}
