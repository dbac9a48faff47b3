/** Classification of the `iam.GetUser` outcome, `Config.ValidateCredentials` (aws/config.go). */
module Validation {
  import opened AwsErrors

  const AuthFailedMessage := "Failed authenticating with AWS: please verify credentials"

  /** The four outcomes a credential check can have. */
  datatype Verdict =
    | Trusted            // GetUser succeeded
    | SilentAllow        // the identity may not describe itself: assumed to be an instance role
    | SignatureMismatch  // the request signature was rejected: bad credentials
    | OtherFailure       // any other error, surfaced unchanged

  /** Reference classification of a GetUser outcome by its error code. */
  function Classify(getUser: Option<Error>): Verdict {
    match getUser
    case None => Trusted
    case Some(PlainError(_)) => OtherFailure
    case Some(AwsError(code, _)) =>
      if code in {"AccessDenied", "ValidationError"} then SilentAllow
      else if code == "SignatureDoesNotMatch" then SignatureMismatch
      else OtherFailure
  }

  /** Only a signature mismatch and the catch-all stop the bootstrap. */
  predicate Aborts(v: Verdict) {
    v == SignatureMismatch || v == OtherFailure
  }

  /**
   * The error `ValidateCredentials` returns for the outcome of its one
   * GetUser call (`None` is success, and a `None` result is the nil error).
   */
  function ValidateCredentials(getUser: Option<Error>): (r: Option<Error>)
    ensures r.None? <==> !Aborts(Classify(getUser))
    ensures Classify(getUser) == SignatureMismatch ==> r == Some(PlainError(AuthFailedMessage))
    ensures Classify(getUser) == OtherFailure ==> r == getUser
  {
    if getUser.Some? && getUser.value.AwsError? then
      var code := getUser.value.code;
      if code == "AccessDenied" || code == "ValidationError" then None
      else if code == "SignatureDoesNotMatch" then Some(PlainError(AuthFailedMessage))
      else getUser
    else
      getUser
  }
}
