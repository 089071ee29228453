/**
 * The admin guard in front of every management endpoint: the request must
 * carry `Authorization: Bearer <token>` with the configured admin token.
 * The configured token is a parameter.
 */
module AdminAuth {
  import opened Wrappers
  import opened Strings

  /** An HTTP error raised to the client. */
  datatype HttpError = HttpError(status: int, detail: string)

  const Unauthorized: int := 401

  const MissingHeader: HttpError := HttpError(Unauthorized, "Missing authorization header")
  const BadFormat: HttpError := HttpError(Unauthorized, "Invalid authorization header format")
  const BadToken: HttpError := HttpError(Unauthorized, "Invalid admin token")

  /** The header splits into a scheme that is `bearer` in any case and one more word. */
  predicate WellFormed(authorization: string) {
    var parts := SplitWhitespace(authorization);
    |parts| == 2 && Lower(parts[0]) == "bearer"
  }

  /**
   * `verify_admin_token`: a missing or empty header, a header that is not two
   * words with a bearer scheme, and a token other than the admin token are
   * each refused with 401 and their own detail; otherwise `True`.
   */
  function VerifyAdminToken(authorization: Option<string>, adminToken: string): (r: Result<bool, HttpError>)
    ensures r.Ok? ==> r.value
    ensures r.Err? ==> r.error.status == Unauthorized
    ensures (authorization.None? || authorization.value == "") <==> r == Err(MissingHeader)
    ensures r == Err(BadFormat) <==> authorization.Some? && authorization.value != "" && !WellFormed(authorization.value)
    ensures r.Ok? <==> (authorization.Some? && WellFormed(authorization.value)
                        && SplitWhitespace(authorization.value)[1] == adminToken)
  {
    if authorization.None? || authorization.value == "" then Err(MissingHeader)
    else
      var parts := SplitWhitespace(authorization.value);
      if |parts| != 2 || Lower(parts[0]) != "bearer" then Err(BadFormat)
      else if parts[1] != adminToken then Err(BadToken)
      else Ok(true)
  }

  /**
   * The admin token is accepted behind a scheme written in any case, with
   * any whitespace around and between the two words.
   */
  lemma BearerAccepted(w0: string, scheme: string, w1: string, adminToken: string, w2: string)
    requires AllSpace(w0) && AllSpace(w1) && AllSpace(w2) && |w1| > 0
    requires Lower(scheme) == "bearer"
    requires |adminToken| > 0 && NoSpace(adminToken)
    ensures VerifyAdminToken(Some(w0 + scheme + w1 + adminToken + w2), adminToken) == Ok(true)
  {
    assert NoSpace(scheme) by {
      assert forall i :: 0 <= i < |scheme| ==> LowerChar(scheme[i]) == "bearer"[i];
    }
    TwoWords(w0, scheme, w1, adminToken, w2);
  }

  /** Any other token behind a well-formed header is refused as an invalid admin token. */
  lemma OtherTokenRefused(w0: string, scheme: string, w1: string, token: string, w2: string, adminToken: string)
    requires AllSpace(w0) && AllSpace(w1) && AllSpace(w2) && |w1| > 0
    requires Lower(scheme) == "bearer"
    requires |token| > 0 && NoSpace(token) && token != adminToken
    ensures VerifyAdminToken(Some(w0 + scheme + w1 + token + w2), adminToken) == Err(BadToken)
  {
    assert NoSpace(scheme) by {
      assert forall i :: 0 <= i < |scheme| ==> LowerChar(scheme[i]) == "bearer"[i];
    }
    TwoWords(w0, scheme, w1, token, w2);
  }

  /** An admin token that is empty or holds whitespace can never be presented: every request is refused. */
  lemma UnpresentableTokenLocksOut(authorization: Option<string>, adminToken: string)
    requires adminToken == "" || !NoSpace(adminToken)
    ensures VerifyAdminToken(authorization, adminToken).Err?
  {
  }
}
