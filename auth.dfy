/**
 * get_jwt_token: the password-grant sign-in against the identity provider.
 * The three scripts carry copies identical apart from printed messages; this
 * is the one model of them.
 */
module Auth {
  import opened Wrappers
  import opened Http

  /** The JSON answer of the token endpoint; `accessToken` is None when the key is absent or null. */
  datatype TokenBody = TokenBody(accessToken: Option<string>)

  datatype AuthError =
    | Http(cause: HttpError)  // non-200 that raise_for_status raised for, transport or JSON failure
    | NoAccessToken           // the ValueError for an absent or empty access_token

  /**
   * The token a reply yields. A 200 reply gives back its access_token
   * unchanged, unless it is absent or empty, which is an error of its own.
   */
  function JwtToken(reply: Reply<TokenBody>): (r: Result<string, AuthError>)
    ensures r.Ok? ==> r.value != ""
    ensures r.Ok? <==> ExpectOk(reply).Ok? && ExpectOk(reply).value.accessToken.Some?
                       && ExpectOk(reply).value.accessToken.value != ""
    ensures r.Ok? ==> Some(r.value) == reply.body.value.accessToken
    ensures reply.Answered? && reply.status == 200 && reply.body.Some?
            && (reply.body.value.accessToken == None || reply.body.value.accessToken == Some(""))
            ==> r == Err(NoAccessToken)
    ensures reply.Answered? && reply.status != 200 && reply.raisesForStatus
            ==> r == Err(Http(StatusError(reply.status)))
  {
    match ExpectOk(reply)
    case Err(e) => Err(Http(e))
    case Ok(body) =>
      if body.accessToken.None? || body.accessToken.value == "" then Err(NoAccessToken)
      else Ok(body.accessToken.value)
  }
}
