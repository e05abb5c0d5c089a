/**
 * The one HTTP request each script function issues is an abstract input here:
 * the model sees only what came back.
 */
module Http {
  import opened Wrappers

  /**
   * What one POST gave back. `raisesForStatus` is the HTTP library's own
   * answer to `raise_for_status()` for this response; the model does not claim
   * which statuses make it raise. `body` is None when the payload is not JSON.
   * TransportFailed stands for a timeout or a connection error.
   */
  datatype Reply<B> =
    | Answered(status: int, raisesForStatus: bool, body: Option<B>)
    | TransportFailed

  datatype HttpError =
    | StatusError(status: int)  // raised by raise_for_status()
    | TransportError            // timeout or connection failure
    | MalformedBody             // response.json() failed

  /** The upload endpoint's success test: status 200 or 201. */
  predicate IsUploadSuccess(status: int) {
    status == 200 || status == 201
  }

  /**
   * The pattern shared by token issuance and extract fetching: a status other
   * than 200 is reported and handed to raise_for_status(); when that does not
   * raise, the body is parsed as JSON regardless.
   */
  function ExpectOk<B>(reply: Reply<B>): (r: Result<B, HttpError>)
    ensures r.Ok? <==> reply.Answered? && (reply.status == 200 || !reply.raisesForStatus) && reply.body.Some?
    ensures r.Ok? ==> r.value == reply.body.value
    ensures reply.Answered? && reply.status != 200 && reply.raisesForStatus ==> r == Err(StatusError(reply.status))
    ensures reply.TransportFailed? ==> r == Err(TransportError)
  {
    match reply
    case TransportFailed => Err(TransportError)
    case Answered(status, raises, body) =>
      if status != 200 && raises then Err(StatusError(status))
      else if body.None? then Err(MalformedBody)
      else Ok(body.value)
  }
}
