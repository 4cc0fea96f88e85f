/** The pieces every HTTP handler of the backend is built from: a guard that
    either writes a reply or lets the request through, the token guard, and the
    mapping of a service's error to a 500 reply. */
module Responses {
  import opened Models
  import opened JwtAuth

  /** The verdict of a handler's guards: the reply already written, or the
      value the guards produced. */
  datatype Checked<T> = Refused(reply: Response) | Accepted(value: T)

  /** `c.JSON(201, {"message": "created"})`. */
  const Created: Response := Json(StatusCreated, Text("created"), None)

  /** `c.JSON(200, {"message": text})`, with "data" when given. */
  function Answered(text: string, data: Option<Data>): (r: Response)
    ensures r.IsSuccess() && r.status == StatusOK && r.message == Text(text) && r.data == data
  {
    Json(StatusOK, Text(text), data)
  }

  /** The bind guard: a failed `c.Bind` is answered 400 with the bind error's text. */
  function BindCheck(c: Request): (g: Checked<Request>)
    ensures g.Accepted? <==> c.bindError.None?
    ensures g.Accepted? ==> g.value == c
    ensures g.Refused? ==> g.reply == Reject(c.bindError.value)
  {
    if c.bindError.Some? then Refused(Reject(c.bindError.value)) else Accepted(c)
  }

  /** The token guard: DecodeJWT's error is answered with `failStatus` and the
      error's text; a header DecodeJWT faults on aborts the handler. */
  function TokenCheck(c: Request, cfg: Config, failStatus: int): (g: Checked<Token>)
    ensures g.Accepted? <==> DecodeJWT(c.authorization, cfg).Decoded?
    ensures g.Accepted? ==> g.value == DecodeJWT(c.authorization, cfg).token
    ensures g == Refused(Aborted) <==> c.authorization != "" && IndexOf(c.authorization, BearerSep).None?
    ensures c.authorization == "" ==> g == Refused(Json(failStatus, Text(MissingHeader), None))
    ensures g.Refused? && g.reply.Json? ==>
      && g.reply.status == failStatus
      && (g.reply.message == Text(MissingHeader) || g.reply.message == Text(WrongOrExpired))
  {
    match DecodeJWT(c.authorization, cfg)
    case Decoded(t) => Accepted(t)
    case DecodeError(e) => Refused(Json(failStatus, Text(e), None))
    case IndexOutOfRange => Refused(Aborted)
  }

  /** After the service call: its error is answered 500 with the error's text,
      success with `success`. */
  function Served(err: Outcome, success: Response): (r: Response)
    ensures err.Fail? ==> r.IsServerError() && r.message == Text(err.error) && r.data.None?
    ensures err.Ok? ==> r == success
  {
    match err
    case Ok => success
    case Fail(e) => ServerError(e)
  }
}
