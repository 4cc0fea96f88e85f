/** The older pocket-message HTTP handlers (controllers/pocketMessage.go). Their
    update, delete and listing handlers repeat the live ones line for line and
    are PocketMessageHandler's; the two that differ are here: create answers a
    token failure with 500, and resolve answers with the full joined row. */
module LegacyPocketMessageHandler {
  import opened Models
  import opened JwtAuth
  import opened Responses
  import Live = PocketMessageHandler
  import PocketMessageService

  /** NewPocketMessage. A token failure is answered 500. */
  function NewPocketMessage(c: Request, cfg: Config, create: (PocketMessage, Token) -> Outcome): (r: Response)
    ensures r.IsSuccess() <==>
      Live.BodyOk(c) && DecodeJWT(c.authorization, cfg).Decoded? && create(c.message, DecodeJWT(c.authorization, cfg).token).Ok?
    ensures r.IsSuccess() ==> r == Created
    ensures r.IsClientError() <==> !Live.BodyOk(c)
    ensures r.IsServerError() <==>
      Live.BodyOk(c) && (DecodeJWT(c.authorization, cfg).DecodeError?
                         || (DecodeJWT(c.authorization, cfg).Decoded? && create(c.message, DecodeJWT(c.authorization, cfg).token).Fail?))
    ensures r == Aborted <==> Live.BodyOk(c) && DecodeJWT(c.authorization, cfg).IndexOutOfRange?
    ensures Live.CreateChecks(c, cfg, StatusInternalServerError).Refused? ==>
      r == Live.CreateChecks(c, cfg, StatusInternalServerError).reply
    ensures Live.BodyOk(c) && DecodeJWT(c.authorization, cfg).DecodeError? ==>
      r == ServerError(DecodeJWT(c.authorization, cfg).error)
    ensures Live.BodyOk(c) && DecodeJWT(c.authorization, cfg).Decoded? && create(c.message, DecodeJWT(c.authorization, cfg).token).Fail? ==>
      r == ServerError(create(c.message, DecodeJWT(c.authorization, cfg).token).error)
  {
    match Live.CreateChecks(c, cfg, StatusInternalServerError)
    case Refused(reply) => reply
    case Accepted(input) => Served(create(input.0, input.1), Created)
  }

  /** GetPocketMessageByRandomID: as the live handler, but the reply carries
      the whole joined row, code and visit count included. */
  function GetPocketMessageByRandomID(c: Request, resolve: string -> (MessageWithRandomId, Outcome)): (r: Response)
    ensures Param(c, "random_id") == "" ==> r == RejectValue(Live.RandomIdEmpty)
    ensures Param(c, "random_id") != "" && resolve(Param(c, "random_id")).1.Fail? ==>
      r == ServerError(resolve(Param(c, "random_id")).1.error)
    ensures r.IsSuccess() <==> Param(c, "random_id") != "" && resolve(Param(c, "random_id")).1.Ok?
    ensures r.IsSuccess() ==> r == Answered("success", Some(FullData(resolve(Param(c, "random_id")).0)))
  {
    var rid := Param(c, "random_id");
    if rid == "" then RejectValue(Live.RandomIdEmpty)
    else
      var (row, err) := resolve(rid);
      Served(err, Answered("success", Some(FullData(row))))
  }

  /** The two create handlers answer alike except on a token DecodeJWT
      rejects: there the live one answers 400 and the older one 500, with the
      same text. */
  lemma CreateDiffersOnlyOnRejectedToken(c: Request, cfg: Config, create: (PocketMessage, Token) -> Outcome)
    ensures NewPocketMessage(c, cfg, create) != Live.NewPocketMessage(c, cfg, create) <==>
      Live.BodyOk(c) && DecodeJWT(c.authorization, cfg).DecodeError?
    ensures Live.BodyOk(c) && DecodeJWT(c.authorization, cfg).DecodeError? ==>
      var e := DecodeJWT(c.authorization, cfg).error;
      && Live.NewPocketMessage(c, cfg, create) == Json(StatusBadRequest, Text(e), None)
      && NewPocketMessage(c, cfg, create) == Json(StatusInternalServerError, Text(e), None)
  {
  }

  /** The two resolve handlers agree on every status and message; only the
      data differs, the live one keeping the title and content alone. */
  lemma ResolveDiffersOnlyInData(c: Request, resolve: string -> (MessageWithRandomId, Outcome))
    ensures var older := GetPocketMessageByRandomID(c, resolve);
      var live := Live.GetPocketMessageByRandomID(c, rid => (PocketMessageService.Public(resolve(rid).0), resolve(rid).1));
      && older.Json? && live.Json?
      && older.status == live.status && older.message == live.message
      && (older.IsSuccess() ==> live.data == Some(PublicData(PocketMessageService.Public(older.data.value.full))))
  {
  }
}
