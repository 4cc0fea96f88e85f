/** The live pocket-message HTTP handlers
    (controllers/rest-echo/pocket_messages/pocket_messages.go). Each handler is
    a chain of guards, one service call and a reply; the service is a function
    parameter standing for the handler's embedded service interface, so a
    handler says which arguments the service is called with and what reply each
    of its results gives. `parseUuid` stands for uuid.Parse. */
module PocketMessageHandler {
  import opened Models
  import opened JwtAuth
  import opened Responses
  import Repositories
  import PocketMessageService

  const TitleEmpty: string := "title should not be empty"
  const ContentEmpty: string := "content should not be empty"
  const RandomIdEmpty: string := "random_id parameter can not be empty"
  const UuidInvalid: string := "uuid invalid"

  /** The body binds and has a title and a content. */
  predicate BodyOk(c: Request)
  {
    c.bindError.None? && c.message.title != "" && c.message.content != ""
  }

  /** Bind, then title, then content. The two emptiness errors are error
      values, which JSON-encode to `{}`. */
  function BodyChecks(c: Request): (g: Checked<PocketMessage>)
    ensures g.Accepted? <==> BodyOk(c)
    ensures g.Accepted? ==> g.value == c.message
    ensures c.bindError.Some? ==> g == Refused(Reject(c.bindError.value))
    ensures c.bindError.None? && c.message.title == "" ==> g == Refused(RejectValue(TitleEmpty))
    ensures c.bindError.None? && c.message.title != "" && c.message.content == "" ==> g == Refused(RejectValue(ContentEmpty))
  {
    match BindCheck(c)
    case Refused(r) => Refused(r)
    case Accepted(_) =>
      if c.message.title == "" then Refused(RejectValue(TitleEmpty))
      else if c.message.content == "" then Refused(RejectValue(ContentEmpty))
      else Accepted(c.message)
  }

  /** NewPocketMessage's guards: the body, then the token, whose failure is
      answered with `tokenStatus`. */
  function CreateChecks(c: Request, cfg: Config, tokenStatus: int): (g: Checked<(PocketMessage, Token)>)
    ensures BodyChecks(c).Refused? ==> g == Refused(BodyChecks(c).reply)
    ensures BodyOk(c) ==> g == match TokenCheck(c, cfg, tokenStatus)
                               case Refused(r) => Refused(r)
                               case Accepted(t) => Accepted((c.message, t))
  {
    match BodyChecks(c)
    case Refused(r) => Refused(r)
    case Accepted(pm) =>
      match TokenCheck(c, cfg, tokenStatus)
      case Refused(r) => Refused(r)
      case Accepted(t) => Accepted((pm, t))
  }

  /** NewPocketMessage. A token failure is answered 400. */
  function NewPocketMessage(c: Request, cfg: Config, create: (PocketMessage, Token) -> Outcome): (r: Response)
    ensures r.IsSuccess() <==>
      BodyOk(c) && DecodeJWT(c.authorization, cfg).Decoded? && create(c.message, DecodeJWT(c.authorization, cfg).token).Ok?
    ensures r.IsSuccess() ==> r == Created
    ensures r.IsServerError() <==>
      BodyOk(c) && DecodeJWT(c.authorization, cfg).Decoded? && create(c.message, DecodeJWT(c.authorization, cfg).token).Fail?
    ensures r.IsServerError() ==> r == ServerError(create(c.message, DecodeJWT(c.authorization, cfg).token).error)
    ensures r.IsClientError() <==> !BodyOk(c) || DecodeJWT(c.authorization, cfg).DecodeError?
    ensures CreateChecks(c, cfg, StatusBadRequest).Refused? ==> r == CreateChecks(c, cfg, StatusBadRequest).reply
    ensures BodyOk(c) && DecodeJWT(c.authorization, cfg).DecodeError? ==> r == Reject(DecodeJWT(c.authorization, cfg).error)
    ensures r == Aborted <==> BodyOk(c) && DecodeJWT(c.authorization, cfg).IndexOutOfRange?
  {
    match CreateChecks(c, cfg, StatusBadRequest)
    case Refused(reply) => reply
    case Accepted(input) => Served(create(input.0, input.1), Created)
  }

  /** GetPocketMessageByRandomID: an empty code is refused before the service
      is asked; a hit answers 200 with the public view. */
  function GetPocketMessageByRandomID(c: Request, resolve: string -> (MsgForPublic, Outcome)): (r: Response)
    ensures Param(c, "random_id") == "" ==> r == RejectValue(RandomIdEmpty)
    ensures Param(c, "random_id") != "" && resolve(Param(c, "random_id")).1.Fail? ==>
      r == ServerError(resolve(Param(c, "random_id")).1.error)
    ensures r.IsSuccess() <==> Param(c, "random_id") != "" && resolve(Param(c, "random_id")).1.Ok?
    ensures r.IsSuccess() ==> r == Answered("success", Some(PublicData(resolve(Param(c, "random_id")).0)))
  {
    var rid := Param(c, "random_id");
    if rid == "" then RejectValue(RandomIdEmpty)
    else
      var (view, err) := resolve(rid);
      Served(err, Answered("success", Some(PublicData(view))))
  }

  /** UpdatePocketMessage's guards: the path uuid first, then the body. */
  function UpdateChecks(c: Request, parseUuid: string -> Option<Uuid>): (g: Checked<PocketMessage>)
    ensures parseUuid(Param(c, "uuid")).None? ==> g == Refused(RejectValue(UuidInvalid))
    ensures parseUuid(Param(c, "uuid")).Some? ==> g == match BodyChecks(c)
      case Refused(r) => Refused(r)
      case Accepted(pm) => Accepted(pm.(uuid := parseUuid(Param(c, "uuid")).value))
  {
    match parseUuid(Param(c, "uuid"))
    case None => Refused(RejectValue(UuidInvalid))
    case Some(id) =>
      match BodyChecks(c)
      case Refused(r) => Refused(r)
      case Accepted(pm) => Accepted(pm.(uuid := id))
  }

  /** UpdatePocketMessage: the service gets the body's title and content under
      the path uuid. An unparsable uuid is answered 400 whatever the body. */
  function UpdatePocketMessage(c: Request, parseUuid: string -> Option<Uuid>, update: PocketMessage -> Outcome): (r: Response)
    ensures parseUuid(Param(c, "uuid")).None? ==> r == RejectValue(UuidInvalid)
    ensures parseUuid(Param(c, "uuid")).Some? && c.bindError.Some? ==> r == Reject(c.bindError.value)
    ensures r.IsSuccess() <==>
      parseUuid(Param(c, "uuid")).Some? && BodyOk(c) && update(c.message.(uuid := parseUuid(Param(c, "uuid")).value)).Ok?
    ensures r.IsSuccess() ==> r == Answered("updated", None)
    ensures r.IsServerError() <==>
      parseUuid(Param(c, "uuid")).Some? && BodyOk(c) && update(c.message.(uuid := parseUuid(Param(c, "uuid")).value)).Fail?
    ensures r.IsServerError() ==>
      r == ServerError(update(c.message.(uuid := parseUuid(Param(c, "uuid")).value)).error)
    ensures UpdateChecks(c, parseUuid).Refused? ==> r == UpdateChecks(c, parseUuid).reply
    ensures r != Aborted
  {
    match UpdateChecks(c, parseUuid)
    case Refused(reply) => reply
    case Accepted(pm) => Served(update(pm), Answered("updated", None))
  }

  /** DeletePocketMessage: the service gets the parsed path uuid. */
  function DeletePocketMessage(c: Request, parseUuid: string -> Option<Uuid>, delete: Uuid -> Outcome): (r: Response)
    ensures parseUuid(Param(c, "uuid")).None? ==> r == RejectValue(UuidInvalid)
    ensures r.IsSuccess() <==> parseUuid(Param(c, "uuid")).Some? && delete(parseUuid(Param(c, "uuid")).value).Ok?
    ensures r.IsSuccess() ==> r == Answered("deleted", None)
    ensures r.IsServerError() <==> parseUuid(Param(c, "uuid")).Some? && delete(parseUuid(Param(c, "uuid")).value).Fail?
    ensures r.IsServerError() ==> r == ServerError(delete(parseUuid(Param(c, "uuid")).value).error)
  {
    match parseUuid(Param(c, "uuid"))
    case None => RejectValue(UuidInvalid)
    case Some(id) => Served(delete(id), Answered("deleted", None))
  }

  /** GetOwnedPocketMessage: the token's listing, answered 200 with the rows. */
  function GetOwnedPocketMessage(c: Request, cfg: Config, list: Token -> (seq<OwnedMessage>, Outcome)): (r: Response)
    ensures c.authorization == "" ==> r == Reject(MissingHeader)
    ensures r.IsClientError() <==> DecodeJWT(c.authorization, cfg).DecodeError?
    ensures r.IsSuccess() <==> DecodeJWT(c.authorization, cfg).Decoded? && list(DecodeJWT(c.authorization, cfg).token).1.Ok?
    ensures r.IsSuccess() ==> r == Answered("success", Some(OwnedData(list(DecodeJWT(c.authorization, cfg).token).0)))
    ensures r.IsServerError() <==> DecodeJWT(c.authorization, cfg).Decoded? && list(DecodeJWT(c.authorization, cfg).token).1.Fail?
    ensures r.IsServerError() ==> r == ServerError(list(DecodeJWT(c.authorization, cfg).token).1.error)
    ensures TokenCheck(c, cfg, StatusBadRequest).Refused? ==> r == TokenCheck(c, cfg, StatusBadRequest).reply
    ensures DecodeJWT(c.authorization, cfg).DecodeError? ==> r == Reject(DecodeJWT(c.authorization, cfg).error)
    ensures r == Aborted <==> c.authorization != "" && IndexOf(c.authorization, BearerSep).None?
  {
    match TokenCheck(c, cfg, StatusBadRequest)
    case Refused(reply) => reply
    case Accepted(t) =>
      var (rows, err) := list(t);
      Served(err, Answered("success", Some(OwnedData(rows))))
  }

  // ---------------------------------------------------------------------------
  // The live routes end to end
  // ---------------------------------------------------------------------------

  /** The handler behind the JWT middleware of POST /api/v1/pocket-messages,
      over the live service (the middleware itself is not modelled): a 201
      means the message and its share row were both saved, and when the uuid
      and the code were fresh the code resolves to the new message with zero
      visits. */
  method CreateRoute(s: PocketMessageService.PmServices, c: Request, cfg: Config, newUuid: Uuid,
                     generate: nat -> string, saveError: Option<string>, ridError: Option<string>)
    returns (r: Response)
    modifies s.db`messages, s.db`shares
    ensures r.IsSuccess() <==> BodyOk(c) && DecodeJWT(c.authorization, cfg).Decoded? && saveError.None? && ridError.None?
    ensures !r.IsSuccess() && !(BodyOk(c) && DecodeJWT(c.authorization, cfg).Decoded? && saveError.None?) ==>
      s.db.messages == old(s.db.messages) && s.db.shares == old(s.db.shares)
    ensures r.IsSuccess() ==>
      var code := generate(PocketMessageService.CodeLength);
      && s.db.messages == old(s.db.messages) + [PocketMessage(newUuid, c.message.title, c.message.content, DecodeJWT(c.authorization, cfg).token.uuid)]
      && s.db.shares == old(s.db.shares) + [ShareRow(code, 0, newUuid)]
      && ((forall m :: m in old(s.db.messages) ==> m.uuid != newUuid) &&
          (forall row :: row in old(s.db.shares) ==> row.randomId != code) ==>
          Repositories.Lookup(s.db.messages, s.db.shares, code)
          == Some(MessageWithRandomId(newUuid, code, c.message.title, c.message.content, 0)))
  {
    match CreateChecks(c, cfg, StatusBadRequest)
    case Refused(reply) =>
      r := reply;
    case Accepted(input) =>
      var ms, shares := s.db.messages, s.db.shares;
      var err := s.NewPocketMessage(input.0, input.1, newUuid, generate, saveError, ridError);
      r := NewPocketMessage(c, cfg, (_, _) => err);
      var code := generate(PocketMessageService.CodeLength);
      if r.IsSuccess() && (forall m :: m in ms ==> m.uuid != newUuid) && (forall row :: row in shares ==> row.randomId != code) {
        Repositories.CreateThenResolve(ms, shares, PocketMessage(newUuid, c.message.title, c.message.content, input.1.uuid), code);
      }
  }

  /** GET /api/v1/pocket-messages/msg/:random_id over the live service: a
      200 carries the title and content the code resolved to and leaves the
      next resolution reading one more visit. */
  method ResolveRoute(s: PocketMessageService.PmServices, c: Request, lookupError: Option<string>, updateError: Option<string>)
    returns (r: Response)
    modifies s.db`shares
    ensures r.IsSuccess() <==>
      && Param(c, "random_id") != "" && lookupError.None? && updateError.None?
      && Repositories.Lookup(s.db.messages, old(s.db.shares), Param(c, "random_id")).Some?
    ensures r.IsSuccess() ==>
      var found := Repositories.Lookup(s.db.messages, old(s.db.shares), Param(c, "random_id")).value;
      && r.data == Some(PublicData(PocketMessageService.Public(found)))
      && Repositories.Lookup(s.db.messages, s.db.shares, Param(c, "random_id")) == Some(found.(visit := found.visit + 1))
    ensures !r.IsSuccess() ==> s.db.shares == old(s.db.shares)
  {
    var rid := Param(c, "random_id");
    if rid == "" {
      return RejectValue(RandomIdEmpty);
    }
    ghost var ms, before := s.db.messages, s.db.shares;
    ghost var found := Repositories.Lookup(ms, before, rid);
    var view, err := s.GetPocketMessageByRandomID(rid, lookupError, updateError);
    ghost var after := s.db.shares;
    assert s.db.messages == ms;
    r := GetPocketMessageByRandomID(c, _ => (view, err));
    if err.Ok? {
      assert lookupError.None? && updateError.None? && found.Some?;
      assert view == PocketMessageService.Public(found.value);
      assert after == Repositories.SetVisit(before, found.value.uuid, found.value.visit + 1);
      assert r == Answered("success", Some(PublicData(view)));
      Repositories.ResolveIncrementsByOne(ms, before, rid);
    } else {
      assert r == ServerError(err.error);
      assert after == before;
    }
  }
}
