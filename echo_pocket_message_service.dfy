/** The echo-context pocket-message service (services/pocketMessage.go): each
    operation reads its own request, runs a chain of checks that touch nothing,
    then issues its store statements. The checks are the `...Gate` functions. */
module EchoPocketMessageService {
  import opened Models
  import opened Repositories
  import opened JwtAuth
  import PocketMessageService

  const TitleEmpty: string := "error, title should not be empty"
  const ContentEmpty: string := "error, content should not be empty"
  const RandomIdEmpty: string := "error, random_id parameter can not be empty"
  const UuidInvalid: string := "uuid invalid"

  /** The verdict of a chain of checks: stop with this reply, or go on with
      the value the checks produced. */
  datatype Gate<T> = Stop(reply: Reply<Outcome>) | Pass(value: T)

  /** The token check shared by the operations that need the caller. */
  function TokenGate(c: Request, cfg: Config): (g: Gate<Token>)
    ensures g.Pass? <==> DecodeJWT(c.authorization, cfg).Decoded?
    ensures g.Pass? ==> g.value == DecodeJWT(c.authorization, cfg).token
    ensures g == Stop(Panicked) <==> c.authorization != "" && IndexOf(c.authorization, BearerSep).None?
    ensures c.authorization == "" ==> g == Stop(Returned(Fail(MissingHeader)))
  {
    match DecodeJWT(c.authorization, cfg)
    case Decoded(t) => Pass(t)
    case DecodeError(e) => Stop(Returned(Fail(e)))
    case IndexOutOfRange => Stop(Panicked)
  }

  /** Bind, then non-empty title, then non-empty content. */
  function BodyGate(c: Request): (g: Gate<PocketMessage>)
    ensures g.Pass? <==> c.bindError.None? && c.message.title != "" && c.message.content != ""
    ensures g.Pass? ==> g.value == c.message
    ensures c.bindError.Some? ==> g == Stop(Returned(Fail(c.bindError.value)))
    ensures c.bindError.None? && c.message.title == "" ==> g == Stop(Returned(Fail(TitleEmpty)))
    ensures c.bindError.None? && c.message.title != "" && c.message.content == "" ==> g == Stop(Returned(Fail(ContentEmpty)))
  {
    if c.bindError.Some? then Stop(Returned(Fail(c.bindError.value)))
    else if c.message.title == "" then Stop(Returned(Fail(TitleEmpty)))
    else if c.message.content == "" then Stop(Returned(Fail(ContentEmpty)))
    else Pass(c.message)
  }

  /** NewPocketMessage's checks: the body first, the token only after it. */
  function CreateGate(c: Request, cfg: Config): (g: Gate<(PocketMessage, Token)>)
    ensures BodyGate(c).Stop? ==> g == Stop(BodyGate(c).reply)
    ensures g.Pass? <==> BodyGate(c).Pass? && TokenGate(c, cfg).Pass?
    ensures g.Pass? ==> g.value == (c.message, DecodeJWT(c.authorization, cfg).token)
  {
    match BodyGate(c)
    case Stop(r) => Stop(r)
    case Pass(pm) =>
      match TokenGate(c, cfg)
      case Stop(r) => Stop(r)
      case Pass(t) => Pass((pm, t))
  }

  /** UpdatePocketMessage's checks: the body, then the path uuid. */
  function UpdateGate(c: Request, parseUuid: string -> Option<Uuid>): (g: Gate<PocketMessage>)
    ensures BodyGate(c).Stop? ==> g == Stop(BodyGate(c).reply)
    ensures BodyGate(c).Pass? && parseUuid(Param(c, "uuid")).None? ==> g == Stop(Returned(Fail(UuidInvalid)))
    ensures g.Pass? <==> BodyGate(c).Pass? && parseUuid(Param(c, "uuid")).Some?
    ensures g.Pass? ==> g.value == c.message.(uuid := parseUuid(Param(c, "uuid")).value)
  {
    match BodyGate(c)
    case Stop(r) => Stop(r)
    case Pass(pm) =>
      match parseUuid(Param(c, "uuid"))
      case None => Stop(Returned(Fail(UuidInvalid)))
      case Some(id) => Pass(pm.(uuid := id))
  }

  class PmServices {
    const db: GormSql

    constructor (db: GormSql)
      ensures this.db == db
    {
      this.db := db;
    }

    /** NewPocketMessage: checks the body and the token, then saves the message
        under `newUuid`, owned by the token's user, and then its share row. */
    method NewPocketMessage(c: Request, cfg: Config, newUuid: Uuid, generate: nat -> string,
                            saveError: Option<string>, ridError: Option<string>) returns (r: Reply<Outcome>)
      modifies db`messages, db`shares
      ensures CreateGate(c, cfg).Stop? ==>
        r == CreateGate(c, cfg).reply && db.messages == old(db.messages) && db.shares == old(db.shares)
      ensures CreateGate(c, cfg).Pass? && saveError.Some? ==>
        r == Returned(Fail(saveError.value)) && db.messages == old(db.messages) && db.shares == old(db.shares)
      ensures CreateGate(c, cfg).Pass? && saveError.None? ==>
        var t := CreateGate(c, cfg).value.1;
        && db.messages == old(db.messages) + [PocketMessage(newUuid, c.message.title, c.message.content, t.uuid)]
        && db.shares == old(db.shares)
             + (if ridError.None? then [ShareRow(generate(PocketMessageService.CodeLength), 0, newUuid)] else [])
        && r == Returned(AsOutcome(ridError))
    {
      match CreateGate(c, cfg)
      case Stop(reply) =>
        return reply;
      case Pass(input) =>
        var msg := input.0.(uuid := newUuid, userUuid := input.1.uuid);
        var err := db.SaveNewPocketMessage(msg, saveError);
        if err.Fail? {
          return Returned(err);
        }
        var rid := ShareRow(generate(PocketMessageService.CodeLength), 0, msg.uuid);
        err := db.SaveNewRandomID(rid, ridError);
        r := Returned(err);
    }

    /** GetPocketMessageByRandomID: an empty code is refused before the store
        is asked; otherwise as in the older service. */
    method GetPocketMessageByRandomID(c: Request, lookupError: Option<string>, updateError: Option<string>)
      returns (r: MessageWithRandomId, err: Outcome)
      modifies db`shares
      ensures Param(c, "random_id") == "" ==>
        r == EmptyJoined && err == Fail(RandomIdEmpty) && db.shares == old(db.shares)
      ensures Param(c, "random_id") != "" ==>
        var found := Lookup(db.messages, old(db.shares), Param(c, "random_id"));
        if lookupError.Some? || found.None? then
          && r == EmptyJoined
          && err == Fail(if lookupError.Some? then lookupError.value else RecordNotFound)
          && db.shares == old(db.shares)
        else if updateError.Some? then
          r == EmptyJoined && err == Fail(updateError.value) && db.shares == old(db.shares)
        else
          r == found.value && err == Ok && db.shares == SetVisit(old(db.shares), r.uuid, r.visit + 1)
    {
      var rid := Param(c, "random_id");
      if rid == "" {
        return EmptyJoined, Fail(RandomIdEmpty);
      }
      var v, e := db.GetPocketMessageByRandomID(rid, lookupError);
      if e.Fail? {
        return EmptyJoined, e;
      }
      err := db.UpdateVisitCount(v, updateError);
      if err.Fail? {
        return EmptyJoined, err;
      }
      r := v;
    }

    /** UpdatePocketMessage: checks the body, then the path uuid, then updates. */
    method UpdatePocketMessage(c: Request, parseUuid: string -> Option<Uuid>, updateError: Option<string>)
      returns (r: Reply<Outcome>)
      modifies db`messages
      ensures UpdateGate(c, parseUuid).Stop? ==> r == UpdateGate(c, parseUuid).reply && db.messages == old(db.messages)
      ensures UpdateGate(c, parseUuid).Pass? ==>
        && r == Returned(AsOutcome(updateError))
        && db.messages == if updateError.None? then ReviseAll(old(db.messages), UpdateGate(c, parseUuid).value)
                          else old(db.messages)
    {
      match UpdateGate(c, parseUuid)
      case Stop(reply) =>
        return reply;
      case Pass(pm) =>
        var err := db.UpdatePocketMessage(pm, updateError);
        r := Returned(err);
    }

    /** DeletePocketMessage: an unparsable path uuid is refused with no store call. */
    method DeletePocketMessage(c: Request, parseUuid: string -> Option<Uuid>, deleteError: Option<string>)
      returns (err: Outcome)
      modifies db`messages
      ensures parseUuid(Param(c, "uuid")).None? ==> err == Fail(UuidInvalid) && db.messages == old(db.messages)
      ensures parseUuid(Param(c, "uuid")).Some? ==>
        && err == AsOutcome(deleteError)
        && db.messages == if deleteError.None? then Without(old(db.messages), parseUuid(Param(c, "uuid")).value)
                          else old(db.messages)
    {
      match parseUuid(Param(c, "uuid"))
      case None =>
        return Fail(UuidInvalid);
      case Some(id) =>
        err := db.DeletePocketMessage(id, deleteError);
    }

    /** GetUserPocketMessage: the token's user's listing; nil and the token
        error when the token does not decode. */
    method GetUserPocketMessage(c: Request, cfg: Config, queryError: Option<string>)
      returns (rows: seq<OwnedMessage>, r: Reply<Outcome>)
      ensures TokenGate(c, cfg).Stop? ==> rows == [] && r == TokenGate(c, cfg).reply
      ensures c.authorization == "" ==> rows == [] && r == Returned(Fail(MissingHeader))
      ensures TokenGate(c, cfg).Pass? ==>
        && r == Returned(AsOutcome(queryError))
        && rows == if queryError.None? then OwnedBy(db.messages, db.shares, TokenGate(c, cfg).value.uuid) else []
    {
      match TokenGate(c, cfg)
      case Stop(reply) =>
        return [], reply;
      case Pass(t) =>
        var err;
        rows, err := db.GetPocketMessageByUserUUID(t.uuid, queryError);
        r := Returned(err);
    }
  }
}
