/** The records the pocket-message backend passes around (models/, dto/), the
    request and response shapes of its HTTP layer, and the small wrappers that
    stand for Go's `error` results. */
module Models {

  // ---------------------------------------------------------------------------
  // Wrappers
  // ---------------------------------------------------------------------------

  datatype Option<+T> = None | Some(value: T)

  /** A Go `error` result: nil (`Ok`) or an error with its text. */
  datatype Outcome = Ok | Fail(error: string)

  /** A Go `(value, error)` pair where the value is meaningless on error. */
  datatype Result<+T> = Success(value: T) | Failure(error: string)

  /** What a code path that may hit a runtime panic hands back. */
  datatype Reply<+T> = Returned(value: T) | Panicked

  /** The error reported by a store statement: `None` when the driver reported
      none, otherwise its text, passed through unchanged. */
  function AsOutcome(dbError: Option<string>): (r: Outcome)
    ensures r.Ok? <==> dbError.None?
    ensures dbError.Some? ==> r.error == dbError.value
  {
    match dbError
    case None => Ok
    case Some(e) => Fail(e)
  }

  // ---------------------------------------------------------------------------
  // Identifiers and records
  // ---------------------------------------------------------------------------

  /** A 128-bit UUID, abstracted to a number; 0 is `uuid.Nil`, the zero value. */
  type Uuid = nat

  const NilUuid: Uuid := 0

  /** The text of GORM's ErrRecordNotFound. */
  const RecordNotFound: string := "record not found"

  /** A row of the pocket_messages table (models.PocketMessage). */
  datatype PocketMessage = PocketMessage(uuid: Uuid, title: string, content: string, userUuid: Uuid)

  /** A row of the pocket_message_random_id table (models.PocketMessageRandomID):
      the public code of a message and its visit counter. */
  datatype ShareRow = ShareRow(randomId: string, visit: int, messageUuid: Uuid)

  /** A row of the users table (models.User); the password is stored as given. */
  datatype User = User(uuid: Uuid, username: string, password: string)

  /** dto.PocketMessageWithRandomID: a message joined with one of its share rows. */
  datatype MessageWithRandomId = MessageWithRandomId(uuid: Uuid, randomId: string, title: string, content: string, visit: int)

  /** dto.OwnedMessage: one row of the owner's listing. */
  datatype OwnedMessage = OwnedMessage(uuid: Uuid, randomId: string, title: string, content: string, visit: int)

  /** dto.MsgForPublic: what an anonymous reader of a shared code sees. */
  datatype MsgForPublic = MsgForPublic(title: string, content: string)

  /** dto.Token: the identity recovered from a bearer token. */
  datatype Token = Token(uuid: Uuid, username: string)

  /** dto.Login: the answer to a successful login. */
  datatype LoginResult = LoginResult(username: string, token: string)

  const EmptyUser: User := User(NilUuid, "", "")
  const EmptyJoined: MessageWithRandomId := MessageWithRandomId(NilUuid, "", "", "", 0)
  const EmptyPublic: MsgForPublic := MsgForPublic("", "")
  const EmptyToken: Token := Token(NilUuid, "")
  const EmptyLogin: LoginResult := LoginResult("", "")

  // ---------------------------------------------------------------------------
  // HTTP requests and responses (echo.Context, c.JSON)
  // ---------------------------------------------------------------------------

  /** What a handler can read from its echo.Context: the outcome of `c.Bind`
      together with the fields it decoded (into a pocket message or a user,
      whichever the handler binds), the path parameters, and the value of the
      Authorization header ("" when absent). */
  datatype Request = Request(
    bindError: Option<string>,
    message: PocketMessage,
    user: User,
    params: map<string, string>,
    authorization: string)

  /** `c.Param(name)`: the empty string when the route has no such parameter. */
  function Param(req: Request, name: string): (r: string)
    ensures name !in req.params ==> r == ""
    ensures name in req.params ==> r == req.params[name]
  {
    if name in req.params then req.params[name] else ""
  }

  const StatusOK := 200
  const StatusCreated := 201
  const StatusBadRequest := 400
  const StatusInternalServerError := 500

  /** The value under "message" in a JSON reply. `Text` is a string; `ErrorValue`
      is a Go error value put into the map as is (`errors.New(...)`), which
      encoding/json writes as `{}`, so its text never reaches the client. */
  datatype Message = Text(text: string) | ErrorValue(hidden: string)

  /** The value under "data" in a JSON reply. */
  datatype Data =
    | PublicData(public: MsgForPublic)
    | FullData(full: MessageWithRandomId)
    | OwnedData(owned: seq<OwnedMessage>)
    | LoginData(login: LoginResult)

  /** A reply written with `c.JSON(status, echo.Map{...})`, or `Aborted` when the
      handler panicked before writing one. */
  datatype Response = Json(status: int, message: Message, data: Option<Data>) | Aborted
  {
    predicate IsClientError() { Json? && status == StatusBadRequest }
    predicate IsServerError() { Json? && status == StatusInternalServerError }
    predicate IsSuccess() { Json? && 200 <= status < 300 }
  }

  function Reject(text: string): Response { Json(StatusBadRequest, Text(text), None) }
  function RejectValue(text: string): Response { Json(StatusBadRequest, ErrorValue(text), None) }
  function ServerError(text: string): Response { Json(StatusInternalServerError, Text(text), None) }
}
