/** The user HTTP handlers (controllers/rest-echo/users/users.go). The older
    controllers/user.go repeats these four bodies line for line against a
    service interface of the same shape, and is modelled by the same functions.
    As in PocketMessageHandler, the service is a function parameter. */
module UserHandler {
  import opened Models
  import opened JwtAuth
  import opened Responses
  import UserService

  const UsernameEmpty: string := "username should not be empty"
  const PasswordEmpty: string := "password should not be empty"
  const RenameUsernameEmpty: string := "error, username should not be empty"

  /** The bound user has a username and a password. */
  predicate CredentialsOk(c: Request)
  {
    c.bindError.None? && c.user.username != "" && c.user.password != ""
  }

  /** Bind, then username, then password: the guards of SignUp, Login and
      UpdatePassword. */
  function CredentialChecks(c: Request): (g: Checked<User>)
    ensures g.Accepted? <==> CredentialsOk(c)
    ensures g.Accepted? ==> g.value == c.user
    ensures c.bindError.Some? ==> g == Refused(Reject(c.bindError.value))
    ensures c.bindError.None? && c.user.username == "" ==> g == Refused(RejectValue(UsernameEmpty))
    ensures c.bindError.None? && c.user.username != "" && c.user.password == "" ==> g == Refused(RejectValue(PasswordEmpty))
  {
    match BindCheck(c)
    case Refused(r) => Refused(r)
    case Accepted(_) =>
      if c.user.username == "" then Refused(RejectValue(UsernameEmpty))
      else if c.user.password == "" then Refused(RejectValue(PasswordEmpty))
      else Accepted(c.user)
  }

  /** SignUp: 201 "created" when the service reports no error. */
  function SignUp(c: Request, signUp: User -> Outcome): (r: Response)
    ensures !CredentialsOk(c) ==> r == CredentialChecks(c).reply && r.IsClientError()
    ensures r.IsSuccess() <==> CredentialsOk(c) && signUp(c.user).Ok?
    ensures r.IsSuccess() ==> r == Created
    ensures r.IsServerError() <==> CredentialsOk(c) && signUp(c.user).Fail?
    ensures r.IsServerError() ==> r == ServerError(signUp(c.user).error)
  {
    match CredentialChecks(c)
    case Refused(reply) => reply
    case Accepted(u) => Served(signUp(u), Created)
  }

  /** Login: 200 "success" with the service's result as data. */
  function Login(c: Request, login: User -> (LoginResult, Outcome)): (r: Response)
    ensures !CredentialsOk(c) ==> r == CredentialChecks(c).reply && r.IsClientError()
    ensures r.IsSuccess() <==> CredentialsOk(c) && login(c.user).1.Ok?
    ensures r.IsSuccess() ==> r == Answered("success", Some(LoginData(login(c.user).0)))
    ensures r.IsServerError() <==> CredentialsOk(c) && login(c.user).1.Fail?
    ensures r.IsServerError() ==> r == ServerError(login(c.user).1.error)
  {
    match CredentialChecks(c)
    case Refused(reply) => reply
    case Accepted(u) =>
      var (result, err) := login(u);
      Served(err, Answered("success", Some(LoginData(result))))
  }

  /** UpdateUsername's guards: bind, then username, then the token. */
  function RenameChecks(c: Request, cfg: Config): (g: Checked<(User, Token)>)
    ensures c.bindError.Some? ==> g == Refused(Reject(c.bindError.value))
    ensures c.bindError.None? && c.user.username == "" ==> g == Refused(RejectValue(RenameUsernameEmpty))
    ensures c.bindError.None? && c.user.username != "" ==> g == match TokenCheck(c, cfg, StatusBadRequest)
      case Refused(r) => Refused(r)
      case Accepted(t) => Accepted((c.user, t))
  {
    match BindCheck(c)
    case Refused(r) => Refused(r)
    case Accepted(_) =>
      if c.user.username == "" then Refused(RejectValue(RenameUsernameEmpty))
      else
        match TokenCheck(c, cfg, StatusBadRequest)
        case Refused(r) => Refused(r)
        case Accepted(t) => Accepted((c.user, t))
  }

  /** UpdateUsername: the username is checked before the token; the service
      gets the bound user and the token. */
  function UpdateUsername(c: Request, cfg: Config, rename: (User, Token) -> Outcome): (r: Response)
    ensures c.bindError.None? && c.user.username == "" ==> r == RejectValue(RenameUsernameEmpty)
    ensures r.IsClientError() <==>
      c.bindError.Some? || c.user.username == "" || DecodeJWT(c.authorization, cfg).DecodeError?
    ensures r.IsSuccess() <==>
      && c.bindError.None? && c.user.username != "" && DecodeJWT(c.authorization, cfg).Decoded?
      && rename(c.user, DecodeJWT(c.authorization, cfg).token).Ok?
    ensures r.IsSuccess() ==> r == Answered("success", None)
    ensures r.IsServerError() <==>
      && c.bindError.None? && c.user.username != "" && DecodeJWT(c.authorization, cfg).Decoded?
      && rename(c.user, DecodeJWT(c.authorization, cfg).token).Fail?
    ensures r.IsServerError() ==> r == ServerError(rename(c.user, DecodeJWT(c.authorization, cfg).token).error)
    ensures RenameChecks(c, cfg).Refused? ==> r == RenameChecks(c, cfg).reply
    ensures c.bindError.Some? ==> r == Reject(c.bindError.value)
    ensures c.bindError.None? && c.user.username != "" && DecodeJWT(c.authorization, cfg).DecodeError? ==>
      r == Reject(DecodeJWT(c.authorization, cfg).error)
    ensures r == Aborted <==>
      c.bindError.None? && c.user.username != "" && c.authorization != "" && IndexOf(c.authorization, BearerSep).None?
  {
    match RenameChecks(c, cfg)
    case Refused(reply) => reply
    case Accepted(input) => Served(rename(input.0, input.1), Answered("success", None))
  }

  /** UpdatePassword: the credential guards and no token at all. */
  function UpdatePassword(c: Request, setPassword: User -> Outcome): (r: Response)
    ensures !CredentialsOk(c) ==> r == CredentialChecks(c).reply && r.IsClientError()
    ensures r.IsSuccess() <==> CredentialsOk(c) && setPassword(c.user).Ok?
    ensures r.IsSuccess() ==> r == Answered("success", None)
    ensures r.IsServerError() <==> CredentialsOk(c) && setPassword(c.user).Fail?
    ensures r.IsServerError() ==> r == ServerError(setPassword(c.user).error)
  {
    match CredentialChecks(c)
    case Refused(reply) => reply
    case Accepted(u) => Served(setPassword(u), Answered("success", None))
  }

  /** UpdatePassword's reply does not depend on the Authorization header. */
  lemma PasswordChangeIgnoresToken(c: Request, auth: string, setPassword: User -> Outcome)
    ensures UpdatePassword(c.(authorization := auth), setPassword) == UpdatePassword(c, setPassword)
  {
  }

  // ---------------------------------------------------------------------------
  // The live routes end to end
  // ---------------------------------------------------------------------------

  /** POST /api/v1/users/signup over the live user service: since that
      service ends in an error on every path, the route never answers 201,
      whatever the store holds; it answers 400 or 500. */
  method SignUpRoute(s: UserService.UserServices, c: Request, newUuid: Uuid,
                     lookupError: Option<string>, saveError: Option<string>) returns (r: Response)
    modifies s.db`users
    ensures !r.IsSuccess()
    ensures r.IsClientError() <==> !CredentialsOk(c)
    ensures CredentialsOk(c) ==> r.IsServerError()
  {
    match CredentialChecks(c)
    case Refused(reply) =>
      r := reply;
    case Accepted(u) =>
      var err := s.SignUp(u, newUuid, lookupError, saveError);
      r := SignUp(c, _ => err);
  }

  /** The handler behind the JWT middleware of PUT /api/v1/users/change-username,
      over the live user service (the middleware itself is not modelled):
      never answers 200. */
  method UpdateUsernameRoute(s: UserService.UserServices, c: Request, cfg: Config,
                             lookupError: Option<string>, updateError: Option<string>) returns (r: Response)
    modifies s.db`users
    ensures !r.IsSuccess()
    ensures r.IsClientError() <==>
      c.bindError.Some? || c.user.username == "" || DecodeJWT(c.authorization, cfg).DecodeError?
  {
    match RenameChecks(c, cfg)
    case Refused(reply) =>
      r := reply;
    case Accepted(input) =>
      var err := s.UpdateUsername(input.0, input.1, lookupError, updateError);
      r := UpdateUsername(c, cfg, (_, _) => err);
  }
}
