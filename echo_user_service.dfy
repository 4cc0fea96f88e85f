/** The echo-context user service (services/user.go). Unlike the live one it
    binds its own request, checks for empty fields, and in two operations
    writes a 400 reply itself and hands back the outcome of that write. */
module EchoUserService {
  import opened Models
  import opened Repositories
  import opened JwtAuth
  import opened EchoPocketMessageService

  const SignUpPasswordEmpty: string := "error - password should not be empty"
  const UsernameEmpty: string := "error, username should not be empty"
  const PasswordEmpty: string := "error, password should not be empty"

  /** Login's checks: bind, then non-empty username, then non-empty password. */
  function LoginGate(c: Request): (g: Gate<User>)
    ensures g.Pass? <==> c.bindError.None? && c.user.username != "" && c.user.password != ""
    ensures g.Pass? ==> g.value == c.user
    ensures c.bindError.Some? ==> g == Stop(Returned(Fail(c.bindError.value)))
    ensures c.bindError.None? && c.user.username == "" ==> g == Stop(Returned(Fail(UsernameEmpty)))
    ensures c.bindError.None? && c.user.username != "" && c.user.password == "" ==> g == Stop(Returned(Fail(PasswordEmpty)))
  {
    if c.bindError.Some? then Stop(Returned(Fail(c.bindError.value)))
    else if c.user.username == "" then Stop(Returned(Fail(UsernameEmpty)))
    else if c.user.password == "" then Stop(Returned(Fail(PasswordEmpty)))
    else Pass(c.user)
  }

  /** The 400 reply UpdatePassword writes itself, if any: for an empty
      username first, then for an empty password. */
  function PasswordFormReply(u: User): (r: Option<Response>)
    ensures r.None? <==> u.username != "" && u.password != ""
    ensures r.Some? ==> r.value.IsClientError() && r.value.message.Text?
    ensures u.username == "" ==> r == Some(Reject(UsernameEmpty))
    ensures u.username != "" && u.password == "" ==> r == Some(Reject(PasswordEmpty))
  {
    if u.username == "" then Some(Reject(UsernameEmpty))
    else if u.password == "" then Some(Reject(PasswordEmpty))
    else None
  }

  class UserServices {
    const db: GormSql

    constructor (db: GormSql)
      ensures this.db == db
    {
      this.db := db;
    }

    /** SignUp: saves the bound user under `newUuid`, with no check that the
        username is free or non-empty. An empty password writes a 400 reply
        and returns what writing it returned (`writeError`). */
    method SignUp(c: Request, newUuid: Uuid, saveError: Option<string>, writeError: Option<string>)
      returns (err: Outcome, written: Option<Response>)
      modifies db`users
      ensures c.bindError.Some? ==> err == Fail(c.bindError.value) && written.None? && db.users == old(db.users)
      ensures c.bindError.None? && c.user.password == "" ==>
        err == AsOutcome(writeError) && written == Some(Reject(SignUpPasswordEmpty)) && db.users == old(db.users)
      ensures c.bindError.None? && c.user.password != "" ==>
        && err == AsOutcome(saveError)
        && written.None?
        && db.users == if saveError.None? then old(db.users) + [c.user.(uuid := newUuid)] else old(db.users)
    {
      if c.bindError.Some? {
        return Fail(c.bindError.value), None;
      }
      if c.user.password == "" {
        return AsOutcome(writeError), Some(Reject(SignUpPasswordEmpty));
      }
      err := db.SaveNewUser(c.user.(uuid := newUuid), saveError);
      written := None;
    }

    /** Login: the checks, then the first user with these credentials and a
        token issued for that user. */
    method Login(c: Request, cfg: Config, loginError: Option<string>) returns (r: LoginResult, err: Outcome)
      ensures LoginGate(c).Stop? ==> r == EmptyLogin && Returned(err) == LoginGate(c).reply
      ensures LoginGate(c).Pass? ==>
        var hit := FirstLogin(db.users, c.user.username, c.user.password);
        if loginError.Some? then r == EmptyLogin && err == Fail(loginError.value)
        else if hit.None? then r == EmptyLogin && err == Fail(RecordNotFound)
        else
          var token := GetToken(db.users[hit.value].uuid, c.user.username, cfg);
          if token.Failure? then r == EmptyLogin && err == Fail(token.error)
          else r == LoginResult(c.user.username, token.value) && err == Ok
    {
      match LoginGate(c)
      case Stop(reply) =>
        return EmptyLogin, reply.value;
      case Pass(u) =>
        var found, e := db.Login(u.username, u.password, loginError);
        if e.Fail? {
          return EmptyLogin, e;
        }
        match GetToken(found.uuid, found.username, cfg)
        case Failure(msg) =>
          r, err := EmptyLogin, Fail(msg);
        case Success(token) =>
          r, err := LoginResult(found.username, token), Ok;
    }

    /** UpdateUsername: ignores the bind error, refuses an empty username
        before looking at the token, then renames the token's user with no
        check that the name is free. */
    method UpdateUsername(c: Request, cfg: Config, updateError: Option<string>) returns (r: Reply<Outcome>)
      modifies db`users
      ensures c.user.username == "" ==> r == Returned(Fail(UsernameEmpty)) && db.users == old(db.users)
      ensures c.user.username != "" && TokenGate(c, cfg).Stop? ==>
        r == TokenGate(c, cfg).reply && db.users == old(db.users)
      ensures c.user.username != "" && TokenGate(c, cfg).Pass? ==>
        && r == Returned(AsOutcome(updateError))
        && db.users == if updateError.None? then Rename(old(db.users), TokenGate(c, cfg).value.uuid, c.user.username)
                       else old(db.users)
    {
      if c.user.username == "" {
        return Returned(Fail(UsernameEmpty));
      }
      match TokenGate(c, cfg)
      case Stop(reply) =>
        return reply;
      case Pass(t) =>
        var err := db.UpdateUsername(c.user.(uuid := t.uuid), updateError);
        r := Returned(err);
    }

    /** UpdatePassword: an empty username or password writes a 400 reply and
        returns what writing it returned; otherwise the store update. */
    method UpdatePassword(c: Request, updateError: Option<string>, writeError: Option<string>)
      returns (err: Outcome, written: Option<Response>)
      modifies db`users
      ensures c.bindError.Some? ==> err == Fail(c.bindError.value) && written.None? && db.users == old(db.users)
      ensures c.bindError.None? && PasswordFormReply(c.user).Some? ==>
        err == AsOutcome(writeError) && written == PasswordFormReply(c.user) && db.users == old(db.users)
      ensures c.bindError.None? && PasswordFormReply(c.user).None? ==>
        && err == AsOutcome(updateError)
        && written.None?
        && db.users == if updateError.None? then SetPassword(old(db.users), c.user.username, c.user.password)
                       else old(db.users)
    {
      if c.bindError.Some? {
        return Fail(c.bindError.value), None;
      }
      written := PasswordFormReply(c.user);
      if written.Some? {
        return AsOutcome(writeError), written;
      }
      err := db.UpdatePassword(c.user, updateError);
    }
  }
}
