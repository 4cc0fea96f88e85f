/** The live user service (services/users/users.go): sign-up, login, rename
    and password change over the store. The fresh UUID of a sign-up is a
    parameter; the token comes from JwtAuth.GetToken. */
module UserService {
  import opened Models
  import opened Repositories
  import opened JwtAuth

  const UsernameExist: string := "username exist, try another username"

  /** The error GetUserByUsername reports for `username` over `users`, or
      `None` when it finds the user. */
  function LookupError(users: seq<User>, username: string, dbError: Option<string>): (r: Option<string>)
    ensures r.None? <==> dbError.None? && exists k :: 0 <= k < |users| && users[k].username == username
    ensures dbError.Some? ==> r == dbError
  {
    if dbError.Some? then dbError
    else if FirstNamed(users, username).None? then Some(RecordNotFound)
    else None
  }

  /** The username is free exactly when the lookup says "record not found". */
  predicate Free(users: seq<User>, username: string, dbError: Option<string>)
  {
    LookupError(users, username, dbError) == Some(RecordNotFound)
  }

  class UserServices {
    const db: GormSql

    constructor (db: GormSql)
      ensures this.db == db
    {
      this.db := db;
    }

    /** SignUp: saves the user under `newUuid` when the name is free. Every
        path ends in an error: a lookup failure other than "record not found",
        the save's error, or "username exist" — after a successful save too. */
    method SignUp(user: User, newUuid: Uuid, lookupError: Option<string>, saveError: Option<string>)
      returns (err: Outcome)
      modifies db`users
      ensures err.Fail?
      ensures Free(old(db.users), user.username, lookupError) && saveError.None? ==>
        db.users == old(db.users) + [user.(uuid := newUuid)] && err == Fail(UsernameExist)
      ensures Free(old(db.users), user.username, lookupError) && saveError.Some? ==>
        db.users == old(db.users) && err == Fail(saveError.value)
      ensures !Free(old(db.users), user.username, lookupError) ==> db.users == old(db.users)
      ensures !Free(old(db.users), user.username, lookupError) ==>
        err == Fail(match LookupError(old(db.users), user.username, lookupError)
                    case Some(e) => e
                    case None => UsernameExist)
    {
      var _, e := db.GetUserByUsername(user.username, lookupError);
      if e.Fail? {
        if e.error == RecordNotFound {
          var saved := db.SaveNewUser(user.(uuid := newUuid), saveError);
          if saved.Fail? {
            return saved;
          }
        } else {
          return e;
        }
      }
      err := Fail(UsernameExist);
    }

    /** Login: the first user with this username and password, and a token
        issued for that user's uuid and username. */
    method Login(user: User, cfg: Config, loginError: Option<string>) returns (r: LoginResult, err: Outcome)
      ensures err.Ok? <==>
        && loginError.None?
        && FirstLogin(db.users, user.username, user.password).Some?
        && GetToken(db.users[FirstLogin(db.users, user.username, user.password).value].uuid, user.username, cfg).Success?
      ensures err.Ok? ==>
        var found := db.users[FirstLogin(db.users, user.username, user.password).value];
        r == LoginResult(user.username, GetToken(found.uuid, found.username, cfg).value)
      ensures !err.Ok? ==> r == EmptyLogin
      ensures loginError.Some? ==> err == Fail(loginError.value)
      ensures loginError.None? && FirstLogin(db.users, user.username, user.password).None? ==> err == Fail(RecordNotFound)
      ensures err.Ok? && Sound(cfg.codec) ==>
        var found := db.users[FirstLogin(db.users, user.username, user.password).value];
        DecodeJWT(BearerSep + r.token, cfg) == Decoded(Token(found.uuid, user.username))
    {
      var found, e := db.Login(user.username, user.password, loginError);
      if e.Fail? {
        return EmptyLogin, e;
      }
      match GetToken(found.uuid, found.username, cfg)
      case Failure(msg) =>
        return EmptyLogin, Fail(msg);
      case Success(token) =>
        r, err := LoginResult(found.username, token), Ok;
        assert Sound(cfg.codec) ==> DecodeJWT(BearerSep + token, cfg) == Decoded(Token(found.uuid, found.username)) by {
          if Sound(cfg.codec) {
            IssueThenDecode(found.uuid, found.username, cfg, cfg);
          }
        }
    }

    /** UpdateUsername: renames the token's user when the new name is free.
        Like SignUp it ends in an error on every path, "username exist" after a
        successful rename too. */
    method UpdateUsername(user: User, t: Token, lookupError: Option<string>, updateError: Option<string>)
      returns (err: Outcome)
      modifies db`users
      ensures err.Fail?
      ensures Free(old(db.users), user.username, lookupError) && updateError.None? ==>
        db.users == Rename(old(db.users), t.uuid, user.username) && err == Fail(UsernameExist)
      ensures Free(old(db.users), user.username, lookupError) && updateError.Some? ==>
        db.users == old(db.users) && err == Fail(updateError.value)
      ensures !Free(old(db.users), user.username, lookupError) ==> db.users == old(db.users)
      ensures !Free(old(db.users), user.username, lookupError) ==>
        err == Fail(match LookupError(old(db.users), user.username, lookupError)
                    case Some(e) => e
                    case None => UsernameExist)
    {
      var _, e := db.GetUserByUsername(user.username, lookupError);
      if e.Fail? {
        if e.error == RecordNotFound {
          var updated := db.UpdateUsername(user.(uuid := t.uuid), updateError);
          if updated.Fail? {
            return updated;
          }
        } else {
          return e;
        }
      }
      err := Fail(UsernameExist);
    }

    /** UpdatePassword: forwarded to the store, keyed by username. */
    method UpdatePassword(user: User, updateError: Option<string>) returns (err: Outcome)
      modifies db`users
      ensures err == AsOutcome(updateError)
      ensures db.users == if updateError.None? then SetPassword(old(db.users), user.username, user.password)
                          else old(db.users)
    {
      err := db.UpdatePassword(user, updateError);
    }
  }

  // ---------------------------------------------------------------------------
  // Properties
  // ---------------------------------------------------------------------------

  /** After a sign-up saved the user, the name is taken: a second sign-up with
      the same name saves nothing. */
  lemma SignUpTakesName(users: seq<User>, user: User, newUuid: Uuid)
    ensures !Free(users + [user.(uuid := newUuid)], user.username, None)
  {
    var after := users + [user.(uuid := newUuid)];
    assert after[|users|].username == user.username;
  }

  /** A user who signed up can log in with the same username and password; the
      login finds the new account unless an older one has the same credentials. */
  lemma {:induction false} SignedUpCanLogIn(users: seq<User>, user: User, newUuid: Uuid)
    ensures FirstLogin(users + [user.(uuid := newUuid)], user.username, user.password).Some?
    ensures FirstLogin(users, user.username, user.password).None? ==>
      FirstLogin(users + [user.(uuid := newUuid)], user.username, user.password) == Some(|users|)
  {
    var after := users + [user.(uuid := newUuid)];
    assert after[|users|].username == user.username && after[|users|].password == user.password;
    assert forall j :: 0 <= j < |users| ==> after[j] == users[j];
  }

  /** A password change under one username leaves every other user able to log
      in exactly as before. */
  lemma {:induction false} PasswordChangeSparesOthers(users: seq<User>, name: string, password: string,
                                                     other: string, otherPassword: string)
    requires other != name
    ensures FirstLogin(SetPassword(users, name, password), other, otherPassword) == FirstLogin(users, other, otherPassword)
  {
    var after := SetPassword(users, name, password);
    var a := FirstLogin(after, other, otherPassword);
    var b := FirstLogin(users, other, otherPassword);
    if a.Some? {
      assert users[a.value].username == other && users[a.value].password == otherPassword;
    }
    if b.Some? {
      assert after[b.value].username == other && after[b.value].password == otherPassword;
    }
  }

  /** After a password change the new password logs in under that username. */
  lemma {:induction false} NewPasswordLogsIn(users: seq<User>, name: string, password: string)
    requires exists k :: 0 <= k < |users| && users[k].username == name
    ensures FirstLogin(SetPassword(users, name, password), name, password).Some?
  {
    var k :| 0 <= k < |users| && users[k].username == name;
    var after := SetPassword(users, name, password);
    assert after[k].username == name && after[k].password == password;
  }
}
