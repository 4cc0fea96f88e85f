# pocket-message, modelled in Dafny

pocket-message is a small REST backend. Users sign up and log in, and a login
returns a 24-hour HS256 bearer token. Logged-in users write short notes
("pocket messages"). Each note is published under an 8-character random code,
and anyone holding the code can read the note's title and content. Every read
through the code increments a visit counter.

This project models the core of that backend over an in-memory store:

- `Repositories.GormSql` is the store. It is a class with three tables held as
  sequences in primary-key order: messages, share rows (code, visit count,
  message uuid) and users. Each method is one SQL statement of
  repositories/gorm.go and repositories/gorm_users.go, with its full new state
  and a "nothing else changes" frame. The driver's failure for a statement is
  a parameter (`dbError`). A failed statement changes nothing and its error is
  returned unchanged.
- The share and visit services are classes over the store, in three versions:
  - `PocketMessageService` is the live one (services/pocket_messages).
  - `LegacyPocketMessageService` is the older one (services/pocket_message.go).
  - `EchoPocketMessageService` is the echo-context one (services/pocketMessage.go).
    Its guard chains are the pure `...Gate` functions.
- The user services are `UserService` (services/users) and `EchoUserService`
  (services/user.go).
- `JwtAuth` covers middleware/jwt_auth.go:
  - the claim construction of GetToken;
  - DecodeJWT's empty-header check;
  - the `strings.Split(auth, "Bearer ")[1]` extraction, modelled concretely
    with a proof that Split and Join are inverses;
  - the panic that extraction raises on a header without "Bearer ";
  - the error mapping.

  HS256 signing and verification (RFC 7519, RFC 7518 section 3.2) are an
  uninterpreted `Codec`. The predicate `Sound` states the three things
  assumed of it:
  - a token it signed contains no space;
  - such a token verifies to its own claims while `now <= exp`;
  - it is rejected once `now > exp`.

  `Sound` is used in two places. It is a precondition of the lemmas
  `IssueThenDecode` and `ExpiredTokenRejected`. It is also the antecedent of
  the `ensures` clause of `UserService.UserServices.Login` that says the
  returned token decodes back to the user.
- The HTTP handlers are pure functions: `PocketMessageHandler`,
  `LegacyPocketMessageHandler` and `UserHandler`. Each maps the request and the
  embedded service's result to a reply (status, message, data). A panic is the
  reply `Aborted`. The service is a function parameter, so each contract names
  the arguments the service is called with. Methods such as `CreateRoute` and
  `SignUpRoute` compose a handler with the live service and the store. The
  route-level JWT middleware in front of some handlers is not modelled.

A few small members are the constructors of outcomes and replies that the
other contracts name, and have no row of their own:
- `Models.AsOutcome`: a store error, or nil. The store methods promise `err == AsOutcome(dbError)`.
- `Models.Param`: `c.Param`, with "" for a missing parameter.
- `PocketMessageService.Public`: the title-and-content view.
- `Responses.Answered`: a 200 reply.
- `Responses.BindCheck`: the bind guard.
- `Responses.Served`: a service error answered 500 with its text.

Fresh UUIDs (`uuid.New`) and generated codes (`GenerateRandomString(8)`) are
parameters. `uuid.Parse` is a parameter `parseUuid`. The wall clock is
`Config.now`.

Where one would expect otherwise from the system's purpose, the model follows
the code:

- **The bearer text is not a prefix.** The token is taken as the text between
  the first and second occurrence of "Bearer " anywhere in the header. A
  header without it makes the handler panic; it is not rejected with an error.
- **Update and delete do not check the token.** The handlers and the live
  services for update and delete never decode a token or compare owners. Only
  the route-level JWT middleware stands in front of them, and that middleware
  is not part of this model.
- **Codes are not unique.** A message given a code that already resolves to an
  older message can never be reached through that code
  (`CollidingCodeKeepsOlderMessage`).

## Model

| member | source | states |
|---|---|---|
| JwtAuth.IndexOf | middleware/jwt_auth.go:35 | strings.Index: the position found holds the separator, and no earlier position does; None means no position does |
| JwtAuth.Split | middleware/jwt_auth.go:35 | strings.Split always yields at least one piece |
| JwtAuth.JoinSplit | middleware/jwt_auth.go:35 | joining Split's pieces with the separator rebuilds the header exactly |
| JwtAuth.SplitSecondPiece | middleware/jwt_auth.go:35-36 | element 1 exists iff "Bearer " occurs; it is the text between the first and the second occurrence |
| JwtAuth.BearerText | middleware/jwt_auth.go:35-36 | `splitToken[1]` is absent exactly when the header has no "Bearer " |
| JwtAuth.DecodeJWT | middleware/jwt_auth.go:27-51 | "authorization header not found" iff the header is empty; the only error texts are that one and "token is wrong or expired"; a fault iff a non-empty header lacks "Bearer "; a token only from a parse without error |
| JwtAuth.UnusableClaimsGiveZeroToken | middleware/jwt_auth.go:45-50 | a parse without error whose claims do not cast, or whose token is not valid, yields the zero token with a nil error |
| JwtAuth.BearerNeedsSpace | middleware/jwt_auth.go:35 | a header containing "Bearer " contains a space |
| JwtAuth.BearerOfWellFormedHeader | middleware/jwt_auth.go:35-36 | "Bearer " followed by a space-free token yields that token |
| JwtAuth.HeaderWithoutBearerFaults | middleware/jwt_auth.go:35-36 | a special case of DecodeJWT's fault clause: a non-empty header with no space, which cannot hold "Bearer ", makes DecodeJWT fault |
| JwtAuth.IssueThenDecode | middleware/jwt_auth.go:15-25 | a token issued for (u, n), sent as "Bearer <token>" within 24 hours, decodes to exactly (u, n) |
| JwtAuth.ExpiredTokenRejected | middleware/jwt_auth.go:20 | the same token after 24 hours decodes to "token is wrong or expired" |
| Repositories.FirstShare | repositories/gorm.go:74-76 | the first share row, in table order, linking the message to the code; none earlier links |
| Repositories.MatchCode | repositories/gorm.go:70-76 | the joined row First picks: the first message with a share row for the code, and that message's first such row |
| Repositories.Lookup | repositories/gorm.go:70-80 | a row iff some message has a share row with the code; its code is that code; its title and content are that message's |
| Repositories.SetVisit | repositories/gorm.go:83 | every share row of the message gets the given count; code, target and all other rows are unchanged |
| Repositories.SharesOf | repositories/gorm.go:111 | exactly the share rows pointing at the message |
| Repositories.ReviseAll | repositories/gorm.go:90-94 | only title and content of rows with the uuid change, and an empty field is skipped; uuid and owner never change |
| Repositories.Without | repositories/gorm.go:100-101 | exactly the rows with another uuid remain; with no such row the table is unchanged; order and multiplicity are stated by WithoutAppend |
| Repositories.WithoutAppend | repositories/gorm.go:100-101 | the surviving rows keep table order, each once: appending a row to the table appends it to the result unless it carries the deleted uuid |
| Repositories.ListingOf | repositories/gorm.go:108-113 | one row per share row of the message, in order, with that row's code and visit count; a single row with code "" and count 0 when it has none; every row has the message's title and content and a nil uuid |
| Repositories.OwnedBy | repositories/gorm.go:107-113 | every listed row has the nil uuid, because the uuid column is not selected; what each row shows is stated by ListingShowsOnlyOwned, ListingShowsAllOwned and ListingShowsEveryShare, and the order by OwnedByAppend |
| Repositories.OwnedByAppend | repositories/gorm.go:107-113 | the listing follows message-table order: appending a message appends exactly its own listing rows when the owner matches, and nothing otherwise |
| Repositories.FirstLogin | repositories/gorm_users.go:13-19 | the first user whose username and password both match; none earlier matches |
| Repositories.FirstNamed | services/users/users.go:30 | the first user with that username |
| Repositories.Rename | repositories/gorm_users.go:21-24 | only the username of rows with the uuid changes |
| Repositories.SetPassword | repositories/gorm_users.go:29-31 | only the password of rows with the username changes |
| Repositories.GormSql.constructor | repositories/gorm.go:15-19 | the store starts with three empty tables |
| Repositories.GormSql.SaveNewUser | repositories/gorm_users.go:6-12 | the user row is appended exactly as given, password included; on error nothing changes |
| Repositories.GormSql.Login | repositories/gorm_users.go:13-20 | success iff a user matches both username and password, returning that user; otherwise the empty user and the error |
| Repositories.GormSql.GetUserByUsername | repositories/repositories.go:13 | success iff a user has the username; otherwise the empty user and "record not found" or the driver's error |
| Repositories.GormSql.UpdateUsername | repositories/gorm_users.go:21-28 | the users table becomes Rename of the old one, or is unchanged on error |
| Repositories.GormSql.UpdatePassword | repositories/gorm_users.go:29-37 | the users table becomes SetPassword of the old one, or is unchanged on error |
| Repositories.GormSql.SaveNewPocketMessage | repositories/gorm.go:56-62 | the message is appended exactly as given; on error nothing changes and the error is returned |
| Repositories.GormSql.SaveNewRandomID | repositories/gorm.go:63-69 | the share row is appended with the visit count it carries |
| Repositories.GormSql.GetPocketMessageByRandomID | repositories/gorm.go:70-81 | success iff Lookup finds a row, returning it; otherwise the zero record and "record not found" or the driver's error |
| Repositories.GormSql.UpdateVisitCount | repositories/gorm.go:82-89 | share rows of the passed uuid get the passed count plus one, whatever they stored |
| Repositories.GormSql.UpdatePocketMessage | repositories/gorm.go:90-99 | the messages table becomes ReviseAll of the old one, or is unchanged on error |
| Repositories.GormSql.DeletePocketMessage | repositories/gorm.go:100-106 | the messages table loses the rows with the uuid; share rows stay |
| Repositories.GormSql.GetPocketMessageByUserUUID | repositories/gorm.go:107-118 | the owner's listing, or nil with the error |
| Repositories.FirstShareIgnoresVisits | repositories/gorm.go:83 | updating visit counts never changes which share row a code finds |
| Repositories.MatchIgnoresVisits | repositories/gorm.go:83 | updating visit counts never changes which joined row a code selects |
| Repositories.ResolveIncrementsByOne | repositories/gorm.go:82-83 | after a lookup and the write-back of its count plus one, the same code reads one more visit and nothing else differs |
| Repositories.FirstShareAppend | repositories/gorm.go:63-64 | appending a share row keeps an existing first match |
| Repositories.CreateThenResolve | services/pocket_messages/pocket_message.go:28-53 | a message saved under a fresh uuid with an unused code resolves through that code, with zero visits |
| Repositories.CollidingCodeKeepsOlderMessage | repositories/gorm.go:70-76 | a new message given an already-used code stays unreachable through it; the code still resolves to the older message |
| Repositories.NewMessageHasOneShare | services/pocket_messages/pocket_message.go:41-50 | a message created under a fresh uuid has exactly one share row |
| Repositories.SharesOfAppend | repositories/gorm.go:63-64 | appending a row adds it to its own message's share rows and no other message's |
| Repositories.SharesOfNone | repositories/gorm.go:111 | a message no row points at has no share rows |
| Repositories.DeletedMessageUnreachable | repositories/gorm.go:100-101 | after a delete no code resolves to the deleted uuid, although its share rows remain |
| Repositories.ListingShowsOnlyOwned | repositories/gorm.go:107-113 | every listed row shows one message of the owner: its title and content, and the code and visit count of one of its share rows, or "" and 0 when it has none |
| Repositories.ListingShowsAllOwned | repositories/gorm.go:107-113 | every message of the owner appears in the listing |
| Repositories.ListingShowsEveryShare | repositories/gorm.go:109-113 | every share row of an owned message is listed, with its code and its visit count |
| Repositories.ListingIsPrivate | repositories/gorm.go:112 | a note owned only by user B never appears in user A's listing |
| PocketMessageService.PmServices.constructor | services/pocket_messages/pocket_message.go:12-14 | the service works on the store it is given |
| PocketMessageService.PmServices.NewPocketMessage | services/pocket_messages/pocket_message.go:28-53 | saves under the fresh uuid with owner := token uuid, whatever the input carried; then a share row for that uuid with a length-8 code and zero visits; if the message save fails, no share row and that error; if the share save fails, the message stays and that error |
| PocketMessageService.PmServices.GetPocketMessageByRandomID | services/pocket_messages/pocket_message.go:54-74 | on a lookup failure, the empty view and that error, with no write; on a hit, visit := count read + 1 and only title and content returned; on a failed update, the empty view |
| PocketMessageService.PmServices.UpdatePocketMessage | services/pocket_messages/pocket_message.go:75-83 | forwarded to the store with no owner comparison |
| PocketMessageService.PmServices.DeletePocketMessage | services/pocket_messages/pocket_message.go:84-92 | forwarded to the store with no owner comparison |
| PocketMessageService.PmServices.GetUserPocketMessage | services/pocket_messages/pocket_message.go:93-101 | the listing for the token's uuid only; every row shows a message of that user, with the code and count of one of its share rows |
| PocketMessageService.ThreeVisits | services/pocket_messages/pocket_message.go:54-74 | one worked example, not general coverage: three resolutions of a freshly shared code leave its count at 3; the general fact is ResolveIncrementsByOne |
| LegacyPocketMessageService.PmServices.constructor | services/pocket_message.go:12-14 | the service works on the store it is given |
| LegacyPocketMessageService.PmServices.NewPocketMessage | services/pocket_message.go:28-48 | the same create flow: fresh uuid, owner from the token, message before share row |
| LegacyPocketMessageService.PmServices.GetPocketMessageByRandomID | services/pocket_message.go:49-62 | the full joined row, with code and count as read before the increment; the zero record on a lookup or update failure |
| LegacyPocketMessageService.PmServices.UpdatePocketMessage | services/pocket_message.go:63-71 | forwarded to the store |
| LegacyPocketMessageService.PmServices.DeletePocketMessage | services/pocket_message.go:72-80 | forwarded to the store |
| LegacyPocketMessageService.PmServices.GetUserPocketMessage | services/pocket_message.go:81-89 | filtered by the token uuid; nil on error; every row has the nil uuid |
| EchoPocketMessageService.TokenGate | services/pocketMessage.go:46-49 | passes iff DecodeJWT yields a token; a panic iff a non-empty header lacks "Bearer "; an empty header gives "authorization header not found" |
| EchoPocketMessageService.BodyGate | services/pocketMessage.go:33-44 | bind error, then "error, title should not be empty", then "error, content should not be empty"; passes iff all three hold |
| EchoPocketMessageService.CreateGate | services/pocketMessage.go:33-49 | the body guards answer before the token is looked at; passes iff both pass |
| EchoPocketMessageService.UpdateGate | services/pocketMessage.go:88-104 | title and content are checked before the path uuid; an unparsable uuid gives "uuid invalid" |
| EchoPocketMessageService.PmServices.constructor | services/pocketMessage.go:15-17 | the service works on the store it is given |
| EchoPocketMessageService.PmServices.NewPocketMessage | services/pocketMessage.go:31-67 | no store write unless every guard passes; then saves with owner := token uuid and a share row |
| EchoPocketMessageService.PmServices.GetPocketMessageByRandomID | services/pocketMessage.go:68-86 | an empty random_id gives "error, random_id parameter can not be empty" and no store access; otherwise lookup and increment |
| EchoPocketMessageService.PmServices.UpdatePocketMessage | services/pocketMessage.go:87-112 | updates under the parsed path uuid only after the guards pass |
| EchoPocketMessageService.PmServices.DeletePocketMessage | services/pocketMessage.go:113-124 | an unparsable uuid gives "uuid invalid" and no store call |
| EchoPocketMessageService.PmServices.GetUserPocketMessage | services/pocketMessage.go:125-137 | no header gives "authorization header not found" and a nil list; otherwise the token owner's listing |
| UserService.LookupError | services/users/users.go:30-31 | the lookup's error is None iff the user exists; a driver error passes through |
| UserService.UserServices.constructor | services/users/users.go:13-15 | the service works on the store it is given |
| UserService.UserServices.SignUp | services/users/users.go:28-43 | never succeeds; saves the user under the fresh uuid only on "record not found"; a different lookup error is returned and nothing is saved; otherwise "username exist, try another username" |
| UserService.UserServices.Login | services/users/users.go:44-61 | the store error unchanged; on success the stored username and a token from the stored uuid and username, which decodes back to them |
| UserService.UserServices.UpdateUsername | services/users/users.go:62-76 | never succeeds; renames the token's uuid only when the name is not found |
| UserService.UserServices.UpdatePassword | services/users/users.go:77-85 | forwarded to the store with no token or ownership check |
| UserService.SignUpTakesName | services/users/users.go:30-34 | once a sign-up has saved a name, a later lookup of that name succeeds |
| UserService.SignedUpCanLogIn | services/users/users.go:32-34 | a saved user can log in with the same credentials, found as the new row unless an older row matches |
| UserService.PasswordChangeSparesOthers | repositories/gorm_users.go:29-31 | a password change under one username leaves every other username's login as it was |
| UserService.NewPasswordLogsIn | repositories/gorm_users.go:29-31 | after a password change, the new password logs in under that username |
| EchoUserService.LoginGate | services/user.go:54-64 | bind error, then "error, username should not be empty", then "error, password should not be empty"; passes iff all three hold |
| EchoUserService.PasswordFormReply | services/user.go:114-123 | a 400 text reply iff the username or the password is empty, the username checked first |
| EchoUserService.UserServices.constructor | services/services.go:7-10 | the service works on the store it is given |
| EchoUserService.UserServices.SignUp | services/user.go:28-50 | an empty password writes a 400 and returns the write's result; the username is never checked; otherwise saves under the fresh uuid |
| EchoUserService.UserServices.Login | services/user.go:53-81 | the guards come before the store; on success the stored username and a token from the stored uuid and username |
| EchoUserService.UserServices.UpdateUsername | services/user.go:84-104 | the bind error is ignored; an empty username is refused before the token; then renames under the token's uuid |
| EchoUserService.UserServices.UpdatePassword | services/user.go:107-131 | an empty username or password writes a 400 and leaves the store untouched |
| Responses.TokenCheck | controllers/rest-echo/pocket_messages/pocket_messages.go:43-48 | passes iff DecodeJWT yields a token; its errors are answered with the given status and text; aborts iff DecodeJWT faults |
| PocketMessageHandler.BodyChecks | controllers/rest-echo/pocket_messages/pocket_messages.go:23-40 | bind, then title, then content, each 400; passes iff all hold |
| PocketMessageHandler.CreateChecks | controllers/rest-echo/pocket_messages/pocket_messages.go:23-48 | the body guards answer before the token is decoded |
| PocketMessageHandler.NewPocketMessage | controllers/rest-echo/pocket_messages/pocket_messages.go:18-59 | 201 iff the guards pass and the service succeeds; a failed bind, title or content check gives exactly that guard's 400 reply, and a rejected token a 400 with the decoder's text; 500 with the service's text iff the service fails; aborts iff the header lacks "Bearer " |
| PocketMessageHandler.GetPocketMessageByRandomID | controllers/rest-echo/pocket_messages/pocket_messages.go:60-81 | an empty random_id gives 400 with no service call; 200 "success" with the public view iff the service succeeds |
| PocketMessageHandler.UpdateChecks | controllers/rest-echo/pocket_messages/pocket_messages.go:84-110 | the path uuid is parsed before the body is bound; the message passed on carries the path uuid |
| PocketMessageHandler.UpdatePocketMessage | controllers/rest-echo/pocket_messages/pocket_messages.go:82-122 | an invalid uuid gives 400 even when binding would fail; a refused bind, empty title or empty content gives exactly the guard's 400 reply; the service gets the body's title and content under the path uuid; 200 "updated" iff it succeeds; 500 with the service's error text iff it fails; never aborts |
| PocketMessageHandler.DeletePocketMessage | controllers/rest-echo/pocket_messages/pocket_messages.go:123-141 | an invalid uuid gives 400; 200 "deleted" iff the service succeeds; 500 with the service's error text iff it fails |
| PocketMessageHandler.GetOwnedPocketMessage | controllers/rest-echo/pocket_messages/pocket_messages.go:142-161 | 400 with the decoder's error text iff the token is rejected; the handler aborts exactly when a non-empty header holds no "Bearer "; 200 "success" with the rows iff the service succeeds; 500 with the service's error text iff it fails |
| PocketMessageHandler.CreateRoute | controllers/rest-echo/pocket_messages/pocket_messages.go:43-58 | the handler behind the route's JWT middleware, over the live service: 201 iff guards, token and both writes succeed; then the fresh code resolves to the new message |
| PocketMessageHandler.ResolveRoute | controllers/rest-echo/pocket_messages/pocket_messages.go:60-81 | end to end: a 200 carries the resolved title and content, and the next read of the code counts one more visit |
| LegacyPocketMessageHandler.NewPocketMessage | controllers/pocketMessage.go:31-68 | a failed bind, title or content check gives exactly that guard's 400 reply; a rejected token gives 500 with the decoder's text; a failed service call gives 500 with its text; 201 iff everything succeeds |
| LegacyPocketMessageHandler.GetPocketMessageByRandomID | controllers/pocketMessage.go:69-89 | an empty random_id gives 400; 200 "success" with the full joined row iff the service succeeds |
| LegacyPocketMessageHandler.CreateDiffersOnlyOnRejectedToken | controllers/pocketMessage.go:52-57 | the older and live create handlers differ exactly on a rejected token: 500 against 400, same text |
| LegacyPocketMessageHandler.ResolveDiffersOnlyInData | controllers/pocketMessage.go:78-88 | the older and live resolve handlers agree on status and message; the live data is the public view of the older data |
| UserHandler.CredentialChecks | controllers/rest-echo/users/users.go:21-37 | bind, then username, then password, each 400; passes iff all hold |
| UserHandler.SignUp | controllers/rest-echo/users/users.go:17-49 | 400 from the guards before any service call; 201 "created" iff the service succeeds; otherwise exactly a 500 with its text and no data |
| UserHandler.Login | controllers/rest-echo/users/users.go:51-83 | the same guards; 200 "success" with the service's result iff it succeeds; 500 with the service's error text iff it fails |
| UserHandler.RenameChecks | controllers/rest-echo/users/users.go:87-105 | bind, then username, then the token, each answered 400 |
| UserHandler.UpdateUsername | controllers/rest-echo/users/users.go:85-117 | a bind error gives 400 with its text; an empty username gives 400 before the token is decoded; a rejected token gives 400 with the decoder's text; the handler aborts exactly when the guards pass and a non-empty header holds no "Bearer "; 200 iff the service succeeds; 500 with the service's error text iff it fails |
| UserHandler.UpdatePassword | controllers/rest-echo/users/users.go:119-149 | a non-empty username and password are required; 200 iff the service succeeds; 500 with the service's error text iff it fails |
| UserHandler.PasswordChangeIgnoresToken | controllers/rest-echo/users/users.go:119-149 | the password reply does not depend on the Authorization header |
| UserHandler.SignUpRoute | controllers/rest-echo/users/users.go:39-48 | over the live service, sign-up never answers 201; guards give 400, and otherwise 500 |
| UserHandler.UpdateUsernameRoute | controllers/rest-echo/users/users.go:107-116 | the handler behind the route's JWT middleware, over the live service: a rename never answers 200 |

## Left out

- HS256 signing and verification and the wall clock are uninterpreted, as described above. Key length, algorithm confusion and clock skew are not modelled.
- JwtAuth.GetToken: has no contract of its own. Its meaning is given by IssueThenDecode and ExpiredTokenRejected, under the assumption `Sound`.
- The library texts of `uuid.Parse` errors are not modelled. Parsing is a parameter.
- GenerateRandomString's alphabet and randomness are not modelled. Its source is not part of this model, and codes are a parameter.
- Echo request binding is a bind error plus the decoded fields. Content-Type handling (415) and form-tag names are not modelled.
- JSON encoding is reduced to the Message datatype. An error value placed in the reply map is `ErrorValue`, which encodes as `{}`. Nil and empty lists are not told apart.
- GORM internals are not modelled: soft-delete columns, timestamps, transactions and AutoMigrate. A table's order is its primary-key order, and First takes the first joined row in that order. Ties among several share rows of one message are taken in share-table order.
- Concurrency is not modelled. The lost update on visit counts, from two concurrent reads of the same count, needs interleaving. Calls are sequential.
- Repositories.OwnedBy: the listing query has no ORDER BY, so the database may return rows in any order. The model fixes message-table order, then share-table order within a message.
- Visit counts are unbounded integers. Go's int width and overflow are not modelled.
- GetUserByUsername has no implementation in the repository. It is modelled as the first user with that username, or "record not found".
- models.User in the repository has no UUID field, although services assign one. The model gives users a uuid.
- repositories/gorm.go:22-53 repeats the user statements of repositories/gorm_users.go line for line. They are modelled once.
- controllers/user.go repeats the four handler bodies of controllers/rest-echo/users/users.go. The update, delete and listing handlers of controllers/pocketMessage.go repeat the live ones. All of these are modelled once.
- The older packages do not compile together as written: two declarations of PocketMessageServices in package services, and handlers calling interfaces of another shape. The model gives each version the interface its bodies use.
- The live repositories package does not compile as written either: `IDatabase.Login` takes a username and a password (repositories/repositories.go:12), but `GormSql.Login` takes a user (repositories/gorm_users.go:13). Repositories.GormSql.Login follows the interface's two parameters and uses them as the method body does.
- Routing is not modelled: Echo's JWT middleware on the routes, logging, tracing and configuration. `fmt.Println` in services/user.go is not modelled either.
