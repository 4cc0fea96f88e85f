/** The GORM store (repositories/gorm.go, repositories/gorm_users.go): three
    tables kept in primary-key order, and one method per SQL statement.

    Each statement takes `dbError`, the failure the database driver reports for
    it (a lost connection, a constraint violation), or `None`. A statement that
    fails changes nothing, and its error is handed back unchanged. */
module Repositories {
  import opened Models

  // ---------------------------------------------------------------------------
  // The share table, and the lookup by code
  // ---------------------------------------------------------------------------

  /** The share row publishes message `id` under code `rid`. */
  predicate Links(row: ShareRow, id: Uuid, rid: string)
  {
    row.messageUuid == id && row.randomId == rid
  }

  /** The first share row, in table order, that publishes message `id` under `rid`. */
  function FirstShare(shares: seq<ShareRow>, id: Uuid, rid: string): (r: Option<nat>)
    ensures r.Some? ==> r.value < |shares| && Links(shares[r.value], id, rid)
    ensures r.Some? ==> forall j :: 0 <= j < r.value ==> !Links(shares[j], id, rid)
    ensures r.None? ==> forall j :: 0 <= j < |shares| ==> !Links(shares[j], id, rid)
  {
    if |shares| == 0 then None
    else if Links(shares[0], id, rid) then Some(0)
    else
      match FirstShare(shares[1..], id, rid)
      case None => None
      case Some(j) => Some(j + 1)
  }

  /** The (message row, share row) pair the join lookup by code selects,
      taking the first joined row in message order: the first message, in
      table order, that has a share row with code `rid`, and the first such
      share row of it. */
  function MatchCode(ms: seq<PocketMessage>, shares: seq<ShareRow>, rid: string): (r: Option<(nat, nat)>)
    ensures r.Some? ==> r.value.0 < |ms| && FirstShare(shares, ms[r.value.0].uuid, rid) == Some(r.value.1)
    ensures r.Some? ==> forall i :: 0 <= i < r.value.0 ==> FirstShare(shares, ms[i].uuid, rid).None?
    ensures r.None? ==> forall i :: 0 <= i < |ms| ==> FirstShare(shares, ms[i].uuid, rid).None?
  {
    if |ms| == 0 then None
    else
      match FirstShare(shares, ms[0].uuid, rid)
      case Some(j) => Some((0, j))
      case None =>
        match MatchCode(ms[1..], shares, rid)
        case None => None
        case Some(p) => Some((p.0 + 1, p.1))
  }

  /** The selected columns of a message joined with one of its share rows. */
  function Joined(m: PocketMessage, row: ShareRow): MessageWithRandomId
  {
    MessageWithRandomId(m.uuid, row.randomId, m.title, m.content, row.visit)
  }

  /** The row GetPocketMessageByRandomID reads, if any. */
  function Lookup(ms: seq<PocketMessage>, shares: seq<ShareRow>, rid: string): (r: Option<MessageWithRandomId>)
    ensures r.Some? <==> exists i, j :: 0 <= i < |ms| && 0 <= j < |shares| && Links(shares[j], ms[i].uuid, rid)
    ensures r.Some? ==> r.value.randomId == rid
    ensures r.Some? ==> exists i :: 0 <= i < |ms| && ms[i].uuid == r.value.uuid
                                    && ms[i].title == r.value.title && ms[i].content == r.value.content
  {
    match MatchCode(ms, shares, rid)
    case None => None
    case Some(p) => Some(Joined(ms[p.0], shares[p.1]))
  }

  /** Every share row of message `id` gets visit count `visit`; no other row
      and no other column changes. */
  function SetVisit(shares: seq<ShareRow>, id: Uuid, visit: int): (r: seq<ShareRow>)
    ensures |r| == |shares|
    ensures forall j :: 0 <= j < |r| ==>
      && r[j].randomId == shares[j].randomId
      && r[j].messageUuid == shares[j].messageUuid
      && r[j].visit == (if shares[j].messageUuid == id then visit else shares[j].visit)
  {
    seq(|shares|, j requires 0 <= j < |shares| =>
      if shares[j].messageUuid == id then shares[j].(visit := visit) else shares[j])
  }

  /** The share rows that point at message `id`, in table order. */
  function SharesOf(shares: seq<ShareRow>, id: Uuid): (r: seq<ShareRow>)
    ensures forall row :: row in r <==> row in shares && row.messageUuid == id
  {
    if |shares| == 0 then []
    else (if shares[0].messageUuid == id then [shares[0]] else []) + SharesOf(shares[1..], id)
  }

  // ---------------------------------------------------------------------------
  // The message table
  // ---------------------------------------------------------------------------

  /** The struct update of title and content, on one row with the given
      uuid. GORM skips the zero values of a struct, so an empty title or
      content leaves the stored one in place. */
  function Revised(m: PocketMessage, newMsg: PocketMessage): PocketMessage
  {
    if m.uuid != newMsg.uuid then m
    else m.(title := if newMsg.title != "" then newMsg.title else m.title,
            content := if newMsg.content != "" then newMsg.content else m.content)
  }

  /** UpdatePocketMessage on the whole table. */
  function ReviseAll(ms: seq<PocketMessage>, newMsg: PocketMessage): (r: seq<PocketMessage>)
    ensures |r| == |ms|
    ensures forall i :: 0 <= i < |r| ==> r[i].uuid == ms[i].uuid && r[i].userUuid == ms[i].userUuid
    ensures forall i :: 0 <= i < |r| && ms[i].uuid != newMsg.uuid ==> r[i] == ms[i]
    ensures forall i :: 0 <= i < |r| && ms[i].uuid == newMsg.uuid ==>
      && r[i].title == (if newMsg.title == "" then ms[i].title else newMsg.title)
      && r[i].content == (if newMsg.content == "" then ms[i].content else newMsg.content)
  {
    seq(|ms|, i requires 0 <= i < |ms| => Revised(ms[i], newMsg))
  }

  /** The unscoped (hard) delete of the message rows with uuid `id`. */
  function Without(ms: seq<PocketMessage>, id: Uuid): (r: seq<PocketMessage>)
    ensures forall m :: m in r <==> m in ms && m.uuid != id
    ensures |r| <= |ms|
    ensures (forall m :: m in ms ==> m.uuid != id) ==> r == ms
  {
    if |ms| == 0 then []
    else (if ms[0].uuid == id then [] else [ms[0]]) + Without(ms[1..], id)
  }

  /** A listing row shows message `m`: its title and content, the nil uuid,
      and the code and visit count of one of `m`'s share rows, or the empty
      code and a zero count when `m` has no share row. */
  predicate ListedFrom(o: OwnedMessage, m: PocketMessage, shares: seq<ShareRow>)
  {
    && o.uuid == NilUuid && o.title == m.title && o.content == m.content
    && if SharesOf(shares, m.uuid) == [] then o.randomId == "" && o.visit == 0
       else exists row :: row in shares && Links(row, m.uuid, o.randomId) && row.visit == o.visit
  }

  /** The listing rows of one message: one per share row pointing at it, or,
      the join being a LEFT JOIN, a single row with a zero code and count when
      none does. The uuid column is not selected, so it reads as the nil UUID. */
  function ListingOf(m: PocketMessage, shares: seq<ShareRow>): (r: seq<OwnedMessage>)
    ensures |r| >= 1
    ensures forall o :: o in r ==> ListedFrom(o, m, shares)
    ensures SharesOf(shares, m.uuid) == [] ==> r == [OwnedMessage(NilUuid, "", m.title, m.content, 0)]
    ensures SharesOf(shares, m.uuid) != [] ==>
      && |r| == |SharesOf(shares, m.uuid)|
      && forall k :: 0 <= k < |r| ==>
           r[k].randomId == SharesOf(shares, m.uuid)[k].randomId && r[k].visit == SharesOf(shares, m.uuid)[k].visit
  {
    var links := SharesOf(shares, m.uuid);
    if |links| == 0 then [OwnedMessage(NilUuid, "", m.title, m.content, 0)]
    else
      var r := seq(|links|, k requires 0 <= k < |links| =>
                 OwnedMessage(NilUuid, links[k].randomId, m.title, m.content, links[k].visit));
      LinkRowsListed(m, shares, r);
      r
  }

  /** The rows built from a message's share rows each show that message. */
  lemma LinkRowsListed(m: PocketMessage, shares: seq<ShareRow>, r: seq<OwnedMessage>)
    requires SharesOf(shares, m.uuid) != []
    requires |r| == |SharesOf(shares, m.uuid)|
    requires forall k :: 0 <= k < |r| ==>
      r[k] == OwnedMessage(NilUuid, SharesOf(shares, m.uuid)[k].randomId, m.title, m.content, SharesOf(shares, m.uuid)[k].visit)
    ensures forall o :: o in r ==> ListedFrom(o, m, shares)
  {
    var links := SharesOf(shares, m.uuid);
    forall o | o in r
      ensures ListedFrom(o, m, shares)
    {
      var k :| 0 <= k < |r| && r[k] == o;
      assert links[k] in links;
    }
  }

  /** The owner's listing: the messages of `owner`, in table order, each
      left-joined with its share rows. */
  function OwnedBy(ms: seq<PocketMessage>, shares: seq<ShareRow>, owner: Uuid): (r: seq<OwnedMessage>)
    ensures forall o :: o in r ==> o.uuid == NilUuid
  {
    if |ms| == 0 then []
    else (if ms[0].userUuid == owner then ListingOf(ms[0], shares) else []) + OwnedBy(ms[1..], shares, owner)
  }

  // ---------------------------------------------------------------------------
  // The users table
  // ---------------------------------------------------------------------------

  /** The first user, in table order, whose username and password both match. */
  function FirstLogin(users: seq<User>, username: string, password: string): (r: Option<nat>)
    ensures r.Some? ==> r.value < |users| && users[r.value].username == username && users[r.value].password == password
    ensures r.Some? ==> forall k :: 0 <= k < r.value ==> !(users[k].username == username && users[k].password == password)
    ensures r.None? ==> forall k :: 0 <= k < |users| ==> !(users[k].username == username && users[k].password == password)
  {
    if |users| == 0 then None
    else if users[0].username == username && users[0].password == password then Some(0)
    else
      match FirstLogin(users[1..], username, password)
      case None => None
      case Some(k) => Some(k + 1)
  }

  /** The first user, in table order, with that username. */
  function FirstNamed(users: seq<User>, username: string): (r: Option<nat>)
    ensures r.Some? ==> r.value < |users| && users[r.value].username == username
    ensures r.Some? ==> forall k :: 0 <= k < r.value ==> users[k].username != username
    ensures r.None? ==> forall k :: 0 <= k < |users| ==> users[k].username != username
  {
    if |users| == 0 then None
    else if users[0].username == username then Some(0)
    else
      match FirstNamed(users[1..], username)
      case None => None
      case Some(k) => Some(k + 1)
  }

  /** Every user row with uuid `id` gets the new username; nothing else changes. */
  function Rename(users: seq<User>, id: Uuid, username: string): (r: seq<User>)
    ensures |r| == |users|
    ensures forall k :: 0 <= k < |r| ==> r[k].uuid == users[k].uuid && r[k].password == users[k].password
    ensures forall k :: 0 <= k < |r| ==> r[k].username == (if users[k].uuid == id then username else users[k].username)
  {
    seq(|users|, k requires 0 <= k < |users| =>
      if users[k].uuid == id then users[k].(username := username) else users[k])
  }

  /** Every user row with that username gets the new password; nothing else changes. */
  function SetPassword(users: seq<User>, username: string, password: string): (r: seq<User>)
    ensures |r| == |users|
    ensures forall k :: 0 <= k < |r| ==> r[k].uuid == users[k].uuid && r[k].username == users[k].username
    ensures forall k :: 0 <= k < |r| ==> r[k].password == (if users[k].username == username then password else users[k].password)
  {
    seq(|users|, k requires 0 <= k < |users| =>
      if users[k].username == username then users[k].(password := password) else users[k])
  }

  // ---------------------------------------------------------------------------
  // The store
  // ---------------------------------------------------------------------------

  /** GormSql over its three tables, each in primary-key (insertion) order. */
  class GormSql {
    var messages: seq<PocketMessage>
    var shares: seq<ShareRow>
    var users: seq<User>

    constructor ()
      ensures messages == [] && shares == [] && users == []
    {
      messages, shares, users := [], [], [];
    }

    /** SaveNewUser: inserts the user row, the password as given (plain text). */
    method SaveNewUser(user: User, dbError: Option<string>) returns (err: Outcome)
      modifies this`users
      ensures err == AsOutcome(dbError)
      ensures users == if dbError.None? then old(users) + [user] else old(users)
    {
      err := AsOutcome(dbError);
      if dbError.None? {
        users := users + [user];
      }
    }

    /** Login: the first user whose username and password both match. */
    method Login(username: string, password: string, dbError: Option<string>) returns (user: User, err: Outcome)
      ensures err.Ok? <==> dbError.None? && FirstLogin(users, username, password).Some?
      ensures err.Ok? ==> user == users[FirstLogin(users, username, password).value]
      ensures err.Ok? ==> user.username == username && user.password == password
      ensures !err.Ok? ==> user == EmptyUser
      ensures !err.Ok? ==> err == Fail(if dbError.Some? then dbError.value else RecordNotFound)
    {
      if dbError.Some? {
        return EmptyUser, Fail(dbError.value);
      }
      match FirstLogin(users, username, password)
      case None =>
        user, err := EmptyUser, Fail(RecordNotFound);
      case Some(k) =>
        user, err := users[k], Ok;
    }

    /** GetUserByUsername: the first user with that username, or "record not found". */
    method GetUserByUsername(username: string, dbError: Option<string>) returns (user: User, err: Outcome)
      ensures err.Ok? <==> dbError.None? && exists k :: 0 <= k < |users| && users[k].username == username
      ensures err.Ok? ==> user in users && user.username == username
      ensures !err.Ok? ==> user == EmptyUser
      ensures !err.Ok? ==> err == Fail(if dbError.Some? then dbError.value else RecordNotFound)
    {
      if dbError.Some? {
        return EmptyUser, Fail(dbError.value);
      }
      match FirstNamed(users, username)
      case None =>
        user, err := EmptyUser, Fail(RecordNotFound);
      case Some(k) =>
        user, err := users[k], Ok;
    }

    /** UpdateUsername: the username of the rows with the user's uuid. */
    method UpdateUsername(user: User, dbError: Option<string>) returns (err: Outcome)
      modifies this`users
      ensures err == AsOutcome(dbError)
      ensures users == if dbError.None? then Rename(old(users), user.uuid, user.username) else old(users)
    {
      err := AsOutcome(dbError);
      if dbError.None? {
        users := Rename(users, user.uuid, user.username);
      }
    }

    /** UpdatePassword: the password of the rows with the user's username. */
    method UpdatePassword(user: User, dbError: Option<string>) returns (err: Outcome)
      modifies this`users
      ensures err == AsOutcome(dbError)
      ensures users == if dbError.None? then SetPassword(old(users), user.username, user.password) else old(users)
    {
      err := AsOutcome(dbError);
      if dbError.None? {
        users := SetPassword(users, user.username, user.password);
      }
    }

    /** SaveNewPocketMessage: inserts exactly the record given. */
    method SaveNewPocketMessage(pm: PocketMessage, dbError: Option<string>) returns (err: Outcome)
      modifies this`messages
      ensures err == AsOutcome(dbError)
      ensures messages == if dbError.None? then old(messages) + [pm] else old(messages)
    {
      err := AsOutcome(dbError);
      if dbError.None? {
        messages := messages + [pm];
      }
    }

    /** SaveNewRandomID: inserts the share row with the visit count it carries. */
    method SaveNewRandomID(row: ShareRow, dbError: Option<string>) returns (err: Outcome)
      modifies this`shares
      ensures err == AsOutcome(dbError)
      ensures shares == if dbError.None? then old(shares) + [row] else old(shares)
    {
      err := AsOutcome(dbError);
      if dbError.None? {
        shares := shares + [row];
      }
    }

    /** GetPocketMessageByRandomID: the joined row for the code, or the zero
        record with "record not found". */
    method GetPocketMessageByRandomID(rid: string, dbError: Option<string>) returns (r: MessageWithRandomId, err: Outcome)
      ensures err.Ok? <==> dbError.None? && Lookup(messages, shares, rid).Some?
      ensures err.Ok? ==> Lookup(messages, shares, rid) == Some(r) && r.randomId == rid
      ensures !err.Ok? ==> r == EmptyJoined
      ensures !err.Ok? ==> err == Fail(if dbError.Some? then dbError.value else RecordNotFound)
    {
      if dbError.Some? {
        return EmptyJoined, Fail(dbError.value);
      }
      match Lookup(messages, shares, rid)
      case None =>
        r, err := EmptyJoined, Fail(RecordNotFound);
      case Some(row) =>
        r, err := row, Ok;
    }

    /** UpdateVisitCount: sets visit to the count carried by `rid` plus one on
        every share row of its message, without reading the stored count. */
    method UpdateVisitCount(rid: MessageWithRandomId, dbError: Option<string>) returns (err: Outcome)
      modifies this`shares
      ensures err == AsOutcome(dbError)
      ensures shares == if dbError.None? then SetVisit(old(shares), rid.uuid, rid.visit + 1) else old(shares)
    {
      err := AsOutcome(dbError);
      if dbError.None? {
        shares := SetVisit(shares, rid.uuid, rid.visit + 1);
      }
    }

    /** UpdatePocketMessage: the title and content of the rows with that uuid. */
    method UpdatePocketMessage(newMsg: PocketMessage, dbError: Option<string>) returns (err: Outcome)
      modifies this`messages
      ensures err == AsOutcome(dbError)
      ensures messages == if dbError.None? then ReviseAll(old(messages), newMsg) else old(messages)
    {
      err := AsOutcome(dbError);
      if dbError.None? {
        messages := ReviseAll(messages, newMsg);
      }
    }

    /** DeletePocketMessage: removes the message rows with that uuid; its share
        rows stay. */
    method DeletePocketMessage(id: Uuid, dbError: Option<string>) returns (err: Outcome)
      modifies this`messages
      ensures err == AsOutcome(dbError)
      ensures messages == if dbError.None? then Without(old(messages), id) else old(messages)
    {
      err := AsOutcome(dbError);
      if dbError.None? {
        messages := Without(messages, id);
      }
    }

    /** GetPocketMessageByUserUUID: the listing of the messages owned by `owner`. */
    method GetPocketMessageByUserUUID(owner: Uuid, dbError: Option<string>) returns (rows: seq<OwnedMessage>, err: Outcome)
      ensures err == AsOutcome(dbError)
      ensures rows == if dbError.None? then OwnedBy(messages, shares, owner) else []
    {
      err := AsOutcome(dbError);
      rows := if dbError.None? then OwnedBy(messages, shares, owner) else [];
    }
  }

  // ---------------------------------------------------------------------------
  // Properties of the tables
  // ---------------------------------------------------------------------------

  /** Changing visit counts does not change which share row a code selects. */
  lemma {:induction false} FirstShareIgnoresVisits(shares: seq<ShareRow>, id: Uuid, visit: int, other: Uuid, rid: string)
    ensures FirstShare(SetVisit(shares, id, visit), other, rid) == FirstShare(shares, other, rid)
    decreases |shares|
  {
    if |shares| > 0 {
      assert SetVisit(shares, id, visit)[1..] == SetVisit(shares[1..], id, visit);
      FirstShareIgnoresVisits(shares[1..], id, visit, other, rid);
    }
  }

  /** Nor which message it selects. */
  lemma {:induction false} MatchIgnoresVisits(ms: seq<PocketMessage>, shares: seq<ShareRow>, id: Uuid, visit: int, rid: string)
    ensures MatchCode(ms, SetVisit(shares, id, visit), rid) == MatchCode(ms, shares, rid)
    decreases |ms|
  {
    if |ms| > 0 {
      FirstShareIgnoresVisits(shares, id, visit, ms[0].uuid, rid);
      MatchIgnoresVisits(ms[1..], shares, id, visit, rid);
    }
  }

  /** Resolving a code and then writing back the count read plus one makes the
      next resolution of the same code read exactly one more visit. */
  lemma ResolveIncrementsByOne(ms: seq<PocketMessage>, shares: seq<ShareRow>, rid: string)
    requires Lookup(ms, shares, rid).Some?
    ensures var r := Lookup(ms, shares, rid).value;
      Lookup(ms, SetVisit(shares, r.uuid, r.visit + 1), rid) == Some(r.(visit := r.visit + 1))
  {
    var r := Lookup(ms, shares, rid).value;
    var p := MatchCode(ms, shares, rid).value;
    MatchIgnoresVisits(ms, shares, r.uuid, r.visit + 1, rid);
    assert shares[p.1].messageUuid == r.uuid;
  }

  /** Appending rows at the end does not change an existing first match. */
  lemma {:induction false} FirstShareAppend(shares: seq<ShareRow>, row: ShareRow, id: Uuid, rid: string)
    ensures FirstShare(shares + [row], id, rid) ==
      (if FirstShare(shares, id, rid).Some? then FirstShare(shares, id, rid)
       else if Links(row, id, rid) then Some(|shares|) else None)
    decreases |shares|
  {
    if |shares| > 0 {
      assert (shares + [row])[1..] == shares[1..] + [row];
      FirstShareAppend(shares[1..], row, id, rid);
    }
  }

  /** A message created with a code that no share row carries yet, under a
      uuid no message has, is what that code resolves to, with zero visits. */
  lemma {:induction false} CreateThenResolve(ms: seq<PocketMessage>, shares: seq<ShareRow>, m: PocketMessage, code: string)
    requires forall i :: 0 <= i < |ms| ==> ms[i].uuid != m.uuid
    requires forall j :: 0 <= j < |shares| ==> shares[j].randomId != code
    ensures Lookup(ms + [m], shares + [ShareRow(code, 0, m.uuid)], code)
         == Some(MessageWithRandomId(m.uuid, code, m.title, m.content, 0))
    decreases |ms|
  {
    var row := ShareRow(code, 0, m.uuid);
    FirstShareAppend(shares, row, m.uuid, code);
    if |ms| == 0 {
      assert [m][1..] == [];
    } else {
      FirstShareAppend(shares, row, ms[0].uuid, code);
      assert (ms + [m])[1..] == ms[1..] + [m];
      CreateThenResolve(ms[1..], shares, m, code);
    }
  }

  /** Codes are not checked for uniqueness: a new message given a code that
      already resolves to an older message stays unreachable through it. */
  lemma {:induction false} CollidingCodeKeepsOlderMessage(ms: seq<PocketMessage>, shares: seq<ShareRow>, m: PocketMessage, code: string)
    requires forall i :: 0 <= i < |ms| ==> ms[i].uuid != m.uuid
    requires MatchCode(ms, shares, code).Some?
    ensures Lookup(ms + [m], shares + [ShareRow(code, 0, m.uuid)], code) == Lookup(ms, shares, code)
    decreases |ms|
  {
    var row := ShareRow(code, 0, m.uuid);
    FirstShareAppend(shares, row, ms[0].uuid, code);
    assert (ms + [m])[1..] == ms[1..] + [m];
    if FirstShare(shares, ms[0].uuid, code).None? {
      CollidingCodeKeepsOlderMessage(ms[1..], shares, m, code);
    }
  }

  /** A message created under a fresh uuid has exactly one share row. */
  lemma NewMessageHasOneShare(shares: seq<ShareRow>, id: Uuid, code: string)
    requires forall j :: 0 <= j < |shares| ==> shares[j].messageUuid != id
    ensures SharesOf(shares + [ShareRow(code, 0, id)], id) == [ShareRow(code, 0, id)]
  {
    SharesOfAppend(shares, ShareRow(code, 0, id), id);
    SharesOfNone(shares, id);
  }

  lemma {:induction false} SharesOfAppend(shares: seq<ShareRow>, row: ShareRow, id: Uuid)
    ensures SharesOf(shares + [row], id) == SharesOf(shares, id) + (if row.messageUuid == id then [row] else [])
    decreases |shares|
  {
    if |shares| > 0 {
      assert (shares + [row])[1..] == shares[1..] + [row];
      SharesOfAppend(shares[1..], row, id);
    }
  }

  lemma {:induction false} SharesOfNone(shares: seq<ShareRow>, id: Uuid)
    requires forall j :: 0 <= j < |shares| ==> shares[j].messageUuid != id
    ensures SharesOf(shares, id) == []
    decreases |shares|
  {
    if |shares| > 0 {
      SharesOfNone(shares[1..], id);
    }
  }

  lemma ConcatAssoc<T>(a: seq<T>, b: seq<T>, c: seq<T>)
    ensures a + (b + c) == (a + b) + c
  {
  }

  lemma WithoutCons(ms: seq<PocketMessage>, id: Uuid)
    requires |ms| > 0
    ensures Without(ms, id) == (if ms[0].uuid == id then [] else [ms[0]]) + Without(ms[1..], id)
  {
  }

  /** Without keeps the surviving rows in table order: appending a row to the
      table appends it to the result unless its uuid is the deleted one. */
  lemma {:induction false} WithoutAppend(ms: seq<PocketMessage>, m: PocketMessage, id: Uuid)
    ensures Without(ms + [m], id) == Without(ms, id) + (if m.uuid == id then [] else [m])
    decreases |ms|
  {
    if |ms| > 0 {
      assert (ms + [m])[1..] == ms[1..] + [m];
      assert (ms + [m])[0] == ms[0];
      WithoutAppend(ms[1..], m, id);
      var head := if ms[0].uuid == id then [] else [ms[0]];
      var tail := if m.uuid == id then [] else [m];
      var rest := Without(ms[1..], id);
      WithoutCons(ms + [m], id);
      WithoutCons(ms, id);
      ConcatAssoc(head, rest, tail);
    }
  }

  lemma OwnedByCons(ms: seq<PocketMessage>, shares: seq<ShareRow>, owner: Uuid)
    requires |ms| > 0
    ensures OwnedBy(ms, shares, owner)
         == (if ms[0].userUuid == owner then ListingOf(ms[0], shares) else []) + OwnedBy(ms[1..], shares, owner)
  {
  }

  /** The owner's listing follows table order, each message contributing its
      own listing rows exactly once. */
  lemma {:induction false} OwnedByAppend(ms: seq<PocketMessage>, shares: seq<ShareRow>, owner: Uuid, m: PocketMessage)
    ensures OwnedBy(ms + [m], shares, owner)
         == OwnedBy(ms, shares, owner) + (if m.userUuid == owner then ListingOf(m, shares) else [])
    decreases |ms|
  {
    if |ms| > 0 {
      assert (ms + [m])[1..] == ms[1..] + [m];
      assert (ms + [m])[0] == ms[0];
      OwnedByAppend(ms[1..], shares, owner, m);
      var head := if ms[0].userUuid == owner then ListingOf(ms[0], shares) else [];
      var tail := if m.userUuid == owner then ListingOf(m, shares) else [];
      var rest := OwnedBy(ms[1..], shares, owner);
      OwnedByCons(ms + [m], shares, owner);
      OwnedByCons(ms, shares, owner);
      ConcatAssoc(head, rest, tail);
    }
  }

  /** After a delete, no code resolves to the deleted message any more,
      although its share rows are still in the table. */
  lemma DeletedMessageUnreachable(ms: seq<PocketMessage>, shares: seq<ShareRow>, id: Uuid, rid: string)
    ensures Lookup(Without(ms, id), shares, rid).Some? ==> Lookup(Without(ms, id), shares, rid).value.uuid != id
  {
    var rest := Without(ms, id);
    if Lookup(rest, shares, rid).Some? {
      var r := Lookup(rest, shares, rid).value;
      var i :| 0 <= i < |rest| && rest[i].uuid == r.uuid;
      assert rest[i] in rest;
    }
  }

  /** Every row of an owner's listing shows a message of that owner, with the
      code and visit count of one of its share rows (or none, when it has none). */
  lemma {:induction false} ListingShowsOnlyOwned(ms: seq<PocketMessage>, shares: seq<ShareRow>, owner: Uuid, o: OwnedMessage)
    requires o in OwnedBy(ms, shares, owner)
    ensures exists m :: m in ms && m.userUuid == owner && ListedFrom(o, m, shares)
    decreases |ms|
  {
    var here := if ms[0].userUuid == owner then ListingOf(ms[0], shares) else [];
    if o in here {
      assert ms[0] in ms && ListedFrom(o, ms[0], shares);
    } else {
      ListingShowsOnlyOwned(ms[1..], shares, owner, o);
      var m :| m in ms[1..] && m.userUuid == owner && ListedFrom(o, m, shares);
      assert m in ms;
    }
  }

  /** Every message of the owner appears in the owner's listing. */
  lemma {:induction false} ListingShowsAllOwned(ms: seq<PocketMessage>, shares: seq<ShareRow>, owner: Uuid, m: PocketMessage)
    requires m in ms && m.userUuid == owner
    ensures exists o :: o in OwnedBy(ms, shares, owner) && ListedFrom(o, m, shares)
    decreases |ms|
  {
    var here := if ms[0].userUuid == owner then ListingOf(ms[0], shares) else [];
    var rest := OwnedBy(ms[1..], shares, owner);
    assert OwnedBy(ms, shares, owner) == here + rest;
    if m == ms[0] {
      assert here[0] in here + rest;
    } else {
      ListingShowsAllOwned(ms[1..], shares, owner, m);
      var o :| o in rest && ListedFrom(o, m, shares);
      assert o in here + rest;
    }
  }

  /** Every share row of an owned message is listed, with its code and its
      visit count. */
  lemma {:induction false} ListingShowsEveryShare(ms: seq<PocketMessage>, shares: seq<ShareRow>, owner: Uuid,
                                                  m: PocketMessage, row: ShareRow)
    requires m in ms && m.userUuid == owner
    requires row in shares && row.messageUuid == m.uuid
    ensures OwnedMessage(NilUuid, row.randomId, m.title, m.content, row.visit) in OwnedBy(ms, shares, owner)
    decreases |ms|
  {
    var here := if ms[0].userUuid == owner then ListingOf(ms[0], shares) else [];
    var rest := OwnedBy(ms[1..], shares, owner);
    assert OwnedBy(ms, shares, owner) == here + rest;
    if m == ms[0] {
      var links := SharesOf(shares, m.uuid);
      assert row in links;
      var k :| 0 <= k < |links| && links[k] == row;
      assert here[k] == OwnedMessage(NilUuid, row.randomId, m.title, m.content, row.visit);
      assert here[k] in here + rest;
    } else {
      ListingShowsEveryShare(ms[1..], shares, owner, m, row);
      assert OwnedMessage(NilUuid, row.randomId, m.title, m.content, row.visit) in here + rest;
    }
  }

  /** The listing of user A never shows a message that only user B owns. */
  lemma ListingIsPrivate(ms: seq<PocketMessage>, shares: seq<ShareRow>, a: Uuid, b: Uuid, t: string, c: string)
    requires a != b
    requires forall m :: m in ms && m.title == t && m.content == c ==> m.userUuid == b
    ensures forall o :: o in OwnedBy(ms, shares, a) ==> !(o.title == t && o.content == c)
  {
    forall o | o in OwnedBy(ms, shares, a)
      ensures !(o.title == t && o.content == c)
    {
      ListingShowsOnlyOwned(ms, shares, a, o);
    }
  }
}
