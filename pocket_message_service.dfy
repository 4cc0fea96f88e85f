/** The live pocket-message service (services/pocket_messages/pocket_message.go):
    create, resolve by public code, update, delete and list, as ordered store
    statements. The fresh UUID (uuid.New) and the code generator
    (helper.GenerateRandomString) are parameters. */
module PocketMessageService {
  import opened Models
  import opened Repositories

  /** The length GenerateRandomString is asked for. */
  const CodeLength: nat := 8

  /** The public projection of a joined row: its title and content only. */
  function Public(v: MessageWithRandomId): (r: MsgForPublic)
    ensures r.title == v.title && r.content == v.content
  {
    MsgForPublic(v.title, v.content)
  }

  class PmServices {
    const db: GormSql

    constructor (db: GormSql)
      ensures this.db == db
    {
      this.db := db;
    }

    /** NewPocketMessage: saves the message under `newUuid` and owned by the
        token's user, then a share row with a fresh code pointing at it. The
        two writes are not atomic: a failed share write leaves the message. */
    method NewPocketMessage(pm: PocketMessage, t: Token, newUuid: Uuid, generate: nat -> string,
                            saveError: Option<string>, ridError: Option<string>) returns (err: Outcome)
      modifies db`messages, db`shares
      ensures saveError.Some? ==> err == Fail(saveError.value)
      ensures saveError.Some? ==> db.messages == old(db.messages) && db.shares == old(db.shares)
      ensures saveError.None? ==>
        db.messages == old(db.messages) + [PocketMessage(newUuid, pm.title, pm.content, t.uuid)]
      ensures saveError.None? ==> err == AsOutcome(ridError)
      ensures saveError.None? ==>
        db.shares == old(db.shares) + (if ridError.None? then [ShareRow(generate(CodeLength), 0, newUuid)] else [])
    {
      var msg := pm.(uuid := newUuid, userUuid := t.uuid);
      err := db.SaveNewPocketMessage(msg, saveError);
      if err.Fail? {
        return;
      }
      var rid := ShareRow(generate(CodeLength), 0, msg.uuid);
      err := db.SaveNewRandomID(rid, ridError);
    }

    /** GetPocketMessageByRandomID: looks the code up, writes back the count it
        read plus one, and returns the title and content only. */
    method GetPocketMessageByRandomID(rid: string, lookupError: Option<string>, updateError: Option<string>)
      returns (view: MsgForPublic, err: Outcome)
      modifies db`shares
      ensures var found := Lookup(db.messages, old(db.shares), rid);
        if lookupError.Some? || found.None? then
          && view == EmptyPublic
          && err == Fail(if lookupError.Some? then lookupError.value else RecordNotFound)
          && db.shares == old(db.shares)
        else if updateError.Some? then
          view == EmptyPublic && err == Fail(updateError.value) && db.shares == old(db.shares)
        else
          && view == Public(found.value)
          && err == Ok
          && db.shares == SetVisit(old(db.shares), found.value.uuid, found.value.visit + 1)
    {
      var v, e := db.GetPocketMessageByRandomID(rid, lookupError);
      if e.Fail? {
        return EmptyPublic, e;
      }
      err := db.UpdateVisitCount(v, updateError);
      if err.Fail? {
        return EmptyPublic, err;
      }
      view := Public(v);
    }

    /** UpdatePocketMessage: forwarded to the store, with no owner check. */
    method UpdatePocketMessage(pm: PocketMessage, updateError: Option<string>) returns (err: Outcome)
      modifies db`messages
      ensures err == AsOutcome(updateError)
      ensures db.messages == if updateError.None? then ReviseAll(old(db.messages), pm) else old(db.messages)
    {
      err := db.UpdatePocketMessage(pm, updateError);
    }

    /** DeletePocketMessage: forwarded to the store, with no owner check. */
    method DeletePocketMessage(id: Uuid, deleteError: Option<string>) returns (err: Outcome)
      modifies db`messages
      ensures err == AsOutcome(deleteError)
      ensures db.messages == if deleteError.None? then Without(old(db.messages), id) else old(db.messages)
    {
      err := db.DeletePocketMessage(id, deleteError);
    }

    /** GetUserPocketMessage: the listing of the token's user, nil on error. */
    method GetUserPocketMessage(t: Token, queryError: Option<string>) returns (rows: seq<OwnedMessage>, err: Outcome)
      ensures err == AsOutcome(queryError)
      ensures rows == if queryError.None? then OwnedBy(db.messages, db.shares, t.uuid) else []
      ensures forall o :: o in rows ==> exists m :: m in db.messages && m.userUuid == t.uuid && ListedFrom(o, m, db.shares)
    {
      rows, err := db.GetPocketMessageByUserUUID(t.uuid, queryError);
      forall o | o in rows
        ensures exists m :: m in db.messages && m.userUuid == t.uuid && ListedFrom(o, m, db.shares)
      {
        ListingShowsOnlyOwned(db.messages, db.shares, t.uuid, o);
      }
    }
  }

  /** Three sequential resolutions of a freshly shared code read 0, 1 and 2
      visits and leave the counter at 3. */
  method ThreeVisits(db: GormSql, m: PocketMessage, code: string)
    requires db.messages == [m] && db.shares == [ShareRow(code, 0, m.uuid)]
    modifies db`shares
    ensures db.shares == [ShareRow(code, 3, m.uuid)]
  {
    var s := new PmServices(db);
    var view, err := s.GetPocketMessageByRandomID(code, None, None);
    assert FirstShare([ShareRow(code, 0, m.uuid)], m.uuid, code) == Some(0);
    assert db.shares == [ShareRow(code, 1, m.uuid)];
    view, err := s.GetPocketMessageByRandomID(code, None, None);
    assert FirstShare([ShareRow(code, 1, m.uuid)], m.uuid, code) == Some(0);
    assert db.shares == [ShareRow(code, 2, m.uuid)];
    view, err := s.GetPocketMessageByRandomID(code, None, None);
    assert FirstShare([ShareRow(code, 2, m.uuid)], m.uuid, code) == Some(0);
  }
}
