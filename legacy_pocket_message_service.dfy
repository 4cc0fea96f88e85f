/** The older pocket-message service over the `Database` interface
    (services/pocket_message.go). It creates exactly as the live one does; its
    resolve hands back the whole joined row, visit count as read. */
module LegacyPocketMessageService {
  import opened Models
  import opened Repositories
  import PocketMessageService

  class PmServices {
    const db: GormSql

    constructor (db: GormSql)
      ensures this.db == db
    {
      this.db := db;
    }

    /** NewPocketMessage: fresh uuid, owner from the token, the message saved
        before its share row. */
    method NewPocketMessage(pm: PocketMessage, t: Token, newUuid: Uuid, generate: nat -> string,
                            saveError: Option<string>, ridError: Option<string>) returns (err: Outcome)
      modifies db`messages, db`shares
      ensures saveError.Some? ==> err == Fail(saveError.value)
      ensures saveError.Some? ==> db.messages == old(db.messages) && db.shares == old(db.shares)
      ensures saveError.None? ==>
        db.messages == old(db.messages) + [PocketMessage(newUuid, pm.title, pm.content, t.uuid)]
      ensures saveError.None? ==> err == AsOutcome(ridError)
      ensures saveError.None? ==>
        db.shares == old(db.shares)
          + (if ridError.None? then [ShareRow(generate(PocketMessageService.CodeLength), 0, newUuid)] else [])
    {
      var msg := pm.(uuid := newUuid, userUuid := t.uuid);
      err := db.SaveNewPocketMessage(msg, saveError);
      if err.Fail? {
        return;
      }
      var rid := ShareRow(generate(PocketMessageService.CodeLength), 0, msg.uuid);
      err := db.SaveNewRandomID(rid, ridError);
    }

    /** GetPocketMessageByRandomID: the joined row as read, code and visit count
        included; the zero record when the lookup or the increment fails. */
    method GetPocketMessageByRandomID(rid: string, lookupError: Option<string>, updateError: Option<string>)
      returns (r: MessageWithRandomId, err: Outcome)
      modifies db`shares
      ensures var found := Lookup(db.messages, old(db.shares), rid);
        if lookupError.Some? || found.None? then
          && r == EmptyJoined
          && err == Fail(if lookupError.Some? then lookupError.value else RecordNotFound)
          && db.shares == old(db.shares)
        else if updateError.Some? then
          r == EmptyJoined && err == Fail(updateError.value) && db.shares == old(db.shares)
        else
          && r == found.value
          && err == Ok
          && db.shares == SetVisit(old(db.shares), r.uuid, r.visit + 1)
    {
      var v, e := db.GetPocketMessageByRandomID(rid, lookupError);
      if e.Fail? {
        return EmptyJoined, e;
      }
      err := db.UpdateVisitCount(v, updateError);
      if err.Fail? {
        return EmptyJoined, err;
      }
      r := v;
    }

    /** UpdatePocketMessage: forwarded to the store. */
    method UpdatePocketMessage(pm: PocketMessage, updateError: Option<string>) returns (err: Outcome)
      modifies db`messages
      ensures err == AsOutcome(updateError)
      ensures db.messages == if updateError.None? then ReviseAll(old(db.messages), pm) else old(db.messages)
    {
      err := db.UpdatePocketMessage(pm, updateError);
    }

    /** DeletePocketMessage: forwarded to the store. */
    method DeletePocketMessage(id: Uuid, deleteError: Option<string>) returns (err: Outcome)
      modifies db`messages
      ensures err == AsOutcome(deleteError)
      ensures db.messages == if deleteError.None? then Without(old(db.messages), id) else old(db.messages)
    {
      err := db.DeletePocketMessage(id, deleteError);
    }

    /** GetUserPocketMessage: the listing of the token's user, nil on error. */
    method GetUserPocketMessage(t: Token, queryError: Option<string>) returns (rows: seq<OwnedMessage>, err: Outcome)
      ensures err == AsOutcome(queryError)
      ensures rows == if queryError.None? then OwnedBy(db.messages, db.shares, t.uuid) else []
      ensures forall o :: o in rows ==> o.uuid == NilUuid
    {
      rows, err := db.GetPocketMessageByUserUUID(t.uuid, queryError);
    }
  }
}
