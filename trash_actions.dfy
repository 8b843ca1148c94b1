/** The trash server actions. The item type picks the table; the row is found
    by its id together with the caller's user id, so a missing or foreign row
    makes the database throw, which is reported like any other database
    error. */
module TrashActions {
  import opened Entities
  import opened Store

  /** `"note" | "todo" | "tag"`, the name of the Prisma model to act on. */
  datatype ItemType = NoteItem | TodoItem | TagItem

  /** Some row of the given kind has this id and belongs to `user`. */
  predicate OwnsItem(db: Database, kind: ItemType, id: Id, user: UserId)
    reads db
  {
    match kind {
      case NoteItem => Owns(db.notes, id, user)
      case TodoItem => Owns(db.todos, id, user)
      case TagItem => Owns(db.tags, id, user)
    }
  }

  /** `restoreItem`: the row's soft-delete flag is cleared and every other row
      of every table is left as it was. */
  method RestoreItem(db: Database, session: Session, itemId: Id, kind: ItemType, fault: bool)
    returns (r: Response)
    modifies db`notes, db`todos, db`tags
    ensures !SignedIn(session) ==> r == Err(SessionNotFound)
    ensures SignedIn(session) && (fault || !old(OwnsItem(db, kind, itemId, session.value))) ==>
      r == Err("restore_item_unexpected_err")
    ensures r.Err? ==> db.notes == old(db.notes) && db.todos == old(db.todos) && db.tags == old(db.tags)
    ensures r.Ok? <==> SignedIn(session) && !fault && old(OwnsItem(db, kind, itemId, session.value))
    ensures r.Ok? ==> r.code == "restore_item_success"
    ensures r.Ok? && kind == NoteItem ==>
      db.notes == WithSoftDelete(old(db.notes), itemId, false) && db.todos == old(db.todos) && db.tags == old(db.tags)
    ensures r.Ok? && kind == TodoItem ==>
      db.todos == WithSoftDelete(old(db.todos), itemId, false) && db.notes == old(db.notes) && db.tags == old(db.tags)
    ensures r.Ok? && kind == TagItem ==>
      db.tags == WithSoftDelete(old(db.tags), itemId, false) && db.notes == old(db.notes) && db.todos == old(db.todos)
  {
    if !SignedIn(session) {
      return Err(SessionNotFound);
    }
    if fault || !OwnsItem(db, kind, itemId, session.value) {
      return Err("restore_item_unexpected_err");
    }
    match kind {
      case NoteItem => db.notes := WithSoftDelete(db.notes, itemId, false);
      case TodoItem => db.todos := WithSoftDelete(db.todos, itemId, false);
      case TagItem => db.tags := WithSoftDelete(db.tags, itemId, false);
    }
    r := Ok("restore_item_success");
  }

  /** `permanentDeleteItem`: the one row is removed and nothing else. */
  method PermanentDeleteItem(db: Database, session: Session, itemId: Id, kind: ItemType, fault: bool)
    returns (r: Response)
    modifies db`notes, db`todos, db`tags
    ensures !SignedIn(session) ==> r == Err(SessionNotFound)
    ensures SignedIn(session) && (fault || !old(OwnsItem(db, kind, itemId, session.value))) ==>
      r == Err("permanent_delete_item_unexpected_err")
    ensures r.Err? ==> db.notes == old(db.notes) && db.todos == old(db.todos) && db.tags == old(db.tags)
    ensures r.Ok? <==> SignedIn(session) && !fault && old(OwnsItem(db, kind, itemId, session.value))
    ensures r.Ok? ==> r.code == "permanent_delete_item_success"
    ensures r.Ok? && kind == NoteItem ==>
      db.notes == Purged(old(db.notes), itemId) && db.todos == old(db.todos) && db.tags == old(db.tags)
    ensures r.Ok? && kind == TodoItem ==>
      db.todos == Purged(old(db.todos), itemId) && db.notes == old(db.notes) && db.tags == old(db.tags)
    ensures r.Ok? && kind == TagItem ==>
      db.tags == Purged(old(db.tags), itemId) && db.notes == old(db.notes) && db.todos == old(db.todos)
  {
    if !SignedIn(session) {
      return Err(SessionNotFound);
    }
    if fault || !OwnsItem(db, kind, itemId, session.value) {
      return Err("permanent_delete_item_unexpected_err");
    }
    match kind {
      case NoteItem => db.notes := Purged(db.notes, itemId);
      case TodoItem => db.todos := Purged(db.todos, itemId);
      case TagItem => db.tags := Purged(db.tags, itemId);
    }
    r := Ok("permanent_delete_item_success");
  }

  /** `emptyTrashByType`: every soft-deleted row of the caller in the chosen
      table goes; matching no row at all is not an error. */
  method EmptyTrashByType(db: Database, session: Session, kind: ItemType, fault: bool)
    returns (r: Response)
    modifies db`notes, db`todos, db`tags
    ensures !SignedIn(session) ==> r == Err(SessionNotFound)
    ensures SignedIn(session) && fault ==> r == Err("empty_trash_unexpected_err")
    ensures r.Err? ==> db.notes == old(db.notes) && db.todos == old(db.todos) && db.tags == old(db.tags)
    ensures r.Ok? <==> SignedIn(session) && !fault
    ensures r.Ok? ==> r.code == "empty_trash_success"
    ensures r.Ok? && kind == NoteItem ==>
      db.notes == TrashEmptied(old(db.notes), session.value) && db.todos == old(db.todos) && db.tags == old(db.tags)
    ensures r.Ok? && kind == TodoItem ==>
      db.todos == TrashEmptied(old(db.todos), session.value) && db.notes == old(db.notes) && db.tags == old(db.tags)
    ensures r.Ok? && kind == TagItem ==>
      db.tags == TrashEmptied(old(db.tags), session.value) && db.notes == old(db.notes) && db.todos == old(db.todos)
  {
    if !SignedIn(session) {
      return Err(SessionNotFound);
    }
    if fault {
      return Err("empty_trash_unexpected_err");
    }
    match kind {
      case NoteItem => db.notes := TrashEmptied(db.notes, session.value);
      case TodoItem => db.todos := TrashEmptied(db.todos, session.value);
      case TagItem => db.tags := TrashEmptied(db.tags, session.value);
    }
    r := Ok("empty_trash_success");
  }
}
