/** The note server actions: the same guard order as the to-do actions
    (session, form, ownership, write). A note's tags are a link set; linking a
    tag id that has no row makes the database throw. */
module NoteActions {
  import opened Entities
  import opened Store

  /** `title` and `content` from `formData.get`, `tagIds` from
      `formData.getAll`, which always gives a list. */
  datatype NoteForm = NoteForm(title: Option<string>, content: Option<string>, tagIds: seq<Id>)

  /** `noteSchema.safeParse(...)`: the content must be a non-empty string; the
      title may be empty but, as a null is not accepted by `.optional()`, the
      field must be present. */
  function ValidatedNote(form: NoteForm): (r: Option<NoteFields>)
    ensures r.Some? <==> form.title.Some? && form.content.Some? && |form.content.value| >= 1
    ensures r.Some? ==>
      && r.value.title == form.title.value
      && r.value.content == form.content.value
      && (forall id :: id in r.value.tagIds <==> id in form.tagIds)
  {
    if form.title.None? || form.content.None? || |form.content.value| < 1 then None
    else Some(NoteFields(form.title.value, form.content.value, set id | id in form.tagIds))
  }

  /** The database refuses to link a tag id that has no row. */
  predicate TagsExist(db: Database, tagIds: set<Id>)
    reads db
  {
    tagIds <= db.tags.Keys
  }

  /** The new note is owned by the session user and linked to exactly the
      submitted tag ids. */
  method CreateNote(db: Database, session: Session, form: NoteForm, newId: Id, fault: bool)
    returns (r: Response)
    modifies db`notes
    ensures !SignedIn(session) ==> r == Err(SessionNotFound) && db.notes == old(db.notes)
    ensures SignedIn(session) && ValidatedNote(form).None? ==>
      r == Err(InvalidDataError) && db.notes == old(db.notes)
    ensures SignedIn(session) && ValidatedNote(form).Some?
            && (fault || newId in old(db.notes) || !TagsExist(db, ValidatedNote(form).value.tagIds)) ==>
      r == Err("create_note_unexpected_err") && db.notes == old(db.notes)
    ensures r.Ok? <==> SignedIn(session) && ValidatedNote(form).Some? && !fault && newId !in old(db.notes)
                       && TagsExist(db, ValidatedNote(form).value.tagIds)
    ensures r.Ok? ==> r.code == "create_note_success"
    ensures r.Ok? ==>
      db.notes == old(db.notes)[newId := Row(newId, session.value, false, ValidatedNote(form).value)]
    ensures r.Ok? ==> forall id :: id in db.notes[newId].fields.tagIds <==> id in form.tagIds
    ensures KeysMatch(old(db.notes)) ==> KeysMatch(db.notes)
  {
    if !SignedIn(session) {
      return Err(SessionNotFound);
    }
    var validated := ValidatedNote(form);
    if validated.None? {
      return Err(InvalidDataError);
    }
    if fault || newId in db.notes || !TagsExist(db, validated.value.tagIds) {
      return Err("create_note_unexpected_err");
    }
    db.notes := db.notes[newId := Row(newId, session.value, false, validated.value)];
    r := Ok("create_note_success");
  }

  /** Title and content are replaced and the tag links become exactly the
      submitted ids. */
  method UpdateNote(db: Database, session: Session, noteId: Id, form: NoteForm, fault: bool)
    returns (r: Response)
    modifies db`notes
    ensures !SignedIn(session) ==> r == Err(SessionNotFound) && db.notes == old(db.notes)
    ensures SignedIn(session) && ValidatedNote(form).None? ==>
      r == Err(InvalidDataError) && db.notes == old(db.notes)
    ensures SignedIn(session) && ValidatedNote(form).Some? && fault ==>
      r == Err("update_note_unexpected_err") && db.notes == old(db.notes)
    ensures SignedIn(session) && ValidatedNote(form).Some? && !fault
            && !Owns(old(db.notes), noteId, session.value) ==>
      r == Err(NotFoundOrUnauthorized) && db.notes == old(db.notes)
    ensures SignedIn(session) && ValidatedNote(form).Some? && !fault
            && Owns(old(db.notes), noteId, session.value) && !TagsExist(db, ValidatedNote(form).value.tagIds) ==>
      r == Err("update_note_unexpected_err") && db.notes == old(db.notes)
    ensures r.Ok? <==> SignedIn(session) && ValidatedNote(form).Some? && !fault
                       && Owns(old(db.notes), noteId, session.value) && TagsExist(db, ValidatedNote(form).value.tagIds)
    ensures r.Ok? ==> r.code == "edit_note_success"
    ensures r.Ok? ==>
      db.notes == old(db.notes)[noteId := old(db.notes)[noteId].(fields := ValidatedNote(form).value)]
    ensures r.Ok? ==> forall id :: id in db.notes[noteId].fields.tagIds <==> id in form.tagIds
    ensures KeysMatch(old(db.notes)) ==> KeysMatch(db.notes)
  {
    if !SignedIn(session) {
      return Err(SessionNotFound);
    }
    var validated := ValidatedNote(form);
    if validated.None? {
      return Err(InvalidDataError);
    }
    if fault {
      return Err("update_note_unexpected_err");
    }
    if noteId !in db.notes || db.notes[noteId].userId != session.value {
      return Err(NotFoundOrUnauthorized);
    }
    if !TagsExist(db, validated.value.tagIds) {
      return Err("update_note_unexpected_err");
    }
    db.notes := db.notes[noteId := db.notes[noteId].(fields := validated.value)];
    r := Ok("edit_note_success");
  }

  method SoftDeleteNote(db: Database, session: Session, noteId: Id, fault: bool) returns (r: Response)
    modifies db`notes
    ensures !SignedIn(session) ==> r == Err(SessionNotFound) && db.notes == old(db.notes)
    ensures SignedIn(session) && fault ==>
      r == Err("soft_delete_note_unexpected_err") && db.notes == old(db.notes)
    ensures SignedIn(session) && !fault && !Owns(old(db.notes), noteId, session.value) ==>
      r == Err(NotFoundOrUnauthorized) && db.notes == old(db.notes)
    ensures r.Ok? <==> SignedIn(session) && !fault && Owns(old(db.notes), noteId, session.value)
    ensures r.Ok? ==> r.code == "soft_delete_note_success"
    ensures r.Ok? ==>
      db.notes == WithSoftDelete(old(db.notes), noteId, true)
    ensures KeysMatch(old(db.notes)) ==> KeysMatch(db.notes)
  {
    if !SignedIn(session) {
      return Err(SessionNotFound);
    }
    if fault {
      return Err("soft_delete_note_unexpected_err");
    }
    if noteId !in db.notes || db.notes[noteId].userId != session.value {
      return Err(NotFoundOrUnauthorized);
    }
    db.notes := WithSoftDelete(db.notes, noteId, true);
    r := Ok("soft_delete_note_success");
  }

  method PermanentDeleteNote(db: Database, session: Session, noteId: Id, fault: bool) returns (r: Response)
    modifies db`notes
    ensures !SignedIn(session) ==> r == Err(SessionNotFound) && db.notes == old(db.notes)
    ensures SignedIn(session) && fault ==>
      r == Err("permanent_delete_note_unexpected_err") && db.notes == old(db.notes)
    ensures SignedIn(session) && !fault && !Owns(old(db.notes), noteId, session.value) ==>
      r == Err(NotFoundOrUnauthorized) && db.notes == old(db.notes)
    ensures r.Ok? <==> SignedIn(session) && !fault && Owns(old(db.notes), noteId, session.value)
    ensures r.Ok? ==> r.code == "permanent_delete_note_success"
    ensures r.Ok? ==>
      db.notes == Purged(old(db.notes), noteId) && noteId !in db.notes
    ensures KeysMatch(old(db.notes)) ==> KeysMatch(db.notes)
  {
    if !SignedIn(session) {
      return Err(SessionNotFound);
    }
    if fault {
      return Err("permanent_delete_note_unexpected_err");
    }
    if noteId !in db.notes || db.notes[noteId].userId != session.value {
      return Err(NotFoundOrUnauthorized);
    }
    db.notes := Purged(db.notes, noteId);
    r := Ok("permanent_delete_note_success");
  }
}
