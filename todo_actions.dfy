/** The to-do server actions. Each one checks, in this order, the session, the
    submitted form (create and update only), and the ownership of the target
    row, and only then writes; every outcome is a fixed result code. A thrown
    database error is the input `fault`; the id the database would give a new
    row is the input `newId` (an id already in use makes the insert throw). */
module TodoActions {
  import opened Entities
  import opened Store

  /** `formData.get(...)` for each field: None when the field is missing. */
  datatype TodoForm = TodoForm(
    title: Option<string>,
    description: Option<string>,
    priority: Option<string>,
    status: Option<string>,
    dueDate: Option<string>)

  /** The `dueDate` value handed to the schema: null for a missing or empty
      field, otherwise `new Date(field)`, which is None when the text does not
      parse (an Invalid Date). */
  function RawDueDate(field: Option<string>, parseDate: string -> Option<Timestamp>): Option<Option<Timestamp>> {
    if field.Some? && field.value != "" then Some(parseDate(field.value)) else None
  }

  /** `todoSchema.safeParse(rawData)`. A field the form lacks is null, which
      `.optional()` does not accept; only `dueDate` is also `.nullable()`.
      `z.date()` refuses an Invalid Date. */
  function ValidatedTodo(form: TodoForm, parseDate: string -> Option<Timestamp>): (r: Option<TodoFields>)
    ensures r.Some? <==>
      && form.title.Some? && |form.title.value| >= 1
      && form.description.Some?
      && form.priority.Some? && PriorityFromName(form.priority.value).Some?
      && form.status.Some? && StatusFromName(form.status.value).Some?
      && (RawDueDate(form.dueDate, parseDate).None? || RawDueDate(form.dueDate, parseDate).value.Some?)
    ensures r.Some? ==>
      && r.value.title == form.title.value
      && r.value.description == form.description.value
      && PriorityName(r.value.priority) == form.priority.value
      && StatusName(r.value.status) == form.status.value
      && (r.value.dueDate.None? <==> form.dueDate.None? || form.dueDate.value == "")
      && (r.value.dueDate.Some? ==> parseDate(form.dueDate.value) == r.value.dueDate)
  {
    if form.title.None? || |form.title.value| < 1 then None
    else if form.description.None? then None
    else if form.priority.None? || PriorityFromName(form.priority.value).None? then None
    else if form.status.None? || StatusFromName(form.status.value).None? then None
    else
      match RawDueDate(form.dueDate, parseDate)
      case None =>
        Some(TodoFields(form.title.value, form.description.value,
          PriorityFromName(form.priority.value).value, StatusFromName(form.status.value).value, None))
      case Some(parsed) =>
        if parsed.None? then None
        else Some(TodoFields(form.title.value, form.description.value,
          PriorityFromName(form.priority.value).value, StatusFromName(form.status.value).value, parsed))
  }

  /** A form built from a todo's own fields passes the schema and gives those
      fields back, provided the date is written in a form that parses back to
      itself. */
  lemma ValidatedTodoRoundTrip(fields: TodoFields, dateText: string, parseDate: string -> Option<Timestamp>)
    requires |fields.title| >= 1
    requires fields.dueDate.Some? ==> dateText != "" && parseDate(dateText) == fields.dueDate
    ensures var form := TodoForm(Some(fields.title), Some(fields.description),
        Some(PriorityName(fields.priority)), Some(StatusName(fields.status)),
        if fields.dueDate.Some? then Some(dateText) else None);
      ValidatedTodo(form, parseDate) == Some(fields)
  {
    PriorityNameRoundTrip(fields.priority);
    StatusNameRoundTrip(fields.status);
  }

  method CreateTodo(db: Database, session: Session, form: TodoForm,
                    parseDate: string -> Option<Timestamp>, newId: Id, fault: bool)
    returns (r: Response)
    modifies db`todos
    ensures !SignedIn(session) ==> r == Err(SessionNotFound) && db.todos == old(db.todos)
    ensures SignedIn(session) && ValidatedTodo(form, parseDate).None? ==>
      r == Err(InvalidDataError) && db.todos == old(db.todos)
    ensures SignedIn(session) && ValidatedTodo(form, parseDate).Some? && (fault || newId in old(db.todos)) ==>
      r == Err("create_todo_unexpected_err") && db.todos == old(db.todos)
    ensures r.Ok? <==> SignedIn(session) && ValidatedTodo(form, parseDate).Some? && !fault && newId !in old(db.todos)
    ensures r.Ok? ==> r.code == "create_todo_success"
    ensures r.Ok? ==>
      db.todos == old(db.todos)[newId := Row(newId, session.value, false, ValidatedTodo(form, parseDate).value)]
    ensures KeysMatch(old(db.todos)) ==> KeysMatch(db.todos)
  {
    if !SignedIn(session) {
      return Err(SessionNotFound);
    }
    var validated := ValidatedTodo(form, parseDate);
    if validated.None? {
      return Err(InvalidDataError);
    }
    if fault || newId in db.todos {
      return Err("create_todo_unexpected_err");
    }
    db.todos := db.todos[newId := Row(newId, session.value, false, validated.value)];
    r := Ok("create_todo_success");
  }

  /** The form is validated before the row is looked up, so a bad form is
      reported even for another user's todo. */
  method UpdateTodo(db: Database, session: Session, todoId: Id, form: TodoForm,
                    parseDate: string -> Option<Timestamp>, fault: bool)
    returns (r: Response)
    modifies db`todos
    ensures !SignedIn(session) ==> r == Err(SessionNotFound) && db.todos == old(db.todos)
    ensures SignedIn(session) && ValidatedTodo(form, parseDate).None? ==>
      r == Err(InvalidDataError) && db.todos == old(db.todos)
    ensures SignedIn(session) && ValidatedTodo(form, parseDate).Some? && fault ==>
      r == Err("update_todo_unexpected_err") && db.todos == old(db.todos)
    ensures SignedIn(session) && ValidatedTodo(form, parseDate).Some? && !fault
            && !Owns(old(db.todos), todoId, session.value) ==>
      r == Err(NotFoundOrUnauthorized) && db.todos == old(db.todos)
    ensures r.Ok? <==> SignedIn(session) && ValidatedTodo(form, parseDate).Some? && !fault
                       && Owns(old(db.todos), todoId, session.value)
    ensures r.Ok? ==> r.code == "update_todo_success"
    ensures r.Ok? ==>
      db.todos == old(db.todos)[todoId := old(db.todos)[todoId].(fields := ValidatedTodo(form, parseDate).value)]
    ensures KeysMatch(old(db.todos)) ==> KeysMatch(db.todos)
  {
    if !SignedIn(session) {
      return Err(SessionNotFound);
    }
    var validated := ValidatedTodo(form, parseDate);
    if validated.None? {
      return Err(InvalidDataError);
    }
    if fault {
      return Err("update_todo_unexpected_err");
    }
    if todoId !in db.todos || db.todos[todoId].userId != session.value {
      return Err(NotFoundOrUnauthorized);
    }
    db.todos := db.todos[todoId := db.todos[todoId].(fields := validated.value)];
    r := Ok("update_todo_success");
  }

  /** Only the flag changes; the row stays. */
  method SoftDeleteTodo(db: Database, session: Session, todoId: Id, fault: bool) returns (r: Response)
    modifies db`todos
    ensures !SignedIn(session) ==> r == Err(SessionNotFound) && db.todos == old(db.todos)
    ensures SignedIn(session) && fault ==>
      r == Err("soft_delete_todo_unexpected_err") && db.todos == old(db.todos)
    ensures SignedIn(session) && !fault && !Owns(old(db.todos), todoId, session.value) ==>
      r == Err(NotFoundOrUnauthorized) && db.todos == old(db.todos)
    ensures r.Ok? <==> SignedIn(session) && !fault && Owns(old(db.todos), todoId, session.value)
    ensures r.Ok? ==> r.code == "soft_delete_todo_success"
    ensures r.Ok? ==>
      db.todos == WithSoftDelete(old(db.todos), todoId, true)
    ensures KeysMatch(old(db.todos)) ==> KeysMatch(db.todos)
  {
    if !SignedIn(session) {
      return Err(SessionNotFound);
    }
    if fault {
      return Err("soft_delete_todo_unexpected_err");
    }
    if todoId !in db.todos || db.todos[todoId].userId != session.value {
      return Err(NotFoundOrUnauthorized);
    }
    db.todos := WithSoftDelete(db.todos, todoId, true);
    r := Ok("soft_delete_todo_success");
  }

  method PermanentDeleteTodo(db: Database, session: Session, todoId: Id, fault: bool) returns (r: Response)
    modifies db`todos
    ensures !SignedIn(session) ==> r == Err(SessionNotFound) && db.todos == old(db.todos)
    ensures SignedIn(session) && fault ==>
      r == Err("permanent_delete_todo_unexpected_err") && db.todos == old(db.todos)
    ensures SignedIn(session) && !fault && !Owns(old(db.todos), todoId, session.value) ==>
      r == Err(NotFoundOrUnauthorized) && db.todos == old(db.todos)
    ensures r.Ok? <==> SignedIn(session) && !fault && Owns(old(db.todos), todoId, session.value)
    ensures r.Ok? ==> r.code == "permanent_delete_todo_success"
    ensures r.Ok? ==>
      db.todos == Purged(old(db.todos), todoId) && todoId !in db.todos
    ensures KeysMatch(old(db.todos)) ==> KeysMatch(db.todos)
  {
    if !SignedIn(session) {
      return Err(SessionNotFound);
    }
    if fault {
      return Err("permanent_delete_todo_unexpected_err");
    }
    if todoId !in db.todos || db.todos[todoId].userId != session.value {
      return Err(NotFoundOrUnauthorized);
    }
    db.todos := Purged(db.todos, todoId);
    r := Ok("permanent_delete_todo_success");
  }
}
