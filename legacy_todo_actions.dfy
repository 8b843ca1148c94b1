/** The older `createTodo` of app/lib/todo-actions.ts: no session and no
    schema. The due date and the priority are normalised step by step before
    the insert, and a created todo is never done. */
module LegacyTodoActions {
  import opened Entities
  import opened Store

  /** `formData.get(...)` for each field: None when the field is missing. */
  datatype LegacyForm = LegacyForm(
    title: Option<string>,
    description: Option<string>,
    dueDate: Option<string>,
    priority: Option<string>)

  /** How the action ends: `redirect` throws a redirect that is passed on, and
      any other error is caught and dropped, so the caller gets nothing. */
  datatype LegacyOutcome = RedirectTo(path: string) | NoResult

  /** The stored due date: null for a missing or empty field and for a text
      that parses to an invalid time, the parsed time otherwise. */
  function NormalizedDueDate(field: Option<string>, parseDate: string -> Option<Timestamp>): (r: Option<Timestamp>)
    ensures (field.None? || field.value == "") ==> r.None?
    ensures r.Some? ==> field.Some? && parseDate(field.value) == r
    ensures field.Some? && field.value != "" ==> r == parseDate(field.value)
  {
    if field.Some? && field.value != "" then parseDate(field.value) else None
  }

  /** The stored priority: the submitted one when it names a `PriorityLevel`
      value, MEDIUM otherwise. */
  function NormalizedPriority(field: Option<string>): (r: Priority)
    ensures field.Some? && PriorityFromName(field.value).Some? ==> PriorityName(r) == field.value
    ensures r != Medium ==> field.Some? && PriorityName(r) == field.value
  {
    if field.Some? && PriorityFromName(field.value).Some? then PriorityFromName(field.value).value else Medium
  }

  /** A priority submitted by its own name is kept, and normalising the name
      of a normalised priority changes nothing. */
  lemma NormalizedPriorityKeepsNames(p: Priority, field: Option<string>)
    ensures NormalizedPriority(Some(PriorityName(p))) == p
    ensures NormalizedPriority(Some(PriorityName(NormalizedPriority(field)))) == NormalizedPriority(field)
  {
    PriorityNameRoundTrip(p);
    PriorityNameRoundTrip(NormalizedPriority(field));
  }

  /** `createTodo(formData)`: on success one row is appended and the user is
      sent to `/todos`; on a database error nothing is stored and the call
      returns nothing. */
  method CreateLegacyTodo(db: Database, form: LegacyForm, parseDate: string -> Option<Timestamp>, fault: bool)
    returns (outcome: LegacyOutcome)
    modifies db`legacyTodos
    ensures outcome == RedirectTo("/todos") <==> !fault
    ensures outcome.NoResult? <==> fault
    ensures fault ==> db.legacyTodos == old(db.legacyTodos)
    ensures !fault ==>
      db.legacyTodos == old(db.legacyTodos) + [LegacyTodo(form.title, form.description, false,
        NormalizedDueDate(form.dueDate, parseDate), NormalizedPriority(form.priority))]
    ensures forall i :: 0 <= i < |db.legacyTodos| ==> i < |old(db.legacyTodos)| || !db.legacyTodos[i].status
  {
    var dueDate: Option<Timestamp> := None;
    if form.dueDate.Some? && form.dueDate.value != "" {
      dueDate := parseDate(form.dueDate.value);
    }
    var priority: Priority;
    if form.priority.Some? && PriorityFromName(form.priority.value).Some? {
      priority := PriorityFromName(form.priority.value).value;
    } else {
      priority := Medium;
    }
    if fault {
      return NoResult;
    }
    db.legacyTodos := db.legacyTodos + [LegacyTodo(form.title, form.description, false, dueDate, priority)];
    outcome := RedirectTo("/todos");
  }
}
