/** The records the application keeps, the fixed result codes of its server
    actions, and the enumerations its schemas accept. */
module Entities {

  datatype Option<+T> = None | Some(value: T)

  /** A Prisma row id (a cuid string) and the id of the user who owns a row. */
  type Id = string
  type UserId = string

  /** Dates are kept opaque: a parsed date is a time value. */
  type Timestamp = int

  /** Every stored note, to-do and tag carries its owner and its soft-delete flag;
      `fields` holds what differs between the three kinds. */
  datatype Row<D> = Row(id: Id, userId: UserId, softDelete: bool, fields: D)

  datatype Priority = Low | Medium | High | Urgent
  datatype TodoStatus = NotStarted | InProgress | Done

  datatype TodoFields = TodoFields(
    title: string,
    description: string,
    priority: Priority,
    status: TodoStatus,
    dueDate: Option<Timestamp>)

  datatype NoteFields = NoteFields(title: string, content: string, tagIds: set<Id>)

  datatype TagFields = TagFields(name: string, description: string, color: string)

  type Todo = Row<TodoFields>
  type Note = Row<NoteFields>
  type Tag = Row<TagFields>

  datatype User = User(id: Id, name: string, email: string, password: string)

  /** What a server action returns: `{ success: code }` or `{ error: code }`. */
  datatype Response = Ok(code: string) | Err(code: string)

  const SessionNotFound := "session_not_found"
  const InvalidDataError := "invalid_data_error"
  const NotFoundOrUnauthorized := "not_found_or_unauthorized"

  /** `session?.user?.id` as the actions see it: None when there is no session
      or no user in it. */
  type Session = Option<string>

  /** The guard `if (!session?.user?.id)` fails for a missing id and for the
      empty string, which JavaScript treats as false. */
  predicate SignedIn(session: Session) {
    session.Some? && session.value != ""
  }

  /** The `PriorityLevel` enum as its names. */
  function PriorityName(p: Priority): string {
    match p
    case Low => "LOW"
    case Medium => "MEDIUM"
    case High => "HIGH"
    case Urgent => "URGENT"
  }

  /** `z.enum(PriorityLevel)` and `Object.values(PriorityLevel).includes(s)`:
      a string is accepted exactly when it is one of the enum's names. */
  function PriorityFromName(s: string): (r: Option<Priority>)
    ensures r.Some? ==> PriorityName(r.value) == s
  {
    if s == "LOW" then Some(Low)
    else if s == "MEDIUM" then Some(Medium)
    else if s == "HIGH" then Some(High)
    else if s == "URGENT" then Some(Urgent)
    else None
  }

  lemma PriorityNameRoundTrip(p: Priority)
    ensures PriorityFromName(PriorityName(p)) == Some(p)
  {
  }

  function StatusName(s: TodoStatus): string {
    match s
    case NotStarted => "NOT_STARTED"
    case InProgress => "IN_PROGRESS"
    case Done => "DONE"
  }

  /** `z.enum(TodoStatus)`: accepted exactly for the enum's names. */
  function StatusFromName(s: string): (r: Option<TodoStatus>)
    ensures r.Some? ==> StatusName(r.value) == s
  {
    if s == "NOT_STARTED" then Some(NotStarted)
    else if s == "IN_PROGRESS" then Some(InProgress)
    else if s == "DONE" then Some(Done)
    else None
  }

  lemma StatusNameRoundTrip(s: TodoStatus)
    ensures StatusFromName(StatusName(s)) == Some(s)
  {
  }
}
