/** The to-do board: the todos split into three status columns, shown in the
    fixed order not started, in progress, done, each headed by its count. */
module TodoBoard {
  import opened Entities
  import opened Seqs

  /** The filter callback `(todo) => todo.status === status`. */
  function HasStatus(status: TodoStatus): (p: Todo -> bool)
    ensures forall t :: p(t) == (t.fields.status == status)
  {
    (t: Todo) => t.fields.status == status
  }

  /** One column's tasks: the todos with that status. */
  function ColumnTasks(todos: seq<Todo>, status: TodoStatus): seq<Todo> {
    Filter(todos, HasStatus(status))
  }

  datatype Column = Column(status: TodoStatus, tasks: seq<Todo>)

  /** The `columns` array, in its fixed order. */
  function Columns(todos: seq<Todo>): (cols: seq<Column>)
    ensures |cols| == 3
    ensures cols[0].status == NotStarted && cols[1].status == InProgress && cols[2].status == Done
    ensures forall i :: 0 <= i < 3 ==>
      (forall t :: t in cols[i].tasks <==> t in todos && t.fields.status == cols[i].status)
  {
    [Column(NotStarted, ColumnTasks(todos, NotStarted)),
     Column(InProgress, ColumnTasks(todos, InProgress)),
     Column(Done, ColumnTasks(todos, Done))]
  }

  /** How many todos of the list have the given status, counted one by one. */
  function CountWithStatus(todos: seq<Todo>, status: TodoStatus): nat
    decreases |todos|
  {
    if todos == [] then 0
    else (if todos[0].fields.status == status then 1 else 0) + CountWithStatus(todos[1..], status)
  }

  /** A column is as long as the number of todos with its status. */
  lemma {:induction false} ColumnLengthIsCount(todos: seq<Todo>, status: TodoStatus)
    ensures |ColumnTasks(todos, status)| == CountWithStatus(todos, status)
    decreases |todos|
  {
    if todos != [] {
      ColumnLengthIsCount(todos[1..], status);
    }
  }

  /** The number shown in each column header: the number of todos with the
      column's status; the three numbers add up to the number of todos. */
  function HeaderCounts(todos: seq<Todo>): (counts: seq<nat>)
    ensures |counts| == 3
    ensures forall i :: 0 <= i < 3 ==> counts[i] == |Columns(todos)[i].tasks|
    ensures counts[0] == CountWithStatus(todos, NotStarted)
    ensures counts[1] == CountWithStatus(todos, InProgress)
    ensures counts[2] == CountWithStatus(todos, Done)
    ensures counts[0] + counts[1] + counts[2] == |todos|
  {
    ColumnsPartition(todos);
    ColumnLengthIsCount(todos, NotStarted);
    ColumnLengthIsCount(todos, InProgress);
    ColumnLengthIsCount(todos, Done);
    var cols := Columns(todos);
    [|cols[0].tasks|, |cols[1].tasks|, |cols[2].tasks|]
  }

  /** Within a column the todos keep their order from the input list: the
      column is a subsequence of the list, and splitting the list splits the
      column the same way. */
  lemma ColumnKeepsOrder(todos: seq<Todo>, more: seq<Todo>, status: TodoStatus)
    ensures IsSubsequence(ColumnTasks(todos, status), todos)
    ensures ColumnTasks(todos + more, status) == ColumnTasks(todos, status) + ColumnTasks(more, status)
  {
    FilterIsSubsequence(todos, HasStatus(status));
    FilterAppend(todos, more, HasStatus(status));
  }

  /** The three columns partition the list: together they hold every todo
      exactly as many times as the list does, so their lengths add up to the
      list's length. */
  lemma {:induction false} ColumnsPartition(todos: seq<Todo>)
    ensures multiset(ColumnTasks(todos, NotStarted)) + multiset(ColumnTasks(todos, InProgress))
            + multiset(ColumnTasks(todos, Done)) == multiset(todos)
    ensures |ColumnTasks(todos, NotStarted)| + |ColumnTasks(todos, InProgress)|
            + |ColumnTasks(todos, Done)| == |todos|
    decreases |todos|
  {
    if todos != [] {
      ColumnsPartition(todos[1..]);
      assert todos == [todos[0]] + todos[1..];
    }
  }

  /** Each todo on the board is in exactly one column: the one for its own
      status. */
  lemma InExactlyOneColumn(todos: seq<Todo>, t: Todo, status: TodoStatus)
    requires t in todos
    ensures t in ColumnTasks(todos, status) <==> status == t.fields.status
  {
    var k :| 0 <= k < |todos| && todos[k] == t;
    assert HasStatus(t.fields.status)(todos[k]);
  }
}
