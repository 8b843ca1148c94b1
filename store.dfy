/** The database the server actions talk to, as an in-memory store: one table
    per record kind, each a map from row id to row. The record lifecycle
    (active, soft-deleted, restored, purged) is stated here once for every
    kind of row. */
module Store {
  import opened Entities

  type Table<D> = map<Id, Row<D>>

  /** The row exists and belongs to `user`: the check
      `!row || row.userId !== session.user.id` passes. */
  predicate Owns<D>(t: Table<D>, id: Id, user: UserId) {
    id in t && t[id].userId == user
  }

  /** Every row is stored under its own id. */
  predicate KeysMatch<D>(t: Table<D>) {
    forall k :: k in t ==> t[k].id == k
  }

  /** `update({ where: { id }, data: { softDelete: flag } })`. */
  function WithSoftDelete<D>(t: Table<D>, id: Id, flag: bool): (r: Table<D>)
    requires id in t
    ensures r.Keys == t.Keys
    ensures r[id].softDelete == flag
    ensures r[id].id == t[id].id && r[id].userId == t[id].userId && r[id].fields == t[id].fields
    ensures forall k :: k in t && k != id ==> r[k] == t[k]
  {
    t[id := t[id].(softDelete := flag)]
  }

  /** `delete({ where: { id } })`. */
  function Purged<D>(t: Table<D>, id: Id): (r: Table<D>)
    ensures r.Keys == t.Keys - {id}
    ensures forall k :: k in r ==> r[k] == t[k]
  {
    t - {id}
  }

  /** `deleteMany({ where: { userId: user, softDelete: true } })`. */
  function TrashEmptied<D>(t: Table<D>, user: UserId): (r: Table<D>)
    ensures forall k :: k in r <==> k in t && !(t[k].userId == user && t[k].softDelete)
    ensures forall k :: k in r ==> r[k] == t[k]
  {
    map k | k in t && !(t[k].userId == user && t[k].softDelete) :: t[k]
  }

  /** Restoring a row that was active before it was soft-deleted gives back
      the table as it was. */
  lemma RestoreUndoesSoftDelete<D>(t: Table<D>, id: Id)
    requires id in t && !t[id].softDelete
    ensures WithSoftDelete(WithSoftDelete(t, id, true), id, false) == t
  {
    var r := WithSoftDelete(WithSoftDelete(t, id, true), id, false);
    assert r[id] == t[id];
  }

  /** Soft-deleting before purging leaves no trace: the result is as if the
      row had been purged directly. */
  lemma PurgeAfterSoftDelete<D>(t: Table<D>, id: Id)
    requires id in t
    ensures Purged(WithSoftDelete(t, id, true), id) == Purged(t, id)
  {
  }

  /** A soft-deleted row of `user` is removed by emptying `user`'s trash; an
      active row, or another user's row, survives it. */
  lemma SoftDeletedRowIsEmptied<D>(t: Table<D>, id: Id, user: UserId)
    requires Owns(t, id, user)
    ensures id !in TrashEmptied(WithSoftDelete(t, id, true), user)
    ensures id in TrashEmptied(t, user) <==> !t[id].softDelete
  {
  }

  /** Emptying the trash twice removes nothing more the second time. */
  lemma TrashEmptiedIdempotent<D>(t: Table<D>, user: UserId)
    ensures TrashEmptied(TrashEmptied(t, user), user) == TrashEmptied(t, user)
  {
  }

  /** Every lifecycle step keeps each row under its own id. */
  lemma LifecycleKeepsKeys<D>(t: Table<D>, id: Id, flag: bool, user: UserId)
    requires KeysMatch(t)
    ensures id in t ==> KeysMatch(WithSoftDelete(t, id, flag))
    ensures KeysMatch(Purged(t, id))
    ensures KeysMatch(TrashEmptied(t, user))
  {
  }

  /** One row of the pre-multi-user schema used by app/lib/todo-actions.ts:
      no owner and a boolean status. */
  datatype LegacyTodo = LegacyTodo(
    title: Option<string>,
    description: Option<string>,
    status: bool,
    dueDate: Option<Timestamp>,
    priority: Priority)

  /** The Prisma client's view of the database. */
  class Database {
    var todos: Table<TodoFields>
    var notes: Table<NoteFields>
    var tags: Table<TagFields>
    var users: map<Id, User>
    var legacyTodos: seq<LegacyTodo>

    constructor ()
      ensures todos == map[] && notes == map[] && tags == map[]
      ensures users == map[] && legacyTodos == []
    {
      todos, notes, tags, users, legacyTodos := map[], map[], map[], map[], [];
    }
  }
}
