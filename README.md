# notz core, modelled in Dafny

notz is a notes, to-do and tags application. The user signs in, and every note, todo and tag belongs to that user. Deleting a row moves it to a trash: the row is soft-deleted, and from there it can be restored or purged. Emptying the trash purges one kind of row at a time.

This project models three groups of logic in the application:

- **The server actions.** These are register, create, update, soft delete and permanent delete for notes, todos and tags, plus restore, purge and empty-trash. They act on an in-memory store:
  - the store has one table per kind of row, each a map from id to row;
  - each row carries its owner and its soft-delete flag.
- **The client-side list state.** This covers:
  - the todo board's three status columns;
  - the tag picker's selection;
  - "load more" paging of notes;
  - the pending markers of the tag list and the trash list.
- **Text and query-string edits.** This covers:
  - the markdown toolbar, which edits a textarea through `setRangeText()`;
  - text truncation with an ellipsis;
  - the search and tag filters, which rewrite URL query parameters.

State that the source changes in place becomes a Dafny `class`:

- component state (`useState` fields) becomes class fields;
- a textarea becomes a class with its value and selection;
- the Prisma client's tables become fields of `Store.Database`.

Pure computations become functions, and lemmas state their properties. Two standards define parts of the behaviour:

- `URLSearchParams` follows section 6.2 of the WHATWG URL Standard. It is modelled as an ordered list of name/value pairs.
- `setRangeText()` follows section 4.10.19 of the WHATWG HTML Living Standard.

Each server action keeps the source's guard order: session, then the form schema, then a database error, then ownership, then the write. Foreign calls and the environment become parameters:

- the session is `Option<string>`;
- the date parser, the e-mail check and the password hash are function-valued parameters;
- a thrown database error is the flag `fault`;
- the id the database would give a new row is `newId`.

Files:

- `entities.dfy`: rows, enums and result codes.
- `store.dfy`: tables and the record lifecycle.
- `seqs.dfy`: `Array.prototype.filter`.
- Server actions:
  - `todo_actions.dfy`
  - `note_actions.dfy`
  - `tag_actions.dfy`
  - `trash_actions.dfy`
  - `auth_actions.dfy`
  - `legacy_todo_actions.dfy`
  - `unbound_client.dfy`
- Components:
  - `todo_board.dfy`
  - `tag_selector.dfy`
  - `note_list.dfy`
  - `tag_list.dfy`
  - `trash_list.dfy`
  - `markdown_toolbar.dfy`
  - `truncate.dfy`
  - `note_filters.dfy`
  - `tag_filters.dfy`
- Standard APIs:
  - `text_control.dfy`
  - `search_params.dfy`

Some members are plain definitions of the source's expressions, so they have no row in the table below. They are:

- `NoteList.List.HasMoreNotes` and `NoteList.List.ShowsEmptyState`
- `TagList.List.IsPendingDeletion` and `TagList.List.ShowsEmptyMessage`
- `TrashList.List.TabCounts` and `TrashList.List.IsItemPending`
- `TodoBoard.ColumnTasks`, `TodoBoard.HasStatus`, `TagSelector.InitialSelection` and `TagSelector.Toggled`

Each is the source's expression written out (for example, `notes.length < totalNotes`). The functions and methods in the table are stated in terms of them.

## Model

| member | source | states |
|---|---|---|
| Entities.PriorityFromName | src/actions/todos.ts:13 | A string is accepted as a priority only when it is the name of the enum value it yields. |
| Entities.PriorityNameRoundTrip | src/actions/todos.ts:13 | Every priority's name is accepted and gives that priority back, so the enum check accepts exactly the four names. |
| Entities.StatusFromName | src/actions/todos.ts:15 | A string is accepted as a status only when it is the name of the status it yields. |
| Entities.StatusNameRoundTrip | src/actions/todos.ts:15 | Every status's name is accepted and gives that status back. |
| Seqs.Filter | src/components/todos/TodoBoard.tsx:14-16 | `filter` keeps exactly the elements that satisfy the predicate, and no more elements than the input has. |
| Seqs.FilterAppend | src/components/todos/TodoBoard.tsx:14-16 | Filtering a concatenation is the concatenation of the filtered parts. |
| Seqs.FilterIsSubsequence | src/components/tags/TagSelector.tsx:36 | The result of `filter` is a subsequence of its input: order is kept. |
| Seqs.FilterKeepsAll | src/components/tags/TagSelector.tsx:49 | If every element passes, `filter` returns its input unchanged. |
| Store.WithSoftDelete | src/actions/todos.ts:110-113 | Setting the soft-delete flag changes only that flag of that row: the same keys, and the same owner, id and fields. |
| Store.Purged | src/actions/todos.ts:135-137 | A delete removes exactly that key and leaves every other row as it was. |
| Store.TrashEmptied | src/actions/trash.ts:60-65 | `deleteMany` removes exactly the user's soft-deleted rows; active rows and other users' rows remain unchanged. |
| Store.RestoreUndoesSoftDelete | src/actions/trash.ts:16-21 | Soft-deleting an active row and then restoring it gives back the original table. |
| Store.PurgeAfterSoftDelete | src/actions/trash.ts:38-42 | Purging a soft-deleted row leaves the same table as purging the active row. |
| Store.SoftDeletedRowIsEmptied | src/actions/trash.ts:57-65 | Once soft-deleted, the user's row is removed by emptying the trash; it survives emptying exactly when it is active. |
| Store.TrashEmptiedIdempotent | src/actions/trash.ts:57-65 | Emptying the trash a second time removes nothing more. |
| Store.LifecycleKeepsKeys | src/actions/trash.ts:16-65 | Every lifecycle step keeps each row stored under its own id. |
| TodoActions.ValidatedTodo | src/actions/todos.ts:10-41 | The schema accepts a todo exactly when all of these hold: the title is non-empty; a description is present; priority and status are enum names; and the due date is absent, empty or parses. The accepted value holds the submitted fields, and the due date is null exactly when the field was absent or empty. |
| TodoActions.ValidatedTodoRoundTrip | src/actions/todos.ts:10-41 | A form filled from a todo's own fields passes the schema and gives those fields back. |
| TodoActions.CreateTodo | src/actions/todos.ts:19-57 | Checks run in this order: session, then schema, then database error. Success stores one new row owned by the session user and nothing else. |
| TodoActions.UpdateTodo | src/actions/todos.ts:60-97 | The schema is checked before ownership, so invalid data is reported even for a foreign id. A missing or foreign todo gives `not_found_or_unauthorized` and nothing changes. Success replaces only that row's fields. |
| TodoActions.SoftDeleteTodo | src/actions/todos.ts:100-122 | A missing or foreign todo gives `not_found_or_unauthorized`. Success sets only the soft-delete flag and keeps the row. |
| TodoActions.PermanentDeleteTodo | src/actions/todos.ts:125-146 | A missing or foreign todo gives `not_found_or_unauthorized`. Success removes exactly that row. |
| NoteActions.ValidatedNote | src/actions/notes.ts:9-33 | The schema accepts a note exactly when a title is present (it may be empty) and the content is non-empty. The tag set is exactly the submitted ids. |
| NoteActions.CreateNote | src/actions/notes.ts:16-55 | Success stores a note owned by the session user and linked to exactly the submitted tag ids. An unknown tag id or a database error gives `create_note_unexpected_err`. |
| NoteActions.UpdateNote | src/actions/notes.ts:58-105 | A missing or foreign note gives `not_found_or_unauthorized`. Success replaces the note's tag set with exactly the submitted ids. |
| NoteActions.SoftDeleteNote | src/actions/notes.ts:108-139 | A missing or foreign note changes nothing. Success sets only the soft-delete flag. |
| NoteActions.PermanentDeleteNote | src/actions/notes.ts:142-163 | A missing or foreign note changes nothing. Success removes the note. |
| TagActions.HexDigitsIff | src/actions/tags.ts:14 | The pattern `[0-9a-fA-F]{n}$` matches a text exactly when the text is n hex digits. |
| TagActions.ColorPatternIff | src/actions/tags.ts:12-15 | A colour matches exactly when it has seven characters: a `#` followed by six hex digits in either case. |
| TagActions.ValidatedTag | src/actions/tags.ts:9-31 | The schema accepts a tag exactly when all of these hold: the name is non-empty, a description is present, and a colour is present and matches the pattern. |
| TagActions.CreateTag | src/actions/tags.ts:19-47 | Success stores the tag with the session user as its owner. A database error gives `create_tag_unexpected_err`. |
| TagActions.UpdateTag | src/actions/tags.ts:50-82 | A missing or foreign tag gives `not_found_or_unauthorized`. Success replaces only that row's fields. |
| TagActions.SoftDeleteTag | src/actions/tags.ts:85-113 | A missing or foreign tag changes nothing. Success sets only the soft-delete flag. |
| TagActions.DeleteTagPermanent | src/actions/tags.ts:116-141 | A missing or foreign tag changes nothing. Success removes the tag. |
| TrashActions.RestoreItem | src/actions/trash.ts:11-30 | The item type selects the table. Success clears the flag on the row that matches both the id and the caller. A missing or foreign row, or a database error, gives `restore_item_unexpected_err` and changes nothing. |
| TrashActions.PermanentDeleteItem | src/actions/trash.ts:33-50 | Success removes only the row that matches both the id and the caller. Otherwise the result is `permanent_delete_item_unexpected_err` and nothing changes. |
| TrashActions.EmptyTrashByType | src/actions/trash.ts:53-73 | Success removes exactly the caller's soft-deleted rows of that type; the other tables are unchanged. Only a database error fails. |
| AuthActions.ValidatedRegistration | src/actions/auth.ts:7-24 | A registration is accepted exactly when the name has at least 3 characters, the e-mail check accepts the address, and the password has at least 6 characters. |
| AuthActions.AddUserKeepsEmailsUnique | src/actions/auth.ts:27-46 | Adding a user whose address is unused keeps the addresses unique. |
| AuthActions.RegisterUser | src/actions/auth.ts:13-51 | Validation runs before the lookup. An address in use gives `email_in_use` and no change. Success adds exactly one user with the hashed password and keeps the addresses unique. A database error gives `registration_failed`. |
| LegacyTodoActions.NormalizedDueDate | app/lib/todo-actions.ts:32-43 | An absent or empty due date is stored as null. A present, non-empty one is stored as its parse, which is null for an invalid time. |
| LegacyTodoActions.NormalizedPriority | app/lib/todo-actions.ts:45-50 | A priority that names an enum value is kept, and anything else becomes MEDIUM. |
| LegacyTodoActions.NormalizedPriorityKeepsNames | app/lib/todo-actions.ts:45-50 | Submitting a priority's own name keeps that priority, and normalising is idempotent. |
| LegacyTodoActions.CreateLegacyTodo | app/lib/todo-actions.ts:26-72 | Success appends one row with status false and the normalised date and priority, then redirects to `/todos`. A database error is swallowed: nothing is stored and nothing is returned. |
| UnboundClient.CreateTagAsWritten | src/actions/tags.ts:33-46 | As written, with the global client unassigned, reading `prisma` throws inside the `try`: a signed-in user's valid tag is refused with `create_tag_unexpected_err`, and the table is unchanged. With it assigned, success stores the tag. |
| UnboundClient.RefusedTagCreate | src/lib/prisma.ts:6-18 | A concrete valid request, made while the global client is unassigned, is refused with `create_tag_unexpected_err` and stores nothing; the same request with the client assigned is stored. |
| UnboundClient.BoundClientStoresTag | src/actions/tags.ts:33-46 | With the client bound, a reported success means the tag was stored. |
| TodoBoard.Columns | src/components/todos/TodoBoard.tsx:14-22 | There are three columns, always ordered not started, in progress, done. Each column holds exactly the todos with its status. |
| TodoBoard.HeaderCounts | src/components/todos/TodoBoard.tsx:29 | Each header shows the number of todos with the column's status, counted independently of the filter, and the three numbers add up to the number of todos. |
| TodoBoard.ColumnLengthIsCount | src/components/todos/TodoBoard.tsx:14-16 | A filtered column is as long as the count of todos with its status. |
| TodoBoard.ColumnKeepsOrder | src/components/todos/TodoBoard.tsx:14-16 | Within a column, todos keep their relative order from the list. |
| TodoBoard.ColumnsPartition | src/components/todos/TodoBoard.tsx:14-16 | Together the columns hold exactly the todos of the list (as a multiset), and their lengths sum to the list's length. |
| TodoBoard.InExactlyOneColumn | src/components/todos/TodoBoard.tsx:14-16 | A todo on the board is in a column exactly when that column is for the todo's status. |
| TagSelector.WithoutId | src/components/tags/TagSelector.tsx:42 | Filtering out an id keeps exactly the tags with another id. |
| TagSelector.HiddenInputs | src/components/tags/TagSelector.tsx:54-56 | Reading the submitted fields back with `getAll("tagIds")` gives the selected ids in selection order, and no field of any other name is submitted. |
| TagSelector.SubmittedTagIds | src/actions/notes.ts:23-35 | A note form carrying the picker's hidden inputs validates to a note linked to exactly the selected tags' ids. |
| TagSelector.WithoutAbsentId | src/components/tags/TagSelector.tsx:48-50 | Removing an id that is not selected changes nothing. |
| TagSelector.ToggleTwiceRestores | src/components/tags/TagSelector.tsx:39-46 | Selecting a tag that is not selected appends it; selecting it again restores the original list. |
| TagSelector.WithoutKeepsOrder | src/components/tags/TagSelector.tsx:41-42 | After a removal, the remaining tags keep their order. |
| TagSelector.FilterKeepsIdsUnique | src/components/tags/TagSelector.tsx:42 | Filtering keeps selected ids unique. |
| TagSelector.ToggleKeepsIdsUnique | src/components/tags/TagSelector.tsx:39-50 | If the selected ids are unique, they stay unique after a toggle or a removal. |
| TagSelector.Selector.constructor | src/components/tags/TagSelector.tsx:34-37 | The initial selection is the tags whose ids were given, in `allTags` order, and the popover starts closed. |
| TagSelector.Selector.HandleSelect | src/components/tags/TagSelector.tsx:39-46 | A selected id is removed (every entry with it) and any other tag is appended. Uniqueness of ids is kept, and the popover ends open. |
| TagSelector.Selector.HandleRemove | src/components/tags/TagSelector.tsx:48-50 | Every entry with the id is dropped; nothing changes when the id is absent; uniqueness is kept. |
| NoteList.List.constructor | src/components/notes/NoteList.tsx:28-29 | The list starts at the initial notes and page 1. |
| NoteList.List.ResetOnNewNotes | src/components/notes/NoteList.tsx:32-36 | New initial notes reset the list to them and the page to 1. |
| NoteList.List.BeginLoadMore | src/components/notes/NoteList.tsx:42-46 | The request asks for page + 1 with the current `q` and `tag` parameters; an empty value is sent as absent. |
| NoteList.List.FinishLoadMore | src/components/notes/NoteList.tsx:48-53 | A notes array is appended and the page becomes the requested one. Any other result changes nothing. The old notes are always a prefix of the new ones. |
| NoteList.List.LoadMoreNotes | src/components/notes/NoteList.tsx:40-56 | One uninterrupted load: old notes followed by fetched notes and page + 1, or no change. |
| TagList.List.constructor | src/components/tags/TagList.tsx:22-26 | The list starts with the initial tags and no pending deletion. |
| TagList.List.ResetOnNewTags | src/components/tags/TagList.tsx:28-31 | New initial tags replace the list and clear the pending ids. |
| TagList.List.HandleOptimisticDelete | src/components/tags/TagList.tsx:40-44 | The id is appended to the pending list before the call, and existing entries stay. The `isPermanent` flag alone picks the permanent action. |
| TrashList.List.constructor | src/components/trash/TrashList.tsx:25-31 | The three lists start from the props and nothing is pending. |
| TrashList.List.ResetOnNewItems | src/components/trash/TrashList.tsx:33-38 | New props replace the three lists and clear the pending item. |
| TrashList.List.StartItemAction | src/components/trash/TrashList.tsx:53 | The item becomes the single pending item, overwriting any earlier one. |
| TrashList.List.FinishItemAction | src/components/trash/TrashList.tsx:54-60 | A thrown error clears the pending item. On success it stays until the next reset. |
| TrashList.List.HandleItemAction | src/components/trash/TrashList.tsx:51-62 | An uninterrupted action leaves the item pending on success and nothing pending after an error. |
| TrashList.List.ShowsEmptyView | src/components/trash/TrashList.tsx:64-66 | The empty view shows exactly when all three lists are empty (every tab counts zero) and no transition is pending. |
| TextControl.TextArea.SetRangeText | src/components/notes/MarkdownToolbar.tsx:23 | If start is after end, IndexSizeError is thrown and nothing changes. Otherwise the clamped range is replaced; the selection becomes the inserted text (select mode) or the point after it (end mode); and the selection stays within the value. |
| MarkdownToolbar.ApplyFormat | src/components/notes/MarkdownToolbar.tsx:12-26 | The selection becomes `syntax + selection + syntax`, or `syntax + placeholder + syntax` when the selection is empty. The inserted text ends up selected, and the text before and after is kept. With no textarea, nothing happens. |
| MarkdownToolbar.ApplyHeading | src/components/notes/MarkdownToolbar.tsx:28-38 | `"## "` is inserted at the selection start, nothing is deleted, and the cursor moves to start + 3. |
| MarkdownToolbar.ApplyList | src/components/notes/MarkdownToolbar.tsx:40-50 | `"- "` is inserted at the selection start, nothing is deleted, and the cursor moves to start + 2. |
| MarkdownToolbar.ApplyLink | src/components/notes/MarkdownToolbar.tsx:52-62 | The selection is replaced by `[Link Text](url)`, which ends up selected; the text around it is kept. |
| Truncate.Truncated | src/components/truncate-with-tooltip.tsx:19-23 | A text longer than `maxLength` (at least 0) is shown as its first `maxLength` characters followed by `"..."`, `maxLength + 3` characters in all. |
| Truncate.SliceTo | src/components/truncate-with-tooltip.tsx:23 | `slice(0, end)` returns a prefix: of length `end` when `end` is in range, and counted from the end of the text when `end` is negative. |
| Truncate.TruncatedShape | src/components/truncate-with-tooltip.tsx:19-23 | A text that fits is unchanged. Otherwise the output is the first maxLength characters plus `"..."`, exactly maxLength + 3 long. The output is at most max(length, maxLength + 3) and always begins with a prefix of the text. |
| Truncate.TruncatedUnchangedIff | src/components/truncate-with-tooltip.tsx:19-23 | The output equals the text exactly when the text fits, or when it is already a cut text ending in `"..."`. |
| Truncate.TruncatedIdempotent | src/components/truncate-with-tooltip.tsx:19-23 | Truncating a truncated text changes nothing. |
| SearchParams.Get | src/components/notes/NoteFilters.tsx:42 | `get` finds a value exactly when a pair with the name exists, and the value is that of the first such pair: no earlier pair has the name. |
| SearchParams.GetAfterSet | src/components/notes/NoteFilters.tsx:32 | After `set(name, value)`, `get(name)` returns the value. |
| SearchParams.GetReplaceFirst | src/components/notes/NoteFilters.tsx:32 | When the name is present, replacing its first pair makes `get` return the new value. |
| SearchParams.GetAppend | src/components/notes/NoteFilters.tsx:32 | When the name is absent, `get` on the list with a pair appended finds exactly that pair. |
| SearchParams.SetKeepsOthers | src/components/notes/NoteFilters.tsx:30-32 | `set` leaves the pairs with other names as they were, in the same order. |
| SearchParams.ReplaceFirstKeepsOthers | src/components/notes/NoteFilters.tsx:32 | Replacing the first pair leaves the other names' pairs unchanged. |
| SearchParams.OthersIdempotent | src/components/notes/NoteFilters.tsx:34 | Removing a name twice is the same as removing it once. |
| SearchParams.SetLeavesOnePair | src/components/notes/NoteFilters.tsx:32 | After `set`, exactly one pair carries the name. |
| SearchParams.ReplaceFirstLength | src/components/notes/NoteFilters.tsx:32 | Replacing the first pair leaves one pair with the name. |
| SearchParams.DeleteRemovesName | src/components/notes/NoteFilters.tsx:34 | After `delete`, `get` of that name returns null and `get` of every other name is unchanged. |
| SearchParams.GetOtherName | src/components/notes/NoteFilters.tsx:30-35 | Reading another name is unaffected by removing a name. |
| SearchParams.URLSearchParams.constructor | src/components/notes/NoteFilters.tsx:30 | The copy holds the current pairs. |
| SearchParams.URLSearchParams.Set | src/components/notes/NoteFilters.tsx:32 | The list becomes the `set` result; the name reads back as the value, and other names are kept. |
| SearchParams.URLSearchParams.Delete | src/components/notes/NoteFilters.tsx:34 | The list loses every pair with the name, and other names are kept. |
| SearchParams.GetOr | src/components/notes/NoteFilters.tsx:27 | `get(name) \|\| fallback`: a present non-empty value, otherwise the fallback. |
| SearchParams.NonEmpty | src/components/notes/NoteList.tsx:43-44 | `get(name) \|\| undefined`: present exactly when the value is present and non-empty. |
| NoteFilters.TagSelectDefault | src/components/notes/NoteFilters.tsx:75 | The selector's default is the first `tag` parameter when it is present and non-empty, and `"all_tags"` otherwise; it is never empty. |
| NoteFilters.Filters.constructor | src/components/notes/NoteFilters.tsx:27 | The search box starts at the `q` parameter, or `""` when it is absent. |
| NoteFilters.Filters.SetSearchQuery | src/components/notes/NoteFilters.tsx:70 | Typing replaces the query. |
| NoteFilters.Filters.HandleTagChange | src/components/notes/NoteFilters.tsx:29-39 | A real tag id sets `tag`; `""` or `"all_tags"` deletes it; every other parameter is unchanged. |
| NoteFilters.Filters.SearchEffect | src/components/notes/NoteFilters.tsx:41-53 | No navigation happens exactly when the query equals the current `q` (absent counts as `""`). Otherwise a non-empty query sets `q` and an empty one deletes it; other parameters are kept. |
| TagFilters.Filters.constructor | src/components/tags/TagFilters.tsx:15 | The search box starts at the `q` parameter, or `""`. |
| TagFilters.Filters.SetSearchQuery | src/components/tags/TagFilters.tsx:45 | Typing replaces the query. |
| TagFilters.Filters.SearchEffect | src/components/tags/TagFilters.tsx:17-28 | No navigation happens exactly when the query equals the current `q`. Otherwise `q` is set or deleted, and every other parameter is preserved. |

## Left out

- The I/O around each action is not modelled: `revalidatePath`, `router.refresh`/`router.replace`, `window.scrollTo`, toasts, `textarea.focus()` and `console.error` have no state the model keeps.
- Session lookup is not modelled: next-auth's `getServerSession` becomes the `Session` input.
- The e-mail check `z.email`, `bcrypt.hash`, `new Date` and Prisma are foreign code. They enter as parameters (`isEmail`, `hash`, `parseDate`, `fault`, `newId`). Dates stay opaque time values.
- The 500 ms debounce of the search effects is not modelled, nor `useTransition` scheduling. Each handler or effect runs as one step, and an action that awaits is split into its two halves.
- Serialisation of query strings is not modelled: `toString()` and the parsing in `new URLSearchParams(...)` are treated as an exact copy of the pairs.
- `setRangeText()` is modelled only in the "select" and "end" modes the toolbar uses. The "start" and "preserve" modes, and the selection direction, are not modelled.
- TextControl.TextArea.SetRangeText: requires a valid selection (start ≤ end ≤ length), which a browser textarea always has.
- Truncate.Truncated: `maxLength` is an integer; a fractional or NaN `maxLength` is not modelled. Lengths count characters, not UTF-16 code units. The same holds for the `min` lengths of the schemas.
- `fetchNotes` and `permanentDeleteTag` are imported from action modules that do not define them. Their results are inputs (`fetched` in `NoteList`, the `DeleteCall` choice in `TagList`).
- `deleteNotePermanently` is in the same position; it is called only by NoteCard, which is not part of this model.
- Per-field validation details are not modelled: `details: fieldErrors` in `registerUser` and the zod messages are dropped, and only the error code is kept.
- A missing form field reaches the todo, note and tag schemas as `null`. `.optional()` refuses `null`, so the model rejects a form without a description, priority, status, colour or note title. Only `dueDate` is also nullable.
- `registerUser`'s lookup of an existing address runs outside its `try`. A database error there is an unhandled exception; only errors in the insert are modelled (`registration_failed`).
- Prisma's links between notes and tags are modelled as the note's `tagIds` set. The cascade of a tag's permanent delete into notes' links is not modelled.
- `getTodos` in app/lib/todo-actions.ts is a read ordered by `createdAt`, which the model has no field for. The legacy `PriorityLevel` client is taken to carry the same four names as the main schema.
- LegacyTodoActions.CreateLegacyTodo: the legacy title and description are stored as given, null included. Whether the legacy schema accepts a null title is unknown, so a refused insert counts as a database error (`fault`).
- Drag-and-drop, optimistic rollback and per-column paging do not exist in the code and are not modelled.
- NoteList: between the two halves of a load, a reset may run. The model then appends to the reset list and sets the page to the stale requested page, as the code does, and makes no claim that this is wanted.

## Findings

| source | as written | input that shows it | evidently intended | confidence | as-written member | corrected member |
|---|---|---|---|---|---|---|
| src/actions/tags.ts:34 (same pattern in every `prisma?.` call of src/actions/notes.ts and src/actions/todos.ts) | The actions use the global `prisma`, which `declare global` at src/lib/prisma.ts:6-8 declares for the type checker only and src/lib/prisma.ts:16-18 assigns only when `NODE_ENV` is not `"production"`. In production the name is undeclared, so `prisma?.tag.create(...)` throws a ReferenceError (the optional chain does not guard an undeclared name). The `catch` turns it into `create_tag_unexpected_err`: every todo, note and tag action fails with its `*_unexpected_err` code. | A signed-in user, a valid tag (`"work"`, `""`, `"#00ff00"`), an empty table and an unassigned global. | The action imports the client, as src/actions/trash.ts:6 does, so a valid request is stored and answered with `create_tag_success`. | medium, not executed | UnboundClient.CreateTagAsWritten | TagActions.CreateTag |
