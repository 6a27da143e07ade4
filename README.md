# Todo store model

A Dafny model of the client-side todo store of a Nuxt to-do list application
(`composables/useTodos.ts`). The store keeps two ordered collections, todo
items and categories. It changes them only after a server call has succeeded,
and it exposes two derived views: the filtered list shown to the user and the
aggregate counts.

Files:

- `types.dfy` (module `TodoTypes`): todo items, categories, drafts, update
  bodies, the filter selector, the `"all"` and `"personal"` constants, and one
  error kind per failing operation.
- `sequences.dfy` (module `Sequences`): the array primitives the store uses.
  These are `findIndex` (`FirstIndex`, -1 when absent), `splice(i, 1)`
  (`SpliceOut`) and `filter` (`Filter`), each with its meaning and its lemmas.
- `views.dfy` (module `TodoViews`): `filteredTodos` and `todoStats` as pure
  functions of the collection and the three selectors, plus lemmas about them
  and a few worked examples.
- `store.dfy` (module `Todos`): the class `TodoStore`, one method per store
  operation. It also holds the specification functions those methods are
  proved against (`ReplaceFirst`, `Affected`, `Reassigned`) and the lemmas
  about the category-deletion cascade.

The server is not modelled. Each operation takes the outcome of its server
call as a parameter. That outcome is an `Option` reply, or a `bool` for a
delete. Each operation that sends a body (`addTodo`, `updateTodo`,
`toggleTodo`, `addCategory`, `deleteCategory`) returns the body it would send;
`loadData` and `deleteTodo` send none. Every reading of the clock is a
parameter as well (`now`, `createdNow` and `updatedNow`, `stamps`).

Two behaviours of the code that are easy to misread:

- Only `loadData` clears `error` at its start. No other operation clears it,
  so a stale message survives every later success except a reload.
- In `deleteCategory`, every failing reassignment sets the update-failure
  message, since `updateTodo` catches its own errors. The delete-category
  message is set only when the category delete itself fails.

## Model

| member | source | states |
|---|---|---|
| Sequences.FirstIndex | composables/useTodos.ts:69 | the result is -1 exactly when the id is absent; otherwise it is an index holding the id with no earlier occurrence (the first match) |
| Sequences.SpliceOut | composables/useTodos.ts:87 | removing index i shortens the collection by one; elements before i keep their positions and later ones move down by one, so relative order is kept |
| Sequences.Filter | composables/useTodos.ts:152-169 | every kept element comes from the input and passes the test; every input element that passes the test is kept |
| Sequences.FilterMultiplicity | composables/useTodos.ts:152-169 | a filter keeps every copy of an element that passes the test and no copy of one that fails it |
| Sequences.FilterCount | composables/useTodos.ts:174-175 | the length of a filter result is the number of input positions whose element passes the test |
| Sequences.FilterIsSubsequence | composables/useTodos.ts:152-169 | a filter result is an order-preserving subsequence of its input |
| Sequences.FilterInStages | composables/useTodos.ts:152-169 | applying three tests one after another selects the same list, in the same order, as applying their conjunction once |
| TodoViews.LowerChar | composables/useTodos.ts:164 | an upper-case ASCII letter maps to the lower-case letter at the same place in the alphabet (checked against a letter table); every other character is kept |
| TodoViews.ToLower | composables/useTodos.ts:164 | lower-casing keeps the length, maps each character by position, and leaves no upper-case ASCII letter |
| TodoViews.ContainsIffOccurs | composables/useTodos.ts:164 | `includes` holds exactly when the query occurs as a contiguous window of the title at some offset |
| TodoViews.FilteredTodos | composables/useTodos.ts:151-170 | the list view holds the todos that pass the completion, category and search tests, each with as many copies as the collection has, and no other todo; it is no longer than the collection |
| TodoViews.FilteredIsSubsequence | composables/useTodos.ts:151-170 | the list view keeps the collection's order |
| TodoViews.FilteredInStages | composables/useTodos.ts:153-166 | the view equals the completion test, then the category test, then the search test, applied in that order |
| TodoViews.UnrestrictedViewIsEverything | composables/useTodos.ts:151-170 | with filter `all`, category `"all"` and an empty query, the view is the whole collection |
| TodoViews.SearchIgnoresCase | composables/useTodos.ts:162-166 | two queries that lower-case to the same string select the same todos |
| TodoViews.CompletedPlusPending | composables/useTodos.ts:174-175 | the completed count plus the pending count equals the collection length |
| TodoViews.CountCompleted | composables/useTodos.ts:174 | the completed count is the number of positions holding a finished todo |
| TodoViews.CountPending | composables/useTodos.ts:175 | the pending count is the number of positions holding an unfinished todo |
| TodoViews.Stats | composables/useTodos.ts:172-176 | `total` is the length of the whole unfiltered collection, `completed` the number of positions holding a finished todo, `pending` the number holding an unfinished one, and `completed + pending == total` |
| TodoViews.StatsMatchStatusViews | composables/useTodos.ts:153-154 | the completed and pending counts equal the lengths of the list view under the `completed` and `pending` selectors when no category or query restricts it |
| TodoViews.PendingExample | composables/useTodos.ts:154 | for [Buy milk (pending), Ship report (done)], the `pending` selector shows only Buy milk |
| TodoViews.SearchExample | composables/useTodos.ts:162-166 | the query "SHIP" shows only Ship report |
| Todos.ReplaceFirst | composables/useTodos.ts:69-72 | the update keeps the length; only the first entry with the id becomes the server's todo; all other positions are unchanged; an absent id leaves the collection as it was (no insert) |
| Todos.Affected | composables/useTodos.ts:131 | the snapshot holds the todos whose category equals the deleted id, each with as many copies as the collection has, and no other todo, in collection order (a subsequence of the collection) |
| Todos.Stamped | composables/useTodos.ts:65-68 | the update body is the caller's fields with `updatedAt` set to the current time |
| Todos.Reassigned | composables/useTodos.ts:132-134 | the cascade of replacements keeps the collection's length |
| Todos.FailedReassignmentsKeepTodos | composables/useTodos.ts:132-134 | if every reassignment fails, the todo collection is unchanged |
| Todos.CascadeProgress | composables/useTodos.ts:131-134 | with unique todo ids and a deleted category other than `"personal"`: after each prefix of the reassignments the server applies as asked, ids are unchanged, other categories' todos are untouched, and every todo still in the category is yet to be reassigned |
| Todos.CascadeCompletes | composables/useTodos.ts:131-134 | with unique todo ids and a deleted category other than `"personal"`: once every reassignment of a snapshot of the category's todos is applied as asked, ids are unchanged, no todo is left in the category, and other categories' todos are untouched |
| Todos.CascadeClearsCategory | composables/useTodos.ts:121-134 | with unique todo ids and replies that apply the reassignment, no todo is left in the deleted category, ids are unchanged, and todos of other categories are untouched |
| Todos.DeletedCategoryIsGone | composables/useTodos.ts:125-128 | with unique category ids, the deleted id no longer occurs among the categories |
| Todos.TodoStore.Filtered | composables/useTodos.ts:151-170 | the list view of the current state holds the todos passing the current selectors with their multiplicities, in collection order |
| Todos.TodoStore.CurrentStats | composables/useTodos.ts:172-176 | the counts of the current collection: its length, its finished todos and its unfinished todos, whatever the selectors are |
| Todos.TodoStore.constructor | composables/useTodos.ts:8-17 | empty collections, filter `all`, category `"all"`, empty query, not loading, no error |
| Todos.TodoStore.LoadData | composables/useTodos.ts:24-40 | both collections are replaced only when both fetches succeed; otherwise both keep their old values and `error` is the load failure; `error` is cleared on success; `loading` ends false |
| Todos.TodoStore.AddTodo | composables/useTodos.ts:42-60 | the request carries the draft with `createdAt` and `updatedAt` taken from two separate clock readings; on success the new collection is the server's todo followed by the old one; on failure it is unchanged and `error` is set |
| Todos.TodoStore.UpdateTodo | composables/useTodos.ts:62-79 | the request is the id with the stamped body; on success the collection is `ReplaceFirst` of the old one; on failure it is unchanged and `error` is set |
| Todos.TodoStore.DeleteTodo | composables/useTodos.ts:81-95 | on success the first entry with the id is spliced out, or nothing changes when none has it; on failure the collection is unchanged and `error` is set |
| Todos.TodoStore.ToggleTodo | composables/useTodos.ts:97-104 | no request is sent and nothing changes exactly when no todo has the id; otherwise one update flips the found entry's `completed`, with `UpdateTodo`'s outcome |
| Todos.TodoStore.AddCategory | composables/useTodos.ts:106-119 | the request is the caller's draft, unchanged; on success the new categories are the old ones followed by the server's category; on failure they are unchanged and `error` is set |
| Todos.TodoStore.DeleteCategory | composables/useTodos.ts:121-141 | on a failed delete neither collection changes and `error` is set; on success the first matching category is spliced out, the snapshot's todos are reassigned as `Reassigned` says, one request per affected todo in order, and `error` reports a failed reassignment if any |
| Todos.TodoStore.ReassignAll | composables/useTodos.ts:132-134 | the loop issues one stamped `{category: "personal"}` update per affected todo in order, a failure does not stop it, and the collection ends as `Reassigned` |
| Todos.TodoStore.SetFilter | composables/useTodos.ts:143-145 | the filter becomes the argument |
| Todos.TodoStore.SetSelectedCategory | composables/useTodos.ts:147-149 | the selected category becomes the argument |
| Todos.DeleteWorkCategoryExample | composables/useTodos.ts:121-141 | loading [Buy milk (personal), Ship report (work)] with categories personal and work, then deleting work with a successful reassignment, leaves only the personal category, moves Ship report to personal with the new `updatedAt`, and sends one update `{category: "personal", updatedAt}` for id "2" |
| Todos.PartialLoadExample | composables/useTodos.ts:24-40 | after a successful load of one todo and the "personal" category, a reload whose category fetch fails keeps both of the first load's collections and reports the load failure |

## Left out

- `composables/useApi.ts` is not part of this model. It covers the HTTP calls, the base URL, ISO date conversion and error logging. Every call is an oracle outcome passed to the store operation.
- The API's `updateCategory` is never called by the store and is not modelled.
- Vue reactivity (`reactive`, `ref`, `computed`) is not modelled. State is plain fields, and the two views are functions recomputed on demand (`TodoStore.Filtered`, `TodoStore.CurrentStats`).
- The concurrency of `Promise.all` in `loadData` is not modelled: it is two outcomes that must both succeed. Interleavings of overlapping operations are not modelled either.
- Timestamps are opaque integers supplied by the caller, instead of `new Date()`.
- `generateId` is not modelled: it is unused and depends on the clock and `Math.random`.
- Localized messages and console logging are not modelled. `error` holds one `ErrorKind` per operation.
- Lower-casing covers ASCII letters only. Full Unicode `toLowerCase` is not modelled.
- Todos.TodoStore.DeleteCategory: states only the final `loading` value. The nested updates also reset `loading` to false in the middle of the cascade, and that trace is not modelled.
- Todos.TodoStore.DeleteCategory: all server replies are supplied up front, one per affected todo. The method therefore requires exactly that many replies and timestamps; this is a condition on the oracle, not on callers of the source.
- The shared types file (`~/types`) is not part of this model. Categories carry only `id` and `name`, and an update body carries no `id` field.
- `searchQuery` has no setter in the source; the user interface writes it directly. Here it is a public field.
- Todos.CascadeClearsCategory: proved only when the deleted category is not `"personal"` itself. Deleting `"personal"` reassigns its todos to the category just deleted, so they stay in that category. It also assumes unique todo ids, as `Todos.CascadeProgress` does below.
- Todos.CascadeProgress: stated only for unique todo ids and a deleted category other than `"personal"`. With a duplicate id, a reassignment can overwrite the first todo carrying that id, which may belong to another category.
- Todos.CascadeCompletes: stated under the same two conditions, for the same two reasons: deleting `"personal"` moves its todos back into `"personal"`, and a duplicate id can redirect a reassignment to another todo.
