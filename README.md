# Todo store model

A Dafny model of the client-side todo store of an Angular task-list
application, and of the root view-controller that displays it.

The store (`TodoService`) keeps a list of task records
`{id, title, completed, createdAt}`, newest first. It adds a record at the head
with a trimmed title, flips `completed` on the first record with a given id,
renames the first record with a given id, deletes every record with a given id,
drops all completed records, and reports counts of all, completed and active
records. Every change is written through to one key (`angular17-todos`) of the
browser's local storage, and a new store starts from whatever that key holds.
The view-controller (`AppComponent`) copies the list and the counts out of the
store after every action and shows the list through a filter: all, active or
completed.

Files:

- `wrappers.dfy`: `Option`.
- `text.dfy`: JavaScript's `String.prototype.trim`, over the ECMAScript
  WhiteSpace and LineTerminator code points, with a characterisation that
  determines it.
- `todo_list.dfy`: the record type and the pure list operations the store's
  methods are specified by (`filter`, `find`, toggle, rename, delete), with
  lemmas about them: counts, order, idempotence, toggling twice, unique ids.
- `todo_service.dfy`: local storage as a `Storage` object, and `TodoService`
  as a class whose methods update its `todos` field and the storage.
- `app_component.dfy`: the filter, `trackById`, and `AppComponent` as a class
  that mirrors the store.

Facts of the code that a reader might not expect:

- Ids come from `Date.now()`, and `add` does not keep them unique: two
  additions in the same millisecond share an id. `TodoList.AddUnique` states
  exactly when an addition keeps ids unique: when its id is not already in the
  list.
- `add` and `update` store a title that trims to nothing as the empty string;
  neither checks for it. Only the two input forms trim and skip blank input
  before they emit. The model has no such precondition: `Text.Trim` is empty
  exactly on blank input, and `Add` and `Update` store that empty title.
- `delete` removes every record with the id, while `toggle` and `update`
  change only the first. `TodoList.DeleteUniqueRemovesFirst` shows the two
  agree when ids are unique.

## Model

| member | source | states |
|---|---|---|
| `Text.SkipLeading` | todo-app/src/app/services/todo.service.ts:36 | finds the first non-whitespace position at or after a start, with only whitespace skipped |
| `Text.SkipTrailing` | todo-app/src/app/services/todo.service.ts:36 | finds the position after the last non-whitespace character before an end, with only whitespace skipped |
| `Text.Trim` | todo-app/src/app/services/todo.service.ts:36 | `trim()` result neither starts nor ends with whitespace, is a slice of the input between a whitespace prefix and a whitespace suffix, and is empty exactly when the input is blank |
| `Text.TrimPadded` | todo-app/src/app/services/todo.service.ts:36 | trimming a trimmed string padded with whitespace gives it back; with the slice property of `Trim` this fixes `trim` completely |
| `Text.TrimIdempotent` | todo-app/src/app/services/todo.service.ts:61 | trimming an already trimmed title changes nothing |
| `Text.TrimBuyMilk` | todo-app/src/app/services/todo.service.ts:36 | an example: `"  Buy milk  "` is stored as `"Buy milk"` |
| `TodoList.Keep` | todo-app/src/app/services/todo.service.ts:67 | `filter` returns no more records than it got, all passing the test |
| `TodoList.KeepCounts` | todo-app/src/app/services/todo.service.ts:67 | `filter` keeps each passing record exactly as often as it occurs and drops every failing one |
| `TodoList.KeepOrder` | todo-app/src/app/services/todo.service.ts:54 | `filter` keeps the surviving records in their original relative order |
| `TodoList.KeepConcat` | todo-app/src/app/services/todo.service.ts:54 | filtering a concatenation is concatenating the filtered parts |
| `TodoList.KeepAllPass` | todo-app/src/app/services/todo.service.ts:54 | filtering a list whose records all pass returns it unchanged |
| `TodoList.KeepIdempotent` | todo-app/src/app/services/todo.service.ts:66-69 | clearing completed records twice is clearing them once |
| `TodoList.NoneDoneAfterClear` | todo-app/src/app/services/todo.service.ts:66-69 | after clearing, no record is completed |
| `TodoList.DonePendingSplit` | todo-app/src/app/services/todo.service.ts:71-75 | completed and not-completed counts add up to the total |
| `TodoList.FirstIndex` | todo-app/src/app/services/todo.service.ts:46 | `find` yields the first position holding the id, and nothing exactly when no record has it |
| `TodoList.FirstIndexSameIds` | todo-app/src/app/services/todo.service.ts:46 | lists with the same ids in the same places give the same first match |
| `TodoList.Toggled` | todo-app/src/app/services/todo.service.ts:45-51 | toggling changes only `completed`, and only on the first record with the id; an absent id leaves the list as it was |
| `TodoList.ToggleTwice` | todo-app/src/app/services/todo.service.ts:45-51 | toggling the same id twice restores the list |
| `TodoList.Renamed` | todo-app/src/app/services/todo.service.ts:58-64 | renaming changes only the title of the first record with the id; an absent id leaves the list as it was |
| `TodoList.WithoutId` | todo-app/src/app/services/todo.service.ts:53-56 | after deleting, no record has the id |
| `TodoList.DeleteKeepsOthers` | todo-app/src/app/services/todo.service.ts:54 | deleting keeps every record with another id, as often as before, in its original relative order |
| `TodoList.DeleteAbsent` | todo-app/src/app/services/todo.service.ts:53-56 | deleting an id no record has leaves the list unchanged |
| `TodoList.DeleteUniqueRemovesFirst` | todo-app/src/app/services/todo.service.ts:53-56 | with unique ids, deleting removes just the record that toggle and update would find |
| `TodoList.DeleteOnlyMatch` | todo-app/src/app/services/todo.service.ts:54 | deleting an id that occurs only at its first match removes exactly that record |
| `TodoList.UniqueTail` | todo-app/src/app/services/todo.service.ts:35 | with unique ids, no later record shares the id of an earlier one |
| `TodoList.AddUnique` | todo-app/src/app/services/todo.service.ts:33-43 | adding at the head keeps ids unique if and only if the new id is not already present |
| `TodoList.SameIdsUnique` | todo-app/src/app/services/todo.service.ts:45-64 | toggling and renaming leave ids in place, so they keep ids unique |
| `TodoList.KeepUnique` | todo-app/src/app/services/todo.service.ts:53-69 | deleting and clearing keep ids unique |
| `TodoList.KeepTrimmed` | todo-app/src/app/services/todo.service.ts:53-69 | filtering keeps titles trimmed when they all were |
| `TodoList.TitlesStayTrimmed` | todo-app/src/app/services/todo.service.ts:33-69 | if all titles are trimmed, they stay trimmed after add, toggle, update, delete and clear |
| `TodoStore.Find` | todo-app/src/app/services/todo.service.ts:46 | the linear search returns the first position holding the id, or nothing |
| `TodoStore.TodoService.constructor` | todo-app/src/app/services/todo.service.ts:11-23 | a new store holds the stored list if the key is present and the empty list otherwise |
| `TodoStore.TodoService.LoadFromStorage` | todo-app/src/app/services/todo.service.ts:15-23 | loads the stored list when the key is present, and keeps the current list otherwise |
| `TodoStore.TodoService.SaveToStorage` | todo-app/src/app/services/todo.service.ts:25-27 | overwrites the store's key with the current list; other keys are untouched |
| `TodoStore.TodoService.GetAll` | todo-app/src/app/services/todo.service.ts:29-31 | returns the list in store order |
| `TodoStore.TodoService.Add` | todo-app/src/app/services/todo.service.ts:33-43 | the returned record has the given id and time, the trimmed title and `completed == false`; it becomes the head, the old list follows, and the new list is saved |
| `TodoStore.TodoService.Toggle` | todo-app/src/app/services/todo.service.ts:45-51 | the list becomes `Toggled`; it is saved if the id is present, and list and storage are untouched otherwise |
| `TodoStore.TodoService.Delete` | todo-app/src/app/services/todo.service.ts:53-56 | the list becomes `WithoutId`, unchanged for an absent id, and it is saved in every case |
| `TodoStore.TodoService.Update` | todo-app/src/app/services/todo.service.ts:58-64 | the first record with the id gets the trimmed title, blank or not; saved if present, list and storage untouched otherwise |
| `TodoStore.TodoService.ClearCompleted` | todo-app/src/app/services/todo.service.ts:66-69 | only the not-completed records remain, in order; afterwards the completed count is 0; the list is saved |
| `TodoStore.TodoService.GetStats` | todo-app/src/app/services/todo.service.ts:71-75 | `total` is the list length, `completed` the number of completed records, `active` the number of not-completed ones, and `completed + active == total` |
| `App.Select` | todo-app/src/app/app.component.ts:32-38 | `filtered` shows only records its filter admits, and the whole list under `all` |
| `App.AppComponent.Filtered` | todo-app/src/app/app.component.ts:32-38 | the getter shows exactly the records the current filter admits, each as often as in the list, in list order, and the list itself under `all` |
| `App.SelectExact` | todo-app/src/app/app.component.ts:32-38 | `active` and `completed` show exactly the admitted records, each as often as in the list, in list order |
| `App.TrackById` | todo-app/src/app/app.component.ts:69-71 | a row is tracked by its record's id |
| `App.AppComponent.constructor` | todo-app/src/app/app.component.ts:17-21 | starts with no records, filter `all` and zero counts |
| `App.AppComponent.NgOnInit` | todo-app/src/app/app.component.ts:23-25 | after initialisation the component mirrors the store |
| `App.AppComponent.Refresh` | todo-app/src/app/app.component.ts:27-30 | afterwards list and counts equal the store's, the filter is unchanged, and the size of `filtered` is the shown active, completed or total count for the current filter |
| `App.AppComponent.OnAdd` | todo-app/src/app/app.component.ts:40-43 | applies one `add` to the store, saves the new list under the store's key with other keys untouched, then mirrors the store |
| `App.AppComponent.OnToggle` | todo-app/src/app/app.component.ts:45-48 | applies one `toggle` to the store, saved (other keys untouched) when the id is present and storage untouched otherwise, then mirrors the store |
| `App.AppComponent.OnDelete` | todo-app/src/app/app.component.ts:50-53 | applies one `delete` to the store, saves the new list under the store's key with other keys untouched, then mirrors the store |
| `App.AppComponent.OnUpdate` | todo-app/src/app/app.component.ts:55-58 | applies one `update` to the store, saved (other keys untouched) when the id is present and storage untouched otherwise, then mirrors the store |
| `App.AppComponent.OnClearCompleted` | todo-app/src/app/app.component.ts:60-63 | applies one `clearCompleted`, saves the new list under the store's key with other keys untouched, then mirrors the store with a completed count of 0 |
| `App.AppComponent.SetFilter` | todo-app/src/app/app.component.ts:65-67 | changes the filter and nothing else |

## Left out

- JSON text and dates: storage holds lists of records directly; `JSON.stringify`,
  `JSON.parse` and the `new Date(...)` conversion on load are not modelled, and
  `createdAt` is an integer time in milliseconds.
- A malformed stored value (which makes `JSON.parse` throw) and a stored empty
  string (which `if (stored)` treats like an absent key) are not representable.
- Storage failures (a full quota, storage being unavailable) are not modelled.
- The clock: `Date.now()` and `new Date()` are two separate readings, passed in
  as the parameters `now` and `createdAt`.
- Titles are sequences of Unicode scalar values, not JavaScript's UTF-16 code
  units, so a lone surrogate cannot be represented. `trim` is unaffected:
  every whitespace code point is in the Basic Multilingual Plane.
- Numbers are unbounded integers; JavaScript's floating-point numbers agree
  with them for the clock values used as ids.
- Shared records: `getAll` returns a shallow copy, so in the program the
  component's list shares record objects with the store and sees an in-place
  `toggle` or `update` even before it refreshes. Records here are values, and
  the component sees changes only through `Refresh`, which every handler calls.
- The input forms (todo-app/src/app/components/add-todo/add-todo.component.ts
  and todo-app/src/app/components/todo-item/todo-item.component.ts) emit only
  non-blank, trimmed titles. The model treats that as a property of the
  callers, not as a precondition of the store.
- Template rendering, event emitters and the filter buttons are not part of
  this model.
- The AI helper routes, their HTTP client and the server
  (todo-app/src/server.ts, todo-app/src/ai.flows.ts,
  todo-app/src/app/services/ai.service.ts) forward requests to an external
  model and are not part of this model.
- Concurrent use from several tabs (last write wins) is not modelled; the model
  is single-threaded.
