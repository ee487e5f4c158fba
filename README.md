# Todo list component, modelled in Dafny

This project models the state logic of the single React component `App` in
`src/App.jsx`, a todo-list widget. The component has four pieces of state:

- the task list `todos`;
- the text field `input`;
- the view selector `filter`;
- the flag `isAdding`.

Three handlers change that state: `addTodo`, `toggleTodo` and `deleteTodo`.
The text field's and the filter buttons' callbacks set `input` and `filter`.
The visible list `filteredTodos` is derived from `todos` and `filter`.

Files:

- `lists.dfy` (module `Lists`): the `filter` and `map` operations on lists, with counting and subsequence. Their contracts are stated in those terms.
- `text.dfy` (module `Text`): JavaScript's `String.prototype.trim`, with the ECMAScript white-space and line-terminator characters listed one by one.
- `todos.dfy` (module `Todos`): the task record, plus the pure toggle, delete and view transforms and the lemmas about them.
- `app.dfy` (module `TodoApp`): class `App`, with the four state fields and one method per handler. Two ghost fields stand for the outside world: `saved` is the copy in browser storage, and `toasts` is the log of notifications.

Calls to the outside world become parameters or ghost state:

- `Date.now()` is the parameter `now` of `AddTodo`.
- `new Date().toISOString()` is the parameter `timestamp`.
- The value read from storage at mount is the constructor's `Option<seq<Todo>>`. `None` stands for a missing key or an empty string, which the source also treats as "no saved list".
- The `useEffect` that writes the list back after each change is the invariant `Valid()`. It says `saved == todos`, and every method keeps it.
- Each `toast(...)` call appends its title, description and variant to `toasts`.

Ids are not assumed to be unique. `toggleTodo` and `deleteTodo` act on every record whose id matches.

## Model

| member | source | states |
|---|---|---|
| Lists.Select | src/App.jsx:52 | `filter`: the result is a subsequence of the input, every kept element satisfies the predicate, every satisfying element is kept, and exactly as many are kept as satisfy it |
| Lists.MapSeq | src/App.jsx:46-48 | `map`: same length, and element `i` of the result is the callback applied to element `i` of the input |
| Lists.Count | src/App.jsx:59-63 | the number of matching elements never exceeds the length |
| Lists.SelectUnique | src/App.jsx:59-63 | the filter's result is the only subsequence made of matching elements that has as many elements as there are matches |
| Lists.SelectAll | src/App.jsx:62 | when every element matches, the filter returns its input unchanged |
| Lists.CountComplement | src/App.jsx:60-61 | a predicate and its negation together count every element exactly once |
| Lists.CountSame | src/App.jsx:59-63 | predicates that agree on every element count the same number |
| Lists.SubsequenceCountBound | src/App.jsx:59-63 | a subsequence made of matching elements has at most as many elements as there are matches in the whole list |
| Text.SkipBlanksForward | src/App.jsx:23 | the index reached from `i` is the first one that does not hold white space, and every character skipped is white space |
| Text.SkipBlanksBackward | src/App.jsx:23 | moving back from `j`, stopping at `lo` at the latest, every character skipped is white space, and the one before the stopping point is not |
| Text.Trim | src/App.jsx:37 | the result is the slice of the input between the two stopping points; everything outside it is white space, and it neither begins nor ends with white space |
| Text.TrimEmptyIff | src/App.jsx:23 | `input.trim()` is empty exactly when every character of the input is white space, so the empty string and all-blank strings are both rejected |
| Text.TrimUntouched | src/App.jsx:37 | a string with no white space at either end is its own trim |
| Text.TrimIdempotent | src/App.jsx:37 | trimming twice gives the same as trimming once, so a stored text is already trimmed |
| Todos.ToggleById | src/App.jsx:45-49 | same length and order; each record with the id has `completed` flipped and keeps `id`, `text` and `createdAt`; every other record is identical |
| Todos.ToggleInvolution | src/App.jsx:45-49 | toggling the same id twice restores the original list |
| Todos.ToggleAbsent | src/App.jsx:46-48 | toggling an id that no record carries leaves the list unchanged |
| Todos.RemoveById | src/App.jsx:51-52 | the result is a subsequence of the list; no kept record has the id; every record without the id is kept; the length drops by the number of records with the id |
| Todos.DeleteExact | src/App.jsx:52 | the delete result is the only subsequence that avoids the id and has that length, so it is exactly the records whose id differs, in their original order |
| Todos.DeleteAbsent | src/App.jsx:52 | deleting an id that no record carries leaves the list unchanged |
| Todos.View | src/App.jsx:59-63 | `filteredTodos` is a subsequence of `todos`; it holds the records the filter shows and no others |
| Todos.ViewCases | src/App.jsx:59-63 | 'active' gives exactly the open records, 'completed' exactly the finished ones, and any other filter value (including 'all') gives the whole list |
| Todos.ViewPartition | src/App.jsx:59-63 | the 'active' and 'completed' views are both subsequences of `todos`, and their lengths add up to `|todos|` |
| Todos.ViewExample | src/App.jsx:59-63 | on one open record followed by one finished record, 'active' shows the first, 'completed' the second, and 'all' both in order |
| TodoApp.App.constructor | src/App.jsx:9-19 | the list is the saved one when present and empty otherwise; `input` is empty, `filter` is 'all', `isAdding` is false; the saved copy equals the list |
| TodoApp.App.SetInput | src/App.jsx:72 | only `input` changes, and it takes the typed value |
| TodoApp.App.SetFilter | src/App.jsx:92 | only `filter` changes, and it takes the button's value |
| TodoApp.App.AddTodo | src/App.jsx:21-43 | blank input appends the 'Empty Task' warning and changes no state. Otherwise the record `{id: now, text: trim(input), completed: false, createdAt: timestamp}` goes after the earlier records, which are unchanged; `input` becomes empty, `isAdding` false, no notice is raised, and the saved copy follows the list |
| TodoApp.App.ToggleTodo | src/App.jsx:45-49 | the list becomes `ToggleById` of the old list, the other state is unchanged, and the saved copy follows the list |
| TodoApp.App.DeleteTodo | src/App.jsx:51-57 | the list becomes `RemoveById` of the old list, and the 'Task Removed' notice is appended on every call, even when no record matched |
| TodoApp.App.FilteredTodos | src/App.jsx:59-63 | the view of the current state: the open records under 'active', the finished ones under 'completed', all records otherwise |

## Left out

- JSX rendering, CSS and animation classes, the `Button`, `Input`, `Checkbox` and `Toaster` components, and the empty-state message (src/App.jsx:65-136) are presentation only.
- `localStorage` and JSON (src/App.jsx:10-11, 17-19) are browser and library calls. The model keeps only a ghost copy of the list. Malformed saved data is not modelled: with no try/catch, `JSON.parse` would throw, and a parsed value that is not an array of records is not modelled either.
- `toast` is a foreign UI call. It is modelled only as the ghost log `toasts`.
- TodoApp.App.AddTodo: the 200 ms `await` (src/App.jsx:33) is treated as atomic. The model does not show the interval in which `isAdding` is true. It also does not show that, in the source, the closure uses the `todos` and `input` it captured before the delay, so an update made meanwhile would be lost.
- React's batching and re-rendering between setters, and concurrent event interleavings, are not modelled.
- Text.Trim: JavaScript strings are sequences of UTF-16 code units. Here a string is a sequence of Unicode scalar values, and the white-space test is made on those.
- Ids are modelled as unbounded integers. The source's ids are JavaScript numbers from `Date.now()` and are compared with `===`, which works the same way for integer values.
