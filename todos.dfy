/** The task record of src/App.jsx and the pure list transforms its handlers
    and its derived view are built from. */
module Todos {
  import opened Lists

  /** One task: `id` from `Date.now()` at creation (not assumed unique),
      `createdAt` from `new Date().toISOString()`. */
  datatype Todo = Todo(id: int, text: string, completed: bool, createdAt: string)

  /** The record with its `completed` flag flipped, `{ ...todo, completed: !todo.completed }`. */
  function Flipped(t: Todo): Todo {
    t.(completed := !t.completed)
  }

  /** The callback `toggleTodo` maps over the list. */
  function ToggleIfMatch(t: Todo, id: int): Todo {
    if t.id == id then Flipped(t) else t
  }

  /** The list `toggleTodo(id)` stores: same length and order; each record
      whose id matches has only its `completed` flag flipped; every other
      record is identical. */
  function ToggleById(todos: seq<Todo>, id: int): (r: seq<Todo>)
    ensures |r| == |todos|
    ensures forall i :: 0 <= i < |todos| ==>
              && r[i].id == todos[i].id
              && r[i].text == todos[i].text
              && r[i].createdAt == todos[i].createdAt
              && r[i].completed == (todos[i].completed != (todos[i].id == id))
    ensures forall i :: 0 <= i < |todos| && todos[i].id != id ==> r[i] == todos[i]
  {
    MapSeq(todos, (t: Todo) => ToggleIfMatch(t, id))
  }

  /** The filter callback of `deleteTodo`, `todo => todo.id !== id`. */
  function Keeps(id: int): Todo -> bool {
    (t: Todo) => t.id != id
  }

  /** Its complement: the records `deleteTodo(id)` drops. */
  function Matches(id: int): Todo -> bool {
    (t: Todo) => t.id == id
  }

  /** The list `deleteTodo(id)` stores: the records whose id differs, in order. */
  function RemoveById(todos: seq<Todo>, id: int): (r: seq<Todo>)
    ensures IsSubsequence(r, todos)
    ensures forall i :: 0 <= i < |r| ==> r[i].id != id
    ensures forall i :: 0 <= i < |todos| && todos[i].id != id ==> todos[i] in r
    ensures |r| == |todos| - Count(todos, Matches(id))
  {
    CountComplement(todos, Matches(id), Keeps(id));
    Select(todos, Keeps(id))
  }

  /** The predicate of `filteredTodos`: 'active' shows open tasks,
      'completed' shows finished ones, any other filter value shows all. */
  predicate Shown(filter: string, t: Todo) {
    if filter == "active" then !t.completed
    else if filter == "completed" then t.completed
    else true
  }

  /** `Shown` as the callback handed to `filter`. */
  function ShownBy(filter: string): Todo -> bool {
    (t: Todo) => Shown(filter, t)
  }

  predicate IsActive(t: Todo) { !t.completed }

  predicate IsCompleted(t: Todo) { t.completed }

  /** `filteredTodos`: the records shown under `filter`, in list order. */
  function View(todos: seq<Todo>, filter: string): (r: seq<Todo>)
    ensures IsSubsequence(r, todos)
    ensures forall i :: 0 <= i < |r| ==> r[i] in todos && Shown(filter, r[i])
    ensures forall i :: 0 <= i < |todos| && Shown(filter, todos[i]) ==> todos[i] in r
  {
    Select(todos, ShownBy(filter))
  }

  /** Toggling the same id twice restores the list. */
  lemma ToggleInvolution(todos: seq<Todo>, id: int)
    ensures ToggleById(ToggleById(todos, id), id) == todos
  {
  }

  /** Toggling an id no record carries changes nothing. */
  lemma ToggleAbsent(todos: seq<Todo>, id: int)
    requires forall i :: 0 <= i < |todos| ==> todos[i].id != id
    ensures ToggleById(todos, id) == todos
  {
  }

  /** Deleting an id no record carries changes nothing. */
  lemma DeleteAbsent(todos: seq<Todo>, id: int)
    requires forall i :: 0 <= i < |todos| ==> todos[i].id != id
    ensures RemoveById(todos, id) == todos
  {
    SelectAll(todos, Keeps(id));
  }

  /** Deleting is exactly the filter on differing ids: any subsequence of
      the list that avoids `id` and keeps as many records as `RemoveById`
      is `RemoveById`'s result. */
  lemma DeleteExact(todos: seq<Todo>, id: int, r: seq<Todo>)
    requires IsSubsequence(r, todos)
    requires forall i :: 0 <= i < |r| ==> r[i].id != id
    requires |r| == |RemoveById(todos, id)|
    ensures r == RemoveById(todos, id)
  {
    SelectUnique(r, todos, Keeps(id));
  }

  /** The 'active' view is exactly the open records, the 'completed' view
      exactly the finished ones, and every other filter value (among them
      'all') shows the whole list. */
  lemma ViewCases(todos: seq<Todo>, filter: string)
    ensures filter == "active" ==> View(todos, filter) == Select(todos, IsActive)
    ensures filter == "completed" ==> View(todos, filter) == Select(todos, IsCompleted)
    ensures filter != "active" && filter != "completed" ==> View(todos, filter) == todos
  {
    var r := View(todos, filter);
    if filter == "active" {
      CountSame(todos, ShownBy(filter), IsActive);
      SelectUnique(r, todos, IsActive);
    } else if filter == "completed" {
      CountSame(todos, ShownBy(filter), IsCompleted);
      SelectUnique(r, todos, IsCompleted);
    } else {
      SelectAll(todos, ShownBy(filter));
    }
  }

  /** The 'active' and 'completed' views split the list: each is a
      subsequence of it and together they hold every record once. */
  lemma ViewPartition(todos: seq<Todo>)
    ensures IsSubsequence(View(todos, "active"), todos)
    ensures IsSubsequence(View(todos, "completed"), todos)
    ensures |View(todos, "active")| + |View(todos, "completed")| == |todos|
  {
    ViewCases(todos, "active");
    ViewCases(todos, "completed");
    CountComplement(todos, IsActive, IsCompleted);
  }

  /** A two-record list, one open and one finished: each view picks its own
      record and 'all' keeps both in order. */
  lemma ViewExample(a: Todo, b: Todo)
    requires !a.completed && b.completed
    ensures View([a, b], "active") == [a]
    ensures View([a, b], "completed") == [b]
    ensures View([a, b], "all") == [a, b]
  {
  }
}
