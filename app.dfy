/** The `App` component of src/App.jsx: its four pieces of state and the
    handlers that replace them. The saved copy in browser storage and the
    toast notifications are ghost fields, the clock readings parameters. */
module TodoApp {
  import opened Lists
  import opened Text
  import opened Todos

  datatype Option<T> = None | Some(value: T)

  datatype Variant = Default | Destructive

  /** A notification handed to `toast`. */
  datatype Toast = Toast(title: string, description: string, variant: Variant)

  /** The warning `addTodo` raises for blank input. */
  const EmptyTaskToast := Toast("Empty Task", "Please enter a task before adding", Destructive)

  /** The notice `deleteTodo` raises on every call. */
  const TaskRemovedToast := Toast("Task Removed", "Todo item has been deleted", Default)

  class App {
    var todos: seq<Todo>
    var input: string
    var filter: string
    var isAdding: bool

    /** The list as last written under the storage key 'todos'. */
    ghost var saved: seq<Todo>
    /** Every notification raised so far, oldest first. */
    ghost var toasts: seq<Toast>

    /** The persistence effect has run after the last change of `todos`. */
    ghost predicate Valid()
      reads this
    {
      saved == todos
    }

    /** Mounting: the list comes from storage when something non-empty is
        saved there (`None` stands for a missing key or an empty string),
        the other state takes its initial values, and the effect writes
        the list back once. */
    constructor (stored: Option<seq<Todo>>)
      ensures Valid()
      ensures todos == (if stored.Some? then stored.value else [])
      ensures input == [] && filter == "all" && !isAdding
      ensures toasts == []
    {
      todos := if stored.Some? then stored.value else [];
      input := "";
      filter := "all";
      isAdding := false;
      saved := todos;
      toasts := [];
    }

    /** The text field's `onChange`. */
    method SetInput(value: string)
      requires Valid()
      modifies this
      ensures Valid()
      ensures input == value
      ensures todos == old(todos) && filter == old(filter) && isAdding == old(isAdding)
      ensures saved == old(saved) && toasts == old(toasts)
    {
      input := value;
    }

    /** A filter button's `onClick`; any value is stored as given. */
    method SetFilter(f: string)
      requires Valid()
      modifies this
      ensures Valid()
      ensures filter == f
      ensures todos == old(todos) && input == old(input) && isAdding == old(isAdding)
      ensures saved == old(saved) && toasts == old(toasts)
    {
      filter := f;
    }

    /** `addTodo`, taken as one step: blank input raises the warning and
        changes nothing else; otherwise one record with the trimmed text is
        appended after the existing ones and the form is reset. `now` and
        `timestamp` are the readings of `Date.now()` and
        `new Date().toISOString()`. */
    method AddTodo(now: int, timestamp: string)
      requires Valid()
      modifies this
      ensures Valid()
      ensures filter == old(filter)
      ensures Trim(old(input)) == [] ==>
                && todos == old(todos) && input == old(input) && isAdding == old(isAdding)
                && toasts == old(toasts) + [EmptyTaskToast]
      ensures Trim(old(input)) != [] ==>
                && todos == old(todos) + [Todo(now, Trim(old(input)), false, timestamp)]
                && input == [] && !isAdding
                && toasts == old(toasts)
    {
      if Trim(input) == [] {
        toasts := toasts + [EmptyTaskToast];
        return;
      }
      isAdding := true;
      todos := todos + [Todo(now, Trim(input), false, timestamp)];
      saved := todos;
      input := "";
      isAdding := false;
    }

    /** `toggleTodo(id)`: every record carrying `id` has its `completed`
        flag flipped, nothing else changes. */
    method ToggleTodo(id: int)
      requires Valid()
      modifies this
      ensures Valid()
      ensures todos == ToggleById(old(todos), id)
      ensures input == old(input) && filter == old(filter) && isAdding == old(isAdding)
      ensures toasts == old(toasts)
    {
      todos := ToggleById(todos, id);
      saved := todos;
    }

    /** `deleteTodo(id)`: every record carrying `id` is dropped, and the
        removal notice is raised whether or not one was. */
    method DeleteTodo(id: int)
      requires Valid()
      modifies this
      ensures Valid()
      ensures todos == RemoveById(old(todos), id)
      ensures toasts == old(toasts) + [TaskRemovedToast]
      ensures input == old(input) && filter == old(filter) && isAdding == old(isAdding)
    {
      todos := RemoveById(todos, id);
      saved := todos;
      toasts := toasts + [TaskRemovedToast];
    }

    /** `filteredTodos`, recomputed from the current state. */
    function FilteredTodos(): (r: seq<Todo>)
      reads this
      ensures filter == "active" ==> r == Select(todos, IsActive)
      ensures filter == "completed" ==> r == Select(todos, IsCompleted)
      ensures filter != "active" && filter != "completed" ==> r == todos
    {
      ViewCases(todos, filter);
      View(todos, filter)
    }
  }
}
