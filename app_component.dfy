/**
 * The root view-controller: it mirrors the store's list and statistics,
 * re-reading both after every user action, and shows the list through a
 * three-way filter.
 */
module App {
  import opened Text
  import opened TodoList
  import opened TodoStore

  datatype Filter = All | Active | Completed

  /** Whether a record is shown under a filter. */
  predicate Shows(f: Filter, t: Todo) {
    match f
    case All => true
    case Active => !t.completed
    case Completed => t.completed
  }

  /** The `filtered` getter, for given records and filter. */
  function Select(s: seq<Todo>, f: Filter): (r: seq<Todo>)
    ensures |r| <= |s|
    ensures forall i :: 0 <= i < |r| ==> Shows(f, r[i])
    ensures f == All ==> r == s
  {
    match f
    case Active => Keep(s, Pending)
    case Completed => Keep(s, Done)
    case All => s
  }

  /** A filter shows exactly the records it admits, each as often as in the
      list, in list order. */
  lemma SelectExact(s: seq<Todo>, f: Filter)
    ensures forall t :: multiset(Select(s, f))[t] == if Shows(f, t) then multiset(s)[t] else 0
    ensures SubsequenceOf(Select(s, f), s)
  {
    match f
    case All => SubsequenceOfSelf(s);
    case Active => KeepCounts(s, Pending); KeepOrder(s, Pending);
    case Completed => KeepCounts(s, Done); KeepOrder(s, Done);
  }

  /** `trackById`: a rendered row is identified by its record's id. */
  function TrackById(index: int, todo: Todo): (r: int)
    ensures r == todo.id
  {
    todo.id
  }

  class AppComponent {
    var todos: seq<Todo>
    var filter: Filter
    var stats: Stats
    const todoService: TodoService

    constructor (todoService: TodoService)
      ensures this.todoService == todoService
      ensures todos == [] && filter == All && stats == Stats(0, 0, 0)
    {
      this.todoService := todoService;
      todos := [];
      filter := All;
      stats := Stats(0, 0, 0);
    }

    /** The view holds the store's list and the store's statistics. */
    predicate Mirrors()
      reads this, todoService
    {
      todos == todoService.todos && stats == todoService.GetStats()
    }

    /** The `filtered` getter: the records the current filter admits, in list order. */
    function Filtered(): (r: seq<Todo>)
      reads this
      ensures forall i :: 0 <= i < |r| ==> Shows(filter, r[i])
      ensures filter == All ==> r == todos
      ensures forall t :: multiset(r)[t] == if Shows(filter, t) then multiset(todos)[t] else 0
      ensures SubsequenceOf(r, todos)
    {
      SelectExact(todos, filter);
      Select(todos, filter)
    }

    method NgOnInit()
      modifies this`todos, this`stats
      ensures Mirrors()
    {
      Refresh();
    }

    /** Re-reads list and statistics; the counts shown then agree with the
        size of the filtered list under each filter. */
    method Refresh()
      modifies this`todos, this`stats
      ensures Mirrors() && filter == old(filter)
      ensures filter == Active ==> |Filtered()| == stats.active
      ensures filter == Completed ==> |Filtered()| == stats.completed
      ensures filter == All ==> |Filtered()| == stats.total
    {
      todos := todoService.GetAll();
      stats := todoService.GetStats();
    }

    method OnAdd(title: string, now: int, createdAt: int)
      modifies this`todos, this`stats, todoService, todoService.storage
      ensures todoService.todos == [Todo(now, Trim(title), false, createdAt)] + old(todoService.todos)
      ensures todoService.storage.items == old(todoService.storage.items)[todoService.storageKey := todoService.todos]
      ensures Mirrors()
    {
      var _ := todoService.Add(title, now, createdAt);
      Refresh();
    }

    method OnToggle(id: int)
      modifies this`todos, this`stats, todoService, todoService.storage
      ensures todoService.todos == Toggled(old(todoService.todos), id)
      ensures Contains(old(todoService.todos), id) ==>
                todoService.storage.items == old(todoService.storage.items)[todoService.storageKey := todoService.todos]
      ensures !Contains(old(todoService.todos), id) ==> unchanged(todoService.storage)
      ensures Mirrors()
    {
      todoService.Toggle(id);
      Refresh();
    }

    method OnDelete(id: int)
      modifies this`todos, this`stats, todoService, todoService.storage
      ensures todoService.todos == WithoutId(old(todoService.todos), id)
      ensures todoService.storage.items == old(todoService.storage.items)[todoService.storageKey := todoService.todos]
      ensures Mirrors()
    {
      todoService.Delete(id);
      Refresh();
    }

    method OnUpdate(id: int, title: string)
      modifies this`todos, this`stats, todoService, todoService.storage
      ensures todoService.todos == Renamed(old(todoService.todos), id, Trim(title))
      ensures Contains(old(todoService.todos), id) ==>
                todoService.storage.items == old(todoService.storage.items)[todoService.storageKey := todoService.todos]
      ensures !Contains(old(todoService.todos), id) ==> unchanged(todoService.storage)
      ensures Mirrors()
    {
      todoService.Update(id, title);
      Refresh();
    }

    method OnClearCompleted()
      modifies this`todos, this`stats, todoService, todoService.storage
      ensures todoService.todos == Keep(old(todoService.todos), Pending)
      ensures todoService.storage.items == old(todoService.storage.items)[todoService.storageKey := todoService.todos]
      ensures Mirrors() && stats.completed == 0
    {
      todoService.ClearCompleted();
      Refresh();
    }

    /** Changes only which records are shown. */
    method SetFilter(f: Filter)
      modifies this`filter
      ensures filter == f && todos == old(todos) && stats == old(stats)
    {
      filter := f;
    }
  }

  /** A scenario: two additions to an empty store show newest first, and
      completing the older one gives one completed and one active record. */
  method WalkThrough(storage: Storage, first: string, second: string, t1: int, t2: int)
    requires "angular17-todos" !in storage.items
    requires t1 != t2
    modifies storage
  {
    var service := new TodoService(storage);
    var a := service.Add(first, t1, t1);
    var b := service.Add(second, t2, t2);
    assert service.todos == [b, a];
    assert b.title == Trim(second) && a.title == Trim(first);
    service.Toggle(t1);
    var list := service.todos;
    assert |list| == 2 && list[1].completed && !list[0].completed;
    assert list[1..] == [list[1]] && list[1..][1..] == [];
    assert Keep(list, Done) == [list[1]];
    assert service.GetStats() == Stats(2, 1, 1);
  }
}
