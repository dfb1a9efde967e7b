/**
 * The todo store: an in-memory list of records, newest first, written through
 * to one key of the browser's local storage after every change.
 */
module TodoStore {
  import opened Wrappers
  import opened Text
  import opened TodoList

  /** Local storage, seen as a map from keys to the lists stored under them.
      The JSON text of a stored value is not part of this model. */
  class Storage {
    var items: map<string, seq<Todo>>

    constructor (items: map<string, seq<Todo>>)
      ensures this.items == items
    {
      this.items := items;
    }
  }

  /** The linear search `find` makes: the position of the first record with `id`. */
  method Find(s: seq<Todo>, id: int) returns (r: Option<nat>)
    ensures r == FirstIndex(s, id)
  {
    var i := 0;
    while i < |s|
      invariant 0 <= i <= |s|
      invariant forall j :: 0 <= j < i ==> s[j].id != id
    {
      if s[i].id == id {
        return Some(i);
      }
      i := i + 1;
    }
    return None;
  }

  class TodoService {
    const storageKey: string := "angular17-todos"
    const storage: Storage
    var todos: seq<Todo>

    /** The stored snapshot is the in-memory list. */
    predicate Persisted()
      reads this, storage
    {
      storageKey in storage.items && storage.items[storageKey] == todos
    }

    /** Starts from the stored list when there is one, and from the empty list otherwise. */
    constructor (storage: Storage)
      ensures this.storage == storage
      ensures todos == if storageKey in storage.items then storage.items[storageKey] else []
      ensures storageKey in storage.items ==> Persisted()
    {
      this.storage := storage;
      todos := [];
      new;
      LoadFromStorage();
    }

    method LoadFromStorage()
      modifies this`todos
      ensures todos == if storageKey in storage.items then storage.items[storageKey] else old(todos)
    {
      if storageKey in storage.items {
        todos := storage.items[storageKey];
      }
    }

    /** Overwrites the store's key with the current list; other keys are kept. */
    method SaveToStorage()
      modifies storage
      ensures storage.items == old(storage.items)[storageKey := todos]
      ensures Persisted()
    {
      storage.items := storage.items[storageKey := todos];
    }

    /** A copy of the list, in the store's order. */
    method GetAll() returns (r: seq<Todo>)
      ensures r == todos
    {
      r := todos;
    }

    /** Puts a new, not completed record with the trimmed title at the head. The
        clock is read twice by the store, once for `id` and once for `createdAt`. */
    method Add(title: string, now: int, createdAt: int) returns (todo: Todo)
      modifies this, storage
      ensures todo == Todo(now, Trim(title), false, createdAt)
      ensures todos == [todo] + old(todos)
      ensures storage.items == old(storage.items)[storageKey := todos]
    {
      todo := Todo(now, Trim(title), false, createdAt);
      todos := [todo] + todos;
      SaveToStorage();
    }

    /** Flips `completed` on the first record with `id`; saves only when there is one. */
    method Toggle(id: int)
      modifies this, storage
      ensures todos == Toggled(old(todos), id)
      ensures Contains(old(todos), id) ==> storage.items == old(storage.items)[storageKey := todos]
      ensures !Contains(old(todos), id) ==> todos == old(todos) && unchanged(storage)
    {
      var k := Find(todos, id);
      if k.Some? {
        var t := todos[k.value];
        todos := todos[k.value := t.(completed := !t.completed)];
        SaveToStorage();
      }
    }

    /** Drops every record with `id` and saves, whether or not one was there. */
    method Delete(id: int)
      modifies this, storage
      ensures todos == WithoutId(old(todos), id)
      ensures !Contains(old(todos), id) ==> todos == old(todos)
      ensures storage.items == old(storage.items)[storageKey := todos]
    {
      todos := WithoutId(todos, id);
      if !Contains(old(todos), id) {
        DeleteAbsent(old(todos), id);
      }
      SaveToStorage();
    }

    /** Gives the first record with `id` the trimmed title; saves only when there
        is one. A title that trims to nothing is written as it is. */
    method Update(id: int, title: string)
      modifies this, storage
      ensures todos == Renamed(old(todos), id, Trim(title))
      ensures Contains(old(todos), id) ==> storage.items == old(storage.items)[storageKey := todos]
      ensures !Contains(old(todos), id) ==> todos == old(todos) && unchanged(storage)
    {
      var k := Find(todos, id);
      if k.Some? {
        var t := todos[k.value];
        todos := todos[k.value := t.(title := Trim(title))];
        SaveToStorage();
      }
    }

    /** Keeps only the records not completed, and saves. */
    method ClearCompleted()
      modifies this, storage
      ensures todos == Keep(old(todos), Pending)
      ensures GetStats().completed == 0 && GetStats().total == GetStats().active
      ensures storage.items == old(storage.items)[storageKey := todos]
    {
      todos := Keep(todos, Pending);
      NoneDoneAfterClear(old(todos));
      SaveToStorage();
    }

    /** Counts of all, completed and still active records. */
    function GetStats(): (st: Stats)
      reads this
      ensures st.total == |todos|
      ensures st.completed == |Keep(todos, Done)|
      ensures st.active == |Keep(todos, Pending)|
      ensures 0 <= st.active && st.completed + st.active == st.total
    {
      var total := |todos|;
      var completed := |Keep(todos, Done)|;
      DonePendingSplit(todos);
      Stats(total, completed, total - completed)
    }
  }
}
