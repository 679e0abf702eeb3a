/**
 * The mock API layer of the client (app/src/api.ts): a module-level array of todos that
 * the five exported operations read, prepend to, update in place and reassign by
 * filtering. The artificial delays and the structured clones are left out; every
 * operation is atomic and hands out values, never references into the store.
 */
module MockApi {
  import opened Wrappers
  import opened Text
  import opened Todos

  class MemoryStore {
    /** `memoryTodos`, newest first. */
    var todos: seq<Todo>

    /** Every id the store hands out is fresh, so ids stay unique. */
    ghost predicate Valid()
      reads this
    {
      UniqueIds(todos)
    }

    constructor ()
      ensures Valid() && todos == []
    {
      todos := [];
    }

    /** listTodos: the current contents, unchanged (the method changes nothing). */
    method ListTodos() returns (r: seq<Todo>)
      ensures r == todos
    {
      r := todos;
    }

    /** createTodo: one new, not completed todo with the trimmed title goes in front of
        all previous entries. `freshId` and `now` stand for crypto.randomUUID() and
        Date.now(). */
    method CreateTodo(title: string, freshId: string, now: int) returns (created: Todo)
      requires Valid() && !HasId(todos, freshId)
      modifies this
      ensures Valid()
      ensures created == Todo(freshId, Trim(title), false, now)
      ensures todos == [created] + old(todos)
      ensures todos[0] == created && todos[1..] == old(todos)
    {
      created := Todo(freshId, Trim(title), false, now);
      PrependKeepsUnique(created, todos);
      todos := [created] + todos;
    }

    /** toggleTodo: None (undefined) and no change when no entry carries `id`; otherwise
        the first such entry has its `completed` flipped, nothing else changes, and the
        updated entry is returned. */
    method ToggleTodo(id: string) returns (r: Option<Todo>)
      requires Valid()
      modifies this
      ensures Valid()
      ensures r.None? <==> !HasId(old(todos), id)
      ensures r.None? ==> todos == old(todos)
      ensures r.Some? ==> var i := IndexOf(old(todos), id);
                          && todos == old(todos)[i := Toggled(old(todos)[i])]
                          && r.value == todos[i]
      ensures todos == ToggleFirst(old(todos), id)
    {
      var idx := IndexOf(todos, id);
      if idx == -1 {
        return None;
      }
      ToggleFirstKeepsIndex(todos, id);
      todos := todos[idx := Toggled(todos[idx])];
      r := Some(todos[idx]);
    }

    /** removeTodo: afterwards no entry carries `id`, the others are kept in order, and the
        answer is whether the list got shorter, that is whether some entry carried `id`. */
    method RemoveTodo(id: string) returns (removed: bool)
      requires Valid()
      modifies this
      ensures Valid()
      ensures todos == WithoutId(old(todos), id)
      ensures !HasId(todos, id) && SubseqOf(todos, old(todos))
      ensures removed <==> HasId(old(todos), id)
      ensures !removed ==> todos == old(todos)
    {
      var before := |todos|;
      todos := WithoutId(todos, id);
      removed := |todos| < before;
    }

    /** clearCompleted: exactly the active entries stay, in order, and the answer is how
        many entries went, which is the number of completed entries there were. */
    method ClearCompleted() returns (count: int)
      requires Valid()
      modifies this
      ensures Valid()
      ensures todos == Filter(old(todos), IsActive)
      ensures count == |old(todos)| - |todos|
      ensures count == |Filter(old(todos), IsDone)|
    {
      var before := |todos|;
      FilterKeepsUnique(todos, IsActive);
      SplitByCompletion(todos);
      todos := Filter(todos, IsActive);
      count := before - |todos|;
    }
  }
}
