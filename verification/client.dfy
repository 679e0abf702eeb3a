/**
 * The client screen (app/src/modules/App.tsx): the list as the client holds it, the chosen
 * filter and the loading flag, the views derived from them, and the handlers that call
 * the mock API and apply its answer to the local list only once it has succeeded.
 * React's scheduling is left out: each handler runs to completion before the next starts,
 * so every `setTodos(prev => ...)` sees the list the handler started from.
 */
module Client {
  import opened Text
  import opened Todos
  import opened MockApi

  /** The `Filter` of the filter buttons: which entries the list shows. */
  datatype View = All | Active | Completed

  /** Whether an entry belongs to a view. */
  predicate Shows(v: View, t: Todo)
  {
    match v
    case All => true
    case Active => !t.completed
    case Completed => t.completed
  }

  /** `visible`: the entries of `s` that the view shows, in the order of `s`; the whole
      list for All. */
  function Visible(s: seq<Todo>, v: View): (r: seq<Todo>)
    ensures forall t :: t in r <==> t in s && Shows(v, t)
    ensures SubseqOf(r, s)
    ensures v == All ==> r == s
  {
    match v
    case Active => Filter(s, IsActive)
    case Completed => Filter(s, IsDone)
    case All => SubseqOfSelf(s); s
  }

  /** The footer's "items left": the length of the Active view, which is the number of
      entries that are not in the Completed view. */
  function ItemsLeft(s: seq<Todo>): (n: nat)
    ensures n == |Visible(s, Active)|
    ensures n + |Visible(s, Completed)| == |s|
  {
    SplitByCompletion(s);
    |Filter(s, IsActive)|
  }

  class App {
    /** The mock API module the handlers call. */
    const store: MemoryStore
    var todos: seq<Todo>
    var filter: View
    var loading: bool

    /** The client shows exactly what the store holds, and the store's ids are unique. */
    ghost predicate Synced()
      reads this, store
    {
      todos == store.todos && store.Valid()
    }

    /** The first render: no todos, all shown, loading. */
    constructor (store: MemoryStore)
      ensures this.store == store
      ensures todos == [] && filter == All && loading
    {
      this.store := store;
      todos := [];
      filter := All;
      loading := true;
    }

    /** The load effect: listTodos, then the list it returns, or nothing when the request
        fails; either way loading ends. `fails` stands for a rejected request. */
    method Load(fails: bool)
      modifies this
      ensures !loading && filter == old(filter)
      ensures fails ==> todos == old(todos)
      ensures !fails ==> todos == store.todos
      ensures !fails && store.Valid() ==> Synced()
    {
      if !fails {
        var data := store.ListTodos();
        todos := data;
      }
      loading := false;
    }

    /** A click on a filter button. */
    method SetFilter(v: View)
      modifies this
      ensures filter == v
      ensures todos == old(todos) && loading == old(loading)
    {
      filter := v;
    }

    /** addTodo: a blank title calls nothing and changes nothing; otherwise the store
        creates the todo with the trimmed title and the client puts the same todo in
        front of its list. */
    method AddTodo(title: string, freshId: string, now: int)
      requires store.Valid() && !HasId(store.todos, freshId)
      modifies this, store
      ensures store.Valid()
      ensures filter == old(filter) && loading == old(loading)
      ensures Blank(title) ==> todos == old(todos) && store.todos == old(store.todos)
      ensures !Blank(title) ==>
                var created := Todo(freshId, Trim(title), false, now);
                && store.todos == [created] + old(store.todos)
                && todos == [created] + old(todos)
      ensures old(Synced()) ==> Synced()
    {
      var trimmed := Trim(title);
      if trimmed == "" {
        return;
      }
      TrimIdempotent(title);
      var created := store.CreateTodo(trimmed, freshId, now);
      todos := [created] + todos;
    }

    /** toggleTodo: when the store finds no such id the client list stays as it is;
        otherwise every local entry with that id is replaced by the store's updated entry. */
    method ToggleTodo(id: string)
      requires store.Valid()
      modifies this, store
      ensures store.Valid()
      ensures store.todos == ToggleFirst(old(store.todos), id)
      ensures filter == old(filter) && loading == old(loading)
      ensures !HasId(old(store.todos), id) ==> todos == old(todos)
      ensures HasId(old(store.todos), id) ==>
                var i := IndexOf(old(store.todos), id);
                todos == ReplaceById(old(todos), id, Toggled(old(store.todos)[i]))
      ensures old(Synced()) ==> Synced()
    {
      ghost var before := store.todos;
      ghost var wasSynced := Synced();
      var updated := store.ToggleTodo(id);
      if updated.None? {
        return;
      }
      todos := ReplaceById(todos, id, updated.value);
      if wasSynced {
        ReplaceByIdIsToggleFirst(before, id);
      }
    }

    /** removeTodo: the local list changes only when the store reports a removal, and then
        loses exactly the entries with that id. */
    method RemoveTodo(id: string)
      requires store.Valid()
      modifies this, store
      ensures store.Valid()
      ensures store.todos == WithoutId(old(store.todos), id)
      ensures filter == old(filter) && loading == old(loading)
      ensures !HasId(old(store.todos), id) ==> todos == old(todos)
      ensures HasId(old(store.todos), id) ==> todos == WithoutId(old(todos), id)
      ensures old(Synced()) ==> Synced()
    {
      var ok := store.RemoveTodo(id);
      if !ok {
        return;
      }
      todos := WithoutId(todos, id);
    }

    /** clearCompleted: after the store has cleared, the client keeps exactly its active
        entries, in order. */
    method ClearCompleted()
      requires store.Valid()
      modifies this, store
      ensures store.Valid()
      ensures store.todos == Filter(old(store.todos), IsActive)
      ensures todos == Filter(old(todos), IsActive)
      ensures filter == old(filter) && loading == old(loading)
      ensures old(Synced()) ==> Synced()
    {
      var _ := store.ClearCompleted();
      todos := Filter(todos, IsActive);
    }
  }
}
