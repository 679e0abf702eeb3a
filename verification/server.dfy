/**
 * The Express backend (backend/server.js): the same list of todos as the mock API, held in
 * a module-level array, behind five route handlers that answer with an HTTP status and a
 * JSON body. The cors and JSON middleware and the listening socket are left out.
 */
module Backend {
  import opened Wrappers
  import opened Text
  import opened Todos

  /** What a handler sends back as its JSON body (or no body, for 204). */
  datatype Body =
    | TodoList(todos: seq<Todo>)
    | One(todo: Todo)
    | Error(error: string)
    | NoContent
    | Removed(removed: int)

  datatype Reply = Reply(status: int, body: Body)

  const OK := 200
  const CREATED := 201
  const NO_CONTENT := 204
  const BAD_REQUEST := 400
  const NOT_FOUND := 404

  class Server {
    /** `todos`, newest first. */
    var todos: seq<Todo>

    ghost predicate Valid()
      reads this
    {
      UniqueIds(todos)
    }

    constructor ()
      ensures Valid() && todos == []
    {
      todos := [];
    }

    /** GET /todos: 200 with the list as it is; nothing changes. */
    method GetTodos() returns (reply: Reply)
      ensures reply.status == OK && reply.body == TodoList(todos)
    {
      reply := Reply(OK, TodoList(todos));
    }

    /** POST /todos with body field `title` (None when the body or the field is missing):
        400 and no change exactly when the title is missing or blank; otherwise 201 with a
        new, not completed todo carrying the trimmed title, put in front of the list. */
    method PostTodos(title: Option<string>, freshId: string, now: int) returns (reply: Reply)
      requires Valid() && !HasId(todos, freshId)
      modifies this
      ensures Valid()
      ensures reply.status == BAD_REQUEST <==> Blank(title.GetOr(""))
      ensures reply.status == BAD_REQUEST ==>
                reply.body == Error("title required") && todos == old(todos)
      ensures reply.status != BAD_REQUEST ==>
                var t := Todo(freshId, Trim(title.value), false, now);
                && reply == Reply(CREATED, One(t))
                && todos == [t] + old(todos)
    {
      var trimmed := Trim(title.GetOr(""));
      if trimmed == "" {
        return Reply(BAD_REQUEST, Error("title required"));
      }
      var todo := Todo(freshId, trimmed, false, now);
      PrependKeepsUnique(todo, todos);
      todos := [todo] + todos;
      reply := Reply(CREATED, One(todo));
    }

    /** PUT /todos/:id/toggle: 404 and no change when no entry carries `id`; otherwise only
        `completed` of the first such entry flips and 200 answers with that entry. */
    method PutToggle(id: string) returns (reply: Reply)
      requires Valid()
      modifies this
      ensures Valid()
      ensures reply.status == NOT_FOUND <==> !HasId(old(todos), id)
      ensures reply.status == NOT_FOUND ==> reply.body == Error("not found") && todos == old(todos)
      ensures reply.status != NOT_FOUND ==>
                var i := IndexOf(old(todos), id);
                && todos == old(todos)[i := Toggled(old(todos)[i])]
                && reply == Reply(OK, One(todos[i]))
      ensures todos == ToggleFirst(old(todos), id)
    {
      var idx := IndexOf(todos, id);
      if idx == -1 {
        return Reply(NOT_FOUND, Error("not found"));
      }
      ToggleFirstKeepsIndex(todos, id);
      todos := todos[idx := Toggled(todos[idx])];
      reply := Reply(OK, One(todos[idx]));
    }

    /** DELETE /todos/:id: 404 exactly when no entry carried `id`, and then nothing changes;
        otherwise 204, and no entry with that id remains while the others keep their order. */
    method DeleteTodo(id: string) returns (reply: Reply)
      requires Valid()
      modifies this
      ensures Valid()
      ensures todos == WithoutId(old(todos), id)
      ensures !HasId(todos, id) && SubseqOf(todos, old(todos))
      ensures reply.status == NOT_FOUND <==> !HasId(old(todos), id)
      ensures reply.status == NOT_FOUND ==> reply.body == Error("not found") && todos == old(todos)
      ensures reply.status != NOT_FOUND ==> reply == Reply(NO_CONTENT, NoContent)
    {
      var before := |todos|;
      todos := WithoutId(todos, id);
      if |todos| == before {
        return Reply(NOT_FOUND, Error("not found"));
      }
      reply := Reply(NO_CONTENT, NoContent);
    }

    /** DELETE /todos: exactly the active entries stay, in order, and 200 reports as
        `removed` how many went, which is the number of completed entries there were. */
    method DeleteCompleted() returns (reply: Reply)
      requires Valid()
      modifies this
      ensures Valid()
      ensures todos == Filter(old(todos), IsActive)
      ensures reply == Reply(OK, Removed(|old(todos)| - |todos|))
      ensures reply.body.removed == |Filter(old(todos), IsDone)|
    {
      var before := |todos|;
      FilterKeepsUnique(todos, IsActive);
      SplitByCompletion(todos);
      todos := Filter(todos, IsActive);
      reply := Reply(OK, Removed(before - |todos|));
    }
  }
}
