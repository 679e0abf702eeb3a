# To-do list back ends and client state, in Dafny

A model of the list management at the heart of a small to-do application. Four parts
hold the same list of `{id, title | text, completed, createdAt}` records:

- the client's **mock API** (`app/src/api.ts`): a module-level array with list, create,
  toggle, remove and clear-completed (`MockApi.MemoryStore`);
- the **Express backend** (`backend/server.js`): the same array behind five HTTP route
  handlers that answer with 200, 201, 204, 400 or 404 (`Backend.Server`);
- the **client screen** (`app/src/modules/App.tsx`): the filtered view, the "items left"
  count and the handlers that call the mock API and update the local list only once the
  call has succeeded (`Client`);
- the **Lambda handler** (`infra/lambda/index.js`): routing on method and path to a
  DynamoDB table, here a map from id to item (`Lambda`).

Shared pieces: `Text.Trim` is JavaScript's `String.prototype.trim` with the ECMAScript
whitespace set; `Todos` holds the record and the array operations the sources use
(`filter`, `findIndex`, `map`, the toggle of one entry), each with its properties.

Ids and timestamps (`crypto.randomUUID`, `Date.now`, `new Date().toISOString()`) are
parameters of the operations that create a todo. The mock API and the Express backend
require the new id to be unused, which keeps their ids unique. The Lambda needs no such
requirement: a DynamoDB put under an existing key replaces that item, and the model does
the same with a map update. So two POSTs in the same millisecond would overwrite each
other there.

The three back ends differ in ways the contracts make visible:
- The Lambda does not trim `text`: a blank but non-empty text is stored (201), while the
  Express backend answers 400 for a blank title.
- The Lambda takes `completed` from the request body; the other two always start with
  `false`.
- The Lambda answers 200 to a DELETE whether or not the item existed; Express answers 404.
- The Lambda has no bulk `DELETE /todos`: that request is unrouted (400).

The client and the mock API stay in step. `Client.App.Synced` says that the client's list
equals the store's list and that the store's ids are unique. Every handler of
`Client.App` keeps `Synced`, and loading from a store that is valid establishes it. A
toggle needs `Todos.ReplaceByIdIsToggleFirst` for this: the client replaces every entry
with the id, while the store toggles only the first one.

## Model

| member | source | states |
|---|---|---|
| `Text.Trim` | backend/server.js:16 | trim's result is empty exactly when the input is blank; otherwise it neither starts nor ends with whitespace, and it is one slice of the input with only whitespace on either side |
| `Text.TrimIdempotent` | app/src/modules/App.tsx:40-42 | trimming an already trimmed title changes nothing, so the client's trim followed by the API's trim gives the once-trimmed title |
| `Todos.Filter` | app/src/api.ts:38 | `filter` keeps exactly the elements satisfying the predicate, in their order (a subsequence), never lengthens the list, and keeps the length exactly when every element satisfies it, in which case the list is unchanged |
| `Todos.FilterCounts` | app/src/api.ts:38 | `filter` drops no copy of a kept element: each element satisfying the predicate occurs in the result as often as in the list, every other element not at all |
| `Todos.FilterKeepsUnique` | app/src/api.ts:45 | filtering a list with unique ids leaves the ids unique |
| `Todos.WithoutId` | app/src/api.ts:38 | filtering out an id leaves no entry with that id, keeps every other entry in order and as often as it occurred, shortens the list exactly when some entry had the id, and keeps ids unique |
| `Todos.IndexOf` | app/src/api.ts:29 | `findIndex` gives -1 exactly when no entry has the id, and otherwise the first index whose entry has it |
| `Todos.Toggled` | app/src/api.ts:31 | the spread update keeps id, title and createdAt, negates completed, and undoing it gives the todo back |
| `Todos.ToggleFirst` | app/src/api.ts:29-31 | toggling by id keeps the length and every id in place, changes no entry but the first one with the id, and toggles that one |
| `Todos.ToggleFirstKeepsIndex` | app/src/api.ts:29-31 | after a toggle the first entry with the id is still at the same index, and unique ids stay unique |
| `Todos.ToggleFirstTwice` | app/src/api.ts:31 | toggling the same id twice restores the list, whether or not the id is present |
| `Todos.ReplaceById` | app/src/modules/App.tsx:49 | the `map` keeps the length, replaces every entry with the id by the given todo and keeps every other entry where it is |
| `Todos.ReplaceByIdIsToggleFirst` | app/src/modules/App.tsx:47-49 | with unique ids, replacing by id with the toggled entry gives exactly the list the store holds after its own toggle |
| `Todos.PrependKeepsUnique` | app/src/api.ts:22-23 | putting a todo with an unused id in front of a list with unique ids keeps the ids unique |
| `Todos.SplitByCompletion` | app/src/modules/App.tsx:31-33 | the active and the completed entries together make up the whole list as a multiset, so their counts add up to its length, and no entry is in both |
| `MockApi.MemoryStore.constructor` | app/src/api.ts:13 | the store starts empty |
| `MockApi.MemoryStore.ListTodos` | app/src/api.ts:15-18 | listTodos returns the current contents and changes nothing |
| `MockApi.MemoryStore.CreateTodo` | app/src/api.ts:20-25 | createTodo puts one todo with the fresh id, the trimmed title, completed false and the given time in front of all previous entries, which keep their order, and returns it |
| `MockApi.MemoryStore.ToggleTodo` | app/src/api.ts:27-33 | toggleTodo returns None and changes nothing exactly when no entry has the id; otherwise it flips completed of the first match only and returns the updated entry |
| `MockApi.MemoryStore.RemoveTodo` | app/src/api.ts:35-40 | removeTodo leaves no entry with the id, keeps the others in order, and returns true exactly when some entry had the id; on false nothing changed |
| `MockApi.MemoryStore.ClearCompleted` | app/src/api.ts:42-47 | clearCompleted keeps exactly the active entries in order and returns the number removed, which equals the number of completed entries |
| `Backend.Server.constructor` | backend/server.js:8 | the store starts empty |
| `Backend.Server.GetTodos` | backend/server.js:10-12 | GET /todos answers 200 with the list as it is and changes nothing |
| `Backend.Server.PostTodos` | backend/server.js:14-21 | POST /todos answers 400 and changes nothing exactly when the title is missing or blank; otherwise 201 with a new todo carrying the trimmed title and completed false, put in front of the list |
| `Backend.Server.PutToggle` | backend/server.js:23-29 | PUT /todos/:id/toggle answers 404 and changes nothing exactly when no entry has the id; otherwise it flips completed of the first match only and answers 200 with it |
| `Backend.Server.DeleteTodo` | backend/server.js:31-37 | DELETE /todos/:id answers 404 exactly when no entry had the id, and then nothing changed; otherwise 204; afterwards no entry has the id and the others keep their order |
| `Backend.Server.DeleteCompleted` | backend/server.js:39-43 | DELETE /todos keeps exactly the active entries in order and reports removed = before - after, the number of completed entries |
| `Client.Visible` | app/src/modules/App.tsx:28-37 | the all view is the whole list; the active and completed views hold exactly the entries with completed false, respectively true, in list order |
| `Client.ItemsLeft` | app/src/modules/App.tsx:70 | items left is the length of the active view and, with the completed view's length, adds up to the list's length |
| `Client.App.constructor` | app/src/modules/App.tsx:15-17 | the screen starts with no todos, the all filter and loading on |
| `Client.App.Load` | app/src/modules/App.tsx:19-26 | after the load effect loading is off whether the request succeeded or failed; on failure the list is unchanged (empty after the first render), on success it is the store's list |
| `Client.App.SetFilter` | app/src/modules/App.tsx:67 | choosing a filter changes the filter only |
| `Client.App.AddTodo` | app/src/modules/App.tsx:39-44 | a blank title calls nothing and changes nothing; otherwise the store and the client both gain the same new todo, with the trimmed title, in front |
| `Client.App.ToggleTodo` | app/src/modules/App.tsx:46-50 | when the store finds no such id the client list is unchanged; otherwise every local entry with the id is replaced by the store's updated entry; client and store stay in step |
| `Client.App.RemoveTodo` | app/src/modules/App.tsx:52-56 | the local list changes only when the store reports a removal, and then loses exactly the entries with the id; client and store stay in step |
| `Client.App.ClearCompleted` | app/src/modules/App.tsx:58-61 | after the store clears, the client keeps exactly its active entries in order; client and store stay in step |
| `Lambda.MatchToggle` | infra/lambda/index.js:73 | a match of the toggle pattern yields a non-empty, slash-free id, and the path is `/todos/` + id + `/toggle` |
| `Lambda.MatchToggleComplete` | infra/lambda/index.js:73 | every path of that form matches and yields its id back |
| `Lambda.MatchItem` | infra/lambda/index.js:116 | a match of the item pattern yields a non-empty, slash-free id, and the path is `/todos/` + id |
| `Lambda.MatchItemComplete` | infra/lambda/index.js:116 | every path of that form matches and yields its id back |
| `Lambda.RouteOf` | infra/lambda/index.js:20-28 | OPTIONS goes to the preflight for any path; GET and POST on `/todos` go to list and create, and nothing else does; toggle and delete are reached only by PUT, respectively DELETE, on a path of their form |
| `Lambda.RouteOfItemPaths` | infra/lambda/index.js:73-74 | PUT on a toggle path and DELETE on an item path always reach their handler with the id from the path |
| `Lambda.CollectionOtherMethodsUnrouted` | infra/lambda/index.js:136-140 | `/todos` with any method other than OPTIONS, GET and POST, DELETE included, gets the 400 fallback |
| `Lambda.ItemPathIsNoTogglePath` | infra/lambda/index.js:73 | an item path never matches the toggle pattern, so PUT `/todos/{id}` gets the 400 fallback |
| `Lambda.SplitAtSlash` | infra/lambda/index.js:73 | cutting a string at its first slash is unique, which is why the captured id of `[^/]+` is determined by the path |
| `Lambda.NestedPathUnrouted` | infra/lambda/index.js:116 | `/todos/a/b` gets the 400 fallback for every method but OPTIONS, except PUT with b = `toggle` |
| `Lambda.NewItem` | infra/lambda/index.js:51-58 | a created item has the new id, the body's text unchanged, the given time, and completed true exactly when the body says `completed: true` |
| `Lambda.Table.Scan` | infra/lambda/index.js:31 | a scan returns every stored item exactly once (as many items as keys, each as stored) |
| `Lambda.Table.Handle` | infra/lambda/index.js:12-140 | OPTIONS: 200, empty body, no table access; GET /todos: 200 with the scan, no change; POST /todos: 500 for a body that is unparsable or `null`, 400 "Missing text" with no write when the text is missing or empty (blank text is accepted), else 201 and the item is stored; toggle: 404 with no write when the item is absent, else 200 and only its completed is negated; delete: always 200 with the id, and afterwards the id is absent; anything else: 400 with no table access |

## Left out

- Artificial latency (`delay`, `setTimeout`) and promise scheduling: every operation runs
  to completion before the next one starts. The client's state updaters are applied to
  the list the handler started from.
- `structuredClone`, `JSON.stringify` and response headers: values are copied, bodies are
  datatypes, and the CORS header set is the constant `Cors` (or `JsonCors` with the JSON
  content type).
- The Express and cors middleware, `app.listen`, environment variables (`PORT`,
  `TABLE_NAME`) and `console` logging.
- `Backend.Server.PostTodos`: the title is a string or missing. A falsy non-string title
  (`false`, `0`, `null`) is read as `''` and gets the 400 answer, which the model covers
  as a missing title. A truthy non-string title makes `trim` throw, and Express then
  answers 500; that case is not modelled.
- `Lambda.Table.Handle`: `text` and `completed` are a string and a boolean when present.
  A non-string truthy `text` or a non-boolean truthy `completed` would be stored as is
  by the source.
- `Lambda.Table.Handle`: the catch-all 500 is modelled only for a body that `JSON.parse`
  rejects or that parses to `null` (reading `text` from it throws); both are `Malformed`.
  Failures of the DynamoDB calls themselves are not modelled, and neither is
  the error message text in the 500 body.
- `Lambda.Table.Scan` and the GET clause of `Lambda.Table.Handle`: one `scan` call
  returns at most one page of items. The source makes one call and ignores
  `LastEvaluatedKey`, so a table larger than a page lists only part of it. The map model
  has no pages, and its scan returns every item.
- `Lambda.Table.Handle`: the get and the update of a toggle are one atomic step. A
  concurrent change between them is not modelled.
- `Client.App.Load`: the outcome of the list request is a parameter. The mock API never
  rejects, and the real request's failure modes are outside the model.
- `Client.App.AddTodo`, `Client.App.ToggleTodo`, `Client.App.RemoveTodo` and
  `Client.App.ClearCompleted`: a rejected API call leaves the handler with an unhandled
  rejection and no state change. The mock API never rejects, so this path is not
  modelled.
- Rendering (`TodoList.tsx`, `Filters.tsx`, `NewTodo.tsx`, the JSX of `App.tsx`).
  NewTodo's own blank-title guard repeats `App.tsx`'s and is covered there.
- The uniqueness of `crypto.randomUUID()` is a precondition (the id is unused), not
  something proved. For the Lambda, `Date.now()` ids may collide, and a collision
  replaces the older item.
- Optimistic updates with rollback: no handler of `App.tsx` does this.
