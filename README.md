# node-todos, modelled in Dafny

node-todos is a small multi-user to-do service. Users register under a
username (`POST /users`). Every `/todos` route then names the caller in a
`username` header, which an identity check resolves against the in-memory
user table before the route's handler runs. The five to-do routes list,
create, update, complete and delete entries of the caller's own ordered
to-do list. All state is the module-level `users` array, and the handlers
change it in place.

The model has four modules:

- `Records` (`records.dfy`): the User and Todo records, JavaScript dates,
  and handler responses as a status plus a JSON body, with the three fixed
  error messages.
- `UserTable` (`users.dfy`): `find` and `some` over the user table, the
  identity check, and the one change a to-do handler makes to the table.
  That change replaces one user's list and leaves every other user as it
  was.
- `TodoList` (`todos.dfy`): `find` and `findIndex` by id over one user's
  list. It also gives the list the update, completion and deletion handlers
  leave behind. Lemmas cover idempotent completion, finding an appended
  to-do, and deletion removing the id.
- `App` (`store.dfy`): a `Store` class whose `users` field is the table.
  It has one method per route. Each method states the response and the
  whole new table, and keeps the store invariant: usernames are unique, and
  to-do ids are unique within each user. `AliceSession` is a client of
  these contracts. It walks through a register, create, list, complete,
  delete session and proves each response.

A username is `Option<string>`, where `None` stands for JavaScript's
`undefined`. The header and the body field can both be missing, and
`undefined === undefined` holds in the source. So a request without a
`username` header resolves to a user who registered without a username.
The model keeps that behaviour as written.

The lookups return positions, not objects. In the source, `find` returns
the stored object itself, and the handlers overwrite its fields in place.
That object sits at the position `findIndex` gives (`TodoList.Find`), so the
in-place write becomes an update of the table at that position.

Foreign inputs are method parameters:

- the uuid of a new user or to-do, as `id`;
- the parsed deadline `new Date(deadline)`, as a `Date` that may be
  `InvalidDate`;
- the clock reading taken by `new Date()`, as `now`.

Fresh to-do ids model the uniqueness of uuids. `CreateTodo` requires that
no stored to-do already has the new id.

## Model

| member | source | states |
|---|---|---|
| `UserTable.FindUser` | src/index.js:22 | the first user whose username equals the header, and none exactly when no user has it |
| `UserTable.UsernameTaken` | src/index.js:40 | true exactly when some stored user has the username, i.e. exactly when the lookup finds one |
| `UserTable.Identify` | src/index.js:19-31 | rejects with 404 "User not found." exactly when no user has the header's username; otherwise resolves to a user with that username |
| `UserTable.IdentifyFindsOwner` | src/index.js:22-28 | with unique usernames, the check resolves to the one user carrying the header's username |
| `UserTable.WithTodos` | src/index.js:28 | replacing the resolved user's list changes that list and nothing else: its id, username and name and all other users are kept |
| `UserTable.WithTodosKeepsIdentities` | src/index.js:22 | a to-do handler's change keeps usernames unique and leaves the user every header resolves to unchanged |
| `UserTable.RegisterKeepsUnique` | src/index.js:40-53 | appending a user whose username is not taken keeps usernames unique, and that username then resolves to the new last entry |
| `TodoList.FindIndex` | src/index.js:128 | the position of the first to-do with the id, and -1 exactly when no to-do has it |
| `TodoList.Find` | src/index.js:91 | `find` yields the to-do at the position `findIndex` gives, and nothing exactly when that is -1 |
| `TodoList.Updated` | src/index.js:91-98 | none exactly when no to-do has the id; otherwise only the first match's title and deadline change, with its id, done and created_at and all other entries kept |
| `TodoList.Completed` | src/index.js:110-116 | none exactly when no to-do has the id; otherwise only the first match's done becomes true, with its other fields and all other entries kept |
| `TodoList.Removed` | src/index.js:128-131 | none exactly when no to-do has the id; otherwise the first match is removed: one entry fewer, the others in their order, and the same multiset apart from the removed entry |
| `TodoList.CompletedIdempotent` | src/index.js:110-117 | completing the same id a second time gives the same list as completing it once |
| `TodoList.AppendedIsFound` | src/index.js:70-78 | a to-do appended under a fresh id is what `find` and `findIndex` return for that id, at the end of the list, and ids stay unique |
| `TodoList.UpdatedKeepsIds` | src/index.js:97-98 | an update keeps ids unique, and the updated to-do is the one found by that id afterwards |
| `TodoList.CompletedKeepsIds` | src/index.js:116 | a completion keeps ids unique, and the completed to-do is the one found by that id afterwards |
| `TodoList.RemovedIsGone` | src/index.js:128-132 | with unique ids, no entry has the id after deletion, and ids stay unique |
| `App.Store.constructor` | src/index.js:10 | the service starts with an empty user table |
| `App.Store.CreateUser` | src/index.js:37-56 | a taken username gives 400 "User already exists." with the table unchanged; otherwise one user with the given username and name and no to-dos is appended and returned with 201; usernames stay unique |
| `App.Store.ListTodos` | src/index.js:61-64 | the identity check's 404, or 200 with the resolved user's to-dos exactly as stored; nothing changes |
| `App.Store.CreateTodo` | src/index.js:66-81 | the identity check's 404 with no change, or one new to-do with done false appended to the resolved user's list only, returned with 201 |
| `App.Store.UpdateTodo` | src/index.js:86-101 | the identity check's 404 or "Todo not found." with no change; otherwise only the resolved user's list changes as `Updated` gives, and the changed to-do is returned with 200 |
| `App.Store.CompleteTodo` | src/index.js:106-119 | the identity check's 404 or "Todo not found." with no change; otherwise only the resolved user's list changes as `Completed` gives, and the changed to-do is returned with 200 |
| `App.Store.DeleteTodo` | src/index.js:124-137 | the identity check's 404 or "Todo not found." with no change; otherwise only the resolved user's list changes as `Removed` gives, answered 204 with no body |
| `App.AliceSession` | src/index.js:37-137 | a session of the handlers from an empty store: 201 then 400 on registering twice, a created to-do listed alone, 200 both times on completing twice, 204 on delete, an empty list after it, and 404 for an unregistered user |

## Left out

- Express routing, `cors()`, `express.json()` body parsing and JSON serialisation of responses are framework plumbing. A route is a method, and its reply is a status code and a body value.
- `uuidv4()` is a foreign call. Ids are parameters. Freshness is required only of to-do ids, because nothing in the source depends on user ids being distinct.
- `new Date(deadline)` and `new Date()` are foreign date parsing and a clock. The parsed `Date` and the clock reading are parameters. How a `Date` is written into the JSON body is not modelled.
- Request bodies are taken as well-typed. `name` and `title` are strings, and a username is a string or `undefined`. The source would also store a JSON number, object or missing `title`/`name` as given. An object username is never `===` to anything, so uniqueness would not hold for such values.
- Concurrent requests are not modelled. The source relies on a single-threaded event loop, and each handler runs to completion without interruption.
- Object identity and aliasing are not modelled. The source answers with the very objects it stores, and the middleware attaches the stored user to `request.user`. The model passes the user's position in the table instead. Each response is serialised before any later request runs, so no behaviour is lost.
