/** The service's request handlers over its one piece of state, the in-memory
    `users` table: registration, and the five to-do routes, each behind the
    identity check. */
module App {
  import opened Records
  import opened UserTable
  import opened TodoList

  /** The store invariant: usernames are unique across the table, and each
      user's to-dos have distinct ids. */
  ghost predicate WellFormed(users: seq<User>) {
    && UniqueUsernames(users)
    && forall k :: 0 <= k < |users| ==> UniqueIds(users[k].todos)
  }

  /** Some to-do of some user already carries `id`. */
  predicate IdInUse(users: seq<User>, id: string) {
    exists k :: 0 <= k < |users| && FindIndex(users[k].todos, id) != -1
  }

  class Store {
    /** The module-level `users` array, grown in place with `push`. */
    var users: seq<User>

    ghost predicate Valid()
      reads this
    {
      WellFormed(users)
    }

    /** The table as the service starts: empty. */
    constructor ()
      ensures Valid() && users == []
    {
      users := [];
    }

    /** POST /users. A taken username is answered 400 "User already
        exists." and nothing is stored; otherwise one new user with that
        username and name, id `id` and no to-dos, is appended to the table
        and answered 201. `id` stands for the generated uuid. */
    method CreateUser(username: Username, name: string, id: string) returns (resp: Response)
      requires Valid()
      modifies this
      ensures Valid()
      ensures UsernameTaken(old(users), username) ==>
        users == old(users) && resp == Response(400, ErrorJson(UserAlreadyExists))
      ensures !UsernameTaken(old(users), username) ==>
        && users == old(users) + [User(id, username, name, [])]
        && resp == Response(201, UserJson(User(id, username, name, [])))
    {
      if UsernameTaken(users, username) {
        return Response(400, ErrorJson(UserAlreadyExists));
      }
      var user := User(id, username, name, []);
      RegisterKeepsUnique(users, user);
      users := users + [user];
      return Response(201, UserJson(user));
    }

    /** GET /todos: the requesting user's to-dos, as stored and in order. */
    method ListTodos(header: Username) returns (resp: Response)
      ensures match Identify(users, header)
        case Rejected(r) => resp == r
        case Resolved(u) => resp == Response(200, TodoListJson(users[u].todos))
    {
      var who := Identify(users, header);
      if who.Rejected? {
        return who.response;
      }
      return Response(200, TodoListJson(users[who.index].todos));
    }

    /** POST /todos: append a new, not yet done to-do to the requesting
        user's list and answer 201 with it. `id` stands for the generated
        uuid, `deadline` for `new Date(deadline)` and `now` for the clock
        reading of `new Date()`. */
    method CreateTodo(header: Username, title: string, deadline: Date, id: string, now: int)
      returns (resp: Response)
      requires Valid()
      requires !IdInUse(users, id)
      modifies this
      ensures Valid()
      ensures var who := Identify(old(users), header);
        && (who.Rejected? ==> users == old(users) && resp == who.response)
        && (who.Resolved? ==>
              var t := Todo(id, title, deadline, false, Time(now));
              && users == WithTodos(old(users), who.index, old(users)[who.index].todos + [t])
              && resp == Response(201, TodoJson(t)))
    {
      var who := Identify(users, header);
      if who.Rejected? {
        return who.response;
      }
      var u := who.index;
      var todo := Todo(id, title, deadline, false, Time(now));
      assert FindIndex(users[u].todos, id) == -1;
      AppendedIsFound(users[u].todos, todo);
      WithTodosKeepsIdentities(users, u, users[u].todos + [todo], header);
      users := WithTodos(users, u, users[u].todos + [todo]);
      return Response(201, TodoJson(todo));
    }

    /** PUT /todos/:id: overwrite the title and deadline of the requesting
        user's first to-do with that id and answer with it; 404 "Todo not
        found." with no change when the user has no such to-do. */
    method UpdateTodo(header: Username, id: string, title: string, deadline: Date)
      returns (resp: Response)
      requires Valid()
      modifies this
      ensures Valid()
      ensures var who := Identify(old(users), header);
        && (who.Rejected? ==> users == old(users) && resp == who.response)
        && (who.Resolved? ==>
              var after := Updated(old(users)[who.index].todos, id, title, deadline);
              && (after.None? ==> users == old(users) && resp == Response(404, ErrorJson(TodoNotFound)))
              && (after.Some? ==>
                    && users == WithTodos(old(users), who.index, after.value)
                    && resp == Response(200, TodoJson(Find(after.value, id).value))))
    {
      var who := Identify(users, header);
      if who.Rejected? {
        return who.response;
      }
      var u := who.index;
      var todos := users[u].todos;
      var i := FindIndex(todos, id);
      if i == -1 {
        return Response(404, ErrorJson(TodoNotFound));
      }
      var todo := todos[i].(deadline := deadline, title := title);
      UpdatedKeepsIds(todos, id, title, deadline);
      WithTodosKeepsIdentities(users, u, todos[i := todo], header);
      users := WithTodos(users, u, todos[i := todo]);
      return Response(200, TodoJson(todo));
    }

    /** PATCH /todos/:id/done: set `done` on the requesting user's first
        to-do with that id and answer with it; 404 "Todo not found." with no
        change when the user has no such to-do. */
    method CompleteTodo(header: Username, id: string) returns (resp: Response)
      requires Valid()
      modifies this
      ensures Valid()
      ensures var who := Identify(old(users), header);
        && (who.Rejected? ==> users == old(users) && resp == who.response)
        && (who.Resolved? ==>
              var after := Completed(old(users)[who.index].todos, id);
              && (after.None? ==> users == old(users) && resp == Response(404, ErrorJson(TodoNotFound)))
              && (after.Some? ==>
                    && users == WithTodos(old(users), who.index, after.value)
                    && resp == Response(200, TodoJson(Find(after.value, id).value))))
    {
      var who := Identify(users, header);
      if who.Rejected? {
        return who.response;
      }
      var u := who.index;
      var todos := users[u].todos;
      var i := FindIndex(todos, id);
      if i == -1 {
        return Response(404, ErrorJson(TodoNotFound));
      }
      var todo := todos[i].(done := true);
      CompletedKeepsIds(todos, id);
      WithTodosKeepsIdentities(users, u, todos[i := todo], header);
      users := WithTodos(users, u, todos[i := todo]);
      return Response(200, TodoJson(todo));
    }

    /** DELETE /todos/:id: remove the requesting user's first to-do with
        that id and answer 204 with no body; 404 "Todo not found." with no
        change when the user has no such to-do. */
    method DeleteTodo(header: Username, id: string) returns (resp: Response)
      requires Valid()
      modifies this
      ensures Valid()
      ensures var who := Identify(old(users), header);
        && (who.Rejected? ==> users == old(users) && resp == who.response)
        && (who.Resolved? ==>
              var after := Removed(old(users)[who.index].todos, id);
              && (after.None? ==> users == old(users) && resp == Response(404, ErrorJson(TodoNotFound)))
              && (after.Some? ==>
                    && users == WithTodos(old(users), who.index, after.value)
                    && resp == Response(204, NoBody)))
    {
      var who := Identify(users, header);
      if who.Rejected? {
        return who.response;
      }
      var u := who.index;
      var todos := users[u].todos;
      var idx := FindIndex(todos, id);
      if idx > -1 {
        RemovedIsGone(todos, id);
        WithTodosKeepsIdentities(users, u, todos[..idx] + todos[idx + 1..], header);
        users := WithTodos(users, u, todos[..idx] + todos[idx + 1..]);
        return Response(204, NoBody);
      }
      return Response(404, ErrorJson(TodoNotFound));
    }
  }

  /** A session against a fresh store, as a client of the handlers'
      contracts: register "alice" twice, create and list a to-do, complete
      it twice, delete it, list again, and ask as the unregistered "bob". */
  method AliceSession(userId: string, todoId: string, deadline: Date, now: int)
    returns (responses: seq<Response>)
    ensures |responses| == 9
    ensures responses[0] == Response(201, UserJson(User(userId, Some("alice"), "Alice", [])))
    ensures responses[1] == Response(400, ErrorJson(UserAlreadyExists))
    ensures responses[2] == Response(201, TodoJson(Todo(todoId, "Buy milk", deadline, false, Time(now))))
    ensures responses[3] == Response(200, TodoListJson([Todo(todoId, "Buy milk", deadline, false, Time(now))]))
    ensures responses[4] == responses[5] == Response(200, TodoJson(Todo(todoId, "Buy milk", deadline, true, Time(now))))
    ensures responses[6] == Response(204, NoBody)
    ensures responses[7] == Response(200, TodoListJson([]))
    ensures responses[8] == Response(404, ErrorJson(UserNotFound))
  {
    var alice, bob := Some("alice"), Some("bob");
    var t := Todo(todoId, "Buy milk", deadline, false, Time(now));
    var done := t.(done := true);
    var store := new Store();
    var r0 := store.CreateUser(alice, "Alice", userId);
    assert store.users == [User(userId, alice, "Alice", [])];
    var r1 := store.CreateUser(alice, "Alice", userId);
    var r2, r3 := SessionCreate(store, userId, t);
    var r4, r5 := SessionComplete(store, userId, t);
    var r6, r7, r8 := SessionDelete(store, userId, done);
    responses := [r0, r1, r2, r3, r4, r5, r6, r7, r8];
  }

  /** The creation and listing steps of `AliceSession`. */
  method SessionCreate(store: Store, userId: string, t: Todo) returns (created: Response, listed: Response)
    requires store.users == [User(userId, Some("alice"), "Alice", [])]
    requires !t.done && t.createdAt.Time?
    modifies store
    ensures store.users == [User(userId, Some("alice"), "Alice", [t])]
    ensures created == Response(201, TodoJson(t))
    ensures listed == Response(200, TodoListJson([t]))
  {
    assert Identify(store.users, Some("alice")) == Resolved(0);
    created := store.CreateTodo(Some("alice"), t.title, t.deadline, t.id, t.createdAt.ms);
    assert [] + [t] == [t];
    assert store.users[0] == User(userId, Some("alice"), "Alice", [t]);
    assert store.users == [User(userId, Some("alice"), "Alice", [t])];
    listed := store.ListTodos(Some("alice"));
  }

  /** The two completions of `AliceSession`: the second repeats the first. */
  method SessionComplete(store: Store, userId: string, t: Todo) returns (first: Response, second: Response)
    requires store.users == [User(userId, Some("alice"), "Alice", [t])]
    modifies store
    ensures store.users == [User(userId, Some("alice"), "Alice", [t.(done := true)])]
    ensures first == second == Response(200, TodoJson(t.(done := true)))
  {
    var done := t.(done := true);
    assert Identify(store.users, Some("alice")) == Resolved(0);
    assert FindIndex([t], t.id) == 0;
    assert [t][0 := done] == [done];
    first := store.CompleteTodo(Some("alice"), t.id);
    assert store.users[0] == User(userId, Some("alice"), "Alice", [done]);
    assert store.users == [User(userId, Some("alice"), "Alice", [done])];
    assert FindIndex([done], t.id) == 0;
    assert [done][0 := done] == [done];
    second := store.CompleteTodo(Some("alice"), t.id);
    assert store.users[0] == User(userId, Some("alice"), "Alice", [done]);
  }

  /** The deletion and the two listings that close `AliceSession`. */
  method SessionDelete(store: Store, userId: string, t: Todo)
    returns (deleted: Response, listed: Response, stranger: Response)
    requires store.users == [User(userId, Some("alice"), "Alice", [t])]
    modifies store
    ensures store.users == [User(userId, Some("alice"), "Alice", [])]
    ensures deleted == Response(204, NoBody)
    ensures listed == Response(200, TodoListJson([]))
    ensures stranger == Response(404, ErrorJson(UserNotFound))
  {
    assert Identify(store.users, Some("alice")) == Resolved(0);
    assert FindIndex([t], t.id) == 0;
    deleted := store.DeleteTodo(Some("alice"), t.id);
    assert store.users[0] == User(userId, Some("alice"), "Alice", []);
    assert store.users == [User(userId, Some("alice"), "Alice", [])];
    listed := store.ListTodos(Some("alice"));
    assert Some("bob") != Some("alice");
    stranger := store.ListTodos(Some("bob"));
  }
}
