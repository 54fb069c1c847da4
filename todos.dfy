/** One user's to-do list: the lookups by id the handlers run on it and the
    list each successful update, completion and deletion leaves behind. */
module TodoList {
  import opened Records

  /** No two to-dos of the list share an id. */
  ghost predicate UniqueIds(todos: seq<Todo>) {
    forall i, j :: 0 <= i < j < |todos| ==> todos[i].id != todos[j].id
  }

  /** `todos.findIndex(t => t.id === id)`: the position of the first to-do
      with that id, or -1 when there is none. */
  function FindIndex(todos: seq<Todo>, id: string): (r: int)
    ensures -1 <= r < |todos|
    ensures r == -1 <==> forall k :: 0 <= k < |todos| ==> todos[k].id != id
    ensures 0 <= r ==> todos[r].id == id && forall k :: 0 <= k < r ==> todos[k].id != id
  {
    if |todos| == 0 then -1
    else if todos[0].id == id then 0
    else
      var k := FindIndex(todos[1..], id);
      if k == -1 then -1 else k + 1
  }

  /** `todos.find(todo => todo.id === id)`: the first to-do with that id.
      The object it returns is the one stored at position `FindIndex`. */
  function Find(todos: seq<Todo>, id: string): (r: Option<Todo>)
    ensures r.None? <==> FindIndex(todos, id) == -1
    ensures r.Some? ==> r.value == todos[FindIndex(todos, id)]
  {
    if |todos| == 0 then None
    else if todos[0].id == id then Some(todos[0])
    else Find(todos[1..], id)
  }

  /** The list after the update handler has overwritten the `title` and
      `deadline` of the first to-do with that id; `None` when no to-do has it. */
  function Updated(todos: seq<Todo>, id: string, title: string, deadline: Date): (r: Option<seq<Todo>>)
    ensures r.None? <==> forall k :: 0 <= k < |todos| ==> todos[k].id != id
    ensures r.Some? ==> var i := FindIndex(todos, id);
      && |r.value| == |todos|
      && r.value[i] == Todo(todos[i].id, title, deadline, todos[i].done, todos[i].createdAt)
      && forall k :: 0 <= k < |todos| && k != i ==> r.value[k] == todos[k]
  {
    var i := FindIndex(todos, id);
    if i == -1 then None
    else Some(todos[i := todos[i].(deadline := deadline, title := title)])
  }

  /** The list after the completion handler has set `done` on the first
      to-do with that id; `None` when no to-do has it. */
  function Completed(todos: seq<Todo>, id: string): (r: Option<seq<Todo>>)
    ensures r.None? <==> forall k :: 0 <= k < |todos| ==> todos[k].id != id
    ensures r.Some? ==> var i := FindIndex(todos, id);
      && |r.value| == |todos|
      && r.value[i] == Todo(todos[i].id, todos[i].title, todos[i].deadline, true, todos[i].createdAt)
      && forall k :: 0 <= k < |todos| && k != i ==> r.value[k] == todos[k]
  {
    var i := FindIndex(todos, id);
    if i == -1 then None
    else Some(todos[i := todos[i].(done := true)])
  }

  /** The list after the delete handler's `splice(idx, 1)` at the first
      to-do with that id; `None` when no to-do has it. */
  function Removed(todos: seq<Todo>, id: string): (r: Option<seq<Todo>>)
    ensures r.None? <==> forall k :: 0 <= k < |todos| ==> todos[k].id != id
    ensures r.Some? ==> var i := FindIndex(todos, id);
      && |r.value| == |todos| - 1
      && (forall k :: 0 <= k < i ==> r.value[k] == todos[k])
      && (forall k :: i <= k < |r.value| ==> r.value[k] == todos[k + 1])
      && multiset(r.value) + multiset{todos[i]} == multiset(todos)
  {
    var i := FindIndex(todos, id);
    if i == -1 then None
    else
      assert todos == todos[..i] + [todos[i]] + todos[i + 1..];
      Some(todos[..i] + todos[i + 1..])
  }

  /** Lookups by id depend on nothing but the ids, position by position. */
  lemma SameIdsSameIndex(a: seq<Todo>, b: seq<Todo>, id: string)
    requires |a| == |b|
    requires forall k :: 0 <= k < |a| ==> a[k].id == b[k].id
    ensures FindIndex(a, id) == FindIndex(b, id)
  {
  }

  /** Completing is idempotent: completing the same id again gives back the
      list the first completion produced. */
  lemma CompletedIdempotent(todos: seq<Todo>, id: string)
    requires Completed(todos, id).Some?
    ensures Completed(Completed(todos, id).value, id) == Completed(todos, id)
  {
    var once := Completed(todos, id).value;
    SameIdsSameIndex(todos, once, id);
    var twice := Completed(once, id).value;
    assert twice == once;
  }

  /** A to-do appended under an id no entry has is what `find` and
      `findIndex` return for that id afterwards, at the end of the list,
      and the ids stay unique. */
  lemma AppendedIsFound(todos: seq<Todo>, t: Todo)
    requires FindIndex(todos, t.id) == -1
    ensures FindIndex(todos + [t], t.id) == |todos|
    ensures Find(todos + [t], t.id) == Some(t)
    ensures UniqueIds(todos) ==> UniqueIds(todos + [t])
  {
    var after := todos + [t];
    assert forall k :: 0 <= k < |todos| ==> after[k].id != t.id;
    assert after[|todos|] == t;
    var i := FindIndex(after, t.id);
    assert i != -1;
    assert i == |todos|;
  }

  /** Updating leaves the ids in place, so the ids stay unique, and the
      to-do found by that id afterwards is the updated one. */
  lemma UpdatedKeepsIds(todos: seq<Todo>, id: string, title: string, deadline: Date)
    requires FindIndex(todos, id) != -1
    ensures var r := Updated(todos, id, title, deadline).value;
      && (UniqueIds(todos) ==> UniqueIds(r))
      && FindIndex(r, id) == FindIndex(todos, id)
      && Find(r, id) == Some(r[FindIndex(todos, id)])
  {
  }

  /** Completing leaves the ids in place, so the ids stay unique, and the
      to-do found by that id afterwards is the completed one. */
  lemma CompletedKeepsIds(todos: seq<Todo>, id: string)
    requires FindIndex(todos, id) != -1
    ensures var r := Completed(todos, id).value;
      && (UniqueIds(todos) ==> UniqueIds(r))
      && FindIndex(r, id) == FindIndex(todos, id)
      && Find(r, id) == Some(r[FindIndex(todos, id)])
  {
  }

  /** In a list with unique ids, deletion removes the only to-do with that
      id: no entry has it afterwards, and the ids stay unique. */
  lemma RemovedIsGone(todos: seq<Todo>, id: string)
    requires UniqueIds(todos)
    requires FindIndex(todos, id) != -1
    ensures UniqueIds(Removed(todos, id).value)
    ensures FindIndex(Removed(todos, id).value, id) == -1
  {
  }
}
