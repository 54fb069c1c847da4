/** The user table: lookups by username over the stored users, the identity
    check that guards every to-do route, and the one kind of change a to-do
    handler makes to the table (replacing one user's to-do list). */
module UserTable {
  import opened Records

  /** No two stored users share a username. */
  ghost predicate UniqueUsernames(users: seq<User>) {
    forall i, j :: 0 <= i < j < |users| ==> users[i].username != users[j].username
  }

  /** `users.find(user => user.username === name)`, given as the position of
      the user found: the handlers change that very object, which lives at
      this position of the table. */
  function FindUser(users: seq<User>, name: Username): (r: Option<nat>)
    ensures r.None? <==> forall k :: 0 <= k < |users| ==> users[k].username != name
    ensures r.Some? ==> r.value < |users| && users[r.value].username == name
    ensures r.Some? ==> forall k :: 0 <= k < r.value ==> users[k].username != name
  {
    if |users| == 0 then None
    else if users[0].username == name then Some(0)
    else match FindUser(users[1..], name)
      case None => None
      case Some(k) => Some(k + 1)
  }

  /** `users.some(user => user.username === name)`. */
  function UsernameTaken(users: seq<User>, name: Username): (b: bool)
    ensures b <==> exists k :: 0 <= k < |users| && users[k].username == name
    ensures b <==> FindUser(users, name).Some?
  {
    |users| > 0 && (users[0].username == name || UsernameTaken(users[1..], name))
  }

  /** Outcome of the identity check: the position of the requesting user, or
      the response that ends the request before any to-do handler runs. */
  datatype Identity = Resolved(index: nat) | Rejected(response: Response)

  /** The identity check run in front of every to-do route: look the
      `username` header up in the table; when no user has it, answer 404
      "User not found."; otherwise hand the found user on to the handler. */
  function Identify(users: seq<User>, header: Username): (r: Identity)
    ensures r.Rejected? <==> !UsernameTaken(users, header)
    ensures r.Rejected? ==> r.response == Response(404, ErrorJson(UserNotFound))
    ensures r.Resolved? ==> r.index < |users| && users[r.index].username == header
  {
    match FindUser(users, header)
    case None => Rejected(Response(404, ErrorJson(UserNotFound)))
    case Some(i) => Resolved(i)
  }

  /** The table after user `u`'s to-do list has become `todos`. */
  function WithTodos(users: seq<User>, u: nat, todos: seq<Todo>): (r: seq<User>)
    requires u < |users|
    ensures |r| == |users| && r[u].todos == todos
    ensures r[u].id == users[u].id && r[u].username == users[u].username && r[u].name == users[u].name
    ensures forall k :: 0 <= k < |users| && k != u ==> r[k] == users[k]
  {
    users[u := users[u].(todos := todos)]
  }

  /** In a table with unique usernames, the identity check finds the one
      user whose username the header carries. */
  lemma IdentifyFindsOwner(users: seq<User>, header: Username, k: nat)
    requires UniqueUsernames(users)
    requires k < |users| && users[k].username == header
    ensures Identify(users, header) == Resolved(k)
  {
  }

  /** Changing a user's to-do list keeps the table's username uniqueness and
      changes to whom any header resolves: the to-do handlers can neither
      create nor remove an identity. */
  lemma WithTodosKeepsIdentities(users: seq<User>, u: nat, todos: seq<Todo>, header: Username)
    requires u < |users|
    ensures UniqueUsernames(users) ==> UniqueUsernames(WithTodos(users, u, todos))
    ensures FindUser(WithTodos(users, u, todos), header) == FindUser(users, header)
    ensures Identify(WithTodos(users, u, todos), header) == Identify(users, header)
  {
  }

  /** Appending a user whose username is not taken keeps usernames unique,
      and the check then resolves that username to the new, last entry. */
  lemma RegisterKeepsUnique(users: seq<User>, user: User)
    requires UniqueUsernames(users)
    requires !UsernameTaken(users, user.username)
    ensures UniqueUsernames(users + [user])
    ensures Identify(users + [user], user.username) == Resolved(|users|)
  {
    IdentifyFindsOwner(users + [user], user.username, |users|);
  }
}
