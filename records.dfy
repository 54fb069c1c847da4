/** The values the to-do service stores and answers with: users, to-dos,
    dates, and the status-plus-JSON responses of its handlers. */
module Records {

  datatype Option<+T> = None | Some(value: T)

  /** A JavaScript `Date`: a time value in milliseconds since the epoch, or the
      invalid date that `new Date(x)` yields for input it cannot parse. */
  datatype Date = Time(ms: int) | InvalidDate

  /** A username as it reaches the service, from the request body or the
      `username` header: a string, or `undefined` when the field is missing.
      JavaScript's `===` holds between two `undefined`s, so `None == None`. */
  type Username = Option<string>

  datatype Todo = Todo(id: string, title: string, deadline: Date, done: bool, createdAt: Date)

  datatype User = User(id: string, username: Username, name: string, todos: seq<Todo>)

  /** The JSON body of a response; `NoBody` is the empty 204 reply. */
  datatype Body =
    | UserJson(user: User)
    | TodoJson(todo: Todo)
    | TodoListJson(todos: seq<Todo>)
    | ErrorJson(error: string)
    | NoBody

  datatype Response = Response(status: nat, body: Body)

  const UserNotFound := "User not found."
  const UserAlreadyExists := "User already exists."
  const TodoNotFound := "Todo not found."
}
