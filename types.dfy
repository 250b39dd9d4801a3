/**
 * The values that flow through the backend: the Prisma records (User with its
 * Token rows, Todo), the request bodies, what a handler's `catch` can receive,
 * and the responses Express sends.
 */
module Types {
  import opened Wrappers

  /** Prisma's `error.meta`: driver detail that is echoed to the client, never inspected. */
  type Meta = map<string, string>

  /** A row of the User table as Prisma returns it: scalar fields only, no relations. */
  datatype User = User(id: int, name: string, lastName: Option<string>, email: string, password: string)

  /** A User with its `password` field taken out (`const { password, ...safeUser } = user`). */
  datatype SafeUser = SafeUser(id: int, name: string, lastName: Option<string>, email: string)

  /** A User row together with the `token` column of the Token rows that belong to it. */
  datatype Account = Account(user: User, tokens: seq<string>)

  datatype Todo = Todo(id: int, title: string, content: string, completed: bool, authorId: int)

  /** The `data` of `prisma.user.create`: a validated registration body, password already hashed. */
  datatype NewUser = NewUser(name: string, email: string, lastName: Option<string>, password: string) {
    /** The row Prisma creates when it assigns `id`. */
    function WithId(id: int): User {
      User(id, name, lastName, email, password)
    }
  }

  /** Request bodies: a field the client left out is None. */
  datatype UserFields = UserFields(name: Option<string>, email: Option<string>, lastName: Option<string>, password: Option<string>)
  datatype LoginFields = LoginFields(email: Option<string>, password: Option<string>)
  datatype TodoFields = TodoFields(title: string, content: string, completed: bool, authorId: int)

  /** One violated rule of a zod schema: the field it is about and the rule's message. */
  datatype Issue = Issue(path: string, message: string)

  /** What a handler's `catch` can receive. */
  datatype Thrown =
    | PrismaKnown(code: string, meta: Meta)  // Prisma.PrismaClientKnownRequestError
    | ZodError(issues: seq<Issue>)           // thrown by `Schema.parse`
    | Other                                  // anything else: Prisma validation errors, bcrypt, the network

  /** The names used from `constants/statusCodes`; their numbers are not part of this model. */
  datatype StatusCode = OK | CREATED | BAD_REQUEST | UNAUTHORIZED | NOT_FOUND | INTERNAL_SERVER_ERROR

  /** The bodies the handlers send. */
  datatype Body =
    | PrismaErrorBody(error: string, code: string, meta: Meta)  // { error, code, meta }
    | ErrorBody(error: string)                                   // { error }
    | MessageBody(message: string)                               // { message }
    | TextBody(text: string)                                     // a bare string
    | CaughtBody(err: Thrown)                                    // { err }
    | UserBody(user: User)
    | SafeUserBody(safeUser: SafeUser)
    | UsersBody(users: seq<User>)
    | TodoBody(todo: Todo)
    | TodosBody(todos: seq<Todo>)

  datatype Response = Response(status: StatusCode, body: Body)
}
