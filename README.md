# A verified model of the todo backend's request handling

The repository is an Express server backed by Prisma. It stores users, the
tokens issued to them and their todos. This project models, in Dafny, the
part of it that decides what each request does and answers:

- the table of Prisma error codes and their messages (`PrismaErrors`);
- `sendErrorResponse`, which turns a caught error into a 400 with the
  table's message or a generic 500 (`ResponseHelpers`);
- `authMiddleware`, which takes the bearer token from the `Authorization`
  header, verifies it, looks its user up, and either admits the request
  or answers 401/404 (`AuthMiddleware`);
- the user router: the three zod schemas, registration, login, GET /users,
  DELETE /user/:userId and PATCH /user/:userId (`UserRoutes`);
- the todo router: POST /todo and GET /todo/:userId (`TodoRoutes`).

Supporting modules:

- `Types` holds the records, request bodies, errors and responses.
- `Database` models the Prisma client as a class `Store`. Its fields are
  the user rows (each with its tokens, kept in id order), the todos and the
  next autoincrement ids. Each store operation either raises the error the
  database rules imply or performs an exact state change. The rules are:
  P2002 for a duplicate email, P2025 for a missing row, P2003 for a todo
  whose author does not exist. Every operation also takes a `fault`
  parameter that stands for any other error the client may throw.
  `Store.Valid` is the invariant every operation keeps: ids increasing and
  below the next id, emails distinct, every todo's author stored.
- `Express` models one request/response exchange as a class `Exchange`:
  the header, `req.user`, the responses sent and the calls to `next`.
- `External` collects the library calls the handlers make as the fields of
  an `Oracles` value: bcrypt's `hash` and `compare`, jwt's `sign` and
  `verify`, zod's email check, and JavaScript's `Number()`. Its predicate
  `Sound` states the laws assumed of them: a password matches its own hash,
  and a signed token is non-empty and verifies to the id it was signed over.
- `Seqs` and `Strings` hold generic helpers: first index, filter, and the
  first-occurrence `String.prototype.replace`, and JavaScript's UTF-16 `length`.
- `Scenarios` proves facts about requests made one after another, and about
  a route combined with its middleware.

Each handler is a method whose postcondition gives the exact response and
the exact new store state for every branch of the source. Those
postconditions are written in terms of specification functions (`Gate`,
`ParseCreate`, `UserByEmail`, `TodosOf`, `AddToken`, ...), and the lemmas
beside them prove what those functions mean.

Behaviour of the code worth knowing:

- A body that fails zod validation throws a `ZodError`. That is not a
  Prisma known request error, so `sendErrorResponse` answers it with the
  generic 500 and no issue list, not with a 400.
  `UserRoutes.ValidationFailureIsUnexpected` states this.
- The 404 for a token whose user no longer exists carries the code's text,
  "The token is wither expired , please login again".
- Registration answers 201 with the created row, hashed password included.
  Only login strips the password.
- POST /todo answers 200 with the new row, not 201.
- The todo router is never mounted by the application. Its handlers are
  modelled on their own.
- GET /users sits behind `authMiddleware`, which admits only a request
  whose token names a stored user. So, with requests running one at a
  time, its 404 "There are no users left" is never sent
  (`Scenarios.GetUsersRoute`).
- zod's minimum lengths count UTF-16 code units, as JavaScript's `length`
  does: a character outside the Basic Multilingual Plane counts twice, so
  four emoji pass the seven-character password minimum.

## Model

| member | source | states |
|---|---|---|
| PrismaErrors.FromCode | src/constants/prismaErrors.ts:1-6 | each enum member's code string maps back to that member, and a string that is no member's code maps to nothing |
| PrismaErrors.CodesAreFourDistinct | src/constants/prismaErrors.ts:1-6 | the four enum members have four different code strings |
| PrismaErrors.TableIsTotal | src/constants/prismaErrors.ts:8-17 | every enum member has an entry in the message table, and no two members share a message |
| PrismaErrors.UnknownCodeHasNoEntry | src/constants/prismaErrors.ts:8-17 | a code outside the enum has no entry in the table |
| ResponseHelpers.SendErrorResponse | src/utils/responseHelpers.ts:9-26 | the answer is either 400 or the generic 500; it is 400 exactly when the error is a Prisma known request error whose code has a table entry |
| ResponseHelpers.KnownCodeIsClientError | src/utils/responseHelpers.ts:10-19 | a known error with a table code becomes a 400 carrying the table message, the code and the meta |
| ResponseHelpers.ClientErrorExactlyForEnum | src/utils/responseHelpers.ts:10-21 | a known error's response is 400 if and only if its code is one of the four enum codes |
| ResponseHelpers.UnknownCodeIsUnexpected | src/utils/responseHelpers.ts:13-25 | a known error whose code has no entry falls through to the generic 500 |
| ResponseHelpers.NonPrismaIsUnexpected | src/utils/responseHelpers.ts:23-25 | any error that is not a Prisma known request error becomes the generic 500 |
| Strings.IndexOfFrom | src/middleware/authMiddleware.ts:14 | the result is the first position at or after `from` where the pattern occurs, or nothing when there is none |
| Strings.Replace | src/middleware/authMiddleware.ts:14 | with no occurrence the string is returned unchanged; otherwise the result's length loses the pattern and gains the replacement |
| Strings.ReplaceFirstOccurrence | src/middleware/authMiddleware.ts:14 | only the first occurrence is replaced: the text before it and after it is kept |
| Strings.ReplaceAtStart | src/middleware/authMiddleware.ts:14 | a string that starts with the pattern loses exactly that prefix |
| Strings.ReplaceAbsent | src/middleware/authMiddleware.ts:14 | a string without the pattern comes back unchanged |
| Strings.Utf16Length | src/routes/User.ts:14-17 | a string's JavaScript `length` lies between its number of characters and twice that |
| Strings.Utf16LengthOfBmp | src/routes/User.ts:14-17 | for characters inside the Basic Multilingual Plane, `length` is the number of characters |
| Strings.Utf16LengthOfAstral | src/routes/User.ts:14-17 | every character outside the Basic Multilingual Plane adds two to `length` |
| AuthMiddleware.ExtractToken | src/middleware/authMiddleware.ts:14 | there is a token exactly when there is an Authorization header |
| AuthMiddleware.Gate | src/middleware/authMiddleware.ts:8-47 | an admitted request's user is a stored user; a rejection is a 401 or the 404 for a missing user |
| AuthMiddleware.Authenticate | src/middleware/authMiddleware.ts:8-47 | either `req.user` is set and `next` is called once with nothing sent, or exactly one response is sent and `next` is not called |
| AuthMiddleware.MissingTokenRejected | src/middleware/authMiddleware.ts:14-21 | a missing header, or one that is empty once "Bearer " is removed, gets 401 "Authentication required" whatever the store and the verifier hold |
| AuthMiddleware.BarePrefixRejected | src/middleware/authMiddleware.ts:14-21 | the header "Bearer " alone leaves an empty token and gets 401 "Authentication required" |
| AuthMiddleware.BadTokenRejected | src/middleware/authMiddleware.ts:23-46 | a token that does not verify gets 401 "Either token is expired or not found" whatever the store holds |
| AuthMiddleware.LookupFailureRejected | src/middleware/authMiddleware.ts:25-46 | a user lookup that throws gets the same 401 as a bad token |
| AuthMiddleware.AdmitExactly | src/middleware/authMiddleware.ts:23-41 | a request is admitted if and only if its token is non-empty, verifies, the lookup does not throw, and the id is stored; the admitted user is the one with that id |
| AuthMiddleware.AdmittedMeansUsersExist | src/middleware/authMiddleware.ts:25-41 | a request is admitted only when the store holds at least one user |
| AuthMiddleware.DeletedUserNotFound | src/middleware/authMiddleware.ts:31-36 | a valid token for an id with no user gets the 404 |
| AuthMiddleware.SignedTokenAdmitted | src/middleware/authMiddleware.ts:14-41 | "Bearer " followed by a token signed over a stored user's id admits that user |
| Seqs.Filter | src/routes/Todo.ts:51-55 | the result keeps the input's elements that satisfy the predicate, all of them, and nothing else |
| Seqs.FilterAppend | src/routes/Todo.ts:51-55 | filtering a list with one more element at the end adds that element at the end exactly when it satisfies the predicate |
| Database.IndexOfId | src/middleware/authMiddleware.ts:25-29 | the position returned holds the id and no earlier row does; there is none exactly when the id is not stored |
| Database.UserById | src/middleware/authMiddleware.ts:25-29 | a user is found exactly when the id is stored, and it is the stored user with that id |
| Database.UserByEmail | src/routes/User.ts:90-94 | a user is found exactly when the email is stored, and it is a stored user with that email |
| Database.AddTokenEffect | src/routes/User.ts:117-130 | appending a token changes no user row, gives that user exactly one more token at the end, and leaves every other user's tokens alone |
| Database.AddTokenToNewest | src/routes/User.ts:42-63 | a token appended for the user just created lands on that last row |
| Database.UserByEmailNewest | src/routes/User.ts:90-94 | a user created with a fresh email is the one its email finds |
| Database.RemoveUserEffect | src/routes/User.ts:165-169 | deleting a stored user removes one row and its id, and keeps every other id |
| Database.ApplyPatchLaws | src/routes/User.ts:196-201 | an update keeps the id, an empty patch changes nothing, and applying a patch twice equals applying it once |
| Database.EmailOnlyPatch | src/routes/User.ts:196-201 | a patch carrying only an email changes the email and nothing else |
| Database.PatchKeepsEmailsDistinct | src/routes/User.ts:196-201 | an update whose email belongs to no other user keeps emails unique |
| Database.Store.constructor | src/routes/User.ts:11 | the client over a freshly migrated database: empty, with autoincrement ids starting at 1, satisfying the store invariant; the handlers accept any store that satisfies it |
| Database.Store.CreateUser | src/routes/User.ts:42-46 | a duplicate email raises P2002 and changes nothing; otherwise one row is appended with the next id and no tokens |
| Database.Store.AppendToken | src/routes/User.ts:50-63 | an unknown id raises P2025; otherwise the user's tokens gain the token and the user row is returned |
| Database.Store.UpdateUser | src/routes/User.ts:196-201 | a NaN id fails, an unknown id raises P2025, an email taken by another user raises P2002; otherwise only that row changes, by the patch |
| Database.Store.DeleteUser | src/routes/User.ts:165-169 | a NaN id fails and an unknown id raises P2025; otherwise the row is removed with its tokens and its todos, and returned |
| Database.Store.CreateTodo | src/routes/Todo.ts:21-28 | an author that does not exist raises P2003; otherwise the todo is appended with the next id |
| Database.Store.FindUserById | src/middleware/authMiddleware.ts:25-29 | returns the user with that id, if any, or the injected error |
| Database.Store.FindUserByEmail | src/routes/User.ts:90-94 | returns the user with that email, if any, or the injected error |
| Database.Store.FindAllUsers | src/routes/User.ts:146 | returns every user row in id order, or the injected error |
| Database.Store.FindTodosByAuthor | src/routes/Todo.ts:51-55 | returns the author's todos in storage order, or the injected error |
| UserRoutes.ParseCreate | src/routes/User.ts:13-18 | succeeds exactly when name is non-empty, email passes, a present lastName is non-empty and password has a UTF-16 length of at least 7; success returns those fields, failure is a ZodError with at least one issue |
| UserRoutes.ParseUpdate | src/routes/User.ts:179 | succeeds exactly when every field present obeys its registration rule, returning the body unchanged; failure is a ZodError with issues |
| UserRoutes.ParseLogin | src/routes/User.ts:76-79 | succeeds exactly when the email is present and passes and a password is present, returning both; failure is a ZodError with issues |
| UserRoutes.IssuesNameExactlyTheBadFields | src/routes/User.ts:13-18 | the fields named by the issues are exactly the fields that break their rule |
| UserRoutes.ShortPasswordReported | src/routes/User.ts:17 | a password whose UTF-16 length is below seven gets the issue "Password should have atleast 7 letters" on both schemas |
| UserRoutes.AstralPasswordLongEnough | src/routes/User.ts:17 | a password of four characters outside the Basic Multilingual Plane has length 8 and meets the minimum of 7 |
| UserRoutes.PartialWidensCreate | src/routes/User.ts:179 | every body the registration schema accepts is accepted by the update schema, and on bodies with all required fields the two agree |
| UserRoutes.ValidationFailureIsUnexpected | src/utils/responseHelpers.ts:23-25 | a body any of the three schemas rejects is answered with the generic 500 |
| UserRoutes.WithoutPasswordForgetsOnlyPassword | src/routes/User.ts:132 | two users have the same password-less view exactly when they differ at most in the password |
| UserRoutes.RehashOnlyPresent | src/routes/User.ts:191-194 | on a validated patch the password is replaced by its hash exactly when present, and nothing else changes |
| UserRoutes.CreateUser | src/routes/User.ts:24-69 | invalid bodies and duplicate emails change nothing and are answered by `sendErrorResponse`; otherwise the user is stored with the hashed password and one token signed over its id, and 201 returns the row; a failed token step leaves the user without a token |
| UserRoutes.Login | src/routes/User.ts:83-139 | unknown email is 404 and wrong password 401, both without a new token; success appends one token signed over the id and returns the user without its password |
| UserRoutes.ListUsers | src/routes/User.ts:141-158 | an empty table is 404 "There are no users left"; otherwise 200 with exactly the stored users; an error is a 500 carrying it |
| UserRoutes.DeleteUser | src/routes/User.ts:160-177 | success returns the removed row, whose id is then gone while every other id stays, and the next ids are unchanged; a missing id is the P2025 400 and changes nothing |
| UserRoutes.PatchUser | src/routes/User.ts:183-208 | a valid patch, with a present password re-hashed, replaces only the fields the body carries and returns the new row; every error changes nothing |
| TodoRoutes.CreateTodo | src/routes/Todo.ts:16-35 | an unknown author is the P2003 400 and changes nothing; otherwise the todo is appended and becomes the last of its author's todos |
| TodoRoutes.GetTodos | src/routes/Todo.ts:37-69 | an id that is NaN is 400 "Invalid user ID format"; no todos is 404; otherwise 200 with the author's todos; nothing changes |
| TodoRoutes.TodosOfExact | src/routes/Todo.ts:51-55 | a todo is listed for an author exactly when it is stored with that authorId |
| TodoRoutes.NoTodosExactly | src/routes/Todo.ts:57-62 | the list is empty, so the answer 404, exactly when no stored todo has that author |
| TodoRoutes.SoleAuthorSeesAll | src/routes/Todo.ts:51-55 | when every todo belongs to the author, all of them are listed in order |
| Scenarios.RegisterThenLogin | src/routes/User.ts:24-139 | registering a fresh email and logging in with the same password answers 201 then 200, and leaves the user with two tokens signed over its id |
| Scenarios.DeleteTwice | src/routes/User.ts:160-177 | deleting the same user twice returns the row and then the P2025 400 |
| Scenarios.StoreRuleErrorsAreClientErrors | src/utils/responseHelpers.ts:10-19 | the duplicate-email, missing-row and missing-author errors each reach the client as a 400 with their table message and code |
| Scenarios.GetUsersRoute | src/routes/User.ts:141-158 | GET /users behind the middleware sends exactly one response: the gate's rejection, or the handler's answer for the admitted user; a rejection leaves `req.user` alone and does not call `next`, an admission calls `next` once; the answer is never the 404 "There are no users left" |

## Left out

- Password hashing is a deterministic function. bcrypt's random salt and its cost factor of 8 are not modelled. The law `compare(p, hash(p))` is assumed, not proved.
- `bcrypt.compare` throwing on a stored value that is not a bcrypt hash is not modelled; `compare` is total.
- JWT signing and verification are opaque functions. The secret, the `iat` claim, expiry and the signature algorithm are not modelled.
- A token that verifies but whose payload has no numeric `id` makes the user lookup throw, which the middleware answers with the same 401. The model folds this case into `verify` returning nothing, which gives that same 401.
- zod's email regular expression is a parameter, `isEmail`.
- Request bodies of the user routes hold strings or nothing. JSON values of other types (numbers, objects, null), which zod reports as `invalid_type`, are not modelled.
- TodoRoutes.CreateTodo: the POST /todo body always carries all four fields with the right types. A body with a field missing or of the wrong type reaches `prisma.todo.create` and fails with a Prisma validation error, answered with the generic 500; the model cannot express such a body, because which fields the schema requires or defaults is not part of this model.
- Request strings holding an unpaired UTF-16 surrogate (JSON allows `"\ud800"`) are not modelled: model strings hold Unicode scalar values, so `Strings.Utf16Length` matches JavaScript's `length` on every string the model can hold, and such strings cannot be expressed.
- `Number()` on a route parameter is a parameter, `toNumber`, giving an integer or NaN. Non-integer numbers are not modelled.
- UserRoutes.DeleteUser, UserRoutes.PatchUser, TodoRoutes.GetTodos: ids are unbounded integers; the range of Prisma's `Int` is not modelled. The source sends a route id outside that range (such as `1e21`, or above 2^31 - 1 on PostgreSQL and MySQL) to Prisma, which refuses it with an error outside the table, so the answer is the generic 500. The model answers such an id as a missing row: the P2025 400 for DELETE and PATCH, the 404 for GET /todo. The range depends on the database engine, which is not part of this model.
- The `meta` of every Prisma error the store raises is empty. What Prisma puts there is not part of this model.
- The Prisma schema and the database engine are not part of this model. Their rules are assumed: unique email, autoincrement ids from 1, a todo's author must exist, deleting a user cascades to its tokens and todos, and a failed create does not advance the autoincrement counter (as in SQLite; PostgreSQL and MySQL/InnoDB use up the id, so later rows would get higher ids).
- `findMany` is assumed to return rows in id (insertion) order.
- ResponseHelpers.SendErrorResponse: looks codes up only among the four table codes. A JavaScript object lookup would also find inherited keys such as "toString"; that is not modelled.
- Each handler runs atomically. Concurrent requests interleaving between the awaits are not modelled; for example, another request between user creation and token creation.
- Express routing, JSON serialization and the numeric status codes are not modelled. Only GET /users is composed with its middleware (`Scenarios.GetUsersRoute`); the other protected handlers are modelled after the middleware has admitted the request.
- `console.log` of the hash, server start-up (`index.ts`) and the `req.user` type declaration (`express.d.ts`) are not part of this model.
- UserRoutes.ListUsers: the 500 carries the caught error value. How Express serialises an `Error` object inside `{ err }` is not modelled.
