/**
 * The user router: the three zod schemas, registration (`createUser`),
 * login, and the protected GET /users, DELETE /user/:userId and
 * PATCH /user/:userId handlers.
 */
module UserRoutes {
  import opened Wrappers
  import opened Types
  import opened External
  import opened ResponseHelpers
  import opened Database
  import Seqs
  import Strings

  // ---------------------------------------------------------------- schemas

  /** zod's message for a required field that is missing. */
  const RequiredMessage := "Required"

  /**
   * The issues of one `z.string().min(min, message)` field; `optional` when it
   * may be left out. zod compares `length`, which counts UTF-16 code units.
   */
  function MinLengthIssues(path: string, value: Option<string>, min: nat, message: string, optional: bool): seq<Issue> {
    match value
    case None => if optional then [] else [Issue(path, RequiredMessage)]
    case Some(s) => if Strings.Utf16Length(s) >= min then [] else [Issue(path, message)]
  }

  /** The issues of one `z.string().email(message)` field. */
  function EmailIssues(path: string, value: Option<string>, message: string, optional: bool, isEmail: string -> bool): seq<Issue> {
    match value
    case None => if optional then [] else [Issue(path, RequiredMessage)]
    case Some(s) => if isEmail(s) then [] else [Issue(path, message)]
  }

  /**
   * `CreateUserRequestSchema`, or with `partial` its `.partial()`
   * (`UpdateUserReqSchema`); the issues come in the schema's field order.
   */
  function UserSchemaIssues(b: UserFields, isEmail: string -> bool, partial: bool): seq<Issue> {
    MinLengthIssues("name", b.name, 1, "Name is required", partial)
    + EmailIssues("email", b.email, "Invalid email address", partial, isEmail)
    + MinLengthIssues("lastName", b.lastName, 1, "Last name too short", true)
    + MinLengthIssues("password", b.password, 7, "Password should have atleast 7 letters", partial)
  }

  /** A field is fine when it is present with at least `min` characters, or absent and not `required`. */
  predicate FieldOk(value: Option<string>, min: nat, required: bool) {
    if value.Some? then Strings.Utf16Length(value.value) >= min else !required
  }

  predicate EmailOk(value: Option<string>, required: bool, isEmail: string -> bool) {
    if value.Some? then isEmail(value.value) else !required
  }

  /** The registration rules, stated field by field. */
  predicate CreateValid(b: UserFields, isEmail: string -> bool) {
    && FieldOk(b.name, 1, true)
    && EmailOk(b.email, true, isEmail)
    && FieldOk(b.lastName, 1, false)
    && FieldOk(b.password, 7, true)
  }

  /** The update rules: any subset of the fields, each present one obeying its registration rule. */
  predicate UpdateValid(b: UserFields, isEmail: string -> bool) {
    && FieldOk(b.name, 1, false)
    && EmailOk(b.email, false, isEmail)
    && FieldOk(b.lastName, 1, false)
    && FieldOk(b.password, 7, false)
  }

  function Paths(issues: seq<Issue>): set<string> {
    set i | i in issues :: i.path
  }

  /** `CreateUserRequestSchema.parse(inputData)`. */
  function ParseCreate(b: UserFields, isEmail: string -> bool): (r: Result<NewUser, Thrown>)
    ensures r.Success? <==> CreateValid(b, isEmail)
    ensures r.Success? ==> r.value == NewUser(b.name.value, b.email.value, b.lastName, b.password.value)
    ensures r.Failure? ==> r.error.ZodError? && r.error.issues != []
  {
    var issues := UserSchemaIssues(b, isEmail, false);
    if issues == [] then Success(NewUser(b.name.value, b.email.value, b.lastName, b.password.value))
    else Failure(ZodError(issues))
  }

  /** `UpdateUserReqSchema.parse(inputData)`. */
  function ParseUpdate(b: UserFields, isEmail: string -> bool): (r: Result<UserFields, Thrown>)
    ensures r.Success? <==> UpdateValid(b, isEmail)
    ensures r.Success? ==> r.value == b
    ensures r.Failure? ==> r.error.ZodError? && r.error.issues != []
  {
    var issues := UserSchemaIssues(b, isEmail, true);
    if issues == [] then Success(b) else Failure(ZodError(issues))
  }

  /** `LoginUserRequestSchema`: an email that passes the check and any password string. */
  function LoginIssues(b: LoginFields, isEmail: string -> bool): seq<Issue> {
    EmailIssues("email", b.email, "Invalid Email Address", false, isEmail)
    + (if b.password.Some? then [] else [Issue("password", RequiredMessage)])
  }

  /** `LoginUserRequestSchema.parse(inputData)`: the email and the password. */
  function ParseLogin(b: LoginFields, isEmail: string -> bool): (r: Result<(string, string), Thrown>)
    ensures r.Success? <==> b.email.Some? && isEmail(b.email.value) && b.password.Some?
    ensures r.Success? ==> r.value == (b.email.value, b.password.value)
    ensures r.Failure? ==> r.error.ZodError? && r.error.issues != []
  {
    var issues := LoginIssues(b, isEmail);
    if issues == [] then Success((b.email.value, b.password.value)) else Failure(ZodError(issues))
  }

  lemma PathsAppend(a: seq<Issue>, b: seq<Issue>)
    ensures Paths(a + b) == Paths(a) + Paths(b)
  {
    forall x | x in Paths(a + b) ensures x in Paths(a) + Paths(b) {
      var i :| i in a + b && i.path == x;
    }
    forall x | x in Paths(a) + Paths(b) ensures x in Paths(a + b) {
      if x in Paths(a) {
        var i :| i in a && i.path == x;
        assert i in a + b;
      } else {
        var i :| i in b && i.path == x;
        assert i in a + b;
      }
    }
  }

  lemma MinLengthPaths(path: string, value: Option<string>, min: nat, message: string, optional: bool)
    ensures Paths(MinLengthIssues(path, value, min, message, optional))
         == if FieldOk(value, min, !optional) then {} else {path}
  {
    var issues := MinLengthIssues(path, value, min, message, optional);
    if issues != [] {
      assert issues[0] in issues;
    }
  }

  lemma EmailPaths(path: string, value: Option<string>, message: string, optional: bool, isEmail: string -> bool)
    ensures Paths(EmailIssues(path, value, message, optional, isEmail))
         == if EmailOk(value, !optional, isEmail) then {} else {path}
  {
    var issues := EmailIssues(path, value, message, optional, isEmail);
    if issues != [] {
      assert issues[0] in issues;
    }
  }

  /** The fields named by issues are exactly the fields that break their rule. */
  lemma IssuesNameExactlyTheBadFields(b: UserFields, isEmail: string -> bool, partial: bool)
    ensures Paths(UserSchemaIssues(b, isEmail, partial))
         == (if FieldOk(b.name, 1, !partial) then {} else {"name"})
          + (if EmailOk(b.email, !partial, isEmail) then {} else {"email"})
          + (if FieldOk(b.lastName, 1, false) then {} else {"lastName"})
          + (if FieldOk(b.password, 7, !partial) then {} else {"password"})
  {
    var n := MinLengthIssues("name", b.name, 1, "Name is required", partial);
    var e := EmailIssues("email", b.email, "Invalid email address", partial, isEmail);
    var l := MinLengthIssues("lastName", b.lastName, 1, "Last name too short", true);
    var p := MinLengthIssues("password", b.password, 7, "Password should have atleast 7 letters", partial);
    MinLengthPaths("name", b.name, 1, "Name is required", partial);
    EmailPaths("email", b.email, "Invalid email address", partial, isEmail);
    MinLengthPaths("lastName", b.lastName, 1, "Last name too short", true);
    MinLengthPaths("password", b.password, 7, "Password should have atleast 7 letters", partial);
    PathsAppend(n, e);
    PathsAppend(n + e, l);
    PathsAppend(n + e + l, p);
  }

  /** A password shorter than seven code units is reported against `password`, on both schemas. */
  lemma ShortPasswordReported(b: UserFields, isEmail: string -> bool, partial: bool)
    requires b.password.Some? && Strings.Utf16Length(b.password.value) < 7
    ensures Issue("password", "Password should have atleast 7 letters") in UserSchemaIssues(b, isEmail, partial)
  {
    var p := MinLengthIssues("password", b.password, 7, "Password should have atleast 7 letters", partial);
    assert p == [Issue("password", "Password should have atleast 7 letters")];
    assert UserSchemaIssues(b, isEmail, partial)[|UserSchemaIssues(b, isEmail, partial)| - 1] == p[0];
  }

  /**
   * Four characters outside the Basic Multilingual Plane make a password of
   * length 8, which passes the seven-character minimum.
   */
  lemma AstralPasswordLongEnough(partial: bool)
    ensures FieldOk(Some("\U{1F600}\U{1F600}\U{1F600}\U{1F600}"), 7, !partial)
  {
    Strings.Utf16LengthOfAstral("\U{1F600}\U{1F600}\U{1F600}\U{1F600}");
  }

  /** The update schema accepts every registration body, and on complete bodies it is the same schema. */
  lemma PartialWidensCreate(b: UserFields, isEmail: string -> bool)
    ensures CreateValid(b, isEmail) ==> UpdateValid(b, isEmail)
    ensures b.name.Some? && b.email.Some? && b.password.Some? ==>
      (UpdateValid(b, isEmail) <==> CreateValid(b, isEmail))
  {
  }

  /** A body that fails validation is not a known Prisma error, so every route answers it with the generic 500. */
  lemma ValidationFailureIsUnexpected(b: UserFields, login: LoginFields, isEmail: string -> bool)
    ensures !CreateValid(b, isEmail) ==> SendErrorResponse(ParseCreate(b, isEmail).error) == Unexpected
    ensures !UpdateValid(b, isEmail) ==> SendErrorResponse(ParseUpdate(b, isEmail).error) == Unexpected
    ensures ParseLogin(login, isEmail).Failure? ==> SendErrorResponse(ParseLogin(login, isEmail).error) == Unexpected
  {
  }

  // ------------------------------------------------------------- projections

  /** `const { password, ...safeUser } = user`. */
  function WithoutPassword(u: User): SafeUser {
    SafeUser(u.id, u.name, u.lastName, u.email)
  }

  /** The projection forgets the password and nothing else. */
  lemma WithoutPasswordForgetsOnlyPassword(u: User, v: User)
    ensures WithoutPassword(u) == WithoutPassword(v) <==> u.(password := v.password) == v
  {
  }

  /** The registration data with its password replaced by its hash. */
  function HashPassword(data: NewUser, hash: string -> string): NewUser {
    data.(password := hash(data.password))
  }

  /** `if (validData.password) { validData = { ...validData, password: hash } }`. */
  function Rehash(b: UserFields, hash: string -> string): UserFields {
    if b.password.Some? && b.password.value != "" then b.(password := Some(hash(b.password.value))) else b
  }

  /** On a validated patch, the password is hashed exactly when it is present; nothing else changes. */
  lemma RehashOnlyPresent(b: UserFields, isEmail: string -> bool, hash: string -> string)
    requires UpdateValid(b, isEmail)
    ensures Rehash(b, hash).password == if b.password.Some? then Some(hash(b.password.value)) else None
    ensures Rehash(b, hash).(password := b.password) == b
  {
  }

  // ---------------------------------------------------------------- handlers

  const NoAccount := Response(NOT_FOUND, MessageBody("Sorry we cant find you account please sign up first"))
  const WrongPassword := Response(UNAUTHORIZED, MessageBody("The password you entered is incorrect"))
  const NoUsersLeft := Response(NOT_FOUND, TextBody("There are no users left"))

  /**
   * POST /user. Validates, hashes the password, creates the user, then
   * appends one token signed over the new id. A failure of the second step
   * leaves the created user in place, without a token.
   */
  method CreateUser(db: Store, body: UserFields, o: Oracles, createFault: Option<Thrown>, tokenFault: Option<Thrown>)
    returns (resp: Response)
    requires db.Valid()
    modifies db
    ensures db.Valid()
    ensures ParseCreate(body, o.isEmail).Failure? ==>
      resp == SendErrorResponse(ParseCreate(body, o.isEmail).error) && unchanged(db)
    ensures ParseCreate(body, o.isEmail).Success? ==>
      var data := HashPassword(ParseCreate(body, o.isEmail).value, o.hash);
      var u := data.WithId(old(db.nextUserId));
      if CreateUserError(old(db.accounts), data, createFault).Some? then
        resp == SendErrorResponse(CreateUserError(old(db.accounts), data, createFault).value) && unchanged(db)
      else
        && u.password == o.hash(body.password.value)
        && db.accounts == old(db.accounts) + [Account(u, if tokenFault.None? then [o.sign(u.id)] else [])]
        && db.todos == old(db.todos)
        && db.nextUserId == old(db.nextUserId) + 1 && db.nextTodoId == old(db.nextTodoId)
        && resp == if tokenFault.None? then Response(CREATED, UserBody(u)) else SendErrorResponse(tokenFault.value)
  {
    var validData := ParseCreate(body, o.isEmail);
    if validData.Failure? {
      return SendErrorResponse(validData.error);
    }
    var data := HashPassword(validData.value, o.hash);
    ghost var before := db.accounts;
    var created := db.CreateUser(data, createFault);
    if created.Failure? {
      return SendErrorResponse(created.error);
    }
    var user := created.value;
    var token := o.sign(user.id);
    assert user.id !in Ids(before);
    assert Ids(db.accounts) == Ids(before) + [user.id];
    AddTokenToNewest(before, Account(user, []), token);
    assert [] + [token] == [token];
    var updated := db.AppendToken(user.id, token, tokenFault);
    if updated.Failure? {
      return SendErrorResponse(updated.error);
    }
    resp := Response(CREATED, UserBody(user));
  }

  /**
   * POST /user/login. An unknown email is a 404 and a wrong password a 401,
   * neither of which issues a token; success appends one token and returns
   * the user without its password.
   */
  method Login(db: Store, body: LoginFields, o: Oracles, lookupFault: Option<Thrown>, tokenFault: Option<Thrown>)
    returns (resp: Response)
    requires db.Valid()
    modifies db
    ensures db.Valid()
    ensures ParseLogin(body, o.isEmail).Failure? ==>
      resp == SendErrorResponse(ParseLogin(body, o.isEmail).error) && unchanged(db)
    ensures ParseLogin(body, o.isEmail).Success? ==>
      var (email, password) := ParseLogin(body, o.isEmail).value;
      var found := UserByEmail(old(db.accounts), email);
      if lookupFault.Some? then
        resp == SendErrorResponse(lookupFault.value) && unchanged(db)
      else if found.None? then
        resp == NoAccount && unchanged(db)
      else if !o.compare(password, found.value.password) then
        resp == WrongPassword && unchanged(db)
      else if tokenFault.Some? then
        resp == SendErrorResponse(tokenFault.value) && unchanged(db)
      else
        && resp == Response(OK, SafeUserBody(WithoutPassword(found.value)))
        && db.accounts == AddToken(old(db.accounts), found.value.id, o.sign(found.value.id))
        && db.todos == old(db.todos)
        && db.nextUserId == old(db.nextUserId) && db.nextTodoId == old(db.nextTodoId)
  {
    var validData := ParseLogin(body, o.isEmail);
    if validData.Failure? {
      return SendErrorResponse(validData.error);
    }
    var (email, password) := validData.value;
    var found := db.FindUserByEmail(email, lookupFault);
    if found.Failure? {
      return SendErrorResponse(found.error);
    }
    if found.value.None? {
      return NoAccount;
    }
    var user := found.value.value;
    var isCorrectPass := o.compare(password, user.password);
    if !isCorrectPass {
      return WrongPassword;
    }
    var token := o.sign(user.id);
    var updated := db.AppendToken(user.id, token, tokenFault);
    if updated.Failure? {
      return SendErrorResponse(updated.error);
    }
    resp := Response(OK, SafeUserBody(WithoutPassword(user)));
  }

  /**
   * GET /users. No users is a 404; otherwise all of them. Its errors skip
   * `sendErrorResponse`: a 500 that carries the caught error.
   */
  method ListUsers(db: Store, fault: Option<Thrown>) returns (resp: Response)
    ensures fault.Some? ==> resp == Response(INTERNAL_SERVER_ERROR, CaughtBody(fault.value))
    ensures fault.None? && db.accounts == [] ==> resp == NoUsersLeft
    ensures fault.None? && db.accounts != [] ==> resp == Response(OK, UsersBody(Users(db.accounts)))
    ensures fault.None? && db.accounts != [] ==> forall u :: u in resp.body.users <==> exists k :: 0 <= k < |db.accounts| && db.accounts[k].user == u
  {
    var users := db.FindAllUsers(fault);
    if users.Failure? {
      return Response(INTERNAL_SERVER_ERROR, CaughtBody(users.error));
    }
    if |users.value| == 0 {
      return NoUsersLeft;
    }
    resp := Response(OK, UsersBody(users.value));
    assert forall k :: 0 <= k < |db.accounts| ==> Users(db.accounts)[k] == db.accounts[k].user;
  }

  /**
   * DELETE /user/:userId. Responds with the removed row, after which its id
   * is gone; a missing id (P2025) or an unparseable one goes to `sendErrorResponse`.
   */
  method DeleteUser(db: Store, userId: string, o: Oracles, fault: Option<Thrown>) returns (resp: Response)
    requires db.Valid()
    modifies db
    ensures db.Valid()
    ensures
      var where := o.toNumber(userId);
      var err := DeleteUserError(old(db.accounts), where, fault);
      if err.Some? then
        resp == SendErrorResponse(err.value) && unchanged(db)
      else
        && resp == Response(OK, UserBody(UserById(old(db.accounts), where.value).value))
        && where.value !in Ids(db.accounts)
        && (forall id :: id != where.value ==> (id in Ids(db.accounts) <==> id in Ids(old(db.accounts))))
        && db.accounts == RemoveUser(old(db.accounts), where.value)
        && db.todos == Seqs.Filter(old(db.todos), AuthorIsNot(where.value))
        && db.nextUserId == old(db.nextUserId) && db.nextTodoId == old(db.nextTodoId)
  {
    var deleted := db.DeleteUser(o.toNumber(userId), fault);
    if deleted.Failure? {
      return SendErrorResponse(deleted.error);
    }
    RemoveUserEffect(old(db.accounts), o.toNumber(userId).value);
    resp := Response(OK, UserBody(deleted.value));
  }

  /**
   * PATCH /user/:userId. Validates with the partial schema, re-hashes a
   * present password, and replaces only the fields the body carries.
   */
  method PatchUser(db: Store, userId: string, body: UserFields, o: Oracles, fault: Option<Thrown>)
    returns (resp: Response)
    requires db.Valid()
    modifies db
    ensures db.Valid()
    ensures ParseUpdate(body, o.isEmail).Failure? ==>
      resp == SendErrorResponse(ParseUpdate(body, o.isEmail).error) && unchanged(db)
    ensures ParseUpdate(body, o.isEmail).Success? ==>
      var patch := Rehash(body, o.hash);
      var where := o.toNumber(userId);
      var err := UpdateUserError(old(db.accounts), where, patch, fault);
      if err.Some? then
        resp == SendErrorResponse(err.value) && unchanged(db)
      else
        && resp == Response(OK, UserBody(ApplyPatch(UserById(old(db.accounts), where.value).value, patch)))
        && db.accounts == UpdateFields(old(db.accounts), where.value, patch)
        && db.todos == old(db.todos)
        && db.nextUserId == old(db.nextUserId) && db.nextTodoId == old(db.nextTodoId)
  {
    var validData := ParseUpdate(body, o.isEmail);
    if validData.Failure? {
      return SendErrorResponse(validData.error);
    }
    var patch := Rehash(validData.value, o.hash);
    var updated := db.UpdateUser(o.toNumber(userId), patch, fault);
    if updated.Failure? {
      return SendErrorResponse(updated.error);
    }
    resp := Response(OK, UserBody(updated.value));
  }
}
