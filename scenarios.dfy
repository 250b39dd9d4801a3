/**
 * Requests in sequence and routes with their middleware: what a client can
 * conclude from the handlers' contracts alone.
 */
module Scenarios {
  import opened Wrappers
  import opened Types
  import opened External
  import opened PrismaErrors
  import opened ResponseHelpers
  import opened Database
  import opened Express
  import opened AuthMiddleware
  import opened UserRoutes
  import Strings

  /**
   * Registering a fresh email and then logging in with the same password
   * succeeds twice: the new user ends up with two tokens, each signed over
   * its id, and login answers with the user minus its password.
   */
  method RegisterThenLogin(db: Store, name: string, email: string, password: string, o: Oracles)
    returns (registered: Response, loggedIn: Response)
    requires db.Valid() && Sound(o)
    requires Strings.Utf16Length(name) >= 1 && o.isEmail(email) && Strings.Utf16Length(password) >= 7
    requires email !in Emails(db.accounts)
    modifies db
    ensures db.Valid()
    ensures
      var u := User(old(db.nextUserId), name, None, email, o.hash(password));
      && registered == Response(CREATED, UserBody(u))
      && loggedIn == Response(OK, SafeUserBody(SafeUser(u.id, name, None, email)))
      && db.accounts == old(db.accounts) + [Account(u, [o.sign(u.id), o.sign(u.id)])]
  {
    ghost var before := db.accounts;
    var u := User(db.nextUserId, name, None, email, o.hash(password));
    assert u.id !in Ids(before);
    registered := CreateUser(db, UserFields(Some(name), Some(email), None, Some(password)), o, None, None);
    UserByEmailNewest(before, Account(u, [o.sign(u.id)]));
    assert o.compare(password, o.hash(password));
    loggedIn := Login(db, LoginFields(Some(email), Some(password)), o, None, None);
    AddTokenToNewest(before, Account(u, [o.sign(u.id)]), o.sign(u.id));
    assert [o.sign(u.id)] + [o.sign(u.id)] == [o.sign(u.id), o.sign(u.id)];
  }

  /** Deleting the same user twice: the first call returns the row, the second is the record-not-found 400. */
  method DeleteTwice(db: Store, userId: string, o: Oracles) returns (first: Response, second: Response)
    requires db.Valid()
    requires o.toNumber(userId).Some? && o.toNumber(userId).value in Ids(db.accounts)
    modifies db
    ensures db.Valid()
    ensures first == Response(OK, UserBody(UserById(old(db.accounts), o.toNumber(userId).value).value))
    ensures second == Response(BAD_REQUEST, PrismaErrorBody(Message(RecordNotFound), "P2025", map[]))
  {
    first := DeleteUser(db, userId, o, None);
    second := DeleteUser(db, userId, o, None);
    KnownCodeIsClientError(RecordNotFound, map[]);
  }

  /** The errors the store raises by its rules all reach the client as 400s with their table message. */
  lemma StoreRuleErrorsAreClientErrors()
    ensures SendErrorResponse(UniqueViolation)
         == Response(BAD_REQUEST, PrismaErrorBody(Message(UniqueConstraintViolation), "P2002", map[]))
    ensures SendErrorResponse(RecordMissing)
         == Response(BAD_REQUEST, PrismaErrorBody(Message(RecordNotFound), "P2025", map[]))
    ensures SendErrorResponse(ForeignKeyViolation)
         == Response(BAD_REQUEST, PrismaErrorBody(Message(ForeignKeyConstraintViolation), "P2003", map[]))
  {
    KnownCodeIsClientError(UniqueConstraintViolation, map[]);
    KnownCodeIsClientError(RecordNotFound, map[]);
    KnownCodeIsClientError(ForeignKeyConstraintViolation, map[]);
  }

  /**
   * `router.get("/users", authMiddleware, handler)`: exactly one response
   * per request. A rejected request gets the gate's response and the handler
   * does not run; an admitted one gets the handler's. An admitted request
   * names a stored user, so "There are no users left" is never sent here.
   */
  method GetUsersRoute(ex: Exchange, db: Store, o: Oracles, lookupFault: Option<Thrown>, listFault: Option<Thrown>)
    modifies ex
    ensures |ex.sent| == |old(ex.sent)| + 1 && ex.sent[..|old(ex.sent)|] == old(ex.sent)
    ensures Gate(ex.authorization, db.accounts, o, lookupFault).Reject? ==>
      && ex.sent[|ex.sent| - 1] == Gate(ex.authorization, db.accounts, o, lookupFault).response
      && ex.user == old(ex.user) && ex.nextCalls == old(ex.nextCalls)
    ensures Gate(ex.authorization, db.accounts, o, lookupFault).Admit? ==>
      && ex.user == Some(Gate(ex.authorization, db.accounts, o, lookupFault).user)
      && ex.nextCalls == old(ex.nextCalls) + 1
      && ex.sent[|ex.sent| - 1] ==
           if listFault.Some? then Response(INTERNAL_SERVER_ERROR, CaughtBody(listFault.value))
           else if db.accounts == [] then NoUsersLeft
           else Response(OK, UsersBody(Users(db.accounts)))
    ensures Gate(ex.authorization, db.accounts, o, lookupFault).Admit? ==> ex.sent[|ex.sent| - 1] != NoUsersLeft
  {
    var calls := ex.nextCalls;
    Authenticate(ex, db, o, lookupFault);
    if ex.nextCalls > calls {
      var resp := ListUsers(db, listFault);
      ex.Send(resp);
    }
    AdmittedMeansUsersExist(ex.authorization, db.accounts, o, lookupFault);
  }
}
