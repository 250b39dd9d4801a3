/**
 * The Prisma client and the database behind it, as far as the handlers use
 * them. Each operation can fail with an injected `fault` (any error Prisma or
 * the connection may raise); beyond that, it raises the known request errors
 * the schema's rules imply: P2002 for a second user with the same email,
 * P2025 for a missing row, P2003 for a todo whose author does not exist.
 * Deleting a user cascades to its tokens and its todos.
 */
module Database {
  import opened Wrappers
  import opened Types
  import Seqs
  import PrismaErrors

  function KnownError(c: PrismaErrors.PrismaErrorCode): Thrown {
    PrismaKnown(PrismaErrors.Code(c), map[])
  }

  const UniqueViolation := KnownError(PrismaErrors.UniqueConstraintViolation)
  const RecordMissing := KnownError(PrismaErrors.RecordNotFound)
  const ForeignKeyViolation := KnownError(PrismaErrors.ForeignKeyConstraintViolation)
  /** A NaN where Prisma expects an Int is a PrismaClientValidationError, not a known request error. */
  const InvalidArgument := Other

  function Ids(a: seq<Account>): seq<int> {
    seq(|a|, k requires 0 <= k < |a| => a[k].user.id)
  }

  function Emails(a: seq<Account>): seq<string> {
    seq(|a|, k requires 0 <= k < |a| => a[k].user.email)
  }

  /** `prisma.user.findMany({})`: every user row, in id order. */
  function Users(a: seq<Account>): seq<User> {
    seq(|a|, k requires 0 <= k < |a| => a[k].user)
  }

  function IdIs(id: int): Account -> bool {
    (acc: Account) => acc.user.id == id
  }

  function EmailIs(email: string): Account -> bool {
    (acc: Account) => acc.user.email == email
  }

  function IndexOfId(a: seq<Account>, id: int): (r: Option<nat>)
    ensures r.Some? ==> r.value < |a| && a[r.value].user.id == id
    ensures r.Some? ==> forall k :: 0 <= k < r.value ==> a[k].user.id != id
    ensures r.None? <==> id !in Ids(a)
  {
    var r := Seqs.FirstIndex(a, IdIs(id));
    assert r.None? ==> forall k :: 0 <= k < |a| ==> !IdIs(id)(a[k]);
    assert r.Some? ==> Ids(a)[r.value] == id;
    r
  }

  function IndexOfEmail(a: seq<Account>, email: string): (r: Option<nat>)
    ensures r.Some? ==> r.value < |a| && a[r.value].user.email == email
    ensures r.None? <==> email !in Emails(a)
  {
    var r := Seqs.FirstIndex(a, EmailIs(email));
    assert r.None? ==> forall k :: 0 <= k < |a| ==> !EmailIs(email)(a[k]);
    assert r.Some? ==> Emails(a)[r.value] == email;
    r
  }

  /** `prisma.user.findUnique({ where: { id } })`. */
  function UserById(a: seq<Account>, id: int): (r: Option<User>)
    ensures r.Some? <==> id in Ids(a)
    ensures r.Some? ==> r.value.id == id && r.value in Users(a)
  {
    match IndexOfId(a, id)
    case Some(i) => assert Users(a)[i] == a[i].user; Some(a[i].user)
    case None => None
  }

  /** `prisma.user.findUnique({ where: { email } })`. */
  function UserByEmail(a: seq<Account>, email: string): (r: Option<User>)
    ensures r.Some? <==> email in Emails(a)
    ensures r.Some? ==> r.value.email == email && r.value in Users(a) && r.value.id in Ids(a)
  {
    match IndexOfEmail(a, email)
    case Some(i) => assert Users(a)[i] == a[i].user && Ids(a)[i] == a[i].user.id; Some(a[i].user)
    case None => None
  }

  /** The tokens issued to the user with this id (none when there is no such user). */
  function TokensOf(a: seq<Account>, id: int): seq<string> {
    match IndexOfId(a, id)
    case Some(i) => a[i].tokens
    case None => []
  }

  function AuthorIs(id: int): Todo -> bool {
    (t: Todo) => t.authorId == id
  }

  function AuthorIsNot(id: int): Todo -> bool {
    (t: Todo) => t.authorId != id
  }

  /** `prisma.todo.findMany({ where: { authorId } })`. */
  function TodosOf(todos: seq<Todo>, authorId: int): seq<Todo> {
    Seqs.Filter(todos, AuthorIs(authorId))
  }

  /** Prisma's `update` with `data: patch`: a field left undefined keeps its value. */
  function ApplyPatch(u: User, patch: UserFields): User {
    User(u.id,
         patch.name.GetOr(u.name),
         if patch.lastName.Some? then patch.lastName else u.lastName,
         patch.email.GetOr(u.email),
         patch.password.GetOr(u.password))
  }

  /** Appending `{ tokens: { create: [{ token }] } }` to the user with this id. */
  function AddToken(a: seq<Account>, id: int, token: string): seq<Account> {
    match IndexOfId(a, id)
    case Some(i) => a[i := Account(a[i].user, a[i].tokens + [token])]
    case None => a
  }

  function UpdateFields(a: seq<Account>, id: int, patch: UserFields): seq<Account> {
    match IndexOfId(a, id)
    case Some(i) => a[i := Account(ApplyPatch(a[i].user, patch), a[i].tokens)]
    case None => a
  }

  function RemoveUser(a: seq<Account>, id: int): seq<Account> {
    match IndexOfId(a, id)
    case Some(i) => a[..i] + a[i + 1..]
    case None => a
  }

  /** The new email of a patch belongs to a user other than the one patched. */
  predicate EmailClash(a: seq<Account>, id: int, patch: UserFields) {
    patch.email.Some? &&
    match UserByEmail(a, patch.email.value)
    case Some(other) => other.id != id
    case None => false
  }

  // The error, if any, each operation raises; None means it succeeds.

  function CreateUserError(a: seq<Account>, data: NewUser, fault: Option<Thrown>): Option<Thrown> {
    if fault.Some? then fault
    else if data.email in Emails(a) then Some(UniqueViolation)
    else None
  }

  function AppendTokenError(a: seq<Account>, id: int, fault: Option<Thrown>): Option<Thrown> {
    if fault.Some? then fault
    else if id !in Ids(a) then Some(RecordMissing)
    else None
  }

  function UpdateUserError(a: seq<Account>, where: Option<int>, patch: UserFields, fault: Option<Thrown>): Option<Thrown> {
    if fault.Some? then fault
    else if where.None? then Some(InvalidArgument)
    else if where.value !in Ids(a) then Some(RecordMissing)
    else if EmailClash(a, where.value, patch) then Some(UniqueViolation)
    else None
  }

  function DeleteUserError(a: seq<Account>, where: Option<int>, fault: Option<Thrown>): Option<Thrown> {
    if fault.Some? then fault
    else if where.None? then Some(InvalidArgument)
    else if where.value !in Ids(a) then Some(RecordMissing)
    else None
  }

  function CreateTodoError(a: seq<Account>, data: TodoFields, fault: Option<Thrown>): Option<Thrown> {
    if fault.Some? then fault
    else if data.authorId !in Ids(a) then Some(ForeignKeyViolation)
    else None
  }

  /** Two account lists that hold the same user rows, in the same order. */
  predicate SameUsers(a: seq<Account>, b: seq<Account>) {
    |a| == |b| && forall k :: 0 <= k < |a| ==> a[k].user == b[k].user
  }

  lemma SameUsersSameViews(a: seq<Account>, b: seq<Account>)
    requires SameUsers(a, b)
    ensures Ids(a) == Ids(b) && Emails(a) == Emails(b) && Users(a) == Users(b)
  {
  }

  /** Where a user sits depends only on the ids. */
  lemma IndexOfIdByIds(a: seq<Account>, b: seq<Account>, id: int)
    requires Ids(a) == Ids(b)
    ensures IndexOfId(a, id) == IndexOfId(b, id)
  {
    var i, j := IndexOfId(a, id), IndexOfId(b, id);
    if i.Some? && j.Some? {
      assert Ids(a)[i.value] == id && Ids(b)[j.value] == id;
    }
  }

  /**
   * Appending a token changes no user row; the user with that id gains
   * exactly that token, and every other user's tokens stay as they were.
   */
  lemma AddTokenEffect(a: seq<Account>, id: int, token: string)
    requires id in Ids(a)
    ensures SameUsers(a, AddToken(a, id, token))
    ensures Users(AddToken(a, id, token)) == Users(a)
    ensures TokensOf(AddToken(a, id, token), id) == TokensOf(a, id) + [token]
    ensures forall other :: other != id ==> TokensOf(AddToken(a, id, token), other) == TokensOf(a, other)
  {
    var b := AddToken(a, id, token);
    assert SameUsers(a, b);
    SameUsersSameViews(a, b);
    forall other ensures TokensOf(b, other) == if other == id then TokensOf(a, id) + [token] else TokensOf(a, other) {
      IndexOfIdByIds(a, b, other);
      var i := IndexOfId(a, id).value;
      var k := IndexOfId(a, other);
      if k.Some? && other != id {
        assert k.value != i;
      }
    }
  }

  /** A token for the user just appended (an id not used before) lands on that last row. */
  lemma AddTokenToNewest(a: seq<Account>, acc: Account, token: string)
    requires acc.user.id !in Ids(a)
    ensures AddToken(a + [acc], acc.user.id, token) == a + [Account(acc.user, acc.tokens + [token])]
  {
    var b := a + [acc];
    assert Ids(b) == Ids(a) + [acc.user.id];
    forall k | 0 <= k < |a| ensures b[k].user.id != acc.user.id {
      assert Ids(a)[k] == b[k].user.id;
    }
  }

  /** A user appended with a fresh email is the one found by that email. */
  lemma UserByEmailNewest(a: seq<Account>, acc: Account)
    requires acc.user.email !in Emails(a)
    ensures UserByEmail(a + [acc], acc.user.email) == Some(acc.user)
  {
    var b := a + [acc];
    assert Emails(b) == Emails(a) + [acc.user.email];
    forall k | 0 <= k < |a| ensures b[k].user.email != acc.user.email {
      assert Emails(a)[k] == b[k].user.email;
    }
  }

  /** Without an unknown id, removing the user leaves every other id and drops that one. */
  lemma RemoveUserEffect(a: seq<Account>, id: int)
    requires Seqs.Increasing(Ids(a)) && id in Ids(a)
    ensures |RemoveUser(a, id)| == |a| - 1
    ensures id !in Ids(RemoveUser(a, id))
    ensures forall x :: x != id ==> (x in Ids(RemoveUser(a, id)) <==> x in Ids(a))
  {
    var i := IndexOfId(a, id).value;
    var b := RemoveUser(a, id);
    assert Ids(b) == Ids(a)[..i] + Ids(a)[i + 1..];
    forall x | x in Ids(a) && x != id ensures x in Ids(b) {
      var k :| 0 <= k < |a| && Ids(a)[k] == x;
      assert k != i;
      if k < i { assert Ids(b)[k] == x; } else { assert Ids(b)[k - 1] == x; }
    }
    assert Ids(a)[i] == id;
    forall k | 0 <= k < |b| ensures Ids(b)[k] != id {
      if k < i { assert Ids(b)[k] == Ids(a)[k]; } else { assert Ids(b)[k] == Ids(a)[k + 1]; }
    }
  }

  /** Patching keeps the id; a patch with no fields changes nothing; patching twice is patching once. */
  lemma ApplyPatchLaws(u: User, patch: UserFields)
    ensures ApplyPatch(u, patch).id == u.id
    ensures ApplyPatch(u, UserFields(None, None, None, None)) == u
    ensures ApplyPatch(ApplyPatch(u, patch), patch) == ApplyPatch(u, patch)
  {
  }

  /** A patch that carries only an email leaves name, last name and password unchanged. */
  lemma EmailOnlyPatch(u: User, email: string)
    ensures ApplyPatch(u, UserFields(None, Some(email), None, None)) == u.(email := email)
  {
  }

  class Store {
    var accounts: seq<Account>
    var todos: seq<Todo>
    var nextUserId: int
    var nextTodoId: int

    /**
     * User ids are increasing (so unique) and below the next id to assign,
     * emails are unique, and every todo's author exists.
     */
    ghost predicate Valid()
      reads this
    {
      && Seqs.Increasing(Ids(accounts))
      && (forall id :: id in Ids(accounts) ==> id < nextUserId)
      && Seqs.Distinct(Emails(accounts))
      && (forall t :: t in todos ==> t.authorId in Ids(accounts) && t.id < nextTodoId)
    }

    /** An empty database; autoincrement ids start at 1. */
    constructor ()
      ensures Valid()
      ensures accounts == [] && todos == [] && nextUserId == 1 && nextTodoId == 1
    {
      accounts, todos := [], [];
      nextUserId, nextTodoId := 1, 1;
    }

    /** `prisma.user.create({ data })`. */
    method CreateUser(data: NewUser, fault: Option<Thrown>) returns (r: Result<User, Thrown>)
      requires Valid()
      modifies this
      ensures Valid()
      ensures CreateUserError(old(accounts), data, fault).Some? ==>
        r == Failure(CreateUserError(old(accounts), data, fault).value) && unchanged(this)
      ensures CreateUserError(old(accounts), data, fault).None? ==>
        && r == Success(data.WithId(old(nextUserId)))
        && accounts == old(accounts) + [Account(data.WithId(old(nextUserId)), [])]
        && todos == old(todos) && nextUserId == old(nextUserId) + 1 && nextTodoId == old(nextTodoId)
    {
      var err := CreateUserError(accounts, data, fault);
      if err.Some? {
        return Failure(err.value);
      }
      var u := data.WithId(nextUserId);
      var a := accounts + [Account(u, [])];
      forall k | 0 <= k < |accounts| ensures Ids(accounts)[k] < u.id {
        assert Ids(accounts)[k] in Ids(accounts);
      }
      assert Ids(a) == Ids(accounts) + [u.id];
      assert Emails(a) == Emails(accounts) + [u.email];
      accounts := a;
      nextUserId := nextUserId + 1;
      r := Success(u);
    }

    /** `prisma.user.update({ where: { id }, data: { tokens: { create: [{ token }] } } })`. */
    method AppendToken(id: int, token: string, fault: Option<Thrown>) returns (r: Result<User, Thrown>)
      requires Valid()
      modifies this
      ensures Valid()
      ensures AppendTokenError(old(accounts), id, fault).Some? ==>
        r == Failure(AppendTokenError(old(accounts), id, fault).value) && unchanged(this)
      ensures AppendTokenError(old(accounts), id, fault).None? ==>
        && r == Success(UserById(old(accounts), id).value)
        && accounts == AddToken(old(accounts), id, token)
        && todos == old(todos) && nextUserId == old(nextUserId) && nextTodoId == old(nextTodoId)
    {
      var err := AppendTokenError(accounts, id, fault);
      if err.Some? {
        return Failure(err.value);
      }
      r := Success(UserById(accounts, id).value);
      AddTokenEffect(accounts, id, token);
      SameUsersSameViews(accounts, AddToken(accounts, id, token));
      accounts := AddToken(accounts, id, token);
    }

    /** `prisma.user.update({ where: { id: Number(userId) }, data: patch })`. */
    method UpdateUser(where: Option<int>, patch: UserFields, fault: Option<Thrown>) returns (r: Result<User, Thrown>)
      requires Valid()
      modifies this
      ensures Valid()
      ensures UpdateUserError(old(accounts), where, patch, fault).Some? ==>
        r == Failure(UpdateUserError(old(accounts), where, patch, fault).value) && unchanged(this)
      ensures UpdateUserError(old(accounts), where, patch, fault).None? ==>
        && r == Success(ApplyPatch(UserById(old(accounts), where.value).value, patch))
        && accounts == UpdateFields(old(accounts), where.value, patch)
        && todos == old(todos) && nextUserId == old(nextUserId) && nextTodoId == old(nextTodoId)
    {
      var err := UpdateUserError(accounts, where, patch, fault);
      if err.Some? {
        return Failure(err.value);
      }
      var id := where.value;
      var i := IndexOfId(accounts, id).value;
      var u := ApplyPatch(accounts[i].user, patch);
      var a := UpdateFields(accounts, id, patch);
      assert Ids(a) == Ids(accounts);
      PatchKeepsEmailsDistinct(accounts, i, patch);
      accounts := a;
      r := Success(u);
    }

    /** `prisma.user.delete({ where: { id: Number(userId) } })`, cascading to tokens and todos. */
    method DeleteUser(where: Option<int>, fault: Option<Thrown>) returns (r: Result<User, Thrown>)
      requires Valid()
      modifies this
      ensures Valid()
      ensures DeleteUserError(old(accounts), where, fault).Some? ==>
        r == Failure(DeleteUserError(old(accounts), where, fault).value) && unchanged(this)
      ensures DeleteUserError(old(accounts), where, fault).None? ==>
        && r == Success(UserById(old(accounts), where.value).value)
        && accounts == RemoveUser(old(accounts), where.value)
        && todos == Seqs.Filter(old(todos), AuthorIsNot(where.value))
        && nextUserId == old(nextUserId) && nextTodoId == old(nextTodoId)
    {
      var err := DeleteUserError(accounts, where, fault);
      if err.Some? {
        return Failure(err.value);
      }
      var id := where.value;
      var i := IndexOfId(accounts, id).value;
      r := Success(UserById(accounts, id).value);
      var a := RemoveUser(accounts, id);
      assert Ids(a) == Ids(accounts)[..i] + Ids(accounts)[i + 1..];
      assert Emails(a) == Emails(accounts)[..i] + Emails(accounts)[i + 1..];
      Seqs.RemoveKeepsIncreasing(Ids(accounts), i);
      Seqs.RemoveKeepsDistinct(Emails(accounts), i);
      RemoveUserEffect(accounts, id);
      var ts := Seqs.Filter(todos, AuthorIsNot(id));
      forall t | t in ts ensures t.authorId in Ids(a) && t.id < nextTodoId {
        var k :| 0 <= k < |ts| && ts[k] == t;
        assert AuthorIsNot(id)(ts[k]);
      }
      accounts, todos := a, ts;
    }

    /** `prisma.todo.create({ data })`. */
    method CreateTodo(data: TodoFields, fault: Option<Thrown>) returns (r: Result<Todo, Thrown>)
      requires Valid()
      modifies this
      ensures Valid()
      ensures CreateTodoError(old(accounts), data, fault).Some? ==>
        r == Failure(CreateTodoError(old(accounts), data, fault).value) && unchanged(this)
      ensures CreateTodoError(old(accounts), data, fault).None? ==>
        && r == Success(Todo(old(nextTodoId), data.title, data.content, data.completed, data.authorId))
        && todos == old(todos) + [r.value]
        && accounts == old(accounts) && nextUserId == old(nextUserId) && nextTodoId == old(nextTodoId) + 1
    {
      var err := CreateTodoError(accounts, data, fault);
      if err.Some? {
        return Failure(err.value);
      }
      var t := Todo(nextTodoId, data.title, data.content, data.completed, data.authorId);
      todos := todos + [t];
      nextTodoId := nextTodoId + 1;
      r := Success(t);
    }

    /** `prisma.user.findUnique({ where: { id } })`. */
    method FindUserById(id: int, fault: Option<Thrown>) returns (r: Result<Option<User>, Thrown>)
      ensures fault.Some? ==> r == Failure(fault.value)
      ensures fault.None? ==> r == Success(UserById(accounts, id))
    {
      if fault.Some? {
        return Failure(fault.value);
      }
      r := Success(UserById(accounts, id));
    }

    /** `prisma.user.findUnique({ where: { email } })`. */
    method FindUserByEmail(email: string, fault: Option<Thrown>) returns (r: Result<Option<User>, Thrown>)
      ensures fault.Some? ==> r == Failure(fault.value)
      ensures fault.None? ==> r == Success(UserByEmail(accounts, email))
    {
      if fault.Some? {
        return Failure(fault.value);
      }
      r := Success(UserByEmail(accounts, email));
    }

    /** `prisma.user.findMany({})`. */
    method FindAllUsers(fault: Option<Thrown>) returns (r: Result<seq<User>, Thrown>)
      ensures fault.Some? ==> r == Failure(fault.value)
      ensures fault.None? ==> r == Success(Users(accounts))
    {
      if fault.Some? {
        return Failure(fault.value);
      }
      r := Success(Users(accounts));
    }

    /** `prisma.todo.findMany({ where: { authorId } })`. */
    method FindTodosByAuthor(authorId: int, fault: Option<Thrown>) returns (r: Result<seq<Todo>, Thrown>)
      ensures fault.Some? ==> r == Failure(fault.value)
      ensures fault.None? ==> r == Success(TodosOf(todos, authorId))
    {
      if fault.Some? {
        return Failure(fault.value);
      }
      r := Success(TodosOf(todos, authorId));
    }
  }

  /** A patch whose email does not clash keeps the emails distinct. */
  lemma PatchKeepsEmailsDistinct(a: seq<Account>, i: nat, patch: UserFields)
    requires Seqs.Increasing(Ids(a)) && Seqs.Distinct(Emails(a))
    requires i < |a| && !EmailClash(a, a[i].user.id, patch)
    ensures Seqs.Distinct(Emails(a[i := Account(ApplyPatch(a[i].user, patch), a[i].tokens)]))
  {
    var b := a[i := Account(ApplyPatch(a[i].user, patch), a[i].tokens)];
    forall j, k | 0 <= j < k < |b| ensures Emails(b)[j] != Emails(b)[k] {
      if (j == i || k == i) && patch.email.Some? {
        var other := if j == i then k else j;
        var e := patch.email.value;
        assert Ids(a)[other] != Ids(a)[i];
        if e in Emails(a) {
          // the owner of `e` has the patched user's id, so it is the patched user
          var m := IndexOfEmail(a, e).value;
          assert UserByEmail(a, e) == Some(a[m].user);
          assert Ids(a)[m] == Ids(a)[i];
          assert m == i;
          assert Emails(a)[other] != Emails(a)[i];
        }
        assert Emails(b)[i] == e && Emails(b)[other] == Emails(a)[other];
      } else {
        assert Emails(a)[j] != Emails(a)[k];
        assert Emails(b)[j] == Emails(a)[j] && Emails(b)[k] == Emails(a)[k];
      }
    }
  }
}
