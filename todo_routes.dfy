/**
 * The todo router: POST /todo and GET /todo/:userId. (The router is never
 * mounted by the application; its handlers are modelled on their own.)
 */
module TodoRoutes {
  import opened Wrappers
  import opened Types
  import opened External
  import opened ResponseHelpers
  import opened Database
  import Seqs

  const InvalidUserId := Response(BAD_REQUEST, ErrorBody("Invalid user ID format"))
  const NoTodos := Response(NOT_FOUND, ErrorBody("There were no todo's for this user "))

  /**
   * POST /todo. The body's four fields go to the store as they are, with no
   * schema; success is OK (not CREATED) with the new row, and a store error
   * (P2003 for an author that does not exist) goes to `sendErrorResponse`.
   */
  method CreateTodo(db: Store, body: TodoFields, fault: Option<Thrown>) returns (resp: Response)
    requires db.Valid()
    modifies db
    ensures db.Valid()
    ensures CreateTodoError(old(db.accounts), body, fault).Some? ==>
      resp == SendErrorResponse(CreateTodoError(old(db.accounts), body, fault).value) && unchanged(db)
    ensures CreateTodoError(old(db.accounts), body, fault).None? ==>
      var t := Todo(old(db.nextTodoId), body.title, body.content, body.completed, body.authorId);
      && resp == Response(OK, TodoBody(t))
      && db.todos == old(db.todos) + [t]
      && TodosOf(db.todos, body.authorId) == TodosOf(old(db.todos), body.authorId) + [t]
      && db.accounts == old(db.accounts)
      && db.nextUserId == old(db.nextUserId) && db.nextTodoId == old(db.nextTodoId) + 1
  {
    var todo := db.CreateTodo(body, fault);
    if todo.Failure? {
      return SendErrorResponse(todo.error);
    }
    Seqs.FilterAppend(old(db.todos), todo.value, AuthorIs(body.authorId));
    resp := Response(OK, TodoBody(todo.value));
  }

  /**
   * GET /todo/:userId. An id that parses to NaN is a 400 before the store is
   * asked; no todos is a 404; otherwise the author's todos. It changes nothing.
   */
  method GetTodos(db: Store, userId: string, o: Oracles, fault: Option<Thrown>) returns (resp: Response)
    ensures o.toNumber(userId).None? ==> resp == InvalidUserId
    ensures o.toNumber(userId).Some? && fault.Some? ==> resp == SendErrorResponse(fault.value)
    ensures o.toNumber(userId).Some? && fault.None? ==>
      var todos := TodosOf(db.todos, o.toNumber(userId).value);
      resp == if todos == [] then NoTodos else Response(OK, TodosBody(todos))
  {
    var id := o.toNumber(userId);
    if id.None? {
      return InvalidUserId;
    }
    var todos := db.FindTodosByAuthor(id.value, fault);
    if todos.Failure? {
      return SendErrorResponse(todos.error);
    }
    if |todos.value| == 0 {
      return NoTodos;
    }
    resp := Response(OK, TodosBody(todos.value));
  }

  /** The todos listed for an author are exactly the stored todos with that `authorId`. */
  lemma TodosOfExact(todos: seq<Todo>, authorId: int)
    ensures forall t :: t in TodosOf(todos, authorId) <==> t in todos && t.authorId == authorId
  {
    var r := TodosOf(todos, authorId);
    forall t | t in r ensures t in todos && t.authorId == authorId {
      var k :| 0 <= k < |r| && r[k] == t;
      assert AuthorIs(authorId)(r[k]);
    }
    forall t | t in todos && t.authorId == authorId ensures t in r {
      var k :| 0 <= k < |todos| && todos[k] == t;
      assert AuthorIs(authorId)(todos[k]);
    }
  }

  /** The list is empty, and the answer NOT_FOUND, exactly when no stored todo has that author. */
  lemma NoTodosExactly(todos: seq<Todo>, authorId: int)
    ensures TodosOf(todos, authorId) == [] <==> forall k :: 0 <= k < |todos| ==> todos[k].authorId != authorId
  {
    TodosOfExact(todos, authorId);
    if TodosOf(todos, authorId) != [] {
      assert TodosOf(todos, authorId)[0] in TodosOf(todos, authorId);
    }
    if exists k :: 0 <= k < |todos| && todos[k].authorId == authorId {
      var k :| 0 <= k < |todos| && todos[k].authorId == authorId;
      assert todos[k] in todos;
    }
  }

  /** When every stored todo belongs to the author, all of them are listed, in order. */
  lemma SoleAuthorSeesAll(todos: seq<Todo>, authorId: int)
    requires forall k :: 0 <= k < |todos| ==> todos[k].authorId == authorId
    ensures TodosOf(todos, authorId) == todos
  {
    Seqs.FilterKeepsAll(todos, AuthorIs(authorId));
  }
}
