/**
 * `authMiddleware`: strips "Bearer " from the Authorization header, verifies
 * the token, looks its user up, and either admits the request (setting
 * `req.user` and calling `next`) or sends one 401 or 404.
 */
module AuthMiddleware {
  import opened Wrappers
  import opened Types
  import opened External
  import opened Database
  import opened Express
  import Strings

  const BearerPrefix := "Bearer "

  const AuthenticationRequired := Response(UNAUTHORIZED, MessageBody("Authentication required"))
  const TokenRejected := Response(UNAUTHORIZED, MessageBody("Either token is expired or not found"))
  const UserGone := Response(NOT_FOUND, MessageBody("The token is wither expired , please login again"))

  /** `req.headers.authorization?.replace("Bearer ", "")`. */
  function ExtractToken(authorization: Option<string>): (token: Option<string>)
    ensures token.None? <==> authorization.None?
  {
    match authorization
    case None => None
    case Some(h) => Some(Strings.Replace(h, BearerPrefix, ""))
  }

  datatype Decision = Admit(user: User) | Reject(response: Response)

  /**
   * What the middleware decides for a request with this header, against a
   * database holding `accounts`; `lookupFault` is an error the user lookup throws.
   */
  function Gate(authorization: Option<string>, accounts: seq<Account>, o: Oracles, lookupFault: Option<Thrown>): (d: Decision)
    ensures d.Admit? ==> d.user in Users(accounts)
    ensures d.Reject? ==> d.response.status == UNAUTHORIZED || d.response == UserGone
  {
    match ExtractToken(authorization)
    case None => Reject(AuthenticationRequired)
    case Some(token) =>
      if token == "" then Reject(AuthenticationRequired)
      else match o.verify(token)
        case None => Reject(TokenRejected)
        case Some(id) =>
          if lookupFault.Some? then Reject(TokenRejected)
          else match UserById(accounts, id)
            case None => Reject(UserGone)
            case Some(u) => Admit(u)
  }

  /**
   * The middleware itself. Exactly one thing happens: either `req.user` is
   * set and `next` is called once with nothing sent, or exactly one response
   * is sent and `next` is not called.
   */
  method Authenticate(ex: Exchange, db: Store, o: Oracles, lookupFault: Option<Thrown>)
    modifies ex
    ensures Gate(ex.authorization, db.accounts, o, lookupFault).Admit? ==>
      && ex.user == Some(Gate(ex.authorization, db.accounts, o, lookupFault).user)
      && ex.nextCalls == old(ex.nextCalls) + 1
      && ex.sent == old(ex.sent)
    ensures Gate(ex.authorization, db.accounts, o, lookupFault).Reject? ==>
      && ex.sent == old(ex.sent) + [Gate(ex.authorization, db.accounts, o, lookupFault).response]
      && ex.nextCalls == old(ex.nextCalls)
      && ex.user == old(ex.user)
  {
    var token := ExtractToken(ex.authorization);
    if token.None? || token.value == "" {
      ex.Send(AuthenticationRequired);
      return;
    }
    var decoded := o.verify(token.value);
    if decoded.None? {
      ex.Send(TokenRejected);
      return;
    }
    var found := db.FindUserById(decoded.value, lookupFault);
    if found.Failure? {
      ex.Send(TokenRejected);
      return;
    }
    if found.value.None? {
      ex.Send(UserGone);
      return;
    }
    ex.user := found.value;
    ex.Next();
  }

  /**
   * A missing header, or one that is empty once "Bearer " is taken out, is a
   * 401 "Authentication required" that neither verifies nor looks anything
   * up: the decision is the same whatever the verifier and the database say.
   */
  lemma MissingTokenRejected(authorization: Option<string>, accounts: seq<Account>, o: Oracles, lookupFault: Option<Thrown>)
    requires authorization.None? || Strings.Replace(authorization.value, BearerPrefix, "") == ""
    ensures Gate(authorization, accounts, o, lookupFault) == Reject(AuthenticationRequired)
    ensures forall accounts', o', fault' :: Gate(authorization, accounts', o', fault') == Gate(authorization, accounts, o, lookupFault)
  {
  }

  /** A header that is exactly "Bearer " leaves an empty token. */
  lemma BarePrefixRejected(accounts: seq<Account>, o: Oracles, lookupFault: Option<Thrown>)
    ensures Gate(Some(BearerPrefix), accounts, o, lookupFault) == Reject(AuthenticationRequired)
  {
    Strings.ReplaceAtStart(BearerPrefix, "", "");
    assert BearerPrefix + "" == BearerPrefix;
  }

  /** A token that does not verify is a 401 that looks nothing up. */
  lemma BadTokenRejected(authorization: Option<string>, accounts: seq<Account>, o: Oracles, lookupFault: Option<Thrown>)
    requires ExtractToken(authorization).Some? && ExtractToken(authorization).value != ""
    requires o.verify(ExtractToken(authorization).value).None?
    ensures Gate(authorization, accounts, o, lookupFault) == Reject(TokenRejected)
    ensures forall accounts', fault' :: Gate(authorization, accounts', o, fault') == Reject(TokenRejected)
  {
  }

  /** A lookup that throws gives the same 401 as a bad token. */
  lemma LookupFailureRejected(authorization: Option<string>, accounts: seq<Account>, o: Oracles, e: Thrown)
    requires ExtractToken(authorization).Some? && ExtractToken(authorization).value != ""
    requires o.verify(ExtractToken(authorization).value).Some?
    ensures Gate(authorization, accounts, o, Some(e)) == Reject(TokenRejected)
  {
  }

  /** The gate admits exactly the requests whose token names a stored user, and admits that user. */
  lemma AdmitExactly(authorization: Option<string>, accounts: seq<Account>, o: Oracles, lookupFault: Option<Thrown>)
    ensures Gate(authorization, accounts, o, lookupFault).Admit? <==>
      && ExtractToken(authorization).Some? && ExtractToken(authorization).value != ""
      && o.verify(ExtractToken(authorization).value).Some?
      && lookupFault.None?
      && o.verify(ExtractToken(authorization).value).value in Ids(accounts)
    ensures Gate(authorization, accounts, o, lookupFault).Admit? ==>
      Gate(authorization, accounts, o, lookupFault).user
        == UserById(accounts, o.verify(ExtractToken(authorization).value).value).value
  {
  }

  /** An admitted request names a stored user, so the store is never empty behind the gate. */
  lemma AdmittedMeansUsersExist(authorization: Option<string>, accounts: seq<Account>, o: Oracles, lookupFault: Option<Thrown>)
    ensures Gate(authorization, accounts, o, lookupFault).Admit? ==> accounts != []
  {
  }

  /** A verified token for an id with no user (a deleted account) is a 404. */
  lemma DeletedUserNotFound(authorization: Option<string>, accounts: seq<Account>, o: Oracles)
    requires ExtractToken(authorization).Some? && ExtractToken(authorization).value != ""
    requires o.verify(ExtractToken(authorization).value).Some?
    requires o.verify(ExtractToken(authorization).value).value !in Ids(accounts)
    ensures Gate(authorization, accounts, o, None) == Reject(UserGone)
  {
  }

  /**
   * "Authorization: Bearer <token>" with a token signed over a stored user's
   * id admits that user.
   */
  lemma SignedTokenAdmitted(accounts: seq<Account>, o: Oracles, id: int)
    requires Sound(o)
    requires id in Ids(accounts)
    ensures Gate(Some(BearerPrefix + o.sign(id)), accounts, o, None) == Admit(UserById(accounts, id).value)
  {
    Strings.ReplaceAtStart(BearerPrefix, o.sign(id), "");
    assert "" + o.sign(id) == o.sign(id);
  }
}
