/** The parts of Express's `req` and `res` the middleware touches. */
module Express {
  import opened Wrappers
  import opened Types

  class Exchange {
    /** `req.headers.authorization`. */
    const authorization: Option<string>
    /** `req.user`, set by the auth gate. */
    var user: Option<User>
    /** Every response sent on `res`, in order. */
    var sent: seq<Response>
    /** How many times `next()` has been called. */
    var nextCalls: nat

    constructor (authorization: Option<string>)
      ensures this.authorization == authorization
      ensures user == None && sent == [] && nextCalls == 0
    {
      this.authorization := authorization;
      user, sent, nextCalls := None, [], 0;
    }

    /** `res.status(r.status).send(r.body)`. */
    method Send(r: Response)
      modifies this
      ensures sent == old(sent) + [r]
      ensures user == old(user) && nextCalls == old(nextCalls)
    {
      sent := sent + [r];
    }

    /** `next()`: hands the request on to the route handler. */
    method Next()
      modifies this
      ensures nextCalls == old(nextCalls) + 1
      ensures user == old(user) && sent == old(sent)
    {
      nextCalls := nextCalls + 1;
    }
  }
}
