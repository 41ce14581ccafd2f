/**
 * `requireAuth` of the API routes: on success it records the caller's id on
 * the request and calls `next` once; otherwise it answers 401 and `next` is
 * never called. Nothing it meets is turned into a 500.
 */
module AuthMiddleware {
  import opened Wrappers
  import opened Bearer

  /** The parts of an Express request and response this middleware touches. */
  class AuthRequest {
    const authorization: Option<string>
    var userId: Option<Id>
    /** The status sent on the response, if the middleware answered. */
    var status: Option<int>
    /** How many times `next()` has been called. */
    var nextCalls: nat

    constructor (authorization: Option<string>)
      ensures this.authorization == authorization
      ensures userId == None && status == None && nextCalls == 0
    {
      this.authorization := authorization;
      userId := None;
      status := None;
      nextCalls := 0;
    }
  }

  method RequireAuth(req: AuthRequest, getUser: string -> Verification)
    modifies req
    ensures match Authenticate(req.authorization, getUser)
            case Some(user) =>
              req.userId == Some(user.id) && req.nextCalls == old(req.nextCalls) + 1
              && req.status == old(req.status)
            case None =>
              req.status == Some(Unauthorized) && req.nextCalls == old(req.nextCalls)
              && req.userId == old(req.userId)
  {
    var token := Token(req.authorization);
    if token.None? {
      req.status := Some(Unauthorized);
      return;
    }
    var verdict := getUser(token.value);
    match verdict {
      case Threw =>
        req.status := Some(Unauthorized);
      case ProviderError =>
        req.status := Some(Unauthorized);
      case NoUser =>
        req.status := Some(Unauthorized);
      case Verified(user) =>
        req.userId := Some(user.id);
        req.nextCalls := req.nextCalls + 1;
    }
  }
}
