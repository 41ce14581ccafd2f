/**
 * The older authentication module of the server: it refuses to load without
 * the identity provider's URL and key, and its `requireAuth` attaches the
 * whole provider user to the request instead of just its id.
 */
module ServerAuth {
  import opened Wrappers
  import opened Js
  import opened Bearer

  /** The module throws while loading unless both environment variables are set and non-empty. */
  function Loads(supabaseUrl: Option<string>, anonKey: Option<string>): (ok: bool)
    ensures ok <==> supabaseUrl.Some? && supabaseUrl.value != "" && anonKey.Some? && anonKey.value != ""
  {
    Truthy(supabaseUrl) && Truthy(anonKey)
  }

  class Request {
    const authorization: Option<string>
    var user: Option<AuthUser>
    var status: Option<int>
    var nextCalls: nat

    constructor (authorization: Option<string>)
      ensures this.authorization == authorization
      ensures user == None && status == None && nextCalls == 0
    {
      this.authorization := authorization;
      user := None;
      status := None;
      nextCalls := 0;
    }
  }

  method RequireAuth(req: Request, getUser: string -> Verification)
    modifies req
    ensures match Authenticate(req.authorization, getUser)
            case Some(u) =>
              req.user == Some(u) && req.nextCalls == old(req.nextCalls) + 1
              && req.status == old(req.status)
            case None =>
              req.status == Some(Unauthorized) && req.nextCalls == old(req.nextCalls)
              && req.user == old(req.user)
  {
    var token := Token(req.authorization);
    if token.None? {
      req.status := Some(Unauthorized);
      return;
    }
    match getUser(token.value) {
      case Verified(u) =>
        req.user := Some(u);
        req.nextCalls := req.nextCalls + 1;
      case NoUser =>
        req.status := Some(Unauthorized);
      case ProviderError =>
        req.status := Some(Unauthorized);
      case Threw =>
        req.status := Some(Unauthorized);
    }
  }
}
