/**
 * The bearer-credential check shared by the two `requireAuth` middlewares:
 * parse `Authorization: Bearer <token>`, ask the identity provider about the
 * token, and turn every failure into 401.
 */
module Bearer {
  import opened Wrappers
  import opened Js

  type Id = string

  /** A user as the identity provider returns it. */
  datatype AuthUser = AuthUser(id: Id, email: Option<string>, fullName: Option<string>, avatarUrl: Option<string>)

  /** What `auth.getUser(token)` yields: a user, no user, an error object, or a thrown exception. */
  datatype Verification = Verified(user: AuthUser) | NoUser | ProviderError | Threw

  const Scheme: string := "Bearer "

  /** `authHeader.substring(7)` when the header starts with `"Bearer "`; nothing otherwise. */
  function Token(header: Option<string>): (t: Option<string>)
    ensures t.Some? <==> header.Some? && StartsWith(header.value, Scheme)
    ensures t.Some? ==> header.value == Scheme + t.value
  {
    if header.Some? && StartsWith(header.value, Scheme) then
      assert header.value == header.value[..7] + header.value[7..];
      Some(header.value[7..])
    else None
  }

  /** Whatever follows the scheme is passed on unchanged, including an empty token. */
  lemma TokenRoundTrip(t: string)
    ensures Token(Some(Scheme + t)) == Some(t)
  {
    assert StartsWith(Scheme + t, Scheme) by {
      assert (Scheme + t)[..|Scheme|] == Scheme;
    }
  }

  /**
   * The user the request is authenticated as, or `None` for a 401: a missing
   * or non-bearer header, a provider error, no user, and an exception all
   * reject the request the same way.
   */
  function Authenticate(header: Option<string>, getUser: string -> Verification): (u: Option<AuthUser>)
    ensures u.Some? <==> Token(header).Some? && getUser(Token(header).value).Verified?
    ensures u.Some? ==> u.value == getUser(Token(header).value).user
  {
    match Token(header)
    case None => None
    case Some(t) =>
      match getUser(t)
      case Verified(user) => Some(user)
      case NoUser => None
      case ProviderError => None
      case Threw => None
  }

  /** A request authenticates exactly when it carries `"Bearer " + t` for a token the provider verifies. */
  lemma AuthenticateIff(header: Option<string>, getUser: string -> Verification, user: AuthUser)
    ensures Authenticate(header, getUser) == Some(user)
        <==> exists t :: header == Some(Scheme + t) && getUser(t) == Verified(user)
  {
    if Authenticate(header, getUser) == Some(user) {
      var t := Token(header).value;
      assert header == Some(Scheme + t);
    }
    if exists t :: header == Some(Scheme + t) && getUser(t) == Verified(user) {
      var t :| header == Some(Scheme + t) && getUser(t) == Verified(user);
      TokenRoundTrip(t);
    }
  }
}
