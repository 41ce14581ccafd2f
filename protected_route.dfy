/**
 * The client's route guard: while the session loads it shows a spinner;
 * afterwards a visitor without a user is sent to `/login`, a user without a
 * family to `/onboarding`, and only a user with a family sees the page.
 * The redirect (an effect) and what is rendered are computed separately in
 * the component; `Consistent` shows that they agree.
 */
module ProtectedRoute {
  import opened Wrappers
  import opened Js

  /** The application user of the auth context; only its family reference matters here. */
  datatype ClientUser = ClientUser(familyId: Option<string>)

  datatype View = Spinner | Nothing | Children

  const LoginPath: string := "/login"
  const OnboardingPath: string := "/onboarding"

  /** The location the effect navigates to, if any. */
  function Redirect(loading: bool, user: Option<ClientUser>): (to: Option<string>)
    ensures loading ==> to == None
    ensures to == Some(LoginPath) <==> !loading && user.None?
    ensures to == Some(OnboardingPath) <==> !loading && user.Some? && !Truthy(user.value.familyId)
    ensures to.None? <==> loading || (user.Some? && Truthy(user.value.familyId))
  {
    if !loading && user.None? then Some(LoginPath)
    else if !loading && user.Some? && !Truthy(user.value.familyId) then Some(OnboardingPath)
    else None
  }

  /** What the component returns. */
  function Render(loading: bool, user: Option<ClientUser>): (v: View)
    ensures v == Spinner <==> loading
    ensures v == Children <==> !loading && user.Some? && Truthy(user.value.familyId)
  {
    if loading then Spinner
    else if user.None? || !Truthy(user.value.familyId) then Nothing
    else Children
  }

  /** The page is rendered exactly when nothing redirects, and nothing is rendered exactly when something does. */
  lemma Consistent(loading: bool, user: Option<ClientUser>)
    ensures Render(loading, user) == Children <==> !loading && Redirect(loading, user).None?
    ensures Render(loading, user) == Nothing <==> Redirect(loading, user).Some?
  {
  }
}
