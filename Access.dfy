/** The route guard of components/ProtectedRoute.tsx, and the guard each
    route of App.tsx is wrapped in. */
module Access {
  import opened Wrappers
  import opened Types

  /** What `ProtectedRoute` renders: the spinner, a `<Navigate>`, or the
      guarded page. */
  datatype Gate = Loading | Redirect(path: string) | Allow

  const LoginPath: string := "/login"

  /** The landing page of a role. */
  function DashboardPath(role: Role): (p: string)
    ensures p != LoginPath
  {
    if role == InvestorRole then "/dashboard/investor" else "/dashboard/entrepreneur"
  }

  lemma DashboardPathsDiffer()
    ensures DashboardPath(InvestorRole) != DashboardPath(EntrepreneurRole)
  {
  }

  /** `ProtectedRoute({ requiredRole })` rendered with the session's `user`
      and `loading`. */
  function Guard(loading: bool, user: Option<User>, requiredRole: Option<Role>): (g: Gate)
    ensures g.Loading? <==> loading
    ensures !loading && user.None? ==> g == Redirect(LoginPath)
    ensures g.Allow? <==>
      !loading && user.Some? && (requiredRole.None? || requiredRole.value == user.value.role)
    ensures g.Redirect? && user.Some? ==>
      g.path == DashboardPath(user.value.role) && g.path != LoginPath
  {
    if loading then Loading
    else if user.None? then Redirect(LoginPath)
    else if requiredRole.Some? && user.value.role != requiredRole.value then
      Redirect(DashboardPath(user.value.role))
    else Allow
  }

  /** The routes of App.tsx that render a page. */
  datatype Route =
    | LoginRoute | RegisterRoute
    | InvestorDashboardRoute | EntrepreneurDashboardRoute
    | InvestorProfileRoute | EntrepreneurProfileRoute | ChatRoute

  /** The route a path pattern names. */
  function RouteOf(path: string): Option<Route> {
    if path == "/login" then Some(LoginRoute)
    else if path == "/register" then Some(RegisterRoute)
    else if path == "/dashboard/investor" then Some(InvestorDashboardRoute)
    else if path == "/dashboard/entrepreneur" then Some(EntrepreneurDashboardRoute)
    else if path == "/profile/investor/:id" then Some(InvestorProfileRoute)
    else if path == "/profile/entrepreneur/:id" then Some(EntrepreneurProfileRoute)
    else if path == "/chat/:userId" then Some(ChatRoute)
    else None
  }

  /** How App.tsx wraps a route: `None` for an unguarded page, otherwise the
      `requiredRole` its `ProtectedRoute` is given (itself optional). */
  function Protection(r: Route): Option<Option<Role>> {
    match r
    case LoginRoute => None
    case RegisterRoute => None
    case InvestorDashboardRoute => Some(Some(InvestorRole))
    case EntrepreneurDashboardRoute => Some(Some(EntrepreneurRole))
    case InvestorProfileRoute => Some(None)
    case EntrepreneurProfileRoute => Some(None)
    case ChatRoute => Some(None)
  }

  /** What navigating to a route shows. */
  function Visit(r: Route, loading: bool, user: Option<User>): Gate {
    match Protection(r)
    case None => Allow
    case Some(required) => Guard(loading, user, required)
  }

  /** A wrong-role redirect lands on a page the same user is allowed to see,
      so the guard never bounces a signed-in user twice. */
  lemma {:induction false} WrongRoleRedirectSettles(u: User, r: Route)
    requires Visit(r, false, Some(u)).Redirect?
    ensures RouteOf(Visit(r, false, Some(u)).path).Some?
    ensures Visit(RouteOf(Visit(r, false, Some(u)).path).value, false, Some(u)) == Allow
  {
    var p := Visit(r, false, Some(u)).path;
    assert p == DashboardPath(u.role);
    if u.role == InvestorRole {
      assert RouteOf(p) == Some(InvestorDashboardRoute);
    } else {
      assert RouteOf(p) == Some(EntrepreneurDashboardRoute);
    }
  }

  /** Signed out, every guarded route sends to the login page, which is
      itself unguarded. */
  lemma SignedOutReachesLogin(r: Route)
    requires Protection(r).Some?
    ensures Visit(r, false, None) == Redirect(LoginPath)
    ensures Visit(RouteOf(LoginPath).value, false, None) == Allow
  {
  }

  /** The profile and chat routes admit every signed-in user, whatever the
      role. */
  lemma SharedRoutesAdmitAnyRole(u: User)
    ensures Visit(InvestorProfileRoute, false, Some(u)) == Allow
    ensures Visit(EntrepreneurProfileRoute, false, Some(u)) == Allow
    ensures Visit(ChatRoute, false, Some(u)) == Allow
  {
  }
}
