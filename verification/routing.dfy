/**
 * Route guarding in the application root (src/App.js): `/login` is open,
 * every other path goes through `ProtectedRoute`, which redirects to the login
 * page, remembering where the visitor was going, whenever no user is set.
 * Route matching is by exact pathname.
 */
module Routing {
  import opened Wrappers
  import opened JsValue
  import Session

  /** The parts of a router location this model keeps. */
  datatype Location = Location(pathname: string, search: string, hash: string)

  const LoginPath := "/login"

  /** `<Navigate to replace state={{ from }} />`, or the guarded children. */
  datatype Guarded = Redirect(to: string, replace: bool, from: Location) | Children

  /** `ProtectedRoute`: decided by the user alone. */
  function Guard(user: Json, here: Location): (g: Guarded)
    ensures g.Redirect? <==> !Truthy(user)
    ensures g.Redirect? ==> g.to == LoginPath && g.replace && g.from == here
  {
    if !Truthy(user) then Redirect(LoginPath, true, here) else Children
  }

  /** The pages inside the application shell. */
  datatype Page = Dashboard | UsersList | RolesList | PermissionsList

  /** The shell's own routes; any other path renders an empty main area. */
  function ShellPage(pathname: string): Option<Page> {
    if pathname == "/" then Some(Dashboard)
    else if pathname == "/users" then Some(UsersList)
    else if pathname == "/roles" then Some(RolesList)
    else if pathname == "/permissions" then Some(PermissionsList)
    else None
  }

  /** What the root renders for a location. */
  datatype Screen = LoginScreen | Redirected(to: string, replace: bool, from: Location) | Shell(page: Option<Page>)

  function Route(s: Session.Session, here: Location): (sc: Screen)
    ensures here.pathname == LoginPath ==> sc == LoginScreen
    ensures here.pathname != LoginPath ==> (sc.Redirected? <==> !Session.SignedIn(s))
    ensures sc.Redirected? ==> sc == Redirected(LoginPath, true, here)
    ensures here.pathname != LoginPath && Session.SignedIn(s) ==> sc == Shell(ShellPage(here.pathname))
  {
    if here.pathname == LoginPath then LoginScreen
    else
      match Guard(s.user, here)
      case Redirect(to, replace, from) => Redirected(to, replace, from)
      case Children => Shell(ShellPage(here.pathname))
  }

  /** The guard never looks at `initializing`. */
  lemma GuardIgnoresInitializing(s: Session.Session, b: bool, here: Location)
    ensures Route(s.(initializing := b), here) == Route(s, here)
  {
  }

  /** While a stored token is still being checked, every guarded path redirects to the login page. */
  lemma PendingTokenRedirects(t: string, here: Location)
    requires here.pathname != LoginPath
    ensures Route(Session.Start(Some(t)), here) == Redirected(LoginPath, true, here)
  {
  }

  /** Signing out sends every guarded path back to the login page. */
  lemma LogoutRedirects(s: Session.Session, here: Location)
    requires here.pathname != LoginPath
    ensures Route(Session.Logout(s), here).Redirected?
  {
  }
}
