/** The route guard: spinner while loading, login when signed out, the user's home on a role mismatch. */
module ProtectedRoute {
  import opened Wrappers

  datatype Role = Admin | Employee

  /** What the guard renders. */
  datatype Guarded = Spinner | Redirect(to: string) | Children

  /** The home route of a role. */
  function Home(r: Option<Role>): string {
    if r == Some(Admin) then "/admin" else "/employee"
  }

  /** The role the route table demands for a home route. */
  function RouteRole(path: string): Option<Role> {
    if path == "/admin" then Some(Admin)
    else if path == "/employee" then Some(Employee)
    else None
  }

  /**
   * The guard for a route demanding `required` (`None`: any signed-in user),
   * given the authentication state; `userRole` is `None` when there is no user.
   */
  function Guard(loading: bool, isAuthenticated: bool, userRole: Option<Role>, required: Option<Role>): (g: Guarded)
    ensures loading ==> g == Spinner
    ensures !loading && !isAuthenticated ==> g == Redirect("/login")
    ensures !loading && isAuthenticated && required.Some? && userRole != required ==> g == Redirect(Home(userRole))
    ensures !loading && isAuthenticated && (required.None? || userRole == required) ==> g == Children
  {
    if loading then Spinner
    else if !isAuthenticated then Redirect("/login")
    else if required.Some? && userRole != required then
      if userRole == Some(Admin) then Redirect("/admin") else Redirect("/employee")
    else Children
  }

  /** Children are shown only to an authenticated user, once loading is over, holding the required role if any. */
  lemma ChildrenOnlyWhenAllowed(loading: bool, isAuthenticated: bool, userRole: Option<Role>, required: Option<Role>)
    ensures Guard(loading, isAuthenticated, userRole, required) == Children <==>
      !loading && isAuthenticated && (required.None? || userRole == required)
  {
  }

  /** Every redirect goes to the login page or to a home route. */
  lemma RedirectTargets(loading: bool, isAuthenticated: bool, userRole: Option<Role>, required: Option<Role>)
    ensures Guard(loading, isAuthenticated, userRole, required).Redirect? ==>
      Guard(loading, isAuthenticated, userRole, required).to in {"/login", "/admin", "/employee"}
  {
  }

  /**
   * A user with a role who is sent away for lacking the required role lands
   * on a route it is admitted to: role redirects never loop.
   */
  lemma RoleRedirectIsAdmitted(userRole: Role, required: Role)
    requires userRole != required
    ensures Guard(false, true, Some(userRole), Some(required)) == Redirect(Home(Some(userRole)))
    ensures Guard(false, true, Some(userRole), RouteRole(Home(Some(userRole)))) == Children
  {
  }
}
