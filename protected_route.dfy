/** The `ProtectedRoute` guard: from the `auth` slice's three flags and the
    route's `requireAdmin` setting it decides whether to show a spinner,
    redirect, or render the protected page. */
module ProtectedRoute {
  import opened Wrappers
  import AuthSlice

  /** Where the guard sends a visitor it turns away. */
  const LoginPath: string := "/login"
  const SearchPath: string := "/search"

  /** What the guard renders. */
  datatype Rendered =
    | Spinner                 // the centred progress indicator
    | Navigate(to: string)    // a replacing redirect
    | Children                // the protected page itself

  /** The guard: loading first, then authentication, then the admin check. */
  function Guard(isAuthenticated: bool, isAdmin: bool, loading: bool, requireAdmin: bool): (r: Rendered)
    ensures loading ==> r == Spinner
    ensures !loading && !isAuthenticated ==> r == Navigate(LoginPath)
    ensures !loading && isAuthenticated && requireAdmin && !isAdmin ==> r == Navigate(SearchPath)
    ensures r == Children <==> !loading && isAuthenticated && (!requireAdmin || isAdmin)
    ensures r.Navigate? ==> r.to == LoginPath || r.to == SearchPath
  {
    if loading then Spinner
    else if !isAuthenticated then Navigate(LoginPath)
    else if requireAdmin && !isAdmin then Navigate(SearchPath)
    else Children
  }

  /** The guard on a route that leaves `requireAdmin` at its default,
      `false`: a signed-in user is never sent to the search page. */
  function GuardDefault(isAuthenticated: bool, isAdmin: bool, loading: bool): (r: Rendered)
    ensures r == Children <==> !loading && isAuthenticated
    ensures r != Navigate(SearchPath)
  {
    Guard(isAuthenticated, isAdmin, loading, false)
  }

  /** Over a consistent `auth` state, the page is rendered only for a stored
      user, and an admin route only for a user whose role is `admin`. */
  lemma GrantedOnlyToItsUsers(user: Option<AuthSlice.User>, isAuthenticated: bool, isAdmin: bool,
                              loading: bool, requireAdmin: bool)
    requires AuthSlice.Consistent(user, isAuthenticated, isAdmin)
    ensures Guard(isAuthenticated, isAdmin, loading, requireAdmin) == Children ==>
              user.Some? && (requireAdmin ==> user.value.role == Some(AuthSlice.AdminRole))
  {
  }

  /** Once loading is over, a consistent `auth` store whose user has the
      `admin` role is let through to an admin route. */
  lemma AdminsReachAdminRoutes(store: AuthSlice.AuthStore)
    requires store.Valid() && !store.loading && AuthSlice.IsAdminUser(store.user)
    ensures Guard(store.isAuthenticated, store.isAdmin, store.loading, true) == Children
  {
  }
}
