/** The `auth` slice of the Redux store: the signed-in user, whether there
    is one, whether that user is an administrator, a loading flag and the
    last error. Each reducer assigns fields of the slice's state in place. */
module AuthSlice {
  import opened Wrappers

  /** The user object the auth listener builds: the role comes from the
      user's profile document, and other profile fields are not read here. */
  datatype User = User(uid: string, email: string, role: Option<string>)

  /** The role that grants the admin pages. */
  const AdminRole: string := "admin"

  /** `payload?.role === 'admin'`: `false` for a missing payload or role. */
  predicate IsAdminUser(payload: Option<User>)
  {
    payload.Some? && payload.value.role == Some(AdminRole)
  }

  /** How the three session fields must agree: there is an authenticated
      session exactly when a user is stored, and it is an admin session
      exactly when that user's role is `admin` (so admin implies
      authenticated). */
  predicate Consistent(user: Option<User>, isAuthenticated: bool, isAdmin: bool)
  {
    && (isAuthenticated <==> user.Some?)
    && (isAdmin <==> IsAdminUser(user))
  }

  /** The consistency invariant gives the two facts the guards rely on. */
  lemma ConsistentFlags(user: Option<User>, isAuthenticated: bool, isAdmin: bool)
    requires Consistent(user, isAuthenticated, isAdmin)
    ensures isAuthenticated <==> user != None
    ensures isAdmin ==> isAuthenticated
  {
  }

  /** The state of the `auth` slice; each method is one reducer. */
  class AuthStore {
    var user: Option<User>
    var isAuthenticated: bool
    var isAdmin: bool
    var loading: bool
    var error: Option<string>

    /** The session fields agree with each other. */
    predicate Valid()
      reads this
    {
      Consistent(user, isAuthenticated, isAdmin)
    }

    /** `initialState`: nobody signed in, waiting for the auth listener. */
    constructor()
      ensures user == None && !isAuthenticated && !isAdmin
      ensures loading && error == None
      ensures Valid()
    {
      user := None;
      isAuthenticated := false;
      isAdmin := false;
      loading := true;
      error := None;
    }

    /** `setUser`: store the user (or `null`), derive both flags from it;
        loading is over and the error is cleared. */
    method SetUser(payload: Option<User>)
      modifies this
      ensures user == payload
      ensures isAuthenticated <==> payload.Some?
      ensures isAdmin <==> payload.Some? && payload.value.role == Some(AdminRole)
      ensures !loading && error == None
      ensures Valid()
    {
      user := payload;
      isAuthenticated := payload.Some?;
      isAdmin := IsAdminUser(payload);
      loading := false;
      error := None;
    }

    /** `setLoading`: only the flag changes. */
    method SetLoading(payload: bool)
      requires Valid()
      modifies this
      ensures loading == payload
      ensures user == old(user) && isAuthenticated == old(isAuthenticated)
      ensures isAdmin == old(isAdmin) && error == old(error)
      ensures Valid()
    {
      loading := payload;
    }

    /** `setError`: record the error; loading is over; the session is kept. */
    method SetError(payload: Option<string>)
      requires Valid()
      modifies this
      ensures error == payload && !loading
      ensures user == old(user) && isAuthenticated == old(isAuthenticated)
      ensures isAdmin == old(isAdmin)
      ensures Valid()
    {
      error := payload;
      loading := false;
    }

    /** `logout`: back to no session, not loading, no error. The new state
        does not depend on the old one, so a second logout changes nothing. */
    method Logout()
      modifies this
      ensures user == None && !isAuthenticated && !isAdmin
      ensures !loading && error == None
      ensures Valid()
    {
      user := None;
      isAuthenticated := false;
      isAdmin := false;
      loading := false;
      error := None;
    }
  }
}
