/** The client's session state (client/src/store/slices/authSlice.js): the
    signed-in user, a loading flag and whether the user is authenticated. */
module AuthSlice {
  import opened Entities

  /** The user record the auth routes answer with. */
  datatype User = User(id: UserId, username: string, email: string)

  class AuthState {
    var user: Option<User>
    var isLoading: bool
    var isAuthenticated: bool

    /** A user is held exactly when the session counts as authenticated. */
    ghost predicate Valid()
      reads this
    {
      isAuthenticated <==> user.Some?
    }

    /** `initialState`. */
    constructor ()
      ensures user == None && !isLoading && !isAuthenticated
      ensures Valid()
    {
      user := None;
      isLoading := false;
      isAuthenticated := false;
    }

    /** `clearAuth` and `logout.fulfilled`: signs the user out; the loading
        flag stays. */
    method SignOut()
      modifies this
      ensures user == None && !isAuthenticated
      ensures isLoading == old(isLoading)
      ensures Valid()
    {
      user := None;
      isAuthenticated := false;
    }

    /** `register.pending` and `login.pending`. */
    method Pending()
      modifies this
      ensures isLoading
      ensures user == old(user) && isAuthenticated == old(isAuthenticated)
      ensures old(Valid()) ==> Valid()
    {
      isLoading := true;
    }

    /** `register.fulfilled` and `login.fulfilled`: the answered user is
        signed in. */
    method SignedIn(payload: User)
      modifies this
      ensures user == Some(payload) && isAuthenticated && !isLoading
      ensures Valid()
    {
      isLoading := false;
      user := Some(payload);
      isAuthenticated := true;
    }

    /** `register.rejected` and `login.rejected`: only the loading flag
        drops; whoever was signed in stays signed in. */
    method SignInRejected()
      modifies this
      ensures !isLoading
      ensures user == old(user) && isAuthenticated == old(isAuthenticated)
      ensures old(Valid()) ==> Valid()
    {
      isLoading := false;
    }

    /** `getCurrentUser.fulfilled`: a user in the answer is signed in; an
        empty answer changes nothing. */
    method GetCurrentUserFulfilled(payload: Option<User>)
      modifies this
      ensures payload.Some? ==> user == payload && isAuthenticated
      ensures payload.None? ==> user == old(user) && isAuthenticated == old(isAuthenticated)
      ensures isLoading == old(isLoading)
      ensures old(Valid()) ==> Valid()
    {
      if payload.Some? {
        user := payload;
        isAuthenticated := true;
      }
    }

    /** `getCurrentUser.rejected`: no session, the user is signed out. */
    method GetCurrentUserRejected()
      modifies this
      ensures user == None && !isAuthenticated
      ensures isLoading == old(isLoading)
      ensures Valid()
    {
      user := None;
      isAuthenticated := false;
    }
  }
}
