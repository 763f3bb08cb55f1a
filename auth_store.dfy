/**
 * The two session stores. The member store tracks the signed-in profile,
 * whether the session is authenticated, whether the start-up session check
 * is still running, and whether a login is waiting for its profile. The
 * auth store is the older copy without the start-up flag and without
 * `setInitialized`.
 *
 * Each action merges its fields into the store state, as zustand's `set`
 * does; fields an action does not name keep their values.
 */
module AuthStore {
  import opened JsValues

  datatype OAuthProvider = Google | Kakao | Naver

  /** `MemberProfile`, as the profile endpoint returns it. */
  datatype MemberProfile = MemberProfile(id: string, email: string, nickname: string,
                                         profileImageUrl: Option<string>, emailVerified: bool,
                                         hasPassword: bool, connectedProviders: seq<OAuthProvider>,
                                         createdAt: string)

  datatype MemberAuthState = MemberAuthState(user: Option<MemberProfile>, isAuthenticated: bool,
                                             isInitializing: bool, isLoggingIn: bool)
  {
    /** A login waiting for its profile is an authenticated one. */
    predicate Valid()
    {
      isLoggingIn ==> isAuthenticated
    }
  }

  datatype AuthState = AuthState(user: Option<MemberProfile>, isAuthenticated: bool, isLoggingIn: bool)
  {
    /** A login waiting for its profile is an authenticated one. */
    predicate Valid()
    {
      isLoggingIn ==> isAuthenticated
    }
  }

  /** The member store (`features/member`). */
  class MemberAuthStore {
    var state: MemberAuthState

    /** No user, not authenticated, the start-up check running, no login pending. */
    constructor()
      ensures state == MemberAuthState(None, false, true, false) && state.Valid()
    {
      state := MemberAuthState(None, false, true, false);
    }

    /** `setUser(user)`: authenticated exactly when there is a user; start-up and login both over. */
    method SetUser(user: Option<MemberProfile>)
      modifies this
      ensures state == MemberAuthState(user, user.Some?, false, false) && state.Valid()
    {
      state := state.(user := user, isAuthenticated := user.Some?, isInitializing := false, isLoggingIn := false);
    }

    /** `setAuthenticated(b)`: the login flag follows the authentication flag; the user and start-up flag stay. */
    method SetAuthenticated(isAuthenticated: bool)
      modifies this
      ensures state == old(state).(isAuthenticated := isAuthenticated, isLoggingIn := isAuthenticated)
      ensures state.Valid()
    {
      state := state.(isAuthenticated := isAuthenticated, isLoggingIn := isAuthenticated);
    }

    /** `setInitialized()`: only the start-up check ends. */
    method SetInitialized()
      modifies this
      ensures state == old(state).(isInitializing := false)
      ensures old(state).Valid() ==> state.Valid()
    {
      state := state.(isInitializing := false);
    }

    /** `logout()`: no user, not authenticated, no login pending; the start-up flag stays. */
    method Logout()
      modifies this
      ensures state == MemberAuthState(None, false, old(state).isInitializing, false) && state.Valid()
    {
      state := state.(user := None, isAuthenticated := false, isLoggingIn := false);
    }
  }

  /** The auth store (`features/auth`). */
  class AuthStore {
    var state: AuthState

    /** No user, not authenticated, no login pending. */
    constructor()
      ensures state == AuthState(None, false, false) && state.Valid()
    {
      state := AuthState(None, false, false);
    }

    /** `setUser(user)`: authenticated exactly when there is a user; no login pending. */
    method SetUser(user: Option<MemberProfile>)
      modifies this
      ensures state == AuthState(user, user.Some?, false) && state.Valid()
    {
      state := state.(user := user, isAuthenticated := user.Some?, isLoggingIn := false);
    }

    /** `setAuthenticated(b)`: the login flag follows the authentication flag; the user stays. */
    method SetAuthenticated(isAuthenticated: bool)
      modifies this
      ensures state == old(state).(isAuthenticated := isAuthenticated, isLoggingIn := isAuthenticated)
      ensures state.Valid()
    {
      state := state.(isAuthenticated := isAuthenticated, isLoggingIn := isAuthenticated);
    }

    /** `logout()`: back to the initial state. */
    method Logout()
      modifies this
      ensures state == AuthState(None, false, false) && state.Valid()
    {
      state := state.(user := None, isAuthenticated := false, isLoggingIn := false);
    }
  }

  /**
   * A password login in the member store: `setAuthenticated(true)` marks the
   * login pending, the profile fetched after it ends the login and the
   * start-up check, and a logout then ends the session but leaves the
   * start-up check over.
   */
  method MemberLoginThenLogout(profile: MemberProfile) returns (pending: MemberAuthState, signedIn: MemberAuthState, signedOut: MemberAuthState)
    ensures pending.isLoggingIn && pending.isAuthenticated && pending.isInitializing && pending.user == None
    ensures signedIn == MemberAuthState(Some(profile), true, false, false)
    ensures signedOut == MemberAuthState(None, false, false, false)
  {
    var store := new MemberAuthStore();
    store.SetAuthenticated(true);
    pending := store.state;
    store.SetUser(Some(profile));
    signedIn := store.state;
    store.Logout();
    signedOut := store.state;
  }

  /**
   * The auth store runs the same login and logout, and its logout returns
   * it to its initial state.
   */
  method AuthLoginThenLogout(profile: MemberProfile) returns (pending: AuthState, signedIn: AuthState, signedOut: AuthState)
    ensures pending == AuthState(None, true, true)
    ensures signedIn == AuthState(Some(profile), true, false)
    ensures signedOut == AuthState(None, false, false)
  {
    var store := new AuthStore();
    store.SetAuthenticated(true);
    pending := store.state;
    store.SetUser(Some(profile));
    signedIn := store.state;
    store.Logout();
    signedOut := store.state;
  }
}
