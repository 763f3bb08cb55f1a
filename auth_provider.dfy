/**
 * The session gate around every page. On mount it asks the profile
 * endpoint once whether the session cookie is still good and records the
 * answer in the session store; while that check runs it shows a spinner.
 * Afterwards it sends a signed-out visitor of a protected page to the login
 * page and a signed-in visitor of the login or signup page home.
 *
 * The profile request is an input: the reply the API client resolved to,
 * or the value the request threw. Navigation is modelled by the target the
 * redirect effect hands to `router.replace`.
 */
module AuthProvider {
  import opened JsValues
  import EncryptionApi
  import AuthStore

  const LoginPath := "/login"
  const SignupPath := "/signup"
  const OAuthCompletePath := "/auth/oauth-complete"
  const HomePath := "/"

  /** `PUBLIC_PATHS`: the pages a signed-out visitor may see. */
  const PublicPaths: seq<string> := [LoginPath, SignupPath, OAuthCompletePath]

  /** `path` itself or a page below it. */
  predicate IsUnder(pathname: string, path: string)
  {
    pathname == path || StartsWith(pathname, path + "/")
  }

  /** `paths.some(...)`, scanning the list from the front. */
  function AnyUnder(pathname: string, paths: seq<string>): (found: bool)
    ensures found <==> exists k :: 0 <= k < |paths| && IsUnder(pathname, paths[k])
  {
    if paths == [] then false
    else IsUnder(pathname, paths[0]) || AnyUnder(pathname, paths[1..])
  }

  /** `isPublicPath(pathname)`. */
  function IsPublicPath(pathname: string): (isPublic: bool)
    ensures isPublic <==> IsUnder(pathname, LoginPath) || IsUnder(pathname, SignupPath)
                          || IsUnder(pathname, OAuthCompletePath)
  {
    assert PublicPaths[0] == LoginPath && PublicPaths[1] == SignupPath && PublicPaths[2] == OAuthCompletePath;
    AnyUnder(pathname, PublicPaths)
  }

  /**
   * The redirect effect: nothing while the start-up check runs; the login
   * page for a signed-out visitor of a protected page; home for a
   * signed-in visitor of a public page other than the OAuth landing page.
   */
  function RedirectTarget(isInitializing: bool, isAuthenticated: bool, pathname: string): (target: Option<string>)
    ensures isInitializing ==> target == None
    ensures target == Some(LoginPath) <==> !isInitializing && !isAuthenticated && !IsPublicPath(pathname)
    ensures target == Some(HomePath) <==>
              !isInitializing && isAuthenticated && IsPublicPath(pathname) && pathname != OAuthCompletePath
    ensures target.Some? ==> target == Some(LoginPath) || target == Some(HomePath)
  {
    if isInitializing then None
    else if !isAuthenticated && !IsPublicPath(pathname) then Some(LoginPath)
    else if isAuthenticated && IsPublicPath(pathname) && pathname != OAuthCompletePath then Some(HomePath)
    else None
  }

  /** How `memberApi.getMyProfile()` ended: a reply, or a thrown value. */
  datatype ProfileReply =
    | Replied(reply: EncryptionApi.ApiResult<AuthStore.MemberProfile>)
    | RequestThrew(e: Caught)

  /** The profile a reply carries when it is a usable session: data and no error. */
  function SessionProfile(r: ProfileReply): (profile: Option<AuthStore.MemberProfile>)
    ensures profile.Some? <==> r.Replied? && r.reply.error.None? && r.reply.data.Some?
    ensures profile.Some? ==> profile == r.reply.data
  {
    if r.Replied? && r.reply.error.None? && r.reply.data.Some? then r.reply.data else None
  }

  /** The provider, wired to the member store whose start-up flag it waits on. */
  class AuthProvider {
    /** `hasInitialized.current`. */
    var hasInitialized: bool
    const store: AuthStore.MemberAuthStore

    constructor(store: AuthStore.MemberAuthStore)
      ensures !hasInitialized && this.store == store
    {
      hasInitialized := false;
      this.store := store;
    }

    /**
     * The start-up effect: the first run asks for the profile and then
     * either stores the user or only ends the start-up check; every later
     * run does nothing.
     */
    method InitializeEffect(r: ProfileReply) returns (requested: bool)
      modifies this, store
      ensures hasInitialized
      ensures requested <==> !old(hasInitialized)
      ensures old(hasInitialized) ==> store.state == old(store.state)
      ensures requested && SessionProfile(r).Some? ==>
                store.state == AuthStore.MemberAuthState(SessionProfile(r), true, false, false)
      ensures requested && SessionProfile(r).None? ==> store.state == old(store.state).(isInitializing := false)
      ensures requested ==> !store.state.isInitializing
    {
      if hasInitialized {
        return false;
      }
      hasInitialized := true;
      requested := true;
      var profile := SessionProfile(r);
      if profile.None? {
        store.SetInitialized();
        return;
      }
      store.SetUser(profile);
    }

    /** Whether the spinner is shown instead of the page. */
    function ShowsSpinner(): (spinner: bool)
      reads store
      ensures spinner <==> store.state.isInitializing
    {
      store.state.isInitializing
    }

    /** Where the redirect effect sends a visitor of `pathname` now. */
    function Redirect(pathname: string): (target: Option<string>)
      reads store
      ensures ShowsSpinner() ==> target == None
      ensures target == RedirectTarget(store.state.isInitializing, store.state.isAuthenticated, pathname)
    {
      RedirectTarget(store.state.isInitializing, store.state.isAuthenticated, pathname)
    }
  }

  /**
   * The provider as the file has it: its selectors read the auth store
   * (`features/auth`), which has neither `isInitializing` nor
   * `setInitialized`. The first reads as `undefined`, so the start-up
   * check is never waited for; calling the second throws a `TypeError`,
   * once in the `try` and again in the `catch`, so a failed check
   * rejects the start-up promise and changes nothing.
   */
  class AuthProviderAsWritten {
    var hasInitialized: bool
    const store: AuthStore.AuthStore

    constructor(store: AuthStore.AuthStore)
      ensures !hasInitialized && this.store == store
    {
      hasInitialized := false;
      this.store := store;
    }

    method InitializeEffect(r: ProfileReply) returns (settled: Option<Result<()>>)
      modifies this, store
      ensures hasInitialized
      ensures settled.None? <==> old(hasInitialized)
      ensures old(hasInitialized) ==> store.state == old(store.state)
      ensures settled.Some? && SessionProfile(r).Some? ==>
                settled == Some(Ok(())) && store.state == AuthStore.AuthState(SessionProfile(r), true, false)
      ensures settled.Some? && SessionProfile(r).None? ==>
                settled == Some(Throw(JsError(NotAFunctionMessage))) && store.state == old(store.state)
    {
      if hasInitialized {
        return None;
      }
      hasInitialized := true;
      var profile := SessionProfile(r);
      if profile.None? {
        // `setInitialized()` throws; the `catch` calls it again, which throws out of the handler.
        return Some(Throw(JsError(NotAFunctionMessage)));
      }
      store.SetUser(profile);
      return Some(Ok(()));
    }

    /** The redirect effect with `isInitializing` read as `undefined`. */
    function Redirect(pathname: string): (target: Option<string>)
      reads store
      ensures target == RedirectTarget(false, store.state.isAuthenticated, pathname)
    {
      RedirectTarget(false, store.state.isAuthenticated, pathname)
    }
  }

  /** The `TypeError` message for calling the missing `setInitialized`. */
  const NotAFunctionMessage := "setInitialized is not a function"

  // ---------------------------------------------------------------------
  // Properties

  /** The three public pages and the pages below them are public; a longer name is not. */
  lemma PublicPathExamples()
    ensures IsPublicPath("/login") && IsPublicPath("/login/reset") && IsPublicPath("/auth/oauth-complete")
    ensures !IsPublicPath("/loginx") && !IsPublicPath("/") && !IsPublicPath("/prayer-topics")
  {
    assert !StartsWith("/loginx", LoginPath + "/") by { assert "/loginx"[6] != '/'; }
    assert !StartsWith("/", LoginPath + "/") && !StartsWith("/", SignupPath + "/");
    assert !StartsWith("/prayer-topics", LoginPath + "/") by { assert "/prayer-topics"[1] != 'l'; }
    assert !StartsWith("/prayer-topics", SignupPath + "/") by { assert "/prayer-topics"[1] != 's'; }
    assert !StartsWith("/prayer-topics", OAuthCompletePath + "/") by { assert "/prayer-topics"[1] != 'a'; }
    assert !StartsWith("/loginx", SignupPath + "/") by { assert "/loginx"[1] != 's'; }
    assert !StartsWith("/loginx", OAuthCompletePath + "/") by { assert "/loginx"[1] != 'a'; }
    assert StartsWith("/login/reset", LoginPath + "/") by { assert "/login/reset"[..7] == "/login/"; }
  }

  /** A redirect lands on a page that, under the same session, is not redirected again. */
  lemma RedirectSettles(isAuthenticated: bool, pathname: string)
    ensures var target := RedirectTarget(false, isAuthenticated, pathname);
      target.Some? ==> RedirectTarget(false, isAuthenticated, target.value) == None
  {
    PublicPathExamples();
  }

  /**
   * A signed-in visitor opening a protected page, as written: the page is
   * left for the login page at once, and once the profile arrives the login
   * page sends the visitor home; the page asked for is never shown.
   */
  method SignedInDeepLinkAsWritten(profile: AuthStore.MemberProfile) returns (first: Option<string>, second: Option<string>)
    ensures first == Some(LoginPath) && second == Some(HomePath)
  {
    var store := new AuthStore.AuthStore();
    var provider := new AuthProviderAsWritten(store);
    PublicPathExamples();
    first := provider.Redirect("/prayer-topics");
    var _ := provider.InitializeEffect(Replied(EncryptionApi.ApiResult(Some(profile), None)));
    second := provider.Redirect(first.value);
  }

  /**
   * The same visit with the member store: the spinner holds the page until
   * the profile arrives, and the signed-in visitor then stays on it.
   */
  method SignedInDeepLinkKept(profile: AuthStore.MemberProfile) returns (first: Option<string>, second: Option<string>)
    ensures first == None && second == None
  {
    var store := new AuthStore.MemberAuthStore();
    var provider := new AuthProvider(store);
    PublicPathExamples();
    first := provider.Redirect("/prayer-topics");
    var _ := provider.InitializeEffect(Replied(EncryptionApi.ApiResult(Some(profile), None)));
    second := provider.Redirect("/prayer-topics");
  }

  /** Whatever the profile request does, the first start-up run ends the spinner, and a second run changes nothing. */
  method StartupEndsSpinner(r: ProfileReply, again: ProfileReply) returns (spinnerBefore: bool, spinnerAfter: bool, secondRequested: bool)
    ensures spinnerBefore && !spinnerAfter && !secondRequested
  {
    var store := new AuthStore.MemberAuthStore();
    var provider := new AuthProvider(store);
    spinnerBefore := provider.ShowsSpinner();
    var _ := provider.InitializeEffect(r);
    secondRequested := provider.InitializeEffect(again);
    spinnerAfter := provider.ShowsSpinner();
  }
}
