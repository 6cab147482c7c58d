/** The account rules of `auth_manager.py`: which configured redirect URI
    the Google sign-in uses, the login link when no client configuration is
    loaded, and email/password registration and login over the user table.

    The secrets file, the `CODESPACES` environment variable, the OAuth
    library and werkzeug's password hashing are all parameters. */
module Auth {
  import opened Wrappers
  import opened Text
  import UserStore

  const DefaultRedirectUri := "http://localhost:8501"
  const MockLoginSuffix := "/?mock_login=true"

  /** The `web` table of the `google_auth` secrets section. */
  datatype WebSection = WebSection(redirectUris: Option<seq<string>>)

  /** The `google_auth` secrets section: its `web` table, if present, and the
      names of its other keys. */
  datatype ClientConfig = ClientConfig(web: Option<WebSection>, otherKeys: set<string>) {
    /** An empty section is falsy in Python. */
    predicate IsEmpty() { web.None? && otherKeys == {} }
  }

  /** A constructed `GoogleAuth`. */
  datatype GoogleAuth = GoogleAuth(clientConfig: Option<ClientConfig>, redirectUri: string)

  /** The `web.redirect_uris` list, when the section holds one. */
  function ConfiguredUris(secrets: Option<ClientConfig>): (uris: Option<seq<string>>)
    ensures uris.Some? <==>
      secrets.Some? && secrets.value.web.Some? && secrets.value.web.value.redirectUris.Some?
  {
    if secrets.Some? && secrets.value.web.Some? then secrets.value.web.value.redirectUris
    else None
  }

  predicate IsCodespacesUri(uri: string) {
    Contains(uri, "github.dev") || Contains(uri, "preview.app")
  }

  predicate IsLocalUri(uri: string) {
    Contains(uri, "localhost")
  }

  /** The URI the selection looks for in the given environment. */
  predicate Preferred(uri: string, codespaces: bool) {
    if codespaces then IsCodespacesUri(uri) else IsLocalUri(uri)
  }

  /** `uris[k]` is the first preferred URI in list order. */
  ghost predicate FirstPreferredAt(uris: seq<string>, codespaces: bool, k: int) {
    && 0 <= k < |uris|
    && Preferred(uris[k], codespaces)
    && forall j :: 0 <= j < k ==> !Preferred(uris[j], codespaces)
  }

  ghost predicate NonePreferred(uris: seq<string>, codespaces: bool) {
    forall j :: 0 <= j < |uris| ==> !Preferred(uris[j], codespaces)
  }

  /** `GoogleAuth.__init__`: keep the configuration (absent when the secrets
      lookup failed) and pick the redirect URI. `secrets` is the
      `google_auth` section; `codespaces` is whether `CODESPACES` is "true". */
  method NewGoogleAuth(secrets: Option<ClientConfig>, codespaces: bool) returns (auth: GoogleAuth)
    ensures auth.clientConfig == secrets
    ensures ConfiguredUris(secrets).None? ==> auth.redirectUri == DefaultRedirectUri
    ensures ConfiguredUris(secrets).Some? ==>
      var uris := ConfiguredUris(secrets).value;
      && (NonePreferred(uris, codespaces) ==> auth.redirectUri == DefaultRedirectUri)
      && (!NonePreferred(uris, codespaces) ==>
            exists k :: FirstPreferredAt(uris, codespaces, k) && auth.redirectUri == uris[k])
    // A listed localhost URI is never the fallback inside Codespaces.
    ensures auth.redirectUri != DefaultRedirectUri ==> Preferred(auth.redirectUri, codespaces)
  {
    var redirect := DefaultRedirectUri;
    var configured := ConfiguredUris(secrets);
    if configured.Some? {
      var uris := configured.value;
      var i := 0;
      while i < |uris|
        invariant 0 <= i <= |uris|
        invariant redirect == DefaultRedirectUri
        invariant forall j :: 0 <= j < i ==> !Preferred(uris[j], codespaces)
      {
        if Preferred(uris[i], codespaces) {
          redirect := uris[i];
          assert FirstPreferredAt(uris, codespaces, i);
          break;
        }
        i := i + 1;
      }
    }
    auth := GoogleAuth(secrets, redirect);
  }

  /** The client configuration is loaded and non-empty (truthy). */
  predicate HasClientConfig(auth: GoogleAuth) {
    auth.clientConfig.Some? && !auth.clientConfig.value.IsEmpty()
  }

  /** `get_login_url`. `flowUrl` is the authorization URL the OAuth library
      builds, or `None` when that call raises. */
  function LoginUrl(auth: GoogleAuth, flowUrl: Option<string>): (url: string)
    ensures !HasClientConfig(auth) ==> url == auth.redirectUri + MockLoginSuffix
    ensures HasClientConfig(auth) && flowUrl.Some? ==> url == flowUrl.value
    ensures HasClientConfig(auth) && flowUrl.None? ==> url == "#"
  {
    if !HasClientConfig(auth) then auth.redirectUri + MockLoginSuffix
    else if flowUrl.Some? then flowUrl.value
    else "#"
  }

  /** Without a client configuration the login link returns to the app's
      own redirect URI and carries the flag that triggers the demo login. */
  lemma MockLoginUrlCarriesFlag(auth: GoogleAuth, flowUrl: Option<string>)
    requires !HasClientConfig(auth)
    ensures auth.redirectUri <= LoginUrl(auth, flowUrl)
    ensures Contains(LoginUrl(auth, flowUrl), "mock_login=true")
  {
    var url := LoginUrl(auth, flowUrl);
    var i := |auth.redirectUri| + 2;
    assert url[i..i + |"mock_login=true"|] == "mock_login=true";
    assert OccursAt(url, "mock_login=true", i);
    ContainsIff(url, "mock_login=true");
  }

  // ---------------------------------------------------------------- email and password

  const EmailExistsMessage := "Email already exists."
  const AccountCreatedMessage := "Account created successfully! Please login."
  const RegistrationErrorMessage := "An error occurred during registration."
  const InvalidLoginMessage := "Invalid email or password."

  datatype Registration = Registration(ok: bool, message: string, store: UserStore.Store)

  /** `register_user`. `hashed` is the hash werkzeug produced for the
      password; `today` is the creation date. */
  function RegisterUser(s: UserStore.Store, email: string, hashed: string, today: string)
    : (r: Registration)
    ensures r.ok <==> email !in s.users
    ensures email in s.users ==> r.message == EmailExistsMessage && r.store == s
    ensures r.ok ==>
      r.message == AccountCreatedMessage
      && r.store == UserStore.CreateUser(s, email, hashed, None, None, today).store
      && r.store.users[email].passwordHash == Some(hashed)
  {
    if UserStore.GetUserByEmail(s, email).Some? then Registration(false, EmailExistsMessage, s)
    else
      var created := UserStore.CreateUser(s, email, hashed, None, None, today);
      if created.ok then Registration(true, AccountCreatedMessage, created.store)
      else Registration(false, RegistrationErrorMessage, created.store)
  }

  /** The session's view of a signed-in user. */
  datatype UserInfo = UserInfo(id: nat, email: string, name: Option<string>, picture: Option<string>)

  datatype LoginResult =
    | LoggedIn(user: UserInfo, dailyChecks: int)
    | Rejected(message: string)

  datatype LoginOutcome = LoginOutcome(result: LoginResult, store: UserStore.Store)

  /** `login_user`. `checkHash(stored, password)` is werkzeug's
      `check_password_hash`; on success the user is synced for `today`. */
  function LoginUser(s: UserStore.Store, email: string, password: string,
                     checkHash: (Option<string>, string) -> bool, today: string)
    : (r: LoginOutcome)
    ensures r.result.LoggedIn? <==>
      email in s.users && checkHash(s.users[email].passwordHash, password)
    ensures r.result.Rejected? ==> r.result.message == InvalidLoginMessage && r.store == s
    ensures r.result.LoggedIn? ==>
      var synced := UserStore.Sync(s, email, None, None, today);
      && r.store == synced.store
      && r.result.user == UserInfo(synced.user.id, synced.user.email,
                                   synced.user.name, synced.user.picture)
      && r.result.user.id == s.users[email].id
      && r.result.dailyChecks == synced.user.dailyChecks
  {
    var user := UserStore.GetUserByEmail(s, email);
    if user.Some? && checkHash(user.value.passwordHash, password) then
      var synced := UserStore.Sync(s, email, None, None, today);
      var info := UserInfo(synced.user.id, synced.user.email, synced.user.name, synced.user.picture);
      LoginOutcome(LoggedIn(info, synced.user.dailyChecks), synced.store)
    else
      LoginOutcome(Rejected(InvalidLoginMessage), s)
  }

  /** A freshly registered account can log in with the password whose hash
      was stored, and starts the day with no checks used. */
  lemma RegisterThenLogin(s: UserStore.Store, email: string, password: string, hashed: string,
                          checkHash: (Option<string>, string) -> bool, today: string)
    requires email !in s.users
    requires checkHash(Some(hashed), password)
    ensures var reg := RegisterUser(s, email, hashed, today);
            var login := LoginUser(reg.store, email, password, checkHash, today);
            reg.ok && login.result.LoggedIn? && login.result.dailyChecks == 0
            && login.result.user.email == email
  {
  }
}
