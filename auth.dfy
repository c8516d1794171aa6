/** client/src/context/AuthContext.js: the session flags, the stored token and the
    navigation that validateToken, login and logout perform. The reply of the
    validate-token request is an input: the server's response, or None when the
    request failed without one. */
module Auth {
  import opened Wrappers
  import opened Storage
  import opened Navigation
  import opened Server

  const AppPath: string := "/medical-term-app"

  /** `if (token)`: an entry that exists and is not "". */
  predicate HasToken(token: Option<string>) {
    token.Some? && token.value != ""
  }

  /** The request succeeded (axios resolves only on a 2xx status) and `res.data.valid`
      is true. */
  predicate ReplySaysValid(reply: Option<Response>) {
    Succeeded(reply) && reply.value.body.Validity? && reply.value.body.valid
  }

  /** Against this server, a token sent by the client is accepted exactly when it
      verifies. */
  lemma ReplySaysValidIffVerifies(token: string, verifies: string -> bool)
    ensures ReplySaysValid(Some(ValidateTokenDecision(token, verifies))) <==> token != "" && verifies(token)
  {
  }

  class AuthProvider {
    var isAuthenticated: bool
    var isAuthInitialized: bool
    const storage: LocalStorage
    const router: Router

    constructor (storage: LocalStorage, router: Router)
      ensures this.storage == storage && this.router == router
      ensures !isAuthenticated && !isAuthInitialized
    {
      this.storage := storage;
      this.router := router;
      isAuthenticated := false;
      isAuthInitialized := false;
    }

    /** validateToken, run once on mount. Without a stored token nothing but the
        initialised flag changes. A valid reply authenticates; an invalid one or a failed
        request removes the token, de-authenticates and goes to /login. */
    method ValidateToken(reply: Option<Response>)
      modifies this, storage, router
      ensures isAuthInitialized
      ensures storage.bookmarkedCards == old(storage.bookmarkedCards)
      ensures !HasToken(old(storage.token)) ==>
        isAuthenticated == old(isAuthenticated) && storage.token == old(storage.token)
        && router.location == old(router.location)
      ensures HasToken(old(storage.token)) && ReplySaysValid(reply) ==>
        isAuthenticated && storage.token == old(storage.token) && router.location == old(router.location)
      ensures HasToken(old(storage.token)) && !ReplySaysValid(reply) ==>
        !isAuthenticated && storage.token == None && router.location == LoginPath
    {
      var token := storage.token;
      if HasToken(token) {
        if ReplySaysValid(reply) {
          isAuthenticated := true;
        } else {
          storage.token := None;
          isAuthenticated := false;
          router.Navigate(LoginPath);
        }
      }
      isAuthInitialized := true;
    }

    /** login: store the token, authenticate, go to the application. */
    method Login(token: string)
      modifies this, storage, router
      ensures storage.token == Some(token) && isAuthenticated && router.location == AppPath
      ensures isAuthInitialized == old(isAuthInitialized)
      ensures storage.bookmarkedCards == old(storage.bookmarkedCards)
    {
      storage.token := Some(token);
      isAuthenticated := true;
      router.Navigate(AppPath);
    }

    /** logout: remove the token, de-authenticate, go to /login. */
    method Logout()
      modifies this, storage, router
      ensures storage.token == None && !isAuthenticated && router.location == LoginPath
      ensures isAuthInitialized == old(isAuthInitialized)
      ensures storage.bookmarkedCards == old(storage.bookmarkedCards)
    {
      storage.token := None;
      isAuthenticated := false;
      router.Navigate(LoginPath);
    }
  }
}
