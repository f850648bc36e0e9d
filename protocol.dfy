/** How the browser script and the back end meet: the Authorization header
    the script builds against the parse the server applies to it, and the
    login, check-auth and logout exchanges composed end to end in its methods. */
module Protocol {
  import opened Optional
  import opened AuthHeader
  import opened Server
  import Client

  /** The server reads back from the script's header the very token the
      script holds, provided that token is one word. */
  lemma ClientHeaderToken(token: string)
    requires IsWord(token)
    ensures BearerToken(Some(Client.AuthorizationHeader(Some(token)))) == Some(token)
  {
    assert IsBearer("Bearer") by { assert Lower("Bearer") == "bearer"; }
    BearerTokenOfHeader("Bearer", token);
    assert "Bearer" + " " + token == Client.AuthorizationHeader(Some(token));
  }

  /** The header the script sends for a token that is one word authenticates
      exactly when that token is a live session. */
  lemma ClientHeaderAccepted(token: string, sessions: map<string, string>)
    requires IsWord(token)
    ensures VerifyAuth(Some(Client.AuthorizationHeader(Some(token))), sessions) <==> token in sessions
  {
    ClientHeaderToken(token);
  }

  /** Without a token the script sends "Bearer null", which never
      authenticates: "null" is not the shape of a session token. */
  lemma NullTokenHeaderRejected(sessions: map<string, string>)
    requires forall t :: t in sessions ==> UrlSafeToken(t)
    ensures !VerifyAuth(Some(Client.AuthorizationHeader(None)), sessions)
  {
    ClientHeaderAccepted("null", sessions);
    assert !UrlSafeToken("null");
  }

  /** Logging in with valid credentials, then reloading the page (the script
      checks the session only at page load), authenticates the reloaded page
      as that user with the server's token. */
  method LoginThenCheckAuth(
    app: App, page: Client.Session,
    teachers: map<string, string>, username: string, password: string, token: string)
    returns (status: AuthStatus, reloaded: Client.Session)
    requires app.Valid() && page.Valid()
    requires UrlSafeToken(token) && token !in app.sessions
    requires username in teachers && teachers[username] == password
    modifies app, page
    ensures app.Valid() && page.Valid() && reloaded.Valid()
    ensures fresh(reloaded)
    ensures page.isAuthenticated && page.authToken == Some(token) && page.storedToken == Some(token)
    ensures status == AuthStatus(true, Some(username))
    ensures reloaded.isAuthenticated && reloaded.authToken == Some(token) && reloaded.storedToken == Some(token)
  {
    var reply := app.Login(teachers, username, password, token);
    var _ := page.SubmitLogin(Client.LoginAccepted(reply.body.token, reply.body.username));
    reloaded := new Client.Session(page.storedToken);
    UrlSafeTokenIsWord(token);
    ClientHeaderToken(token);
    status := app.CheckAuth(Some(Client.AuthorizationHeader(reloaded.authToken)));
    var request := reloaded.CheckAuth(Client.CheckReplied(status.authenticated));
  }

  /** Invalid credentials leave both sides as they were: no session on the
      server, and the page's token and flag untouched. */
  method LoginWithInvalidCredentials(
    app: App, page: Client.Session,
    teachers: map<string, string>, username: string, password: string, token: string)
    returns (shown: Option<string>)
    requires app.Valid() && page.Valid()
    requires UrlSafeToken(token) && token !in app.sessions
    requires username !in teachers || teachers[username] != password
    modifies app, page
    ensures app.Valid() && page.Valid()
    ensures app.sessions == old(app.sessions)
    ensures page.authToken == old(page.authToken) && page.storedToken == old(page.storedToken)
    ensures page.isAuthenticated == old(page.isAuthenticated)
    ensures shown == Some(InvalidCredentials.detail)
  {
    var reply := app.Login(teachers, username, password, token);
    shown := page.SubmitLogin(Client.LoginRejected(Some(reply.error.detail)));
  }

  /** A logout from the page always clears the page. The session ends on the
      server only when the request reached it: a `fetch` that throws is
      taken as a request that never arrived, and the token then stays live on
      the server although the page has forgotten it. */
  method LogoutEndsSession(app: App, page: Client.Session, outcome: Client.LogoutOutcome)
    requires app.Valid() && page.Valid()
    requires page.authToken.Some? && page.authToken.value in app.sessions
    modifies app, page
    ensures app.Valid() && page.Valid()
    ensures !page.isAuthenticated && page.authToken == None && page.storedToken == None
    ensures outcome == Client.LogoutReplied ==> old(page.authToken.value) !in app.sessions
    ensures outcome == Client.LogoutThrew ==> app.sessions == old(app.sessions)
    ensures app.activities == old(app.activities)
  {
    var token := page.authToken.value;
    UrlSafeTokenIsWord(token);
    ClientHeaderToken(token);
    var request := page.Logout(outcome);
    if outcome == Client.LogoutReplied {
      var _ := app.Logout(Some(request));
    }
  }

}
