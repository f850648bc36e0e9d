/** The browser script's authentication state: the in-memory `authToken`,
    the token saved in `localStorage` under "authToken", and
    `isAuthenticated`, with the handlers that change them. Each network
    exchange is an input value describing how the `fetch` ended. */
module Client {
  import opened Optional

  /** How the POST /login exchange ended: a 2xx body, a non-2xx body with an
      optional `detail`, or an exception from `fetch` or `response.json()`. */
  datatype LoginOutcome =
    | LoginAccepted(token: string, username: string)
    | LoginRejected(detail: Option<string>)
    | LoginThrew

  /** How the GET /check-auth exchange ended: a body whose `authenticated`
      is truthy or not, or an exception. */
  datatype CheckAuthOutcome = CheckReplied(authenticated: bool) | CheckThrew

  /** How the POST /logout exchange ended; the handler ignores the body. A
      `fetch` that throws stands for a request that never reached the server. */
  datatype LogoutOutcome = LogoutReplied | LogoutThrew

  const LoginFailed := "Login failed"
  const LoginFailedRetry := "Login failed. Please try again."

  /** JavaScript truthiness of a string that may be null: neither null nor "". */
  predicate Truthy(s: Option<string>) {
    s.Some? && s.value != ""
  }

  /** `detail || fallback`: the server's `detail` when it is truthy, else the
      fallback. */
  function DetailOr(detail: Option<string>, fallback: string): (text: string)
    ensures Truthy(detail) ==> text == detail.value
    ensures !Truthy(detail) ==> text == fallback
    ensures fallback != "" ==> text != ""
  {
    if Truthy(detail) then detail.value else fallback
  }

  /** The header the script sends: `Bearer ${authToken}`, where a null token
      is written out as "null". */
  function AuthorizationHeader(authToken: Option<string>): (header: string)
    ensures authToken.Some? ==> header == "Bearer " + authToken.value
    ensures authToken.None? ==> header == "Bearer null"
  {
    "Bearer " + match authToken case Some(t) => t case None => "null"
  }

  /** The script's authentication state. */
  class Session {
    var authToken: Option<string>
    var storedToken: Option<string>
    var isAuthenticated: bool

    /** The in-memory token is the saved one, and an authenticated session
        has a token. */
    ghost predicate Valid()
      reads this
    {
      authToken == storedToken && (isAuthenticated ==> authToken.Some?)
    }

    /** Page load: the token is restored from storage, unvalidated, so the
        session starts unauthenticated whether or not one was found. */
    constructor (persisted: Option<string>)
      ensures Valid()
      ensures authToken == persisted && storedToken == persisted && !isAuthenticated
    {
      authToken := persisted;
      storedToken := persisted;
      isAuthenticated := false;
    }

    /** checkAuth. Returns the Authorization header of the request it sends,
        or None when it has no token and sends nothing. */
    method CheckAuth(outcome: CheckAuthOutcome) returns (request: Option<string>)
      requires Valid()
      modifies this
      ensures Valid()
      ensures request.None? <==> !Truthy(old(authToken))
      ensures request.Some? ==> request.value == AuthorizationHeader(old(authToken))
      ensures !Truthy(old(authToken)) ==>
        authToken == old(authToken) && storedToken == old(storedToken) && isAuthenticated == old(isAuthenticated)
      ensures Truthy(old(authToken)) && outcome == CheckReplied(true) ==>
        authToken == old(authToken) && storedToken == old(storedToken) && isAuthenticated
      ensures Truthy(old(authToken)) && outcome != CheckReplied(true) ==>
        authToken == None && storedToken == None && !isAuthenticated
    {
      if !Truthy(authToken) {
        return None;
      }
      request := Some(AuthorizationHeader(authToken));
      match outcome
      case CheckReplied(authenticated) =>
        if authenticated {
          isAuthenticated := true;
        } else {
          authToken := None;
          storedToken := None;
          isAuthenticated := false;
        }
      case CheckThrew =>
        authToken := None;
        storedToken := None;
        isAuthenticated := false;
    }

    /** The login form's submit handler. Returns the error text it shows, or
        None on success. */
    method SubmitLogin(outcome: LoginOutcome) returns (loginMessage: Option<string>)
      requires Valid()
      modifies this
      ensures Valid()
      ensures outcome.LoginAccepted? ==> (
        && authToken == Some(outcome.token)
        && storedToken == Some(outcome.token)
        && isAuthenticated
        && loginMessage == None)
      ensures !outcome.LoginAccepted? ==>
        authToken == old(authToken) && storedToken == old(storedToken) && isAuthenticated == old(isAuthenticated)
      ensures outcome.LoginRejected? ==> loginMessage == Some(DetailOr(outcome.detail, LoginFailed))
      ensures outcome.LoginThrew? ==> loginMessage == Some(LoginFailedRetry)
    {
      match outcome
      case LoginAccepted(token, _) =>
        authToken := Some(token);
        storedToken := authToken;
        isAuthenticated := true;
        loginMessage := None;
      case LoginRejected(detail) =>
        loginMessage := Some(DetailOr(detail, LoginFailed));
      case LoginThrew =>
        loginMessage := Some(LoginFailedRetry);
    }

    /** The logout button's handler. Returns the Authorization header it
        sends; whatever the request does, the session is cleared. */
    method Logout(outcome: LogoutOutcome) returns (request: string)
      modifies this
      ensures Valid()
      ensures request == AuthorizationHeader(old(authToken))
      ensures authToken == None && storedToken == None && !isAuthenticated
    {
      request := AuthorizationHeader(authToken);
      match outcome {
        case LogoutReplied =>
        case LogoutThrew =>  // only logged to the console
      }
      authToken := None;
      storedToken := None;
      isAuthenticated := false;
    }
  }

  /** A second logout leaves the state the first one left. */
  method LogoutTwice(session: Session, first: LogoutOutcome, second: LogoutOutcome)
    modifies session
    ensures session.Valid()
    ensures session.authToken == None && session.storedToken == None && !session.isAuthenticated
  {
    var _ := session.Logout(first);
    ghost var once := (session.authToken, session.storedToken, session.isAuthenticated);
    var _ := session.Logout(second);
    assert (session.authToken, session.storedToken, session.isAuthenticated) == once;
  }

}
