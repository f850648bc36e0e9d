/** The FastAPI back end of the school activities site: an in-memory session
    table (token -> username) and an in-memory activity table, and the
    endpoints that read and change them. */
module Server {
  import opened Optional
  import opened AuthHeader
  import opened Enrollment

  /** An `HTTPException`: its status code and its `detail` text. */
  datatype HttpError = HttpError(status: int, detail: string)

  /** What an endpoint gives back: a JSON body, or the exception it raised. */
  datatype Response<T> = Ok(body: T) | Raised(error: HttpError)

  /** The body of a successful login. */
  datatype LoginBody = LoginBody(token: string, username: string)

  /** The body of /check-auth; `username` is only sent when authenticated. */
  datatype AuthStatus = AuthStatus(authenticated: bool, username: Option<string>)

  const InvalidCredentials := HttpError(401, "Invalid credentials")
  const AuthenticationRequired := HttpError(401, "Authentication required")
  const ActivityNotFound := HttpError(404, "Activity not found")
  const AlreadySignedUp := HttpError(400, "Student is already signed up")
  const NotSignedUp := HttpError(400, "Student is not signed up for this activity")
  const LoggedOut := "Logged out successfully"

  /** A character of the URL-safe base64 alphabet. */
  predicate UrlSafeChar(c: char) {
    ('A' <= c <= 'Z') || ('a' <= c <= 'z') || ('0' <= c <= '9') || c == '-' || c == '_'
  }

  /** The shape of `secrets.token_urlsafe(32)`: 32 random bytes in URL-safe
      base64 with the padding stripped, which is 43 characters. */
  predicate UrlSafeToken(t: string) {
    |t| == 43 && forall i :: 0 <= i < |t| ==> UrlSafeChar(t[i])
  }

  /** A session token is one word of a header. */
  lemma UrlSafeTokenIsWord(t: string)
    requires UrlSafeToken(t)
    ensures IsWord(t)
  {
  }

  /** verify_auth: whether the Authorization header carries a live session
      token. */
  function VerifyAuth(authorization: Option<string>, sessions: map<string, string>): (ok: bool)
    ensures authorization.None? || authorization.value == "" ==> !ok
    ensures authorization.Some? && authorization.value != "" ==>
      var parts := Split(authorization.value);
      if |parts| != 2 || Lower(parts[0]) != "bearer" then !ok
      else ok <==> parts[1] in sessions
  {
    var token := BearerToken(authorization);
    token.Some? && token.value in sessions
  }

  /** The session table after a logout with this header: the header's token,
      when it is well-formed, is no longer a session; nothing else changes. */
  function SessionsAfterLogout(sessions: map<string, string>, authorization: Option<string>): (r: map<string, string>)
    ensures BearerToken(authorization).None? ==> r == sessions
    ensures BearerToken(authorization).Some? ==> BearerToken(authorization).value !in r
    ensures r.Keys <= sessions.Keys
    ensures forall t :: t in sessions && Some(t) != BearerToken(authorization) ==> t in r && r[t] == sessions[t]
  {
    match BearerToken(authorization)
    case None => sessions
    case Some(token) => sessions - {token}
  }

  /** Logging out twice with the same header is logging out once. */
  lemma LogoutIdempotent(sessions: map<string, string>, authorization: Option<string>)
    ensures SessionsAfterLogout(SessionsAfterLogout(sessions, authorization), authorization)
         == SessionsAfterLogout(sessions, authorization)
  {
  }

  /** After a logout, the header used for it no longer authenticates. */
  lemma LogoutRevokes(sessions: map<string, string>, authorization: Option<string>)
    ensures !VerifyAuth(authorization, SessionsAfterLogout(sessions, authorization))
  {
  }

  /** The activity table the server starts with. */
  function InitialActivities(): map<string, Activity> {
    map[
      "Chess Club" := Activity(
        "Learn strategies and compete in chess tournaments",
        "Fridays, 3:30 PM - 5:00 PM", 12,
        ["michael@mergington.edu", "daniel@mergington.edu"]),
      "Programming Class" := Activity(
        "Learn programming fundamentals and build software projects",
        "Tuesdays and Thursdays, 3:30 PM - 4:30 PM", 20,
        ["emma@mergington.edu", "sophia@mergington.edu"]),
      "Gym Class" := Activity(
        "Physical education and sports activities",
        "Mondays, Wednesdays, Fridays, 2:00 PM - 3:00 PM", 30,
        ["john@mergington.edu", "olivia@mergington.edu"]),
      "Soccer Team" := Activity(
        "Join the school soccer team and compete in matches",
        "Tuesdays and Thursdays, 4:00 PM - 5:30 PM", 22,
        ["liam@mergington.edu", "noah@mergington.edu"]),
      "Basketball Team" := Activity(
        "Practice and play basketball with the school team",
        "Wednesdays and Fridays, 3:30 PM - 5:00 PM", 15,
        ["ava@mergington.edu", "mia@mergington.edu"]),
      "Art Club" := Activity(
        "Explore your creativity through painting and drawing",
        "Thursdays, 3:30 PM - 5:00 PM", 15,
        ["amelia@mergington.edu", "harper@mergington.edu"]),
      "Drama Club" := Activity(
        "Act, direct, and produce plays and performances",
        "Mondays and Wednesdays, 4:00 PM - 5:30 PM", 20,
        ["ella@mergington.edu", "scarlett@mergington.edu"]),
      "Math Club" := Activity(
        "Solve challenging problems and participate in math competitions",
        "Tuesdays, 3:30 PM - 4:30 PM", 10,
        ["james@mergington.edu", "benjamin@mergington.edu"]),
      "Debate Team" := Activity(
        "Develop public speaking and argumentation skills",
        "Fridays, 4:00 PM - 5:30 PM", 12,
        ["charlotte@mergington.edu", "henry@mergington.edu"])
    ]
  }

  /** The two module-level tables of the back end and its endpoints. */
  class App {
    var sessions: map<string, string>
    var activities: map<string, Activity>

    /** Every session token has the shape token_urlsafe gives it, and no
        participant list holds an email twice. */
    ghost predicate Valid()
      reads this
    {
      && (forall t :: t in sessions ==> UrlSafeToken(t))
      && AllDistinct(activities)
    }

    /** The state at start-up: no sessions, the initial activity table. */
    constructor ()
      ensures Valid()
      ensures sessions == map[] && activities == InitialActivities()
    {
      sessions := map[];
      activities := InitialActivities();
    }

    /** POST /login. `token` stands for the fresh `token_urlsafe(32)`. */
    method Login(teachers: map<string, string>, username: string, password: string, token: string)
      returns (r: Response<LoginBody>)
      requires Valid()
      requires UrlSafeToken(token) && token !in sessions
      modifies this
      ensures Valid()
      ensures activities == old(activities)
      ensures r.Raised? <==> username !in teachers || teachers[username] != password
      ensures r.Raised? ==> r.error == InvalidCredentials && sessions == old(sessions)
      ensures r.Ok? ==> (
        && r.body == LoginBody(token, username)
        && sessions == old(sessions)[token := username]
        && |sessions| == |old(sessions)| + 1)
    {
      if username !in teachers || teachers[username] != password {
        return Raised(InvalidCredentials);
      }
      sessions := sessions[token := username];
      r := Ok(LoginBody(token, username));
    }

    /** POST /logout: drops the header's session if there is one, and always
        reports success. */
    method Logout(authorization: Option<string>) returns (message: string)
      requires Valid()
      modifies this
      ensures Valid()
      ensures message == LoggedOut
      ensures sessions == SessionsAfterLogout(old(sessions), authorization)
      ensures activities == old(activities)
    {
      if authorization.Some? && authorization.value != "" {
        var parts := Split(authorization.value);
        if |parts| == 2 && Lower(parts[0]) == "bearer" {
          var token := parts[1];
          if token in sessions {
            sessions := sessions - {token};
          }
        }
      }
      message := LoggedOut;
    }

    /** GET /check-auth: reads the session table and changes nothing. */
    method CheckAuth(authorization: Option<string>) returns (r: AuthStatus)
      ensures r.authenticated == VerifyAuth(authorization, sessions)
      ensures r.authenticated ==> (
        && BearerToken(authorization).Some?
        && r.username == Some(sessions[BearerToken(authorization).value]))
      ensures !r.authenticated ==> r.username == None
    {
      var isAuthenticated := VerifyAuth(authorization, sessions);
      if isAuthenticated {
        var parts := Split(authorization.value);
        var token := parts[1];
        var username := if token in sessions then sessions[token] else "";
        return AuthStatus(true, Some(username));
      }
      r := AuthStatus(false, None);
    }

    /** GET /activities: the activity table as it stands. */
    method GetActivities() returns (r: map<string, Activity>)
      requires Valid()
      ensures r == activities
      ensures AllDistinct(r)
    {
      r := activities;
    }

    /** POST /activities/{name}/signup. Checks, in this order: a live session,
        an existing activity, an email not yet listed; then appends the email.
        The capacity `maxParticipants` is never consulted. */
    method SignupForActivity(name: string, email: string, authorization: Option<string>)
      returns (r: Response<string>)
      requires Valid()
      modifies this
      ensures Valid()
      ensures sessions == old(sessions)
      ensures activities.Keys == old(activities).Keys
      ensures !VerifyAuth(authorization, old(sessions)) ==> r == Raised(AuthenticationRequired)
      ensures VerifyAuth(authorization, old(sessions)) && name !in old(activities) ==>
        r == Raised(ActivityNotFound)
      ensures VerifyAuth(authorization, old(sessions)) && name in old(activities)
              && email in old(activities)[name].participants ==>
        r == Raised(AlreadySignedUp)
      ensures r.Ok? <==> VerifyAuth(authorization, old(sessions)) && name in old(activities)
                          && email !in old(activities)[name].participants
      ensures r.Raised? ==> activities == old(activities)
      ensures r.Ok? ==> (
        && r.body == "Signed up " + email + " for " + name
        && activities == Enroll(old(activities), name, email))
    {
      if !VerifyAuth(authorization, sessions) {
        return Raised(AuthenticationRequired);
      }
      if name !in activities {
        return Raised(ActivityNotFound);
      }
      var activity := activities[name];
      if email in activity.participants {
        return Raised(AlreadySignedUp);
      }
      EnrollKeepsDistinct(activities, name, email);
      activities := activities[name := activity.(participants := activity.participants + [email])];
      r := Ok("Signed up " + email + " for " + name);
    }

    /** DELETE /activities/{name}/unregister. Checks, in this order: a live
        session, an existing activity, a listed email; then removes it. */
    method UnregisterFromActivity(name: string, email: string, authorization: Option<string>)
      returns (r: Response<string>)
      requires Valid()
      modifies this
      ensures Valid()
      ensures sessions == old(sessions)
      ensures activities.Keys == old(activities).Keys
      ensures !VerifyAuth(authorization, old(sessions)) ==> r == Raised(AuthenticationRequired)
      ensures VerifyAuth(authorization, old(sessions)) && name !in old(activities) ==>
        r == Raised(ActivityNotFound)
      ensures VerifyAuth(authorization, old(sessions)) && name in old(activities)
              && email !in old(activities)[name].participants ==>
        r == Raised(NotSignedUp)
      ensures r.Ok? <==> VerifyAuth(authorization, old(sessions)) && name in old(activities)
                          && email in old(activities)[name].participants
      ensures r.Raised? ==> activities == old(activities)
      ensures r.Ok? ==> (
        && r.body == "Unregistered " + email + " from " + name
        && activities == Withdraw(old(activities), name, email)
        && email !in activities[name].participants)
    {
      if !VerifyAuth(authorization, sessions) {
        return Raised(AuthenticationRequired);
      }
      if name !in activities {
        return Raised(ActivityNotFound);
      }
      var activity := activities[name];
      if email !in activity.participants {
        return Raised(NotSignedUp);
      }
      WithdrawKeepsDistinct(activities, name, email);
      activities := activities[name := activity.(participants := Remove(activity.participants, email))];
      r := Ok("Unregistered " + email + " from " + name);
    }
  }

  /** Sign-up then unregister of the same email, both succeeding, leaves the
      activity table as it was. */
  method SignupThenUnregister(app: App, name: string, email: string, authorization: Option<string>)
    returns (signedUp: Response<string>, unregistered: Response<string>)
    requires app.Valid()
    modifies app
    ensures app.Valid()
    ensures signedUp.Ok? ==> unregistered.Ok? && app.activities == old(app.activities)
  {
    signedUp := app.SignupForActivity(name, email, authorization);
    unregistered := app.UnregisterFromActivity(name, email, authorization);
    if signedUp.Ok? {
      EnrollWithdrawRoundTrip(old(app.activities), name, email);
    }
  }

}
