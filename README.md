# Mergington High School activities: sessions and enrollment

This project models the two state machines of the school activities site and
proves properties about them in Dafny.

- **The back end** (`src/app.py`). It holds two in-memory tables:
  `active_sessions` maps tokens to usernames, and `activities` maps activity
  names to records with an ordered `participants` list. Endpoints act on them.
  `login` checks a teachers map and adds a session. `logout` drops the
  session named by a well-formed `Authorization: Bearer <token>` header.
  `check-auth` and `GET /activities` only read. `signup` and `unregister`
  check, in a fixed order, for a live session, an existing activity and the
  student's enrollment state, then append or remove an email. The tables are
  the fields of the class `Server.App`. The endpoints are its methods. The
  header parse is in `AuthHeader`: Python's `str.split()` on runs of
  whitespace, then a case-insensitive match with `"bearer"`. The list edits
  (`append`, `list.remove`) are in `Enrollment`.
- **The browser script** (`src/static/app.js`). Apart from the page markup,
  it is a machine over three variables: the in-memory `authToken`, the
  token saved in `localStorage`, and `isAuthenticated`. The class
  `Client.Session` holds them. Its methods are the login submit handler,
  the logout handler and `checkAuth`. Each `fetch` exchange is an input
  value: a reply body, or an exception. `ClientView` holds the pure rules:
  which message a sign-up or unregister ends with, `spotsLeft`, and which
  controls an authenticated page shows.
- **Both together** (`Protocol`). The `Bearer ${authToken}` header the
  script builds is checked against the server's parse. Login, check-auth
  and logout are composed end to end in `Protocol`'s methods.

Proved invariants:
Each endpoint and each handler is taken to run on its own, one at a time
(see "## Left out" for the interleavings this excludes). Under that reading:
- no participant list holds an email twice;
- the set of activity names never changes;
- every error response leaves the tables as they were;
- a successful sign-up followed by a successful unregister restores the
  table;
- with one page of the site open, the in-memory token always equals the saved one, and
  `isAuthenticated` implies a token is present (given that writes to
  `localStorage` do not throw);
- logout clears the page's state whatever the network does; the session
  ends on the server only when the request reached it.

## Model

| member | source | states |
|---|---|---|
| `AuthHeader.IsSpace` | src/app.py:121 | the characters `str.split()` splits on (Python's `isspace`): printable ASCII other than the space never is one; space, tab, line feed and carriage return always are |
| `AuthHeader.Split` | src/app.py:121 | `str.split()`: every part is a non-empty run of characters, none of them whitespace; which parts come out is stated by `SplitSeparated` |
| `AuthHeader.SplitFromSpaces` | src/app.py:121 | whitespace before the first word produces no part |
| `AuthHeader.SplitSeparated` | src/app.py:121 | for words w1..wn with whitespace of any length around them and non-empty whitespace of any length between them, `split()` gives exactly [w1..wn]; so leading and trailing whitespace and repeated separators give no part |
| `AuthHeader.SplitJoin` | src/app.py:121 | splitting words joined by single spaces gives back exactly those words |
| `AuthHeader.IsBearerCases` | src/app.py:122 | the scheme check `parts[0].lower() != "bearer"` accepts exactly the six-letter words spelling "bearer" with each letter in upper or lower case |
| `AuthHeader.BearerToken` | src/app.py:117-125 | a token is read only from a present, non-empty header, and that token is a single word |
| `AuthHeader.BearerTokenOfHeader` | src/app.py:121-125 | a header "scheme token" whose scheme lower-cases to "bearer" (any case) yields exactly that token |
| `AuthHeader.BearerTokenSpaced` | src/app.py:117-125 | a "bearer" scheme (any case) and a one-word token, with any whitespace around them and any non-empty whitespace between, yield exactly that token |
| `AuthHeader.BearerTokenNeedsTwoParts` | src/app.py:121-123 | a header made of any number of words other than two, with any whitespace around them and non-empty whitespace between them, yields no token |
| `Server.UrlSafeTokenIsWord` | src/app.py:139 | a `token_urlsafe` token contains no whitespace, so it survives the header parse |
| `Server.VerifyAuth` | src/app.py:115-126 | false for an absent or empty header, false unless the split gives exactly two parts with the first matching "bearer" in any case; otherwise true iff the second part is a session key |
| `Server.SessionsAfterLogout` | src/app.py:148-153 | a well-formed header's token is no longer a key afterwards; every other session keeps its username; a malformed header changes nothing |
| `Server.LogoutIdempotent` | src/app.py:148-155 | logging out twice with one header leaves the same table as logging out once |
| `Server.LogoutRevokes` | src/app.py:148-153 | after logout, the header used for it no longer passes `verify_auth` |
| `Server.App.constructor` | src/app.py:42-100 | the server starts with no sessions and the nine initial activities, each list free of duplicates |
| `Server.App.Login` | src/app.py:129-142 | an unknown user or a wrong password raises 401 "Invalid credentials" and leaves the sessions unchanged; otherwise exactly one new entry token -> username is added and the same token and username are returned |
| `Server.App.Logout` | src/app.py:145-155 | the sessions become `SessionsAfterLogout` of the header, the activities are untouched, and the reply is always "Logged out successfully" |
| `Server.App.CheckAuth` | src/app.py:158-169 | changes nothing; `authenticated` equals `verify_auth`; when it holds, the username is the session's username for the header's token; otherwise no username is sent |
| `Server.App.GetActivities` | src/app.py:172-174 | changes nothing and returns the activity table, whose lists are free of duplicates |
| `Server.App.SignupForActivity` | src/app.py:177-200 | checks in order (401 "Authentication required", 404 "Activity not found", 400 "Student is already signed up"); any error leaves the tables unchanged; success appends the email to that activity only, keeps the names and preserves the no-duplicates invariant; capacity is never checked |
| `Server.App.UnregisterFromActivity` | src/app.py:203-226 | same order with 400 "Student is not signed up for this activity" last; errors change nothing; success removes the email from that activity only, keeping the other participants in order |
| `Server.SignupThenUnregister` | src/app.py:177-226 | a sign-up that succeeds, followed by an unregister of the same email with the same header, succeeds and restores the activity table |
| `Enrollment.IndexOf` | src/app.py:225 | the position of the first occurrence of the email |
| `Enrollment.Remove` | src/app.py:225 | `list.remove` drops one occurrence (the multiset loses exactly that email); entries before the first occurrence keep their places, entries after it move up by one |
| `Enrollment.RemoveKeepsDistinct` | src/app.py:218-225 | removing from a duplicate-free list leaves it duplicate-free and without the email |
| `Enrollment.AppendKeepsDistinct` | src/app.py:192-199 | appending an email that passed the "already signed up" check keeps the list duplicate-free |
| `Enrollment.RemoveAppended` | src/app.py:199-225 | `remove` undoes `append` of an email that was not listed |
| `Enrollment.Enroll` | src/app.py:199 | the table after sign-up: same names, the email at the end of that activity's list, every other entry and field unchanged |
| `Enrollment.Withdraw` | src/app.py:225 | the table after unregister: same names, that activity's list passed through `list.remove`, every other entry unchanged |
| `Enrollment.EnrollKeepsDistinct` | src/app.py:192-199 | a sign-up that passed the checks keeps every list of the table duplicate-free |
| `Enrollment.WithdrawKeepsDistinct` | src/app.py:218-225 | an unregister keeps every list duplicate-free, and the email is no longer in the activity |
| `Enrollment.EnrollWithdrawRoundTrip` | src/app.py:192-225 | sign-up then unregister of the same new email restores the activity table exactly |
| `Client.DetailOr` | src/static/app.js:78 | the JavaScript `or` of detail and fallback: the server's detail when truthy, else the fallback; never empty when the fallback is not |
| `Client.AuthorizationHeader` | src/static/app.js:96 | the header is "Bearer " followed by the token, or "Bearer null" when there is none |
| `Client.Session.constructor` | src/static/app.js:19-20 | the token is restored from storage and the session starts unauthenticated, whether or not a token was found |
| `Client.Session.CheckAuth` | src/static/app.js:124-155 | with no truthy token, sends nothing and changes nothing; otherwise sends the Bearer header; a truthy `authenticated` keeps the token and sets the flag; anything else (falsy reply or exception) clears the token, the saved token and the flag |
| `Client.Session.SubmitLogin` | src/static/app.js:57-88 | success sets the token, the saved token and the flag; a rejected reply shows `detail` or "Login failed"; an exception shows "Login failed. Please try again."; on failure no state changes |
| `Client.Session.Logout` | src/static/app.js:91-109 | whatever the request does, the token and the saved token end null and the flag false; the request carries the old token's header |
| `Client.LogoutTwice` | src/static/app.js:91-106 | a second logout leaves the state the first one left |
| `ClientView.MutationFeedback` | src/static/app.js:251-273 | an accepted reply shows its `message` as success and triggers a refresh; a rejected one shows `detail` or "An error occurred" with no refresh; an exception shows the fixed failure text; an error text is never empty |
| `ClientView.SameRuleForReplies` | src/static/app.js:298-321 | sign-up and unregister handle every reply identically; only the exception text differs |
| `ClientView.SpotsLeft` | src/static/app.js:171-172 | `max_participants - participants.length` as shown, unclamped: at most the capacity, zero or less exactly when the list has reached the capacity, negative exactly when it is over it |
| `ClientView.SpotsLeftAfterEnroll` | src/static/app.js:171-172 | a sign-up lowers `spotsLeft` by exactly one, with no clamping: a full activity goes negative |
| `ClientView.SpotsLeftAfterWithdraw` | src/static/app.js:171-172 | an unregister raises `spotsLeft` by exactly one |
| `ClientView.ParticipantRows` | src/static/app.js:180-185 | one row per participant, in order, with a delete button for that activity and email exactly when authenticated |
| `ClientView.SignupContainerDisplay` | src/static/app.js:216-222 | the sign-up container is shown ("block") iff authenticated, hidden ("none") otherwise, as of the last refresh that succeeded |
| `ClientView.DeleteButtonsTargetListed` | src/static/app.js:183 | every delete button of the rows, as values, names an existing activity and an email listed in it (the markup round trip is not modelled; see "## Left out") |
| `Protocol.ClientHeaderToken` | src/static/app.js:131-135 | from the header the script builds, the server's parse recovers exactly the script's token |
| `Protocol.ClientHeaderAccepted` | src/app.py:115-126 | the script's header authenticates iff its token is a live session |
| `Protocol.NullTokenHeaderRejected` | src/static/app.js:93-98 | "Bearer null", sent when there is no token, never authenticates against sessions holding `token_urlsafe` tokens |
| `Protocol.LoginThenCheckAuth` | src/static/app.js:19-145 | assuming the credentials reach `login`: a login with valid credentials leaves the page authenticated with the server's token; after a reload (the script runs `checkAuth` only at page load, line 325) the restored page gets an authenticated reply with the same username and ends authenticated with that token |
| `Protocol.LoginWithInvalidCredentials` | src/app.py:135-136 | assuming the credentials reach `login`: invalid credentials add no session and leave the page's token, saved token and flag as they were; the page shows "Invalid credentials" |
| `Protocol.LogoutEndsSession` | src/static/app.js:91-105 | a page logout always clears the page's token, saved token and flag; when the request reaches the server the session is removed there; when `fetch` throws (taken as a request that never arrived) the server's sessions are unchanged, so the token stays live there |

## Left out

- Page markup and DOM work: element lookup, menus, the login modal, `innerHTML` building and listener wiring (src/static/app.js:1-54, 112-121, 164-207). This is presentation. So is `updateAuthUI` and its username display.
- `fetch` and `response.json()`. Each exchange is an input value instead. A `json()` failure counts as an exception, as in the script.
- The 5-second auto-dismiss of messages (`setTimeout`). This is timer-driven UI.
- The un-awaited `fetchActivities()` calls and their interleaving. No order between them is guaranteed. The model says only whether a handler triggers a refresh.
- The roster on the page. A failed fetch replaces the list with an error text, and dropdown options pile up on every refresh. No snapshot is kept, so none is modelled.
- `load_teachers` file and JSON I/O. The teachers map is a parameter of `Login` whose values are strings. A non-string password in the file could never match.
- `secrets.token_urlsafe(32)`. The fresh token is a parameter of `Login`: 43 URL-safe characters not already a session key.
- FastAPI plumbing: the app object, the static mount, the root redirect and request binding. The script sends login credentials as query parameters while the endpoint declares a body model. That is a matter of request binding, not modelled.
- `AuthHeader.Lower`: only ASCII letters are lower-cased. For the comparison with "bearer" this is exact, because no other character lower-cases to one of its letters.
- `Client.Session.SubmitLogin`: a 2xx login body without a `token` field cannot be represented, because the server's login always sends one (src/app.py:142). The script would keep `undefined` in memory and save the string "undefined", and the token equality would then fail.
- `ClientView.MutationFeedback`: a 2xx body without a `message` field cannot be represented. The server always sends one (src/app.py:200, 226).
- Concurrency on the server: every `App` method runs atomically, one at a time. FastAPI runs these plain `def` endpoints on a thread pool. Two concurrent sign-ups of one email can both pass the check at src/app.py:192 before either append at :199, and that leaves a duplicate. Two concurrent unregisters can both pass :218, and the second `remove` at :225 raises `ValueError` (a 500 the model has no response for). `AllDistinct` holds only under one-at-a-time execution.
- Concurrency on the page: each `Session` handler runs atomically, from its read of the state to its last write. The script awaits `fetch` in between, so handlers can interleave. Example: a `checkAuth` for a saved token is pending (src/static/app.js:131), and the user logs in and then out (:70-72, :103-105). The late reply then sets `isAuthenticated` (:140) while `authToken` is null. `Valid` holds only when handlers do not overlap.
- `Client.Session`: `storedToken` is the origin's `localStorage` entry as one page sees it, with no other page of the site writing to it. In the browser that store is shared by every open tab. Example: tabs A and B both restore token T (src/static/app.js:19). A logout in A removes the saved entry (:104) and ends T on the server, while B keeps `authToken == T` and `isAuthenticated`. If A then logs in with T2, a logout in B removes T2 from under A. `Valid` and the invariants on the page hold for one open page only.
- `Client.Session.SubmitLogin`: assumes `localStorage.setItem` never throws. If it throws after `authToken = result.token` (src/static/app.js:70-71), for example with storage full or disabled, the catch at :82-86 shows "Login failed. Please try again." The in-memory token is then new, the saved one old and the flag false, which `LoginThrew` does not represent and which breaks `authToken == storedToken`.
- `ClientView.DeleteButtonsTargetListed`: states the targets of the rows as values. The page interpolates names and emails into `data-` attributes unescaped (src/static/app.js:183) and reads them back with `getAttribute` (:233-234). That round trip fails for values containing `"` or `&`. The server accepts any string as an email, so such a button can unregister a different participant.
- `ClientView.ParticipantRows`, `ClientView.SignupContainerDisplay`: these decisions are applied only by a `fetchActivities` that succeeds (src/static/app.js:210-222). After a failed refresh, or before one finishes, the page keeps what the last successful refresh drew, whatever the current `isAuthenticated`.
- `Protocol.LoginThenCheckAuth`, `Protocol.LoginWithInvalidCredentials`: assume the credentials reach `login`. As written, the script sends them as query parameters (src/static/app.js:63) while the endpoint expects a body, so FastAPI answers 422 with a list as `detail`, and the page would show that list's string form ("[object Object]") instead of "Invalid credentials".
- `Protocol.LogoutEndsSession`: a `fetch` that throws is taken as a request that never reached the server. A request that reached the server and lost its reply acts on the server as `LogoutReplied` does.
- JavaScript truthiness is modelled for the token (null or "" is falsy) and for `detail`. `result.authenticated` is taken as already reduced to its truthiness.
- The signup and unregister handlers send their request whatever the authentication state. The model follows the code: nothing is rejected locally, and only the controls are hidden while unauthenticated.
