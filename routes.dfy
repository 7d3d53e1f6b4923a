/** The HTTP routes of backend/src/app.js that decide something: sign-up,
    and the session routes /create, /preJoin, /join and /logout. `getUser`,
    `checkUsername` and `logout` are defined nowhere in the repository; what
    they return is a parameter here. */
module Routes {
  import opened Common
  import Accounts
  import US = UserSessions
  import AudioSessions

  const Ok := 200
  const BadRequest := 400
  const Unauthorized := 401

  datatype ErrorType = UsernameError | PasswordError | EmailError | AllError

  /** The `{errorType, errorMessage}` objects sign-up can report. */
  datatype SignupError = UsernameFormat | PasswordLength | EmailFormat | EmailInUse | UsernameTaken | CreateFailed
  {
    function ErrorType(): ErrorType {
      match this
      case UsernameFormat => UsernameError
      case PasswordLength => PasswordError
      case EmailFormat => EmailError
      case EmailInUse => EmailError
      case UsernameTaken => UsernameError
      case CreateFailed => AllError
    }

    function Message(): string {
      match this
      case UsernameFormat => "Username must be between 3-32 characters in length and have no special characters"
      case PasswordLength => "Password must be between 8-64 characters in length"
      case EmailFormat => "Email must be a valid email"
      case EmailInUse => "Email is already in use"
      case UsernameTaken => "Username already exists"
      case CreateFailed => "Error creating account"
    }

    /** Position in the order in which sign-up runs its tests. */
    function Rank(): nat {
      match this
      case UsernameFormat => 0
      case PasswordLength => 1
      case EmailFormat => 2
      case EmailInUse => 3
      case UsernameTaken => 4
      case CreateFailed => 5
    }
  }

  datatype Body =
    | Error(message: string)
    | SignupFailure(errors: seq<SignupError>)
    | SignupSuccess(sessionId: Id)
    | SessionCreated(sessionId: Id)
    | AlreadyInSession(audioSessionId: Id)
    | Message(message: string)
    | LogoutResult(success: bool, message: string)

  /** A reply with its status, JSON body and the `usid` cookie it sets, or
      an exception that escaped the handler. */
  datatype Response = Response(status: int, body: Body, setCookie: Option<Id>) | Unhandled(error: string)

  /** Every error of `errors` ranks below `k`, in increasing rank order. */
  predicate RankedBelow(errors: seq<SignupError>, k: nat) {
    && (forall i | 0 <= i < |errors| :: errors[i].Rank() < k)
    && (forall i | 0 < i < |errors| :: errors[i - 1].Rank() < errors[i].Rank())
  }

  /** One test of sign-up: `errors.push(e)` when it failed. */
  method Push(errors: seq<SignupError>, failed: bool, e: SignupError) returns (r: seq<SignupError>)
    requires RankedBelow(errors, e.Rank())
    ensures RankedBelow(r, e.Rank() + 1)
    ensures forall x :: x in r <==> x in errors || (failed && x == e)
    ensures r == [] <==> errors == [] && !failed
  {
    r := if failed then errors + [e] else errors;
  }

  /** `errors` is what sign-up reports for the outcomes of its five tests:
      each error present iff its test failed, never the "all" error, and in
      the order the tests run. */
  predicate Reports(errors: seq<SignupError>, badUsername: bool, badPassword: bool, badEmail: bool,
                    emailInUse: bool, usernameTaken: bool)
  {
    && (UsernameFormat in errors <==> badUsername)
    && (PasswordLength in errors <==> badPassword)
    && (EmailFormat in errors <==> badEmail)
    && (EmailInUse in errors <==> emailInUse)
    && (UsernameTaken in errors <==> usernameTaken)
    && CreateFailed !in errors
    && (forall i | 0 < i < |errors| :: errors[i - 1].Rank() < errors[i].Rank())
  }

  /** The five tests of `/auth/signup`, pushing one error for each that
      fails, in the order they run. The first three flags are the failed
      format checks; `emailInUse` is what `findEmail` found and
      `usernameTaken` what `checkUsername` returned. */
  method CollectSignupErrors(badUsername: bool, badPassword: bool, badEmail: bool,
                             emailInUse: bool, usernameTaken: bool)
    returns (errors: seq<SignupError>)
    ensures Reports(errors, badUsername, badPassword, badEmail, emailInUse, usernameTaken)
    ensures errors == [] <==> !badUsername && !badPassword && !badEmail && !emailInUse && !usernameTaken
  {
    errors := Push([], badUsername, UsernameFormat);
    errors := Push(errors, badPassword, PasswordLength);
    errors := Push(errors, badEmail, EmailFormat);
    errors := Push(errors, emailInUse, EmailInUse);
    errors := Push(errors, usernameTaken, UsernameTaken);
  }

  /** `/auth/signup` as written. With errors it answers 400 with them and
      creates nothing; without, it calls `createAccount`, whose result is
      always falsy, and answers 400 with the single "all" error. No sign-up
      ever succeeds. */
  method Signup(accounts: Accounts.AccountTable, sessions: US.UserSessionTable,
                username: string, email: string, password: string, usernameTaken: bool,
                userId: Id, sessionId: Id, passwordHash: string, nowMs: int)
    returns (resp: Response)
    modifies accounts, sessions
    ensures resp.Response? && resp.status == BadRequest && resp.setCookie == None
    ensures var valid := Accounts.CredentialsValid(username, email, password)
                         && !Accounts.EmailInUse(old(accounts.items), email) && !usernameTaken;
      && (!valid ==> resp.body.SignupFailure? && resp.body.errors != []
                     && Reports(resp.body.errors, !Accounts.VerifyUsername(username), !Accounts.VerifyPassword(password),
                                !Accounts.VerifyEmail(email), Accounts.EmailInUse(old(accounts.items), email),
                                usernameTaken)
                     && accounts.items == old(accounts.items) && sessions.items == old(sessions.items))
      && (valid ==> resp.body == SignupFailure([CreateFailed])
                    && sessions.items == old(sessions.items)[sessionId := US.NewRecord(sessionId, userId, nowMs)]
                    && accounts.items == if userId in old(accounts.items) then old(accounts.items)
                       else old(accounts.items)[userId := Accounts.Account(userId, email, username, passwordHash, sessionId)])
  {
    var errors := CollectSignupErrors(!Accounts.VerifyUsername(username), !Accounts.VerifyPassword(password),
                                      !Accounts.VerifyEmail(email), Accounts.EmailInUse(accounts.items, email),
                                      usernameTaken);
    if errors != [] {
      return Response(BadRequest, SignupFailure(errors), None);
    }
    var result := accounts.CreateAccount(sessions, username, email, password, userId, sessionId, passwordHash, nowMs);
    if result.Some? {
      // the cookie-setting success reply: unreachable, the result is never truthy
      assert false;
    }
    errors := errors + [CreateFailed];
    resp := Response(BadRequest, SignupFailure(errors), None);
  }

  /** `/auth/signup` with a `createAccount` that returns the new user
      session: a valid sign-up answers 200 and sets the `usid` cookie to
      the new user-session id. */
  method SignupIntended(accounts: Accounts.AccountTable, sessions: US.UserSessionTable,
                        username: string, email: string, password: string, usernameTaken: bool,
                        userId: Id, sessionId: Id, passwordHash: string, nowMs: int)
    returns (resp: Response)
    modifies accounts, sessions
    ensures var valid := Accounts.CredentialsValid(username, email, password)
                         && !Accounts.EmailInUse(old(accounts.items), email) && !usernameTaken;
      && (valid <==> resp == Response(Ok, SignupSuccess(sessionId), Some(sessionId)))
      && (valid ==> sessions.items == old(sessions.items)[sessionId := US.NewRecord(sessionId, userId, nowMs)]
                    && accounts.items == if userId in old(accounts.items) then old(accounts.items)
                       else old(accounts.items)[userId := Accounts.Account(userId, email, username, passwordHash, sessionId)])
      && (!valid ==> resp.Response? && resp.status == BadRequest && resp.body.SignupFailure?
                     && resp.body.errors != []
                     && Reports(resp.body.errors, !Accounts.VerifyUsername(username), !Accounts.VerifyPassword(password),
                                !Accounts.VerifyEmail(email), Accounts.EmailInUse(old(accounts.items), email),
                                usernameTaken)
                     && accounts.items == old(accounts.items) && sessions.items == old(sessions.items))
  {
    var errors := CollectSignupErrors(!Accounts.VerifyUsername(username), !Accounts.VerifyPassword(password),
                                      !Accounts.VerifyEmail(email), Accounts.EmailInUse(accounts.items, email),
                                      usernameTaken);
    if errors != [] {
      return Response(BadRequest, SignupFailure(errors), None);
    }
    var result := accounts.CreateAccountReturningSession(sessions, username, email, password,
                                                         userId, sessionId, passwordHash, nowMs);
    if result.None? {
      errors := errors + [CreateFailed];
      return Response(BadRequest, SignupFailure(errors), None);
    }
    resp := Response(Ok, SignupSuccess(result.value), Some(result.value));
  }

  /** `/create`. `userId` is what `getUser` returned for the cookie and
      `freshId` the UUID the store would mint. */
  method Create(audio: AudioSessions.AudioSessionTable, users: US.UserSessionTable,
                cookie: Id, userId: Id, freshId: Id, now: int)
    returns (resp: Response)
    requires freshId != ""
    modifies audio, users
    ensures cookie == "" || userId == "" ==>
      resp.Response? && resp.status == Unauthorized
      && audio.items == old(audio.items) && users.items == old(users.items)
    ensures cookie != "" && userId != "" && AudioSessions.GetSessionIdFromUser(old(users.items), userId) != "" ==>
      resp == Response(BadRequest, Error("Failed to create session or user already in a session"), None)
      && audio.items == old(audio.items) && users.items == old(users.items)
    ensures cookie != "" && userId != "" && AudioSessions.GetSessionIdFromUser(old(users.items), userId) == "" ==>
      && audio.items == old(audio.items)[freshId := AudioSessions.NewSession(freshId, userId, now)]
      && users.items == AudioSessions.WithSessionLink(old(users.items), userId, freshId)
      && resp == Response(Ok, SessionCreated(freshId), None)
    ensures resp.Response? && resp.status == Ok ==>
      resp.body.SessionCreated? && resp.body.sessionId in audio.items && audio.items[resp.body.sessionId].owner == userId
  {
    if cookie == "" {
      return Response(Unauthorized, Error("No user session cookie found"), None);
    }
    if userId == "" {
      return Response(Unauthorized, Error("User not found"), None);
    }
    var sessionId := audio.CreateSession(users, userId, freshId, now);
    if sessionId != "" {
      resp := Response(Ok, SessionCreated(sessionId), None);
    } else {
      resp := Response(BadRequest, Error("Failed to create session or user already in a session"), None);
    }
  }

  /** `/preJoin`. */
  function PreJoin(users: AudioSessions.UserRecords, cookie: Id, userId: Id): (resp: Response)
    ensures resp.Response?
    ensures resp.status == Unauthorized <==> cookie == "" || userId == ""
    ensures resp.status == BadRequest <==>
      cookie != "" && userId != "" && AudioSessions.GetSessionIdFromUser(users, userId) != ""
    ensures resp.status == BadRequest ==> resp.body == AlreadyInSession(users[userId].audioSessionId)
    ensures resp.status in {Ok, BadRequest, Unauthorized}
  {
    if cookie == "" then Response(Unauthorized, Error("No user session cookie found"), None)
    else if userId == "" then Response(Unauthorized, Error("User not found"), None)
    else
      var audioSessionId := AudioSessions.GetSessionIdFromUser(users, userId);
      if audioSessionId != "" then Response(BadRequest, AlreadyInSession(audioSessionId), None)
      else Response(Ok, Message("Can join a session"), None)
  }

  /** `/join`. `bodySessionId` is `req.body.sessionId` ("" when the body or
      the field is missing). The join itself never yields a truthy value,
      so the route never answers 200. */
  method Join(audio: AudioSessions.AudioSessionTable, users: US.UserSessionTable,
              cookie: Id, userId: Id, bodySessionId: Id, maxUsers: Option<int>, now: int)
    returns (resp: Response)
    modifies audio, users
    ensures resp.Response? && resp.setCookie == None
    ensures resp.status == Unauthorized <==> cookie == "" || userId == ""
    ensures resp.status == BadRequest <==> cookie != "" && userId != ""
    ensures cookie == "" || userId == "" || bodySessionId == "" ==>
      audio.items == old(audio.items) && users.items == old(users.items)
    ensures cookie != "" && userId != "" && bodySessionId == "" ==>
      resp.body == Error("Missing sessionId in request body")
    ensures cookie != "" && userId != "" && bodySessionId != "" ==>
      && resp.body == Error("Failed to join session")
      && AudioSessions.JoinResult(old(audio.items), old(users.items), audio.items, users.items,
                                  userId, AudioSessions.PinnedSessionId, maxUsers, now)
  {
    if cookie == "" {
      return Response(Unauthorized, Error("No user session cookie found"), None);
    }
    if userId == "" {
      return Response(Unauthorized, Error("User not found"), None);
    }
    if bodySessionId == "" {
      return Response(BadRequest, Error("Missing sessionId in request body"), None);
    }
    audio.JoinAudioSession(users, userId, bodySessionId, maxUsers, now);
    resp := Response(BadRequest, Error("Failed to join session"), None);
  }

  /** `/logout`. `loggedOut` is the truthiness of what `logout` returned.
      The user-session lookup yields a reply for every non-empty cookie, so
      "Session does not exist!" is never sent; a cookie without a record
      reaches `userSession.Item.userId` on a missing item and throws. */
  function Logout(users: map<Id, US.UserSession>, cookie: Id, loggedOut: bool): (resp: Response)
    ensures cookie == "" ==> resp == Response(BadRequest, LogoutResult(false, "Missing sessionId"), None)
    ensures cookie != "" && cookie !in users ==> resp == Unhandled("TypeError")
    ensures cookie != "" && cookie in users ==> resp.Response? && (resp.status == Ok <==> loggedOut)
    ensures resp.Response? ==> resp.status in {Ok, BadRequest} && resp.setCookie == None
    ensures resp != Response(BadRequest, LogoutResult(false, "Session does not exist!"), None)
  {
    if cookie == "" then Response(BadRequest, LogoutResult(false, "Missing sessionId"), None)
    else
      var userSession := StoreGet(users, cookie);
      if userSession.Nothing? then Response(BadRequest, LogoutResult(false, "Session does not exist!"), None)
      else if userSession.item.None? then Unhandled("TypeError")
      else if loggedOut then Response(Ok, LogoutResult(true, "Successfully logged out"), None)
      else Response(BadRequest, LogoutResult(false, "Log out failed"), None)
  }

  /** `/logout` testing `!userSession?.Item`, as the other routes test a
      record: a cookie without a record gets "Session does not exist!" and
      nothing escapes; with a record it answers as `Logout` does. */
  function LogoutChecked(users: map<Id, US.UserSession>, cookie: Id, loggedOut: bool): (resp: Response)
    ensures resp.Response? && resp.status in {Ok, BadRequest} && resp.setCookie == None
    ensures cookie != "" && cookie !in users ==>
      resp == Response(BadRequest, LogoutResult(false, "Session does not exist!"), None)
    ensures cookie == "" || cookie in users ==> resp == Logout(users, cookie, loggedOut)
  {
    if cookie != "" && !StoreGet(users, cookie).HasItem() then
      Response(BadRequest, LogoutResult(false, "Session does not exist!"), None)
    else Logout(users, cookie, loggedOut)
  }

  /** As written, logging out with a cookie whose record is gone throws
      where the corrected route answers 400. */
  lemma LogoutOfMissingRecordThrows(users: map<Id, US.UserSession>, cookie: Id, loggedOut: bool)
    requires cookie != "" && cookie !in users
    ensures Logout(users, cookie, loggedOut) == Unhandled("TypeError")
    ensures LogoutChecked(users, cookie, loggedOut).Response?
  {
  }
}
