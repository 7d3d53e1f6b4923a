# Collaborative recording sessions — a Dafny model

This project models the decision logic of a collaborative audio-recording service. The service has these parts:

- An Express backend with three stores:
  - **user sessions**: anonymous, cookie-identified records; each holds a link to the audio session its user is in;
  - **accounts**;
  - **audio sessions**: the durable record of one recording room, with its owner, its collaborators and a status.
- A WebSocket layer that keeps a process-wide registry of live rooms (`activeSessions`). It admits sockets, assigns each participant a local display id, and relays recording commands, pings, microphone levels and icon changes.
- On the landing page, a duration formatter and a typewriter animation.

The modules follow the source files:

| module | file | form |
|---|---|---|
| `Common` | — | ids, `Option`, `Lookup` (a store reply that may lack an item) and the store `get` both tables share |
| `UserSessions` | backend/src/userSessions.js | class `UserSessionTable` over a map, pure TTL and record shape |
| `Accounts` | backend/src/accountManager.js | pure validators; class `AccountTable` for the `createAccount` guard chain |
| `LiveSessions` | backend/src/websocket.js | class `Registry` (`activeSessions`, OPEN sockets, local-id minting); loop methods for every fan-out |
| `AudioSessions` | backend/src/audioSessionManager.js | class `AudioSessionTable`; create, join and leave as methods over it, the user-session table and the registry |
| `Routes` | backend/src/app.js | sign-up error accumulation as a method; the session routes as decision trees |
| `Hero` | frontend/src/components/Hero.tsx | `formatTime` with a parser that reads its output back; the typewriter step function |

Modelling conventions:

- An id is a `string`. "" stands for every value the source tests as falsy (`undefined`, `null`, `""`).
- A key-value `get` answers `Nothing` for a falsy key, which the code guards before calling the store. Otherwise it answers a `Reply`, which may lack an item. A reply object is truthy even without an item, and the code relies on that in several places.
- Instants are integers (milliseconds). Ids that the source draws from `randomUUID`/`uuidv4` are parameters. The registry hands out local ids 0, 1, 2, … in turn, which keeps them fresh.
- A socket is a `nat`. "OPEN" is membership in `Registry.open`. Sending a frame is a `Send(to, frame)` entry in the sequence a handler returns.
- Functions that the code calls but that no file defines or exports become parameters holding their result:
  - `getUser`, `checkUsername` and `logout` (imported by app.js);
  - `getUserNameFromSession` (websocket.js);
  - the environment's `AUDIO_SESSION_USER_SIZE`, as `maxUsers`: `None` stands for `Number(...)` giving NaN; a configured size that is not a whole number is not modelled.
- accountManager.js exports only `validateUserName`, and userSessions.js does not export `getUserNameFromSession`, so the backend's module graph as written does not link. The model treats each named import as if it resolved to the function of that name in the file that defines it.

## Model

| member | source | states |
|---|---|---|
| UserSessions.TimeToLive | backend/src/userSessions.js:25-30 | the expiry is the whole seconds of now (rounded down) plus 30 days: `(ttl − 30·86400)·1000 ≤ now < (ttl − 30·86400 + 1)·1000` |
| UserSessions.NewRecord | backend/src/userSessions.js:27-40 | a new record has createdAt = lastSeen = now, an empty session link, and userId null exactly when none was given; its expiry stamp, in seconds, is later than now + 30 days − 1 s (the stamp rounds now down to whole seconds) |
| Common.StoreGet | backend/src/userSessions.js:64-78 | `getSession` of the user-session table, and the same code at backend/src/audioSessionManager.js:222-236 for the audio-session table: a falsy id gives `Nothing` without a store read; otherwise a reply, holding the item exactly when the key exists |
| UserSessions.UserSessionTable.CreateSession | backend/src/userSessions.js:27-62 | the record is written under the requested id, or a fresh one when omitted, overwriting any record there, and that id is returned |
| UserSessions.UserSessionTable.UpdateSession | backend/src/userSessions.js:80-101 | a falsy id changes nothing; on an existing record only its lastSeen becomes now (an unknown id: see "## Left out") |
| UserSessions.UserSessionTable.SessionHandler | backend/src/userSessions.js:103-125 | the three-way cookie resolution: a known id is touched, an unknown id gets a new record under that same id, no cookie gets a record under a fresh id; the returned cookie value is the resolved id, which has a record |
| Accounts.VerifyEmailSound | backend/src/accountManager.js:12-15 | every string the single left-to-right reading accepts matches the e-mail regular expression |
| Accounts.VerifyEmailComplete | backend/src/accountManager.js:12-15 | every string the regular expression matches (at any `@`/`.` split) is accepted |
| Accounts.VerifyEmailIsPattern | backend/src/accountManager.js:12-15 | `verifyEmail` is true iff the regular expression matches |
| Accounts.EmailHasOneAt | backend/src/accountManager.js:13 | an accepted address contains exactly one `@` |
| Accounts.VerifyPassword | backend/src/accountManager.js:44-52 | true iff the length is between 8 and 64 |
| Accounts.FirstReserved | backend/src/accountManager.js:57-64 | the regular-expression search stops at the first `/`, `:` or `.`, and none occurs before it |
| Accounts.VerifyUsername | backend/src/accountManager.js:54-67 | true iff the length is between 3 and 64 and no character is `/`, `:` or `.` (a backslash is allowed) |
| Accounts.EmailInUse | backend/src/accountManager.js:17-42 | `findEmail` is truthy iff some stored account has that e-mail (a query error, yielding false, is not modelled) |
| Accounts.RegisterClaimsEmail | backend/src/accountManager.js:17-42 | storing a new account puts its e-mail in use and changes no other e-mail's status, so a second sign-up with that e-mail is refused |
| Accounts.AccountTable.Register | backend/src/accountManager.js:84-112 | writes a user-session record for the new user, then the account unless one with that user id exists (the conditional put) |
| Accounts.AccountTable.CreateAccount | backend/src/accountManager.js:69-113 | as written: checks e-mail, password, then username, then whether the e-mail is in use, writing nothing on any failure; on success both records are written; the result is falsy on every path |
| Accounts.AccountTable.CreateAccountReturningSession | backend/src/accountManager.js:69-113 | corrected: returns the new user-session id iff every check passes and the e-mail is unused; writes nothing otherwise |
| LiveSessions.MatchSessionPath | backend/src/websocket.js:24-29 | a match captures a non-empty segment without `/`, and the path is exactly `/session/<segment>/ws` |
| LiveSessions.MatchSessionPathComplete | backend/src/websocket.js:24-32 | every `/session/<seg>/ws` with non-empty, slash-free `seg` is matched and its session id is `seg` |
| LiveSessions.Admit | backend/src/websocket.js:19-69 | as written: admitted iff the path matches, the `usid` cookie is present, and both lookups produced a reply; the admitted ids are the captured segment and the cookie |
| LiveSessions.AdmitIgnoresMissingRecords | backend/src/websocket.js:42-56 | replies without items (no such user session, no such audio session) still admit the socket |
| LiveSessions.AdmitChecked | backend/src/websocket.js:42-56 | corrected: admitted iff the path matches, the cookie is present and both records exist; it then agrees with `Admit` |
| LiveSessions.LocalIdOf | backend/src/websocket.js:149 | `localIds.get(user)`: present exactly for users of the entry, and then their id |
| LiveSessions.DisplayName | backend/src/websocket.js:186 | `name \|\| "unknown"`: the looked-up name when it is non-empty, "unknown" when it is empty, so the stored name is never empty |
| LiveSessions.Fanout | backend/src/websocket.js:192-197 | the `for … of sockets.entries()` loop: every frame goes to an OPEN socket of the entry other than the excluded one, every such socket gets the frame, one frame per such user |
| LiveSessions.Registry.constructor | backend/src/websocket.js:8 | the registry starts empty and well formed |
| LiveSessions.Registry.Connect | backend/src/websocket.js:169-197 | the first connection creates the entry owned by the connecting user, and later ones keep the owner; the user's socket, name and local id are overwritten (last writer wins); the local id differs from every id handed out before; for a new socket (not open, held by no entry), the join notice reaches every other OPEN socket and never the newcomer; the registry stays well formed |
| LiveSessions.EntryFor | backend/src/websocket.js:171-183 | the existing entry, or a new empty one owned by the connecting user |
| LiveSessions.Joined | backend/src/websocket.js:184-190 | the three `set` calls: the owner is unchanged, the user is added to all three maps with the socket, name and local id, and every other user's socket, name and local id are kept |
| LiveSessions.JoinedEntryWellFormed | backend/src/websocket.js:189-190 | after a join, local ids in the entry stay pairwise distinct and below the count handed out, and the owner is a member |
| LiveSessions.JoinedWellFormed | backend/src/websocket.js:169-190 | a connection keeps every entry of the registry well formed |
| LiveSessions.CommandBroadcast | backend/src/websocket.js:76-90 | from a non-owner nothing is sent; from the owner every OPEN socket, the owner's included, gets the same command frame |
| LiveSessions.CommandWithoutTime | backend/src/websocket.js:92-118 | as written (pause/stop): nothing is ever sent; a ReferenceError escapes iff the owner sends it and some socket of the entry is OPEN |
| LiveSessions.KickUser | backend/src/websocket.js:120-137 | as written: nothing is sent and no one is removed; a ReferenceError escapes iff the owner names a local id in use |
| LiveSessions.KickTarget | backend/src/websocket.js:120-137 | corrected: a target is chosen only for the owner's request, is never the owner, and holds the requested local id; with distinct local ids every eligible holder is the target |
| LiveSessions.Relay | backend/src/websocket.js:144-162 | micLevel/changeIcon: the frame goes to every other OPEN socket and never back to the sender |
| LiveSessions.Dispatch | backend/src/websocket.js:74-204 | `handleMessage[type]`: owner-only types from a non-owner do nothing; start broadcasts now + 10000 to all OPEN sockets; ping answers only the sender with now and the echoed client time; mic level and icon carry the sender's local id to the others; an unknown type throws a TypeError |
| AudioSessions.GetSessionIdFromUser | backend/src/audioSessionManager.js:210-220 | non-empty iff the id is truthy, its user-session record exists and the session link is set, and then it is that session link |
| AudioSessions.WithSessionLink | backend/src/audioSessionManager.js:245-269 | only the named user's session link can change; falsy arguments or a missing record change nothing |
| AudioSessions.SessionLinkRoundTrip | backend/src/audioSessionManager.js:245-269 | setting a session link for a user with a record and reading it back gives the session id |
| AudioSessions.SessionLinkIsolated | backend/src/audioSessionManager.js:250-263 | setting one user's session link leaves every other user's session link as it was |
| AudioSessions.SetAudioSessionId | backend/src/audioSessionManager.js:245-269 | the user-session table becomes `WithSessionLink` of the old one |
| AudioSessions.NewSession | backend/src/audioSessionManager.js:52-60 | a created session has the given id and owner, no collaborators and status "initialized" |
| AudioSessions.JoinAdmits | backend/src/audioSessionManager.js:85-112 | as written: admits iff the session exists, the user has no session link, the session is not finished, and `maxUsers > 1` (or NaN); the count and the duplicate test never fire |
| AudioSessions.JoinAdmitsIntended | backend/src/audioSessionManager.js:85-112 | corrected in the collaborator reads only: admits iff the session exists, the user has no session link, the session is not finished, the user is not yet a collaborator and fewer than `maxUsers − 1` collaborators are in it |
| AudioSessions.JoinIntendedWithinWritten | backend/src/audioSessionManager.js:85-112 | the correction only adds refusals: every join it admits, the check as written admits too |
| AudioSessions.JoinAdmitsIntoFullSession | backend/src/audioSessionManager.js:106-112 | with `maxUsers = 2` and the joining user already the one collaborator, the written check admits and the corrected one refuses |
| AudioSessions.JoinIntendedKeepsCapacity | backend/src/audioSessionManager.js:106-112 | after a join the corrected check admitted, at most `maxUsers − 1` collaborators share the session |
| AudioSessions.CloseOpenSockets | backend/src/audioSessionManager.js:302-309 | `ClosesOpen`: every close has code 1000 and the reason "Owner ended session" and goes to an OPEN socket of the entry, every OPEN socket of the entry is closed, and there is one close per user whose socket is OPEN |
| AudioSessions.EndLiveSession | backend/src/audioSessionManager.js:302-311 | the owner's branch on the registry: the closes satisfy `ClosesOpen` for the entry, those sockets stop being OPEN, the entry is deleted, and the registry stays well formed with its local-id counter untouched |
| AudioSessions.DropLiveUser | backend/src/audioSessionManager.js:316-322 | a collaborator's branch on the registry: their socket, if any, gets one close with 1000 and "User left the session" and is removed from the entry; nothing else in the registry changes |
| AudioSessions.DropSocketWellFormed | backend/src/audioSessionManager.js:316-322 | deleting a user's socket keeps the entry well formed |
| AudioSessions.AudioSessionTable.CreateSession | backend/src/audioSessionManager.js:41-83 | given a non-empty fresh id (a UUID), the result is null exactly when the user already has a session link; a user with a session link gets null and nothing is written; otherwise the new session is stored under the fresh id, the user's session link is set, the id is returned, and reading back gives that id with the user as owner |
| AudioSessions.AudioSessionTable.JoinSession | backend/src/audioSessionManager.js:85-138 | the tables become `JoinResult` of the old ones: when the written check admits a truthy user, the user becomes a collaborator with the join instant and their session link is set to the session; otherwise nothing changes |
| AudioSessions.JoinKeepsOwners | backend/src/audioSessionManager.js:85-138 | a join changes no session's owner or status, no session but the one joined and no user-session record but the joining user's |
| AudioSessions.AudioSessionTable.JoinAudioSession | backend/src/audioSessionManager.js:349-352 | the tables become `JoinResult` of the old ones for the pinned session id, whatever id was asked for; so only the pinned session can change and the session asked for (if different) is untouched |
| AudioSessions.AudioSessionTable.LeaveAudioSession | backend/src/audioSessionManager.js:275-336 | falsy user, no session link or missing session: no effect; owner: status becomes finished, each OPEN socket of the entry is closed once with 1000 and "Owner ended session" and no other socket is closed, and the registry entry is deleted; collaborator: only their socket is closed and removed, and they leave the collaborators, with owner, users and local ids unchanged; a collaborator of a session without a live entry hits a TypeError; no session's owner changes and the local-id counter is untouched on every path |
| AudioSessions.LinkedUserRefused | backend/src/audioSessionManager.js:90-97 | a user whose session link is set is refused by both join checks; since leaving never clears the link (backend/src/audioSessionManager.js:275-336), a user who left stays refused |
| Routes.Push | backend/src/app.js:220-229 | one `errors.push` when a test failed: the error order is kept and membership grows by exactly that error |
| Routes.CollectSignupErrors | backend/src/app.js:218-229 | each of the five errors is present iff its test failed, in the fixed order username, password, e-mail format, e-mail in use, username taken; the list is empty iff every test passed |
| Routes.Signup | backend/src/app.js:214-248 | as written: always 400 and never a cookie; with failed tests, the reported errors are exactly those tests' errors in test order and nothing is written; with none, the user-session record and (for a new user id) the account are written and the single "all" error is returned |
| Routes.SignupIntended | backend/src/app.js:214-248 | corrected: 200 with the `usid` cookie set to the new user-session id iff every test passes, and then the user-session record and (for a new user id) the account are written; otherwise 400 reporting exactly the failed tests' errors, and nothing written |
| Routes.Create | backend/src/app.js:100-121 | 401 without a cookie or user; 400 and no write when the user already has a session; otherwise the session is created, the user's session link is set to it, and 200 carries its id, whose owner is the user |
| Routes.PreJoin | backend/src/app.js:123-142 | 401 without a cookie or user; 400 carrying the current session id iff the user has one; otherwise 200 |
| Routes.Join | backend/src/app.js:145-169 | 401 iff the cookie or user is missing; otherwise always 400 (the join result is never truthy); a missing body session id writes nothing; with one, the tables become the written join's result on the pinned session |
| Routes.Logout | backend/src/app.js:250-268 | as written: 400 without a cookie; a cookie without a record throws a TypeError; with a record, 200 iff `logout` succeeded; "Session does not exist!" is never sent |
| Routes.LogoutChecked | backend/src/app.js:257-261 | corrected: nothing escapes; a cookie without a record gets 400 "Session does not exist!"; otherwise the reply is the one `Logout` gives |
| Routes.LogoutOfMissingRecordThrows | backend/src/app.js:257-261 | for every cookie without a record, the route as written throws and the corrected one answers |
| Hero.Trunc | frontend/src/components/Hero.tsx:21-22 | truncation agrees with the floor on non-negative values (the sign rule of `%`) |
| Hero.Rem | frontend/src/components/Hero.tsx:21-22 | the `%` operator: `x − m·trunc(x / m)` |
| Hero.RemSign | frontend/src/components/Hero.tsx:21-22 | for a positive modulus the remainder lies in [0, m) for a non-negative dividend and in (−m, 0] for a negative one |
| Hero.Digits | frontend/src/components/Hero.tsx:25 | `toString` of a whole number has at least one digit, exactly one below 10 |
| Hero.Pad2 | frontend/src/components/Hero.tsx:25 | `padStart(2, "0")`: two or more characters are kept; shorter strings get leading zeros up to length 2 |
| Hero.IntToString | frontend/src/components/Hero.tsx:25-27 | `toString` of an integer-valued number: a minus sign for negatives, then the digits of the magnitude |
| Hero.IntToStringReadsBack | frontend/src/components/Hero.tsx:25-27 | the rendering starts with `-` exactly for negative numbers, and the digits after it read back as the magnitude |
| Hero.FormatTime | frontend/src/components/Hero.tsx:18-19 | "0:00" for NaN and 0 |
| Hero.FormatTimeFields | frontend/src/components/Hero.tsx:20-22 | for positive input, hours, minutes and seconds are `t / 3600`, `t % 3600 / 60` and `t % 60` of the whole seconds `t`, and the last two are below 60 |
| Hero.FormatTimeShape | frontend/src/components/Hero.tsx:24-27 | `H:MM:SS` with padded minutes and seconds when hours > 0, otherwise `M:SS` with unpadded minutes |
| Hero.DecimalDigits | frontend/src/components/Hero.tsx:25 | reading back `toString` of `n` gives `n` |
| Hero.DecimalPad2 | frontend/src/components/Hero.tsx:25 | reading back the padded rendering of `n` gives `n` |
| Hero.DigitsAreDigits | frontend/src/components/Hero.tsx:25 | the rendering is all digits, and the padded rendering of a number below 100 is exactly two |
| Hero.ParseTwoFields | frontend/src/components/Hero.tsx:27 | `a:bb` reads back as 60·a + bb |
| Hero.ParseThreeFields | frontend/src/components/Hero.tsx:25 | `a:bb:cc` reads back as 3600·a + 60·bb + cc |
| Hero.ParseMinutes | frontend/src/components/Hero.tsx:27 | the `M:SS` rendering reads back as its seconds |
| Hero.ParseHours | frontend/src/components/Hero.tsx:25 | the `H:MM:SS` rendering reads back as its seconds |
| Hero.ClockSum | frontend/src/components/Hero.tsx:20-22 | hours, minutes and seconds add back up to the whole seconds |
| Hero.ClockRoundTrip | frontend/src/components/Hero.tsx:20-27 | the clock built from the fields of `t` reads back as `t` |
| Hero.FormatTimeRoundTrip | frontend/src/components/Hero.tsx:18-28 | for every positive duration, the string `formatTime` writes reads back as its whole number of seconds |
| Hero.Prefix | frontend/src/components/Hero.tsx:165-167 | `substring(0, k)` is a prefix, of length k when k is in range |
| Hero.Step | frontend/src/components/Hero.tsx:148-177 | typed-out text starts deletion after 4000 ms; deleted-out text moves to the next index modulo the list length; otherwise one character is added (typing) or removed (deleting) after 50 ms; the text always stays a prefix of the current word |
| Hero.Run | frontend/src/components/Hero.tsx:148-177 | the index stays in range through any number of steps |
| Hero.RunAppend | frontend/src/components/Hero.tsx:148-177 | running a + b steps is running a steps then b, with the delays added |
| Hero.Typing | frontend/src/components/Hero.tsx:163-169 | from any prefix, typing reaches the whole word one character per 50 ms |
| Hero.Deleting | frontend/src/components/Hero.tsx:163-169 | from any prefix, deleting reaches the empty text one character per 50 ms |
| Hero.Cycle | frontend/src/components/Hero.tsx:152-160 | from the empty text, after 2·|word| + 2 steps and 2·50·|word| + 4000 ms the animation is on the empty text of the next word |
| Hero.PageCycle | frontend/src/components/Hero.tsx:30-41 | over the ten words of the page, each word is followed by the next and the last by the first |

## Left out

- DynamoDB, S3, the AWS SDK, bcrypt, `crypto.randomUUID`/`uuidv4`, `performance.now()`, cookie parsing and the `ws` library: stores are maps, the rest are parameters. A store call that throws (network failure) is not modelled, except where the code's own dereference throws.
- Concurrency and `await` interleavings: each handler is one atomic step. The unawaited `setAudioSessionId` is applied at once.
- `getSession` (user sessions) catching a store error and yielding `undefined`: store errors are not modelled.
- The `close` handler (backend/src/websocket.js:206-208): it calls `removeFromAudioSession`, which no file exports, and passes the session id where a user id belongs.
- `uploadFileToSession`, `listObjectsFromS3`, `getSessionFiles` and `/upload`: unfinished code, outside the decision logic.
- `/auth/login`, `/auth/checkUsername` and `/session/:id`: they call `login` and `checkUsername`, which no file defines, or have an empty body.
- backend/src/index.js and backend/src/audioSessions.js: an older copy of the create logic that no current module imports.
- `videoIds`, the ISO-8601 rendering of instants, cookie options and `maxAge`: they decide nothing.
- `JSON.parse` failing on a malformed WebSocket message, and message fields of the wrong type: the message is modelled as already parsed.
- Message types that are inherited properties of an object (`constructor`, `toString`, …): an unknown type is modelled only as an own-property miss.
- Sign-up with a missing body field: `username.length` on `undefined` throws, which is not modelled (fields are strings).
- Hero.FormatTime: infinite inputs and the exponent notation `toString` uses from 10^21 upward are not modelled (a JS number here is NaN or a real).
- Hero.Step: the timers and their cancellation on re-render are not modelled; each step's delay is returned instead.
- LiveSessions.Registry.Connect: local ids are a counter rather than random UUIDs, which is the freshness the code relies on.
- Routes.Signup: the username error text says "3-32 characters" while `verifyUsername` allows 64; the model keeps the text and the check as written.
- AudioSessions.AudioSessionTable.LeaveAudioSession: `users` is read-only because the code never clears the leaving user's session link. The same id keys both the user-session table and the socket map, as in the code.
- The status "active" is never written; only "initialized" and "finished" are.
- UserSessions.UserSessionTable.SessionHandler: backend/src/app.js imports `useSession` (app.js:9) but never calls it, installing only `express.json`, `cors` and `cookieParser` (app.js:19-24), so no request to the current server passes through `sessionHandler`; the model describes the handler as written, which only the older backend/src/index.js installs (index.js:20).
- UserSessions.UserSessionTable.UpdateSession: an unknown id is left unchanged here, while the store's update would create an item holding only the key and `lastSeen`; `sessionHandler` calls it only for an existing record and the function is not exported, so no modelled caller reaches that case.
- Accounts.VerifyPassword: a string is a sequence of Unicode scalar values, while `.length` counts UTF-16 code units; the two agree only within the Basic Multilingual Plane (four emoji have length 8 in the source and 4 here).
- Accounts.VerifyUsername: the same length unit as `VerifyPassword`, so the 3 to 64 bound agrees with the source only within the Basic Multilingual Plane.
- AudioSessions.JoinAdmits: `maxUsers` is an integer or NaN; a size such as 2.5 from `Number(...)` is not modelled.
- The unawaited `isOwner` in `joinSession` is kept as written in both join checks (every finished session refuses); `AudioSessions.IsOwner` (the awaited test) appears only in the contract of `AudioSessions.AudioSessionTable.CreateSession`.

## Findings

| source | as written | input that shows it | evidently intended | confidence | as-written member | corrected member |
|---|---|---|---|---|---|---|
| backend/src/websocket.js:42-56 | `!userSession` and `!audioSession` test the store reply, which is truthy even without an item | path `/session/abc/ws`, cookie `x`, neither record stored: the socket is admitted | refuse unless both records exist (`?.Item`, as the other handlers test) | not executed | LiveSessions.AdmitIgnoresMissingRecords | LiveSessions.AdmitChecked |
| backend/src/websocket.js:126-134 | the loop assigns to the undeclared `kickedUserId`, which throws in module code, and `kickedUserSessionId` stays undefined | the owner sends `kickUser` with a local id held by a collaborator: a ReferenceError escapes and no one is removed | resolve the holder of the local id and kick them unless that is the owner | not executed | LiveSessions.KickUser | LiveSessions.KickTarget |
| backend/src/websocket.js:92-118 | the pause and stop frames name a variable `time` that is not in scope | the owner sends `pauseRecording` while a socket is OPEN: a ReferenceError escapes before anything is sent | broadcast the command with a time, as `startRecording` does | not executed | LiveSessions.CommandWithoutTime | LiveSessions.CommandBroadcast |
| backend/src/audioSessionManager.js:106-112 | the collaborator count and the duplicate test read `session.collaborators`, but the store reply keeps them under `session.Item` | `maxUsers` 2, the session already has the joining user as its one collaborator: the join is admitted | read `session.Item.collaborators`, so full sessions and repeat joins are refused | not executed | AudioSessions.JoinAdmitsIntoFullSession | AudioSessions.JoinIntendedKeepsCapacity |
| backend/src/accountManager.js:84-113 | the success path of `createAccount` falls off its end, so the caller sees `undefined` | a valid, unused e-mail, password and username: the records are written but sign-up answers 400 with "Error creating account" | return the new user-session id, which sign-up puts in the cookie | not executed | Routes.Signup | Routes.SignupIntended |
| backend/src/app.js:257-261 | `!userSession` tests the store reply, which is truthy without an item, and `userSession?.Item.userId` then reads `userId` of an undefined item | cookie `x` with no user-session record: a TypeError escapes instead of the "Session does not exist!" reply | refuse with "Session does not exist!" unless the record exists | not executed | Routes.LogoutOfMissingRecordThrows | Routes.LogoutChecked |
