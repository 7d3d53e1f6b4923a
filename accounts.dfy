/** Sign-up validation and account creation (backend/src/accountManager.js). */
module Accounts {
  import opened Common
  import opened UserSessions

  predicate IsAsciiLetter(c: char) { 'a' <= c <= 'z' || 'A' <= c <= 'Z' }
  predicate IsDigit(c: char) { '0' <= c <= '9' }

  /** The class `[a-zA-Z0-9._%+-]` of the part before the `@`. */
  predicate IsLocalChar(c: char) {
    IsAsciiLetter(c) || IsDigit(c) || c == '.' || c == '_' || c == '%' || c == '+' || c == '-'
  }

  /** The class `[a-zA-Z0-9.-]` of the part after the `@`. */
  predicate IsDomainChar(c: char) { IsAsciiLetter(c) || IsDigit(c) || c == '.' || c == '-' }

  /** The e-mail regular expression `^[a-zA-Z0-9._%+-]+@[a-zA-Z0-9.-]+\.[a-zA-Z]{2,}$`
      matched with its `@` at `at` and its `\.` at `dot`: a non-empty local
      part, a non-empty middle and a final run of at least two letters. */
  ghost predicate SplitsAt(e: string, at: int, dot: int) {
    && 0 < at && at + 2 <= dot && dot + 3 <= |e|
    && e[at] == '@' && e[dot] == '.'
    && (forall k | 0 <= k < at :: IsLocalChar(e[k]))
    && (forall k | at < k < dot :: IsDomainChar(e[k]))
    && (forall k | dot < k < |e| :: IsAsciiLetter(e[k]))
  }

  /** The regular expression matches `e`. */
  ghost predicate EmailPattern(e: string) {
    exists at, dot :: SplitsAt(e, at, dot)
  }

  /** Index of the first `c` in `s`, or -1. */
  function IndexOf(s: string, c: char): (i: int)
    ensures -1 <= i < |s|
    ensures 0 <= i ==> s[i] == c && forall k | 0 <= k < i :: s[k] != c
    ensures i == -1 ==> forall k | 0 <= k < |s| :: s[k] != c
  {
    if s == [] then -1
    else if s[0] == c then 0
    else
      var j := IndexOf(s[1..], c);
      if j < 0 then -1 else j + 1
  }

  /** Index of the last `c` in `s`, or -1. */
  function LastIndexOf(s: string, c: char): (i: int)
    ensures -1 <= i < |s|
    ensures 0 <= i ==> s[i] == c && forall k | i < k < |s| :: s[k] != c
    ensures i == -1 ==> forall k | 0 <= k < |s| :: s[k] != c
  {
    if s == [] then -1
    else if s[|s| - 1] == c then |s| - 1
    else LastIndexOf(s[..|s| - 1], c)
  }

  /** `verifyEmail`, decided by one left-to-right reading: the first `@`
      ends the local part, everything after it is a domain character, and
      the last `.` starts the final run of letters. */
  predicate VerifyEmail(e: string) {
    var at := IndexOf(e, '@');
    var dot := LastIndexOf(e, '.');
    && 0 < at
    && (forall k | 0 <= k < at :: IsLocalChar(e[k]))
    && (forall k | at < k < |e| :: IsDomainChar(e[k]))
    && at + 2 <= dot && dot + 3 <= |e|
    && (forall k | dot < k < |e| :: IsAsciiLetter(e[k]))
  }

  /** Every string the reading accepts matches the regular expression. */
  lemma VerifyEmailSound(e: string)
    requires VerifyEmail(e)
    ensures EmailPattern(e)
  {
    var at := IndexOf(e, '@');
    var dot := LastIndexOf(e, '.');
    assert SplitsAt(e, at, dot);
  }

  /** Every string the regular expression matches is accepted. */
  lemma VerifyEmailComplete(e: string, a: int, d: int)
    requires SplitsAt(e, a, d)
    ensures VerifyEmail(e)
  {
    assert forall k | 0 <= k < a :: e[k] != '@';
    assert forall k | d < k < |e| :: e[k] != '.';
    assert IndexOf(e, '@') == a;
    assert LastIndexOf(e, '.') == d;
    forall k | a < k < |e| ensures IsDomainChar(e[k]) {
      if k > d { assert IsAsciiLetter(e[k]); }
    }
  }

  /** The reading above accepts exactly the strings the regular expression
      matches. */
  lemma VerifyEmailIsPattern(e: string)
    ensures VerifyEmail(e) <==> EmailPattern(e)
  {
    if VerifyEmail(e) {
      VerifyEmailSound(e);
    }
    if EmailPattern(e) {
      var a, d :| SplitsAt(e, a, d);
      VerifyEmailComplete(e, a, d);
    }
  }

  /** An accepted address holds exactly one `@`. */
  lemma EmailHasOneAt(e: string, i: int, j: int)
    requires VerifyEmail(e)
    requires 0 <= i < |e| && 0 <= j < |e| && e[i] == '@' && e[j] == '@'
    ensures i == j
  {
  }

  const MinPasswordLength := 8
  const MaxPasswordLength := 64

  /** `verifyPassword`: a length check. A string here is a sequence of
      Unicode scalar values, so the length agrees with JavaScript's
      `.length` (UTF-16 code units) only for text within the Basic
      Multilingual Plane. */
  function VerifyPassword(p: string): (ok: bool)
    ensures ok <==> MinPasswordLength <= |p| <= MaxPasswordLength
  {
    if |p| < MinPasswordLength || |p| > MaxPasswordLength then false else true
  }

  const MinUsernameLength := 3
  const MaxUsernameLength := 64

  /** The class `[/\:.]`: `\:` only escapes the colon, so a backslash is
      not in it. */
  predicate IsReserved(c: char) { c == '/' || c == ':' || c == '.' }

  /** Where the search of `/[/\:.]/` first succeeds in `u`: the index of the
      first reserved character, or `|u|` when there is none. */
  function FirstReserved(u: string): (i: nat)
    ensures i <= |u|
    ensures forall k | 0 <= k < i :: !IsReserved(u[k])
    ensures i < |u| ==> IsReserved(u[i])
  {
    if u == [] then 0
    else if IsReserved(u[0]) then 0
    else 1 + FirstReserved(u[1..])
  }

  /** `verifyUsername`: 3 to 64 characters (code units for text within
      the Basic Multilingual Plane), none of them `/`, `:` or `.`. */
  function VerifyUsername(u: string): (ok: bool)
    ensures ok <==> MinUsernameLength <= |u| <= MaxUsernameLength
                    && forall k | 0 <= k < |u| :: !IsReserved(u[k])
  {
    MinUsernameLength <= |u| <= MaxUsernameLength && FirstReserved(u) == |u|
  }

  /** One item of the account table, keyed by `userId`. */
  datatype Account = Account(userId: Id, email: string, username: string, passwordHash: string, sessionId: Id)

  /** `findEmail`: the e-mail index holds at least one account with it. */
  predicate EmailInUse(items: map<Id, Account>, email: string) {
    exists u | u in items :: items[u].email == email
  }

  /** Storing a new account puts its e-mail in use and takes no e-mail out
      of use, so a second sign-up with that e-mail is refused. */
  lemma RegisterClaimsEmail(items: map<Id, Account>, a: Account, email: string)
    requires a.userId !in items
    ensures EmailInUse(items[a.userId := a], a.email)
    ensures EmailInUse(items, email) ==> EmailInUse(items[a.userId := a], email)
    ensures email != a.email ==> (EmailInUse(items[a.userId := a], email) <==> EmailInUse(items, email))
  {
    var items' := items[a.userId := a];
    assert items'[a.userId].email == a.email;
    if EmailInUse(items, email) {
      var u :| u in items && items[u].email == email;
      assert items'[u] == items[u];
    }
    if email != a.email && EmailInUse(items', email) {
      var u :| u in items' && items'[u].email == email;
      assert u != a.userId && items[u] == items'[u];
    }
  }

  /** The three format checks `createAccount` runs before it touches a store. */
  predicate CredentialsValid(username: string, email: string, password: string) {
    VerifyEmail(email) && VerifyPassword(password) && VerifyUsername(username)
  }

  /** The account table of the key-value store. */
  class AccountTable {
    var items: map<Id, Account>

    constructor (initial: map<Id, Account>)
      ensures items == initial
    {
      items := initial;
    }

    /** The success path of `createAccount` after its guards: a user-session
        record for the new user, then the account put. The put's condition
        fails when an account with that id already exists (every account
        item carries `sessionId`); the failure is only logged. `userId`,
        `sessionId` and `passwordHash` are what the id generator and the
        password hasher produced. */
    method Register(sessions: UserSessionTable, username: string, email: string,
                    userId: Id, sessionId: Id, passwordHash: string, nowMs: int)
      returns (newSession: Id)
      modifies this, sessions
      ensures newSession == sessionId
      ensures sessions.items == old(sessions.items)[sessionId := NewRecord(sessionId, userId, nowMs)]
      ensures items == if userId in old(items) then old(items)
                       else old(items)[userId := Account(userId, email, username, passwordHash, sessionId)]
    {
      newSession := sessions.CreateSession(None, sessionId, userId, nowMs);
      if userId !in items {
        items := items[userId := Account(userId, email, username, passwordHash, newSession)];
      }
    }

    /** `createAccount` as written: e-mail, password and username checks in
        that order, then the e-mail lookup, each returning false; on the
        success path the function falls off its end. Either way the caller
        receives a falsy value, modelled as None. */
    method CreateAccount(sessions: UserSessionTable, username: string, email: string, password: string,
                         userId: Id, sessionId: Id, passwordHash: string, nowMs: int)
      returns (result: Option<Id>)
      modifies this, sessions
      ensures result == None
      ensures !CredentialsValid(username, email, password) || EmailInUse(old(items), email) ==>
        items == old(items) && sessions.items == old(sessions.items)
      ensures CredentialsValid(username, email, password) && !EmailInUse(old(items), email) ==>
        && sessions.items == old(sessions.items)[sessionId := NewRecord(sessionId, userId, nowMs)]
        && items == if userId in old(items) then old(items)
                    else old(items)[userId := Account(userId, email, username, passwordHash, sessionId)]
    {
      if !VerifyEmail(email) {
        return None;
      } else if !VerifyPassword(password) {
        return None;
      } else if !VerifyUsername(username) {
        return None;
      }
      if EmailInUse(items, email) {
        return None;
      }
      var _ := Register(sessions, username, email, userId, sessionId, passwordHash, nowMs);
      result := None;
    }

    /** `createAccount` as its caller expects it: the same checks, and on
        success the new user-session id, which the sign-up route puts in
        the `usid` cookie. */
    method CreateAccountReturningSession(sessions: UserSessionTable, username: string, email: string,
                                         password: string, userId: Id, sessionId: Id,
                                         passwordHash: string, nowMs: int)
      returns (result: Option<Id>)
      modifies this, sessions
      ensures result.Some? <==> CredentialsValid(username, email, password) && !EmailInUse(old(items), email)
      ensures result.Some? ==> result.value == sessionId && sessionId in sessions.items
      ensures result.None? ==> items == old(items) && sessions.items == old(sessions.items)
      ensures result.Some? ==>
        && sessions.items == old(sessions.items)[sessionId := NewRecord(sessionId, userId, nowMs)]
        && items == if userId in old(items) then old(items)
                    else old(items)[userId := Account(userId, email, username, passwordHash, sessionId)]
    {
      if !CredentialsValid(username, email, password) || EmailInUse(items, email) {
        return None;
      }
      var s := Register(sessions, username, email, userId, sessionId, passwordHash, nowMs);
      result := Some(s);
    }
  }
}
