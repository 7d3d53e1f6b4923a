/** The user-session store and the cookie middleware that `useSession`
    installs (backend/src/userSessions.js:138-146). */
module UserSessions {
  import opened Common

  /** Name of the cookie that carries the user-session id. */
  const CookieName := "usid"
  /** Days a user-session record lives before the store expires it. */
  const CookieLifespanDays := 30
  const SecondsPerDay := 60 * 60 * 24

  /** One item of the user-session table. `audioSessionId` is the item's
      `data["audio-session-id"]`, the user's session link to the audio session
      they are in ("" when none). Instants are milliseconds since the epoch;
      their ISO-8601 rendering is not modelled. */
  datatype UserSession = UserSession(
    id: Id,
    createdAt: int,
    lastSeen: int,
    audioSessionId: Id,
    timeToLive: int,
    userId: Option<Id>)

  /** The expiry stamp of a new record: whole seconds of `nowMs`, rounded
      down, plus the 30-day lifespan. */
  function TimeToLive(nowMs: int): (ttl: int)
    ensures (ttl - CookieLifespanDays * SecondsPerDay) * 1000 <= nowMs
    ensures nowMs < (ttl - CookieLifespanDays * SecondsPerDay + 1) * 1000
  {
    nowMs / 1000 + CookieLifespanDays * SecondsPerDay
  }

  /** The item `createSession` writes; `userId` "" is an omitted user id,
      stored as null. */
  function NewRecord(id: Id, userId: Id, nowMs: int): (r: UserSession)
    ensures r.id == id && r.createdAt == r.lastSeen == nowMs
    ensures r.audioSessionId == ""
    ensures r.userId.None? <==> userId == ""
    ensures r.userId.Some? ==> r.userId.value == userId
    ensures r.timeToLive * 1000 > nowMs + (CookieLifespanDays * SecondsPerDay - 1) * 1000
  {
    UserSession(id, nowMs, nowMs, "", TimeToLive(nowMs), if userId == "" then None else Some(userId))
  }

  /** The user-session table of the key-value store. */
  class UserSessionTable {
    var items: map<Id, UserSession>

    constructor (initial: map<Id, UserSession>)
      ensures items == initial
    {
      items := initial;
    }

    /** `createSession(sessionId = randomUUID(), userId)`: `requested` is the
        id argument (None when it is omitted, so `freshId` is used). The put is
        unconditional in effect: its condition names an attribute these
        items never carry. */
    method CreateSession(requested: Option<Id>, freshId: Id, userId: Id, nowMs: int) returns (id: Id)
      modifies this
      ensures id == if requested.Some? then requested.value else freshId
      ensures items == old(items)[id := NewRecord(id, userId, nowMs)]
    {
      id := if requested.Some? then requested.value else freshId;
      items := items[id := NewRecord(id, userId, nowMs)];
    }

    /** `updateSession`: a falsy id changes nothing; otherwise the record's
        `lastSeen` becomes now. */
    method UpdateSession(id: Id, nowMs: int)
      modifies this
      ensures id == "" || id !in old(items) ==> items == old(items)
      ensures id != "" && id in old(items) ==> items == old(items)[id := old(items)[id].(lastSeen := nowMs)]
    {
      if id != "" && id in items {
        items := items[id := items[id].(lastSeen := nowMs)];
      }
    }

    /** `sessionHandler`: resolves the `usid` cookie (`cookie`, "" when
        absent) to a user-session id and returns the value the response
        cookie is set to before `next()` is called. */
    method SessionHandler(cookie: Id, freshId: Id, nowMs: int) returns (usid: Id)
      modifies this
      ensures cookie != "" ==> usid == cookie
      ensures cookie == "" ==> usid == freshId
      ensures usid in items
      ensures cookie != "" && cookie in old(items) ==>
        items == old(items)[cookie := old(items)[cookie].(lastSeen := nowMs)]
      ensures cookie != "" && cookie !in old(items) ==>
        items == old(items)[cookie := NewRecord(cookie, "", nowMs)]
      ensures cookie == "" ==> items == old(items)[freshId := NewRecord(freshId, "", nowMs)]
    {
      usid := cookie;
      if cookie != "" {
        var session := StoreGet(items, cookie);
        if session.HasItem() {
          UpdateSession(cookie, nowMs);
        } else {
          var _ := CreateSession(Some(cookie), freshId, "", nowMs);
        }
      } else {
        usid := CreateSession(None, freshId, "", nowMs);
      }
    }
  }
}
