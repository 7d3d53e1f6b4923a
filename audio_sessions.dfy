/** The audio-session lifecycle (backend/src/audioSessionManager.js):
    the durable session table, each user's session link to the session they are
    in, and create, join and leave. */
module AudioSessions {
  import opened Common
  import US = UserSessions
  import LiveSessions

  type UserRecords = map<Id, US.UserSession>

  /** The statuses the code writes. */
  datatype Status = Initialized | Finished

  /** One item of the audio-session table. `collaborators` maps a user to
      the instant they joined; the unused `videoIds` attribute is not kept. */
  datatype AudioSession = AudioSession(
    id: Id,
    owner: Id,
    collaborators: map<Id, int>,
    creationTime: int,
    status: Status)

  /** The session id `joinAudioSession` passes on, whatever it is given. */
  const PinnedSessionId := "54205874-be5a-4ade-b66e-dc90ee532dcf"

  /** `getSessionIdFromUser`: the session link stored in the user-session record
      keyed by `userId`, or "" when the id is falsy, the record is missing or
      the session link is empty. */
  function GetSessionIdFromUser(users: UserRecords, userId: Id): (sid: Id)
    ensures sid != "" <==> userId != "" && userId in users && users[userId].audioSessionId != ""
    ensures sid != "" ==> sid == users[userId].audioSessionId
  {
    if userId == "" then ""
    else
      var record := StoreGet(users, userId);
      if record.HasItem() then record.item.value.audioSessionId else ""
  }

  /** `isOwner` once awaited: the reply holds a session owned by `userId`.
      `joinSession` never awaits it, and a pending promise is truthy. */
  predicate IsOwner(session: Lookup<AudioSession>, userId: Id) {
    session.HasItem() && session.item.value.owner == userId
  }

  /** The user-session table after `setAudioSessionId(userId, sid)`: a falsy
      argument changes nothing, and so does a missing record (the nested
      `SET data.<session link>` has no `data` to update and the failure is only
      logged); otherwise only that record's session link becomes `sid`. */
  function WithSessionLink(users: UserRecords, userId: Id, sid: Id): (r: UserRecords)
    ensures r.Keys == users.Keys
    ensures forall u | u in users && u != userId :: r[u] == users[u]
    ensures userId == "" || sid == "" ==> r == users
    ensures userId in users ==> r[userId].(audioSessionId := users[userId].audioSessionId) == users[userId]
  {
    if userId == "" || sid == "" || userId !in users then users
    else users[userId := users[userId].(audioSessionId := sid)]
  }

  /** Setting a session link and reading it back gives the session id, for every
      user that has a record. */
  lemma SessionLinkRoundTrip(users: UserRecords, userId: Id, sid: Id)
    requires userId != "" && sid != "" && userId in users
    ensures GetSessionIdFromUser(WithSessionLink(users, userId, sid), userId) == sid
  {
  }

  /** Setting one user's session link leaves every other user's session link as it was. */
  lemma SessionLinkIsolated(users: UserRecords, userId: Id, sid: Id, other: Id)
    requires other != userId
    ensures GetSessionIdFromUser(WithSessionLink(users, userId, sid), other) == GetSessionIdFromUser(users, other)
  {
  }

  /** `setAudioSessionId`. */
  method SetAudioSessionId(users: US.UserSessionTable, userId: Id, sid: Id)
    modifies users
    ensures users.items == WithSessionLink(old(users.items), userId, sid)
  {
    if userId == "" || sid == "" {
      return;
    }
    if userId in users.items {
      users.items := users.items[userId := users.items[userId].(audioSessionId := sid)];
    }
  }

  /** The item `createSession` writes. */
  function NewSession(id: Id, owner: Id, now: int): (s: AudioSession)
    ensures s.id == id && s.owner == owner && s.collaborators == map[] && s.status == Initialized
  {
    AudioSession(id, owner, map[], now, Initialized)
  }

  /** The decision `joinSession` makes before it writes, as written:
      missing session, a current session link or a finished session refuse (the
      owner test is an unawaited promise, so every finished session refuses);
      the count and the duplicate test read `collaborators` from the store's
      reply rather than from its item, so the count is always 0 and the
      duplicate test never fires. `maxUsers` is `Number(...)` of the
      configured size, None for NaN. */
  function JoinAdmits(session: Lookup<AudioSession>, userId: Id, current: Id, maxUsers: Option<int>): (ok: bool)
    ensures ok <==> session.HasItem() && current == "" && session.item.value.status != Finished
                    && (maxUsers.Some? ==> maxUsers.value > 1)
  {
    if !session.HasItem() then false
    else if current != "" then false
    else if session.item.value.status == Finished then false
    else
      var collaboratorCount := 0;
      if maxUsers.Some? && collaboratorCount >= maxUsers.value - 1 then false
      else true
  }

  /** The same decision reading `collaborators` from the item: a full
      session and a user already in it are refused as well. The finished
      test is kept as written, so every finished session still refuses. */
  function JoinAdmitsIntended(session: Lookup<AudioSession>, userId: Id, current: Id, maxUsers: Option<int>)
    : (ok: bool)
    ensures ok ==> session.HasItem() && current == "" && session.item.value.status != Finished
    ensures ok && maxUsers.Some? ==> |session.item.value.collaborators| < maxUsers.value - 1
    ensures ok ==> userId !in session.item.value.collaborators
    ensures (&& session.HasItem() && current == "" && session.item.value.status != Finished
             && userId !in session.item.value.collaborators
             && (maxUsers.Some? ==> |session.item.value.collaborators| < maxUsers.value - 1)) ==> ok
  {
    if !session.HasItem() then false
    else if current != "" then false
    else if session.item.value.status == Finished then false
    else
      var collaboratorCount := |session.item.value.collaborators|;
      if maxUsers.Some? && collaboratorCount >= maxUsers.value - 1 then false
      else if userId in session.item.value.collaborators then false
      else true
  }

  /** The corrected check only adds refusals: whatever it admits, the
      check as written admits too. */
  lemma JoinIntendedWithinWritten(session: Lookup<AudioSession>, userId: Id, current: Id, maxUsers: Option<int>)
    requires JoinAdmitsIntended(session, userId, current, maxUsers)
    ensures JoinAdmits(session, userId, current, maxUsers)
  {
    var s := session.item.value;
    if maxUsers.Some? {
      assert 0 <= |s.collaborators| < maxUsers.value - 1;
    }
  }

  /** As written, a session already holding `maxUsers - 1` collaborators,
      the joining user among them, still admits that user. */
  lemma JoinAdmitsIntoFullSession(id: Id, owner: Id, userId: Id, now: int)
    requires id != "" && userId != ""
    ensures var s := AudioSession(id, owner, map[userId := now], now, Initialized);
      JoinAdmits(Reply(Some(s)), userId, "", Some(2)) && !JoinAdmitsIntended(Reply(Some(s)), userId, "", Some(2))
  {
  }

  /** The intended check keeps the collaborator count below `maxUsers - 1`
      before the join, so after it at most `maxUsers - 1` collaborators and
      the owner share a session. */
  lemma JoinIntendedKeepsCapacity(s: AudioSession, userId: Id, maxUsers: int, now: int)
    requires JoinAdmitsIntended(Reply(Some(s)), userId, "", Some(maxUsers))
    ensures |s.collaborators[userId := now]| <= maxUsers - 1
  {
    assert userId !in s.collaborators;
  }

  /** What `leaveAudioSession` did: the close calls it made and the
      exception, if any, that escaped it. */
  datatype Close = Close(to: LiveSessions.SocketId, code: int, reason: string)
  datatype Leave = Leave(closes: seq<Close>, thrown: Option<string>)

  const OwnerEndedReason := "Owner ended session"
  const UserLeftReason := "User left the session"

  /** `closes` is what ending a live session sends to its `sockets`: every
      close has code 1000 and the owner's reason and goes to an OPEN socket
      of the entry, every OPEN socket of the entry is closed, and there is
      one close per user whose socket is OPEN. */
  ghost predicate ClosesOpen(closes: seq<Close>, sockets: map<Id, LiveSessions.SocketId>,
                             open: set<LiveSessions.SocketId>)
  {
    && (forall c | c in closes ::
          c.code == LiveSessions.NormalClosure && c.reason == OwnerEndedReason && c.to in open && c.to in sockets.Values)
    && (forall u | u in sockets && sockets[u] in open ::
          Close(sockets[u], LiveSessions.NormalClosure, OwnerEndedReason) in closes)
    && |closes| == |LiveSessions.Recipients(sockets, sockets.Keys, open, None)|
  }

  /** The loop over the entry's sockets when the owner leaves. */
  method CloseOpenSockets(sockets: map<Id, LiveSessions.SocketId>, open: set<LiveSessions.SocketId>)
    returns (closes: seq<Close>)
    ensures ClosesOpen(closes, sockets, open)
  {
    closes := [];
    var done: set<Id> := {};
    while done != sockets.Keys
      invariant done <= sockets.Keys
      invariant forall c | c in closes ::
        c.code == LiveSessions.NormalClosure && c.reason == OwnerEndedReason && c.to in open && c.to in sockets.Values
      invariant forall u | u in done && sockets[u] in open ::
        Close(sockets[u], LiveSessions.NormalClosure, OwnerEndedReason) in closes
      invariant |closes| == |LiveSessions.Recipients(sockets, done, open, None)|
      decreases |sockets.Keys - done|
    {
      var u :| u in sockets.Keys - done;
      LiveSessions.RecipientsStep(sockets, done, u, open, None);
      if sockets[u] in open {
        closes := closes + [Close(sockets[u], LiveSessions.NormalClosure, OwnerEndedReason)];
      }
      done := done + {u};
    }
  }

  /** The tables after `joinSession(userId, sid)` as written, from the
      tables before: when `JoinAdmits` holds and `userId` is truthy, the
      user becomes a collaborator joined at `now` and gets a session link to
      `sid`; otherwise nothing changes (a falsy `userId` makes the update
      fail, which is only logged). */
  predicate JoinResult(items0: map<Id, AudioSession>, users0: UserRecords,
                       items: map<Id, AudioSession>, users: UserRecords,
                       userId: Id, sid: Id, maxUsers: Option<int>, now: int)
  {
    var ok := JoinAdmits(StoreGet(items0, sid), userId, GetSessionIdFromUser(users0, userId), maxUsers);
    if ok && userId != "" then
      && items == items0[sid := items0[sid].(collaborators := items0[sid].collaborators[userId := now])]
      && users == WithSessionLink(users0, userId, sid)
    else
      items == items0 && users == users0
  }

  /** A join changes no session's owner or status, no session other than
      `sid` and no user's record other than the joining user's. */
  lemma JoinKeepsOwners(items0: map<Id, AudioSession>, users0: UserRecords,
                        items: map<Id, AudioSession>, users: UserRecords,
                        userId: Id, sid: Id, maxUsers: Option<int>, now: int)
    requires JoinResult(items0, users0, items, users, userId, sid, maxUsers, now)
    ensures items.Keys == items0.Keys && users.Keys == users0.Keys
    ensures forall s | s in items0 :: items[s].owner == items0[s].owner && items[s].status == items0[s].status
    ensures forall s | s in items0 && s != sid :: items[s] == items0[s]
    ensures forall u | u in users0 && u != userId :: users[u] == users0[u]
  {
  }

  /** Removing a user's socket keeps an entry well formed. */
  lemma DropSocketWellFormed(e: LiveSessions.Entry, userId: Id, minted: nat)
    requires e.WellFormed(minted)
    ensures e.(sockets := e.sockets - {userId}).WellFormed(minted)
  {
  }

  /** The audio-session table of the key-value store. */
  class AudioSessionTable {
    var items: map<Id, AudioSession>

    constructor (initial: map<Id, AudioSession>)
      ensures items == initial
    {
      items := initial;
    }

    /** `createSession(userId)`: "" (null) when the user already has a
        session link; otherwise the new session under `freshId` (a UUID, so
        never empty) and the user's session link to it. The put overwrites (its condition names an attribute
        the items never carry). */
    method CreateSession(users: US.UserSessionTable, userId: Id, freshId: Id, now: int)
      returns (r: Id)
      requires freshId != ""
      modifies this, users
      ensures r == "" <==> GetSessionIdFromUser(old(users.items), userId) != ""
      ensures GetSessionIdFromUser(old(users.items), userId) != "" ==>
        r == "" && items == old(items) && users.items == old(users.items)
      ensures GetSessionIdFromUser(old(users.items), userId) == "" ==>
        && r == freshId
        && items == old(items)[freshId := NewSession(freshId, userId, now)]
        && users.items == WithSessionLink(old(users.items), userId, freshId)
      ensures r != "" && userId != "" && userId in old(users.items) ==>
        GetSessionIdFromUser(users.items, userId) == r && IsOwner(StoreGet(items, r), userId)
    {
      var current := GetSessionIdFromUser(users.items, userId);
      if current != "" {
        return "";
      }
      items := items[freshId := NewSession(freshId, userId, now)];
      SetAudioSessionId(users, userId, freshId);
      if userId != "" && userId in old(users.items) {
        SessionLinkRoundTrip(old(users.items), userId, freshId);
      }
      r := freshId;
    }

    /** `joinSession(userId, sid)` as written. It returns no value. */
    method JoinSession(users: US.UserSessionTable, userId: Id, sid: Id, maxUsers: Option<int>, now: int)
      modifies this, users
      ensures JoinResult(old(items), old(users.items), items, users.items, userId, sid, maxUsers, now)
    {
      var session := StoreGet(items, sid);
      var current := GetSessionIdFromUser(users.items, userId);
      if !JoinAdmits(session, userId, current, maxUsers) || userId == "" {
        return;
      }
      var s := session.item.value;
      items := items[sid := s.(collaborators := s.collaborators[userId := now])];
      SetAudioSessionId(users, userId, sid);
    }

    /** `joinAudioSession(userId, sessionId)`: joins the pinned session,
        never the one asked for. */
    method JoinAudioSession(users: US.UserSessionTable, userId: Id, sessionId: Id,
                            maxUsers: Option<int>, now: int)
      modifies this, users
      ensures JoinResult(old(items), old(users.items), items, users.items, userId, PinnedSessionId, maxUsers, now)
      ensures forall s | s in old(items) && s != PinnedSessionId :: s in items && items[s] == old(items)[s]
      ensures items.Keys == old(items).Keys
      ensures sessionId != PinnedSessionId && sessionId in old(items) ==> items[sessionId] == old(items)[sessionId]
    {
      JoinSession(users, userId, PinnedSessionId, maxUsers, now);
      JoinKeepsOwners(old(items), old(users.items), items, users.items, userId, PinnedSessionId, maxUsers, now);
    }

    /** `leaveAudioSession(userId, reason)`. `users` is the user-session
        table, read only: the session link of the leaving user is never cleared. */
    method LeaveAudioSession(reg: LiveSessions.Registry, users: UserRecords, userId: Id)
      returns (out: Leave)
      requires reg.Valid()
      modifies this, reg
      ensures reg.Valid() && reg.minted == old(reg.minted)
      ensures items.Keys == old(items).Keys
      ensures forall s | s in old(items) :: items[s].owner == old(items)[s].owner
      ensures var sid := GetSessionIdFromUser(users, userId);
        sid == "" || sid !in old(items) ==>
          out == Leave([], None) && items == old(items)
          && reg.sessions == old(reg.sessions) && reg.open == old(reg.open)
      ensures var sid := GetSessionIdFromUser(users, userId);
        sid != "" && sid in old(items) && old(items)[sid].owner == userId ==>
          && out.thrown == None
          && items == old(items)[sid := old(items)[sid].(status := Finished)]
          && reg.sessions == old(reg.sessions) - {sid}
          && (sid in old(reg.sessions) ==> reg.open == old(reg.open) - old(reg.sessions)[sid].sockets.Values)
          && (sid !in old(reg.sessions) ==> reg.open == old(reg.open) && out.closes == [])
          && (sid in old(reg.sessions) ==> ClosesOpen(out.closes, old(reg.sessions)[sid].sockets, old(reg.open)))
      ensures var sid := GetSessionIdFromUser(users, userId);
        sid != "" && sid in old(items) && old(items)[sid].owner != userId && sid !in old(reg.sessions) ==>
          out == Leave([], Some(LiveSessions.TypeError)) && items == old(items)
          && reg.sessions == old(reg.sessions) && reg.open == old(reg.open)
      ensures var sid := GetSessionIdFromUser(users, userId);
        sid != "" && sid in old(items) && old(items)[sid].owner != userId && sid in old(reg.sessions) ==>
          var e := old(reg.sessions)[sid];
          && out.thrown == None
          && items == old(items)[sid := old(items)[sid].(collaborators := old(items)[sid].collaborators - {userId})]
          && reg.sessions == old(reg.sessions)[sid := e.(sockets := e.sockets - {userId})]
          && (userId in e.sockets ==>
                out.closes == [Close(e.sockets[userId], LiveSessions.NormalClosure, UserLeftReason)]
                && reg.open == old(reg.open) - {e.sockets[userId]})
          && (userId !in e.sockets ==> out.closes == [] && reg.open == old(reg.open))
    {
      if userId == "" {
        return Leave([], None);
      }
      var sid := GetSessionIdFromUser(users, userId);
      if sid == "" {
        return Leave([], None);
      }
      var session := StoreGet(items, sid);
      if !session.HasItem() {
        return Leave([], None);
      }
      var s := session.item.value;
      if s.owner == userId {
        var closes := EndLiveSession(reg, sid);
        items := items[sid := s.(status := Finished)];
        return Leave(closes, None);
      }
      if sid !in reg.sessions {
        // `sessionData.sockets` on undefined
        return Leave([], Some(LiveSessions.TypeError));
      }
      var closes := DropLiveUser(reg, sid, userId);
      items := items[sid := s.(collaborators := s.collaborators - {userId})];
      return Leave(closes, None);
    }
  }

  /** The owner's branch of `leaveAudioSession` on the registry: every OPEN
      socket of the entry is closed and the entry is deleted. */
  method EndLiveSession(reg: LiveSessions.Registry, sid: Id) returns (closes: seq<Close>)
    requires reg.Valid()
    modifies reg
    ensures reg.Valid() && reg.minted == old(reg.minted)
    ensures reg.sessions == old(reg.sessions) - {sid}
    ensures sid in old(reg.sessions) ==>
      && reg.open == old(reg.open) - old(reg.sessions)[sid].sockets.Values
      && ClosesOpen(closes, old(reg.sessions)[sid].sockets, old(reg.open))
    ensures sid !in old(reg.sessions) ==> reg.open == old(reg.open) && closes == []
  {
    closes := [];
    if sid in reg.sessions {
      closes := CloseOpenSockets(reg.sessions[sid].sockets, reg.open);
      reg.open := reg.open - reg.sessions[sid].sockets.Values;
    }
    reg.sessions := reg.sessions - {sid};
  }

  /** A collaborator's branch of `leaveAudioSession` on the registry: their
      socket, if any, is closed and removed from the entry. */
  method DropLiveUser(reg: LiveSessions.Registry, sid: Id, userId: Id) returns (closes: seq<Close>)
    requires reg.Valid() && sid in reg.sessions
    modifies reg
    ensures reg.Valid() && reg.minted == old(reg.minted)
    ensures var e := old(reg.sessions)[sid];
      && reg.sessions == old(reg.sessions)[sid := e.(sockets := e.sockets - {userId})]
      && (userId in e.sockets ==>
            closes == [Close(e.sockets[userId], LiveSessions.NormalClosure, UserLeftReason)]
            && reg.open == old(reg.open) - {e.sockets[userId]})
      && (userId !in e.sockets ==> closes == [] && reg.open == old(reg.open))
  {
    var e := reg.sessions[sid];
    closes := [];
    if userId in e.sockets {
      closes := [Close(e.sockets[userId], LiveSessions.NormalClosure, UserLeftReason)];
      reg.open := reg.open - {e.sockets[userId]};
    }
    DropSocketWellFormed(e, userId, reg.minted);
    reg.sessions := reg.sessions[sid := e.(sockets := e.sockets - {userId})];
  }

  /** A user whose session link is set is refused by both join checks.
      `LeaveAudioSession` takes the user-session table read only, so a user
      who has left keeps the link and stays refused until the record
      expires. */
  lemma LinkedUserRefused(users: UserRecords, userId: Id, session: Lookup<AudioSession>, maxUsers: Option<int>)
    requires GetSessionIdFromUser(users, userId) != ""
    ensures !JoinAdmits(session, userId, GetSessionIdFromUser(users, userId), maxUsers)
    ensures !JoinAdmitsIntended(session, userId, GetSessionIdFromUser(users, userId), maxUsers)
  {
  }
}
