/** The live-session layer (backend/src/websocket.js): the upgrade
    admission check, the process-wide registry `activeSessions`, the
    connection handler and the table of message handlers. */
module LiveSessions {
  import opened Common

  /** Milliseconds between a start command and the instant it names. */
  const RecordingBuffer := 10000
  /** Close code 1000, "normal closure" (section 7.4.1 of RFC 6455). */
  const NormalClosure := 1000

  /** A connection object; the source's identity test `socket !== ws` is `!=`. */
  type SocketId = nat
  /** A local display id; `uuidv4()` is modelled by the registry handing
      out 0, 1, 2, ... in turn. */
  type LocalId = nat
  /** A JSON field a handler passes through untouched. */
  type Value = string

  /** Messages a client sends, by their `type` field. */
  datatype Message =
    | StartRecording
    | PauseRecording
    | StopRecording
    | KickUser(localId: LocalId)
    | Ping(clientTime: Value)
    | MicLevel(db: Value)
    | ChangeIcon(icon: Value)
    | Unknown(typeName: string)
  {
    /** The handlers that begin with the owner check. */
    predicate OwnerOnly() { StartRecording? || PauseRecording? || StopRecording? || KickUser? }
  }

  datatype Command = Start | Pause | Stop

  /** Frames the server sends. */
  datatype Frame =
    | JoinNotice(userName: string, localId: LocalId)
    | RecordingCommand(command: Command, time: int)
    | PongReply(time: int, clientTime: Value)
    | MicLevelUpdate(sender: Option<LocalId>, db: Value)
    | IconChange(sender: Option<LocalId>, icon: Value)

  datatype Send = Send(to: SocketId, frame: Frame)

  /** A handler's effect: the frames it sent and the exception, if any,
      that escaped it. */
  datatype Outcome = Outcome(sent: seq<Send>, thrown: Option<string>)

  const ReferenceError := "ReferenceError"
  const TypeError := "TypeError"

  // ---------------------------------------------------------------------
  // Admission

  const PathPrefix := "/session/"
  const PathSuffix := "/ws"

  /** `pathname.match(/^\/session\/([^/]+)\/ws$/)`, giving the captured
      session id. */
  function MatchSessionPath(p: string): (r: Option<Id>)
    ensures r.Some? ==> r.value != [] && '/' !in r.value && p == PathPrefix + r.value + PathSuffix
  {
    var n := |PathPrefix|;
    var m := |p| - |PathSuffix|;
    if n < m && p[..n] == PathPrefix && p[m..] == PathSuffix && '/' !in p[n..m]
    then
      assert p == p[..n] + p[n..m] + p[m..];
      Some(p[n..m])
    else None
  }

  /** Every path of the form `/session/<seg>/ws` with a non-empty `seg`
      free of `/` is matched, and the captured id is `seg`. */
  lemma MatchSessionPathComplete(seg: string)
    requires seg != [] && '/' !in seg
    ensures MatchSessionPath(PathPrefix + seg + PathSuffix) == Some(seg)
  {
    var p := PathPrefix + seg + PathSuffix;
    var n, m := |PathPrefix|, |p| - |PathSuffix|;
    assert p[..n] == PathPrefix;
    assert p[n..m] == seg;
    assert p[m..] == PathSuffix;
  }

  datatype Admission = Destroyed | Admitted(sessionId: Id, userSessionId: Id)

  /** The upgrade handler as written. `cookie` is the `usid` cookie ("" when
      absent); `userSession` and `audioSession` are what the two awaited
      lookups yielded (a lookup that throws ends in the same `destroy`). */
  function Admit<U, A>(pathname: string, cookie: Id, userSession: Lookup<U>, audioSession: Lookup<A>)
    : (r: Admission)
    ensures r.Admitted? <==>
      MatchSessionPath(pathname).Some? && cookie != "" && userSession.Reply? && audioSession.Reply?
    ensures r.Admitted? ==> r.sessionId == MatchSessionPath(pathname).value && r.userSessionId == cookie
  {
    match MatchSessionPath(pathname)
    case None => Destroyed
    case Some(sid) =>
      if cookie == "" || sid == "" then Destroyed
      else if userSession.Nothing? then Destroyed
      else if audioSession.Nothing? then Destroyed
      else Admitted(sid, cookie)
  }

  /** The store answers a `get` of a missing key with a truthy reply, so
      admission lets a socket in for a user session and an audio session
      that do not exist. */
  lemma AdmitIgnoresMissingRecords<U, A>(seg: string, cookie: Id)
    requires seg != [] && '/' !in seg && cookie != ""
    ensures Admit<U, A>(PathPrefix + seg + PathSuffix, cookie, Reply(None), Reply(None)) == Admitted(seg, cookie)
  {
    MatchSessionPathComplete(seg);
  }

  /** Admission with the `?.Item` tests the other handlers apply: a socket
      is let in only for records that exist. */
  function AdmitChecked<U, A>(pathname: string, cookie: Id, userSession: Lookup<U>, audioSession: Lookup<A>)
    : (r: Admission)
    ensures r.Admitted? <==>
      MatchSessionPath(pathname).Some? && cookie != "" && userSession.HasItem() && audioSession.HasItem()
    ensures r.Admitted? ==> r == Admit(pathname, cookie, userSession, audioSession)
  {
    if userSession.HasItem() && audioSession.HasItem() then Admit(pathname, cookie, userSession, audioSession)
    else Destroyed
  }

  // ---------------------------------------------------------------------
  // The registry

  /** One value of `activeSessions`: the owner and the three per-user maps. */
  datatype Entry = Entry(owner: Id, sockets: map<Id, SocketId>, users: map<Id, string>, localIds: map<Id, LocalId>)
  {
    /** No two users of the entry share a local id. */
    ghost predicate DistinctLocalIds() {
      forall u, v | u in localIds && v in localIds && u != v :: localIds[u] != localIds[v]
    }

    /** What the handlers keep true of an entry; `minted` is the number of
        local ids handed out so far. */
    ghost predicate WellFormed(minted: nat) {
      && owner in localIds
      && sockets.Keys <= localIds.Keys
      && users.Keys == localIds.Keys
      && (forall u | u in localIds :: localIds[u] < minted)
      && DistinctLocalIds()
    }
  }

  /** `sessionData.localIds.get(userSessionId)`. */
  function LocalIdOf(e: Entry, user: Id): (r: Option<LocalId>)
    ensures r.Some? <==> user in e.localIds
    ensures r.Some? ==> r.value == e.localIds[user]
  {
    if user in e.localIds then Some(e.localIds[user]) else None
  }

  /** `getUserNameFromSession(id) || "unknown"`. */
  function DisplayName(name: string): (r: string)
    ensures r != ""
    ensures name != "" ==> r == name
    ensures name == "" ==> r == "unknown"
  {
    if name == "" then "unknown" else name
  }

  /** The per-socket test of every fan-out loop: the socket is OPEN and is
      not the one excluded. */
  predicate Receives(s: SocketId, open: set<SocketId>, except: Option<SocketId>) {
    s in open && except != Some(s)
  }

  /** The users, among `keys`, whose socket a fan-out reaches. */
  ghost function Recipients(sockets: map<Id, SocketId>, keys: set<Id>, open: set<SocketId>, except: Option<SocketId>)
    : set<Id>
  {
    set u | u in keys && u in sockets && Receives(sockets[u], open, except)
  }

  /** `sent` is one fan-out of `f` over `sockets`: every frame is `f` and
      goes to an OPEN socket of the map other than `except`, every such
      user's socket gets it, and there is one frame per such user. */
  ghost predicate Broadcasts(sent: seq<Send>, sockets: map<Id, SocketId>, open: set<SocketId>,
                             except: Option<SocketId>, f: Frame)
  {
    && (forall s | s in sent :: s.frame == f && s.to in sockets.Values && Receives(s.to, open, except))
    && (forall u | u in sockets && Receives(sockets[u], open, except) :: Send(sockets[u], f) in sent)
    && |sent| == |Recipients(sockets, sockets.Keys, open, except)|
  }

  /** Adding one user to the visited keys adds that user to the recipients
      exactly when their socket passes the test. */
  lemma RecipientsStep(sockets: map<Id, SocketId>, done: set<Id>, u: Id, open: set<SocketId>,
                       except: Option<SocketId>)
    requires u in sockets && u !in done
    ensures |Recipients(sockets, done + {u}, open, except)|
         == |Recipients(sockets, done, open, except)| + if Receives(sockets[u], open, except) then 1 else 0
  {
    var before := Recipients(sockets, done, open, except);
    if Receives(sockets[u], open, except) {
      assert Recipients(sockets, done + {u}, open, except) == before + {u};
    } else {
      assert Recipients(sockets, done + {u}, open, except) == before;
    }
  }

  /** The loop `for (const [usid, socket] of sessionData.sockets.entries())`
      sending `f` to each socket that passes `Receives`. */
  method Fanout(sockets: map<Id, SocketId>, open: set<SocketId>, except: Option<SocketId>, f: Frame)
    returns (sent: seq<Send>)
    ensures Broadcasts(sent, sockets, open, except, f)
  {
    sent := [];
    var done: set<Id> := {};
    while done != sockets.Keys
      invariant done <= sockets.Keys
      invariant forall s | s in sent :: s.frame == f && s.to in sockets.Values && Receives(s.to, open, except)
      invariant forall u | u in done && Receives(sockets[u], open, except) :: Send(sockets[u], f) in sent
      invariant |sent| == |Recipients(sockets, done, open, except)|
      decreases |sockets.Keys - done|
    {
      var u :| u in sockets.Keys - done;
      RecipientsStep(sockets, done, u, open, except);
      if Receives(sockets[u], open, except) {
        sent := sent + [Send(sockets[u], f)];
      }
      done := done + {u};
    }
  }

  /** `activeSessions` and the state of the sockets it refers to. */
  class Registry {
    /** `activeSessions`: audio-session id to entry. */
    var sessions: map<Id, Entry>
    /** The sockets whose `readyState` is OPEN. */
    var open: set<SocketId>
    /** How many local ids have been handed out. */
    var minted: nat

    ghost predicate Valid()
      reads this
    {
      forall sid | sid in sessions :: sessions[sid].WellFormed(minted)
    }

    constructor ()
      ensures Valid() && sessions == map[] && open == {} && minted == 0
    {
      sessions := map[];
      open := {};
      minted := 0;
    }

    /** The `connection` handler for socket `ws` of user session `usid` on
        audio session `sid`; `name` is what the user-name lookup returned.
        The first connection creates the entry with that user as owner;
        every connection then overwrites the user's socket, name and local
        id (a fresh one) and sends the join notice to the other OPEN
        sockets. `ws` is a new connection: it is not yet open and no entry
        holds it. */
    method Connect(sid: Id, usid: Id, ws: SocketId, name: string) returns (sent: seq<Send>)
      requires Valid()
      requires ws !in open
      requires forall s, u | s in sessions && u in sessions[s].sockets :: sessions[s].sockets[u] != ws
      modifies this
      ensures Valid()
      ensures minted == old(minted) + 1 && open == old(open) + {ws}
      ensures sessions == old(sessions)[sid := Joined(EntryFor(old(sessions), sid, usid), usid, ws, name, old(minted))]
      ensures sessions[sid].owner == if sid in old(sessions) then old(sessions)[sid].owner else usid
      ensures forall s, u | s in old(sessions) && u in old(sessions)[s].localIds ::
        old(sessions)[s].localIds[u] != sessions[sid].localIds[usid]
      ensures Broadcasts(sent, sessions[sid].sockets, open, Some(ws), JoinNotice(DisplayName(name), old(minted)))
    {
      var localId := minted;
      var e := Joined(EntryFor(sessions, sid, usid), usid, ws, name, localId);
      JoinedWellFormed(sessions, sid, usid, ws, name, minted);
      sessions := sessions[sid := e];
      minted := minted + 1;
      open := open + {ws};
      sent := Fanout(e.sockets, open, Some(ws), JoinNotice(DisplayName(name), localId));
    }
  }

  /** The entry a connection to `sid` joins: the registered one, or a new
      entry owned by the connecting user. */
  function EntryFor(sessions: map<Id, Entry>, sid: Id, usid: Id): (e: Entry)
    ensures sid in sessions ==> e == sessions[sid]
    ensures sid !in sessions ==> e.owner == usid && e.sockets == map[] && e.users == map[] && e.localIds == map[]
  {
    if sid in sessions then sessions[sid] else Entry(usid, map[], map[], map[])
  }

  /** The three `set` calls of the connection handler on one entry. */
  function Joined(e: Entry, usid: Id, ws: SocketId, name: string, localId: LocalId): (r: Entry)
    ensures r.owner == e.owner
    ensures r.sockets.Keys == e.sockets.Keys + {usid} && r.localIds.Keys == e.localIds.Keys + {usid}
    ensures r.users.Keys == e.users.Keys + {usid}
    ensures r.sockets[usid] == ws && r.localIds[usid] == localId && r.users[usid] == DisplayName(name)
    ensures forall u | u in e.localIds && u != usid ::
      u in r.localIds && r.localIds[u] == e.localIds[u]
    ensures forall u | u in e.sockets && u != usid ::
      u in r.sockets && r.sockets[u] == e.sockets[u]
    ensures forall u | u in e.users && u != usid ::
      u in r.users && r.users[u] == e.users[u]
  {
    Entry(e.owner, e.sockets[usid := ws], e.users[usid := DisplayName(name)], e.localIds[usid := localId])
  }

  /** The joined entry is well formed: the new local id is above every one
      handed out before, so it is distinct from all of them. */
  lemma JoinedEntryWellFormed(e: Entry, usid: Id, ws: SocketId, name: string, minted: nat)
    requires e.WellFormed(minted) || (e.owner == usid && e.sockets == map[] && e.users == map[] && e.localIds == map[])
    ensures Joined(e, usid, ws, name, minted).WellFormed(minted + 1)
  {
    var r := Joined(e, usid, ws, name, minted);
    if e.WellFormed(minted) {
      assert e.DistinctLocalIds();
      forall u, v | u in r.localIds && v in r.localIds && u != v
        ensures r.localIds[u] != r.localIds[v]
      {
        if u != usid && v != usid {
          assert e.localIds[u] != e.localIds[v];
        } else if u == usid {
          assert e.localIds[v] < minted;
        } else {
          assert e.localIds[u] < minted;
        }
      }
    } else {
      assert r.localIds == map[usid := minted];
    }
  }

  /** A connection keeps every entry well formed. */
  lemma JoinedWellFormed(sessions: map<Id, Entry>, sid: Id, usid: Id, ws: SocketId, name: string, minted: nat)
    requires forall s | s in sessions :: sessions[s].WellFormed(minted)
    ensures var sessions' := sessions[sid := Joined(EntryFor(sessions, sid, usid), usid, ws, name, minted)];
      forall s | s in sessions' :: sessions'[s].WellFormed(minted + 1)
  {
    var sessions' := sessions[sid := Joined(EntryFor(sessions, sid, usid), usid, ws, name, minted)];
    forall s | s in sessions' ensures sessions'[s].WellFormed(minted + 1) {
      if s == sid {
        JoinedEntryWellFormed(EntryFor(sessions, sid, usid), usid, ws, name, minted);
      } else {
        assert sessions'[s] == sessions[s] && sessions[s].WellFormed(minted);
      }
    }
  }

  // ---------------------------------------------------------------------
  // Message handlers. Each receives the entry its socket's closure holds,
  // the socket `ws`, the sender's user-session id and the OPEN sockets.

  /** `startRecording` (and, with another command, what `pauseRecording` and
      `stopRecording` evidently meant to do): from the owner, one frame
      naming `time` to every OPEN socket of the entry, the owner's
      included; from anyone else, nothing. */
  method CommandBroadcast(e: Entry, sender: Id, open: set<SocketId>, command: Command, time: int)
    returns (sent: seq<Send>)
    ensures sender != e.owner ==> sent == []
    ensures sender == e.owner ==> Broadcasts(sent, e.sockets, open, None, RecordingCommand(command, time))
  {
    if sender != e.owner {
      return [];
    }
    sent := Fanout(e.sockets, open, None, RecordingCommand(command, time));
  }

  /** `pauseRecording` and `stopRecording` as written: the frame names a
      variable `time` that is not in scope, so building it throws before the
      first send. Nothing is ever sent; the exception escapes exactly when
      the owner asks and some socket is OPEN. */
  method CommandWithoutTime(e: Entry, sender: Id, open: set<SocketId>) returns (out: Outcome)
    ensures out.sent == []
    ensures out.thrown.Some? <==> sender == e.owner && exists u | u in e.sockets :: e.sockets[u] in open
  {
    if sender != e.owner {
      return Outcome([], None);
    }
    var todo := e.sockets.Keys;
    while todo != {}
      invariant todo <= e.sockets.Keys
      invariant forall u | u in e.sockets.Keys - todo :: e.sockets[u] !in open
      decreases |todo|
    {
      var u :| u in todo;
      if e.sockets[u] in open {
        return Outcome([], Some(ReferenceError));
      }
      todo := todo - {u};
    }
    return Outcome([], None);
  }

  /** `kickUser` as written: the loop assigns the match to the undeclared
      `kickedUserId`, which throws in a module; without a match the target
      stays undefined and the handler returns. No kick ever takes effect. */
  method KickUser(e: Entry, sender: Id, localId: LocalId) returns (out: Outcome)
    ensures out.sent == []
    ensures out.thrown.Some? <==> sender == e.owner && localId in e.localIds.Values
  {
    if sender != e.owner {
      return Outcome([], None);
    }
    var todo := e.localIds.Keys;
    while todo != {}
      invariant todo <= e.localIds.Keys
      invariant forall u | u in e.localIds.Keys - todo :: e.localIds[u] != localId
      decreases |todo|
    {
      var u :| u in todo;
      if e.localIds[u] == localId {
        return Outcome([], Some(ReferenceError));
      }
      todo := todo - {u};
    }
    return Outcome([], None);
  }

  /** `kickUser` as intended: from the owner, the user holding `localId`,
      unless that is nobody or the owner; "" means no kick. The caller would
      then remove that user from the session. */
  method KickTarget(e: Entry, sender: Id, localId: LocalId) returns (target: Id)
    ensures target != "" ==> sender == e.owner && target != e.owner
    ensures target != "" ==> target in e.localIds && e.localIds[target] == localId
    ensures e.DistinctLocalIds() && sender == e.owner ==>
      forall u | u in e.localIds && e.localIds[u] == localId && u != "" && u != e.owner :: target == u
  {
    if sender != e.owner {
      return "";
    }
    target := "";
    var todo := e.localIds.Keys;
    while todo != {}
      invariant todo <= e.localIds.Keys
      invariant target != "" ==> target in e.localIds && e.localIds[target] == localId
      invariant forall u | u in e.localIds.Keys - todo && e.localIds[u] == localId && u != "" :: target != ""
      invariant e.DistinctLocalIds() ==>
        forall u | u in e.localIds.Keys - todo && e.localIds[u] == localId :: target == u || u == ""
      decreases |todo|
    {
      var u :| u in todo;
      if e.localIds[u] == localId && u != "" {
        target := u;
      }
      todo := todo - {u};
    }
    if target == sender {
      target := "";
    }
  }

  /** `micLevel` and `changeIcon`: `f` to every OPEN socket of the entry
      except the sender's. */
  method Relay(e: Entry, ws: SocketId, open: set<SocketId>, f: Frame) returns (sent: seq<Send>)
    ensures Broadcasts(sent, e.sockets, open, Some(ws), f)
    ensures forall s | s in sent :: s.to != ws
  {
    sent := Fanout(e.sockets, open, Some(ws), f);
  }

  /** `handleMessage[type](data, ws, sessionData, userSessionId)`. */
  method Dispatch(msg: Message, e: Entry, ws: SocketId, sender: Id, open: set<SocketId>, now: int)
    returns (out: Outcome)
    ensures msg.OwnerOnly() && sender != e.owner ==> out == Outcome([], None)
    ensures msg.StartRecording? && sender == e.owner ==>
      out.thrown == None && Broadcasts(out.sent, e.sockets, open, None, RecordingCommand(Start, now + RecordingBuffer))
    ensures msg.PauseRecording? || msg.StopRecording? ==>
      out.sent == [] && (out.thrown.Some? <==> sender == e.owner && exists u | u in e.sockets :: e.sockets[u] in open)
    ensures msg.KickUser? ==>
      out.sent == [] && (out.thrown.Some? <==> sender == e.owner && msg.localId in e.localIds.Values)
    ensures msg.Ping? ==> out == Outcome([Send(ws, PongReply(now, msg.clientTime))], None)
    ensures msg.MicLevel? ==>
      out.thrown == None && Broadcasts(out.sent, e.sockets, open, Some(ws), MicLevelUpdate(LocalIdOf(e, sender), msg.db))
    ensures msg.ChangeIcon? ==>
      out.thrown == None && Broadcasts(out.sent, e.sockets, open, Some(ws), IconChange(LocalIdOf(e, sender), msg.icon))
    ensures msg.MicLevel? || msg.ChangeIcon? ==> forall s | s in out.sent :: s.to != ws
    ensures msg.Unknown? ==> out == Outcome([], Some(TypeError))
  {
    match msg
    case StartRecording =>
      var sent := CommandBroadcast(e, sender, open, Start, now + RecordingBuffer);
      out := Outcome(sent, None);
    case PauseRecording =>
      out := CommandWithoutTime(e, sender, open);
    case StopRecording =>
      out := CommandWithoutTime(e, sender, open);
    case KickUser(localId) =>
      out := KickUser(e, sender, localId);
    case Ping(clientTime) =>
      out := Outcome([Send(ws, PongReply(now, clientTime))], None);
    case MicLevel(db) =>
      var sent := Relay(e, ws, open, MicLevelUpdate(LocalIdOf(e, sender), db));
      out := Outcome(sent, None);
    case ChangeIcon(icon) =>
      var sent := Relay(e, ws, open, IconChange(LocalIdOf(e, sender), icon));
      out := Outcome(sent, None);
    case Unknown(_) =>
      out := Outcome([], Some(TypeError));
  }
}
