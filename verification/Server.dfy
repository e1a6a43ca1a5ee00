/** The request loop of the server over its reply socket, its managers and its publishing socket, and
    one pass of the heartbeat reaper. */
module ChatServer {
  import opened Basics
  import opened Tokens
  import S = Sessions
  import opened Rooms
  import opened Envelopes
  import opened ServerSteps
  import opened ServerTurns

  /** A reply socket receives and sends strictly in turn (RFC 28/REQREP, section "The REP Socket Type"). */
  class RepSocket {
    var inbox: seq<Wire>
    var mustReply: bool
    var log: seq<RepEvent>

    constructor (inbox: seq<Wire>)
      ensures this.inbox == inbox && !mustReply && log == []
    {
      this.inbox, mustReply, log := inbox, false, [];
    }

    predicate Blocks(interrupted: bool)
      reads this
    {
      !mustReply && !interrupted && inbox == []
    }

    /** Bytes that do not unpack have been received all the same. */
    method RecvEnvelope(interrupted: bool) returns (env: Option<Envelope>)
      requires !Blocks(interrupted)
      modifies this
      ensures old(mustReply) || interrupted ==>
                env == None && inbox == old(inbox) && mustReply == old(mustReply) && log == old(log)
      ensures !old(mustReply) && !interrupted ==>
                && mustReply && inbox == old(inbox)[1..] && log == old(log) + [Received(old(inbox)[0])]
                && env == (if old(inbox)[0].Packed? then Some(old(inbox)[0].env) else None)
    {
      if mustReply || interrupted {
        return None;
      }
      var wire := inbox[0];
      inbox, mustReply, log := inbox[1..], true, log + [Received(wire)];
      env := if wire.Packed? then Some(wire.env) else None;
    }

    method SendEnvelope(env: Envelope) returns (ok: bool)
      modifies this`mustReply, this`log
      ensures ok == old(mustReply) && !mustReply
      ensures log == if ok then old(log) + [Replied(env)] else old(log)
    {
      ok := mustReply;
      if ok {
        mustReply, log := false, log + [Replied(env)];
      }
    }
  }

  /** A publishing socket; topic and message leave together. */
  class PubSocket {
    var log: seq<(string, Payload)>

    constructor ()
      ensures log == []
    {
      log := [];
    }

    method PublishTopicEnvelope(topic: string, payload: Payload)
      modifies this
      ensures log == old(log) + [(topic, payload)]
    {
      log := log + [(topic, payload)];
    }
  }

  function ErrorText(e: S.Error): string {
    match e
    case IncorrectUsername => "incorrect username"
    case IncorrectRoomName => "incorrect room name"
  }

  function LoginReply(token: string, err: Option<S.Error>): Payload {
    if err.Some? then LoginResp(StatusError, "", ErrorText(err.value)) else LoginResp(StatusOk, token, "")
  }

  function JoinText(room: string, err: Option<S.Error>): string {
    if err.Some? then "can not join room #" + room + " :: " + ErrorText(err.value) else "room #" + room + " joined"
  }

  class ZmqServer {
    const sessions: S.SessionManager
    const rooms: RoomManager
    const repSock: RepSocket
    const pubSock: PubSocket

    ghost predicate Valid()
      reads sessions, rooms, rooms.Repr
    {
      sessions.Valid() && rooms.Valid()
    }

    ghost function State(): Picture
      reads sessions, rooms, repSock, pubSock
    {
      Picture(sessions.State(), rooms.Pairs, repSock.inbox, repSock.mustReply, repSock.log, pubSock.log)
    }

    constructor (inbox: seq<Wire>)
      ensures Valid() && InOrder(State()) && fresh(sessions) && fresh(rooms) && fresh(rooms.Repr)
      ensures fresh(repSock) && fresh(pubSock)
      ensures State() == Picture(S.NO_SESSIONS, {}, inbox, false, [], [])
    {
      sessions := new S.SessionManager();
      rooms := new RoomManager();
      repSock := new RepSocket(inbox);
      pubSock := new PubSocket();
    }

    method SendAckResponse(msgId: string, status: Status, msg: string)
      requires repSock.mustReply
      modifies repSock
      ensures State() == RepliedTo(old(State()), msgId, Ack(status, msg))
    {
      var _ := repSock.SendEnvelope(Envelope(msgId, Ack(status, msg)));
    }

    method HandleLogin(msgId: string, username: string, second: nat) returns (ghost reply: Payload)
      requires Valid() && repSock.mustReply
      modifies sessions, rooms, rooms.Repr, repSock
      ensures Valid() && fresh(rooms.Repr - old(rooms.Repr))
      ensures State() == RepliedTo(old(State()), msgId, reply)
                         .(sessions := S.Created(old(sessions.State()), username, second),
                           members := Joined(old(rooms.Pairs), GENERAL, username))
      ensures IsReply(LoginReq(username), reply) && (username != "" ==> reply.token == Token(username, second))
    {
      var token, err := Admit(username, second);
      reply := LoginReply(token, err);
      var _ := repSock.SendEnvelope(Envelope(msgId, LoginReply(token, err)));
    }

    /** A new user is entered into the welcome room. */
    method Admit(username: string, second: nat) returns (token: string, err: Option<S.Error>)
      requires Valid()
      modifies sessions, rooms, rooms.Repr
      ensures Valid() && fresh(rooms.Repr - old(rooms.Repr))
      ensures State() == old(State()).(sessions := S.Created(old(sessions.State()), username, second),
                                       members := Joined(old(rooms.Pairs), GENERAL, username))
      ensures err == None <==> username != ""
      ensures username != "" ==> token == Token(username, second)
    {
      token, err := sessions.CreateSession(username, second);
      if err.None? {
        err := rooms.JoinRoom(GENERAL, username);
      }
    }

    method HandleJoinRoom(msgId: string, room: string, username: string) returns (ghost reply: Payload)
      requires Valid() && repSock.mustReply
      modifies rooms, rooms.Repr, repSock, pubSock
      ensures Valid() && fresh(rooms.Repr - old(rooms.Repr))
      ensures State() == RepliedTo(old(State()), msgId, reply)
                         .(members := Joined(old(rooms.Pairs), room, username),
                           published := old(pubSock.log) + Published(JoinRoomReq(room, username)))
      ensures IsReply(JoinRoomReq(room, username), reply)
    {
      var err := rooms.JoinRoom(room, username);
      reply := AnswerJoin(msgId, room, username, err);
    }

    /** The notice goes out only if the join succeeded. */
    method AnswerJoin(msgId: string, room: string, username: string, err: Option<S.Error>) returns (ghost reply: Payload)
      requires repSock.mustReply && (err.Some? <==> username == "")
      modifies repSock, pubSock
      ensures State() == RepliedTo(old(State()), msgId, reply)
                         .(published := old(pubSock.log) + Published(JoinRoomReq(room, username)))
      ensures IsReply(JoinRoomReq(room, username), reply)
    {
      if err.Some? {
        SendAckResponse(msgId, StatusError, JoinText(room, err));
        return Ack(StatusError, JoinText(room, err));
      }
      SendAckResponse(msgId, StatusOk, JoinText(room, None));
      pubSock.PublishTopicEnvelope(RoomTopic(room), JoinNotice(room, username));
      reply := Ack(StatusOk, JoinText(room, None));
    }

    /** The result of leaving is ignored: the reply is always positive. */
    method HandleLeaveRoom(msgId: string, room: string, username: string) returns (ghost reply: Payload)
      requires Valid() && repSock.mustReply
      modifies rooms, rooms.Repr, repSock, pubSock
      ensures Valid() && rooms.Repr <= old(rooms.Repr)
      ensures State() == RepliedTo(old(State()), msgId, reply)
                         .(members := Left(old(rooms.Pairs), room, username),
                           published := old(pubSock.log) + Published(LeaveRoomReq(room, username)))
      ensures IsReply(LeaveRoomReq(room, username), reply)
    {
      var _ := rooms.LeaveRoom(room, username);
      SendAckResponse(msgId, StatusOk, "room #" + room + " left");
      reply := Ack(StatusOk, "room #" + room + " left");
      pubSock.PublishTopicEnvelope(RoomTopic(room), LeaveNotice(room, username));
    }

    method HandleListRooms(msgId: string) returns (ghost reply: Payload)
      requires Valid() && repSock.mustReply
      modifies repSock
      ensures State() == RepliedTo(old(State()), msgId, reply)
      ensures reply.ListRoomsResp? && reply.status == StatusOk && Lists(rooms.Pairs, reply.rooms)
    {
      var infos := rooms.GetRoomsInfo();
      reply := ListRoomsResp(StatusOk, infos);
      var _ := repSock.SendEnvelope(Envelope(msgId, ListRoomsResp(StatusOk, infos)));
    }

    /** A message to a room or to a user: acknowledged, then published as it came. */
    method HandleMessage(env: Envelope, ack: string, topic: string)
      requires repSock.mustReply
      modifies repSock, pubSock
      ensures State() == RepliedTo(old(State()), env.messageId, Ack(StatusOk, ack))
                         .(published := old(pubSock.log) + [(topic, env.payload)])
    {
      SendAckResponse(env.messageId, StatusOk, ack);
      pubSock.PublishTopicEnvelope(topic, env.payload);
    }

    /** Takes the user out of the welcome room only, whatever other rooms it is in. */
    method HandleLogoutRequest(msgId: string, username: string) returns (ghost c: Choice)
      requires Valid() && repSock.mustReply
      modifies sessions, rooms, rooms.Repr, repSock, pubSock
      ensures Valid() && rooms.Repr <= old(rooms.Repr)
      ensures username != "" ==> S.MayDelete(old(sessions.State()), username, c.deleted)
      ensures State() == RepliedTo(old(State()), msgId, c.reply)
                         .(sessions := S.Removed(old(sessions.State()), username, c.deleted),
                           members := Left(old(rooms.Pairs), GENERAL, username),
                           published := old(pubSock.log) + Published(LogoutReq(username)))
      ensures IsReply(LogoutReq(username), c.reply)
    {
      if username == "" {
        c := Choice(Ack(StatusError, "Logout unsuccessful"), None);
        SendAckResponse(msgId, StatusError, "Logout unsuccessful");
        return;
      }
      var deleted := Dismiss(username);
      AnswerLogout(msgId, username);
      c := Choice(Ack(StatusOk, "Logout successful"), deleted);
    }

    method AnswerLogout(msgId: string, username: string)
      requires repSock.mustReply && username != ""
      modifies repSock, pubSock
      ensures State() == RepliedTo(old(State()), msgId, Ack(StatusOk, "Logout successful"))
                         .(published := old(pubSock.log) + Published(LogoutReq(username)))
    {
      pubSock.PublishTopicEnvelope(RoomTopic(GENERAL), LogoutNotice(username));
      SendAckResponse(msgId, StatusOk, "Logout successful");
    }

    method Dismiss(username: string) returns (ghost deleted: Option<string>)
      requires Valid() && username != ""
      modifies sessions, rooms, rooms.Repr
      ensures Valid() && rooms.Repr <= old(rooms.Repr)
      ensures S.MayDelete(old(sessions.State()), username, deleted)
      ensures State() == old(State()).(sessions := S.Removed(old(sessions.State()), username, deleted),
                                       members := Left(old(rooms.Pairs), GENERAL, username))
    {
      var _ := rooms.LeaveRoom(GENERAL, username);
      var _, gone := sessions.RemoveUser(username);
      deleted := gone;
    }

    /** The router: one reply and one set of changes for each kind of payload. */
    method HandleEnvelope(env: Envelope, now: int, second: nat) returns (ghost c: Choice)
      requires Valid() && repSock.mustReply
      modifies sessions, rooms, rooms.Repr, repSock, pubSock
      ensures Valid() && fresh(rooms.Repr - old(rooms.Repr))
      ensures MayServe(old(State()), env.payload, second, c) && State() == ServedBy(old(State()), env, now, second, c)
    {
      match env.payload {
        case LoginReq(_) => c := LoginCase(env, now, second);
        case JoinRoomReq(_, _) => c := JoinRoomCase(env, now, second);
        case LeaveRoomReq(_, _) => c := LeaveRoomCase(env, now, second);
        case ListRoomsReq(_) => c := ListRoomsCase(env, now, second);
        case RoomMsg(_, _, _) => c := RoomMsgCase(env, now, second);
        case DirectMsg(_, _, _) => c := DirectMsgCase(env, now, second);
        case Heartbeat(_) => c := HeartbeatCase(env, now, second);
        case LogoutReq(_) => c := LogoutCase(env, now, second);
        case _ => c := OtherCase(env, now, second);
      }
    }

    // The cases of the router: all requests but a logout first touch their user.

    method LoginCase(env: Envelope, now: int, second: nat) returns (ghost c: Choice)
      requires Valid() && repSock.mustReply
      requires env.payload.LoginReq?
      modifies sessions, rooms, rooms.Repr, repSock
      ensures Valid() && fresh(rooms.Repr - old(rooms.Repr))
      ensures MayServe(old(State()), env.payload, second, c) && State() == ServedBy(old(State()), env, now, second, c)
    {
      var _ := sessions.TouchUser(env.payload.username, now);
      var reply := HandleLogin(env.messageId, env.payload.username, second);
      c := Choice(reply, None);
    }

    method JoinRoomCase(env: Envelope, now: int, ghost second: nat) returns (ghost c: Choice)
      requires Valid() && repSock.mustReply
      requires env.payload.JoinRoomReq?
      modifies sessions, rooms, rooms.Repr, repSock, pubSock
      ensures Valid() && fresh(rooms.Repr - old(rooms.Repr))
      ensures MayServe(old(State()), env.payload, second, c) && State() == ServedBy(old(State()), env, now, second, c)
    {
      var _ := sessions.TouchUser(env.payload.username, now);
      var reply := HandleJoinRoom(env.messageId, env.payload.room, env.payload.username);
      c := Choice(reply, None);
    }

    method LeaveRoomCase(env: Envelope, now: int, ghost second: nat) returns (ghost c: Choice)
      requires Valid() && repSock.mustReply
      requires env.payload.LeaveRoomReq?
      modifies sessions, rooms, rooms.Repr, repSock, pubSock
      ensures Valid() && rooms.Repr <= old(rooms.Repr)
      ensures MayServe(old(State()), env.payload, second, c) && State() == ServedBy(old(State()), env, now, second, c)
    {
      var _ := sessions.TouchUser(env.payload.username, now);
      var reply := HandleLeaveRoom(env.messageId, env.payload.room, env.payload.username);
      c := Choice(reply, None);
    }

    method ListRoomsCase(env: Envelope, now: int, ghost second: nat) returns (ghost c: Choice)
      requires Valid() && repSock.mustReply
      requires env.payload.ListRoomsReq?
      modifies sessions, repSock
      ensures Valid()
      ensures MayServe(old(State()), env.payload, second, c) && State() == ServedBy(old(State()), env, now, second, c)
    {
      var _ := sessions.TouchUser(env.payload.username, now);
      var reply := HandleListRooms(env.messageId);
      c := Choice(reply, None);
    }

    method RoomMsgCase(env: Envelope, now: int, ghost second: nat) returns (ghost c: Choice)
      requires Valid() && repSock.mustReply
      requires env.payload.RoomMsg?
      modifies sessions, repSock, pubSock
      ensures Valid()
      ensures MayServe(old(State()), env.payload, second, c) && State() == ServedBy(old(State()), env, now, second, c)
    {
      var _ := sessions.TouchUser(env.payload.sender, now);
      HandleMessage(env, "sent", RoomTopic(env.payload.room));
      c := Choice(Ack(StatusOk, "sent"), None);
    }

    method DirectMsgCase(env: Envelope, now: int, ghost second: nat) returns (ghost c: Choice)
      requires Valid() && repSock.mustReply
      requires env.payload.DirectMsg?
      modifies sessions, repSock, pubSock
      ensures Valid()
      ensures MayServe(old(State()), env.payload, second, c) && State() == ServedBy(old(State()), env, now, second, c)
    {
      var _ := sessions.TouchUser(env.payload.sender, now);
      HandleMessage(env, "direct message delivered", UserTopic(env.payload.recipient));
      c := Choice(Ack(StatusOk, "direct message delivered"), None);
    }

    method HeartbeatCase(env: Envelope, now: int, ghost second: nat) returns (ghost c: Choice)
      requires Valid() && repSock.mustReply
      requires env.payload.Heartbeat?
      modifies sessions, repSock
      ensures Valid()
      ensures MayServe(old(State()), env.payload, second, c) && State() == ServedBy(old(State()), env, now, second, c)
    {
      var _ := sessions.TouchUser(env.payload.username, now);
      SendAckResponse(env.messageId, StatusOk, "pong");
      c := Choice(Ack(StatusOk, "pong"), None);
    }

    method LogoutCase(env: Envelope, ghost now: int, ghost second: nat) returns (ghost c: Choice)
      requires Valid() && repSock.mustReply
      requires env.payload.LogoutReq?
      modifies sessions, rooms, rooms.Repr, repSock, pubSock
      ensures Valid() && rooms.Repr <= old(rooms.Repr)
      ensures MayServe(old(State()), env.payload, second, c) && State() == ServedBy(old(State()), env, now, second, c)
    {
      c := HandleLogoutRequest(env.messageId, env.payload.username);
    }

    /** Everything that is not a request. */
    method OtherCase(env: Envelope, ghost now: int, ghost second: nat) returns (ghost c: Choice)
      requires Valid() && repSock.mustReply
      requires env.payload.LoginResp? || env.payload.ListRoomsResp? || env.payload.SystemNotif? || env.payload.Ack? ||
               env.payload.NoPayload?
      modifies repSock
      ensures Valid()
      ensures MayServe(old(State()), env.payload, second, c) && State() == ServedBy(old(State()), env, now, second, c)
    {
      SendAckResponse(env.messageId, StatusError, "unknown request type");
      c := Choice(Ack(StatusError, "unknown request type"), None);
    }

    /** The request loop, for as many turns as are given; each turn has its own clock readings, and its
        receive may be interrupted. It stops early only where the receive would block. */
    method Start(turns: seq<Turn>) returns (ghost choices: seq<Choice>)
      requires Valid()
      modifies sessions, rooms, rooms.Repr, repSock, pubSock
      ensures Valid() && fresh(rooms.Repr - old(rooms.Repr))
      ensures |choices| <= |turns| && AllowedAll(old(State()), turns, choices, |choices|)
      ensures State() == AfterTurns(old(State()), turns, choices, |choices|)
      ensures |choices| < |turns| ==> repSock.Blocks(turns[|choices|].interrupted)
    {
      ghost var was := State();
      choices := [];
      var i := 0;
      while i < |turns| && !repSock.Blocks(turns[i].interrupted)
        invariant Valid() && fresh(rooms.Repr - old(rooms.Repr))
        invariant |choices| == i <= |turns| && AllowedAll(was, turns, choices, i)
        invariant State() == AfterTurns(was, turns, choices, i)
      {
        var c := Turn(turns[i]);
        OneMoreTurn(was, turns, choices, c);
        choices, i := choices + [c], i + 1;
      }
    }

    /** Receives and, if a request was received, handles it. */
    method Turn(turn: Turn) returns (ghost c: Choice)
      requires Valid() && !repSock.Blocks(turn.interrupted)
      modifies sessions, rooms, rooms.Repr, repSock, pubSock
      ensures Valid() && fresh(rooms.Repr - old(rooms.Repr))
      ensures Allowed(old(State()), turn, c) && State() == AfterTurn(old(State()), turn, c)
    {
      c := Choice(NoPayload, None);
      var env := repSock.RecvEnvelope(turn.interrupted);
      if env.Some? {
        c := HandleEnvelope(env.value, turn.now, turn.second);
      }
    }

    /** The body of the reaper's loop. */
    method ReapUser(user: string) returns (ghost deleted: Option<string>)
      requires Valid() && user != ""
      modifies sessions, rooms, rooms.Repr, pubSock
      ensures Valid() && rooms.Repr <= old(rooms.Repr)
      ensures S.MayDelete(old(sessions.State()), user, deleted)
      ensures State() == Reaped(old(State()), user, deleted)
    {
      var err := rooms.LeaveRoom(GENERAL, user);
      if err.Some? {
        return;
      }
      var err', gone := sessions.RemoveUser(user);
      deleted := gone;
      if err'.Some? {
        return;
      }
      pubSock.PublishTopicEnvelope(RoomTopic(GENERAL), TimeoutNotice(user));
    }

    /** One pass of the reaper, when no request comes between: everyone silent for too long loses the
        activity, one token and the welcome room, with one notice each in the order of the snapshot, and
        nobody else loses anything. */
    method ReapPass(now: int) returns (dead: seq<string>, ghost deleted: seq<Option<string>>)
      requires Valid()
      modifies sessions, rooms, rooms.Repr, pubSock
      ensures Valid() && rooms.Repr <= old(rooms.Repr)
      ensures S.ListsDead(old(sessions.State()), now, TIMEOUT, dead)
      ensures |deleted| == |dead| && MaySweep(old(State()), dead, deleted, |dead|)
      ensures State() == Swept(old(State()), dead, deleted, |dead|)
      ensures S.LostOneEach(old(sessions.State()), sessions.State(), SetOf(dead))
      ensures rooms.Pairs == old(rooms.Pairs) - Guests(dead) && pubSock.log == old(pubSock.log) + Notices(dead)
    {
      ghost var was := State();
      dead := sessions.GetDeadUsers(TIMEOUT, now);
      assert "" in dead ==> S.IsDead(was.sessions, "", now, TIMEOUT);
      deleted := ReapUsers(dead);
      SweptInOrder(was, dead, deleted, |dead|);
      SweptLoseOneEach(was, dead, deleted, |dead|);
      assert dead[..|dead|] == dead;
    }

    method ReapUsers(users: seq<string>) returns (ghost deleted: seq<Option<string>>)
      requires Valid() && "" !in users
      modifies sessions, rooms, rooms.Repr, pubSock
      ensures Valid() && rooms.Repr <= old(rooms.Repr)
      ensures |deleted| == |users| && MaySweep(old(State()), users, deleted, |users|)
      ensures State() == Swept(old(State()), users, deleted, |users|)
    {
      ghost var was := State();
      deleted := [];
      for i := 0 to |users|
        invariant Valid() && rooms.Repr <= old(rooms.Repr)
        invariant |deleted| == i && MaySweep(was, users, deleted, i)
        invariant State() == Swept(was, users, deleted, i)
      {
        var token := ReapUser(users[i]);
        OneMoreSwept(was, users, deleted, token);
        deleted := deleted + [token];
      }
    }
  }
}
