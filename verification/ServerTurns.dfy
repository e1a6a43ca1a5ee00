/** What the server's request loop and reaper do, on values: the state of the server, one turn of the loop,
    any number of turns, and a pass of the reaper. */
module ServerTurns {
  import opened Basics
  import opened Tokens
  import S = Sessions
  import opened Rooms
  import opened Envelopes
  import opened ServerSteps

  /** What has passed over the reply socket. */
  datatype RepEvent = Received(wire: Wire) | Replied(env: Envelope)

  /** Everything the server changes: its managers, its reply socket and what it has published. */
  datatype Picture = Picture(
    sessions: S.SessionState,
    members: Membership,
    inbox: seq<Wire>,
    mustReply: bool,
    log: seq<RepEvent>,
    published: seq<(string, Payload)>)

  function JoinNotice(room: string, user: string): Payload {
    SystemNotif(UserJoined, room, "user " + user + " joined room " + room + "!")
  }

  function LeaveNotice(room: string, user: string): Payload {
    SystemNotif(UserLeft, room, "user " + user + " has left room " + room)
  }

  function LogoutNotice(user: string): Payload {
    SystemNotif(UserLeft, GENERAL, "user " + user + " logged out.")
  }

  function TimeoutNotice(user: string): Payload {
    SystemNotif(UserLeft, GENERAL, "user " + user + " logged off (timeout).")
  }

  /** What each request makes the server publish. */
  function Published(p: Payload): seq<(string, Payload)> {
    match p
    case JoinRoomReq(r, u) => if u == "" then [] else [(RoomTopic(r), JoinNotice(r, u))]
    case LeaveRoomReq(r, u) => [(RoomTopic(r), LeaveNotice(r, u))]
    case RoomMsg(r, _, _) => [(RoomTopic(r), p)]
    case DirectMsg(to, _, _) => [(UserTopic(to), p)]
    case LogoutReq(u) => if u == "" then [] else [(RoomTopic(GENERAL), LogoutNotice(u))]
    case _ => []
  }

  /** Besides being of the right kind, the reply to a login carries its token and the reply to a room
      list describes the rooms as they are. */
  ghost predicate ReplyTells(req: Payload, reply: Payload, second: nat, members: Membership) {
    && (req.LoginReq? && req.username != "" ==>
          reply.LoginResp? && reply.token == Token(req.username, second))
    && (req.ListRoomsReq? ==> reply.ListRoomsResp? && Lists(members, reply.rooms))
  }

  function SessionsAfter(s: S.SessionState, p: Payload, now: int, second: nat, deleted: Option<string>): S.SessionState {
    match p
    case LoginReq(u) => S.Created(S.Touched(s, u, now), u, second)
    case LogoutReq(u) => S.Removed(s, u, deleted)
    case _ => S.Touched(s, Actor(p), now)
  }

  function MembersAfter(members: Membership, p: Payload): Membership {
    if CallOf(p) == [] then members else AfterCall(members, CallOf(p)[0])
  }

  /** What the actions of a request do to the sessions and to the membership. */
  lemma ProgramEffect(s: Server, p: Payload, second: nat, deleted: Option<string>)
    ensures var t := PerformAll(s, Program(p), second, deleted);
            && t.members == MembersAfter(s.members, p)
            && t.sessions == SessionsAfter(s.sessions, p, s.now, second, deleted)
  {
    match p {
      case LoginReq(u) =>
        if u == "" {
          PerformTwo(s, Touch(u), Create(u), second, deleted);
        } else {
          assert Program(p)[1..] == [Create(u), Enter(GENERAL, u)];
          PerformTwo(Perform(s, Touch(u), second, deleted), Create(u), Enter(GENERAL, u), second, deleted);
        }
      case JoinRoomReq(r, u) => PerformTwo(s, Touch(u), Enter(r, u), second, deleted);
      case LeaveRoomReq(r, u) => PerformTwo(s, Touch(u), Exit(r, u), second, deleted);
      case LogoutReq(u) =>
        if u != "" {
          PerformTwo(s, Exit(GENERAL, u), Forget(u), second, deleted);
        }
      case ListRoomsReq(u) => PerformOne(s, Touch(u), second, deleted);
      case RoomMsg(_, u, _) => PerformOne(s, Touch(u), second, deleted);
      case DirectMsg(_, u, _) => PerformOne(s, Touch(u), second, deleted);
      case Heartbeat(u) => PerformOne(s, Touch(u), second, deleted);
      case _ =>
    }
  }

  lemma PerformOne(s: Server, a: Action, second: nat, deleted: Option<string>)
    ensures PerformAll(s, [a], second, deleted) == Perform(s, a, second, deleted)
  {
    assert [a][1..] == [];
  }

  lemma PerformTwo(s: Server, a: Action, b: Action, second: nat, deleted: Option<string>)
    ensures PerformAll(s, [a, b], second, deleted) == Perform(Perform(s, a, second, deleted), b, second, deleted)
  {
    assert [a, b][1..] == [b] && [b][1..] == [];
    assert PerformAll(Perform(s, a, second, deleted), [b], second, deleted) ==
           Perform(Perform(s, a, second, deleted), b, second, deleted);
  }

  // ------------------------------------------------------------------ one turn

  /** One return of the receive, which may be interrupted, with the clock readings that go with it. */
  datatype Turn = Turn(interrupted: bool, now: int, second: nat)

  /** What the code leaves open when it serves a request: the order of a room list in its reply, and the
      token that a logout deletes. */
  datatype Choice = Choice(reply: Payload, deleted: Option<string>)

  /** The reply is of the kind the request is owed, and the deletion is possible. */
  ghost predicate MayServe(a: Picture, p: Payload, second: nat, c: Choice) {
    && IsReply(p, c.reply) && ReplyTells(p, c.reply, second, MembersAfter(a.members, p))
    && (p.LogoutReq? && p.username != "" ==> S.MayDelete(a.sessions, p.username, c.deleted))
  }

  /** One reply goes out on the socket. */
  function RepliedTo(a: Picture, msgId: string, reply: Payload): Picture {
    a.(mustReply := false, log := a.log + [Replied(Envelope(msgId, reply))])
  }

  /** A request has been served: one reply with its message id, and the changes and publications that
      its kind demands. */
  function ServedBy(a: Picture, env: Envelope, now: int, second: nat, c: Choice): Picture {
    RepliedTo(a, env.messageId, c.reply)
    .(sessions := SessionsAfter(a.sessions, env.payload, now, second, c.deleted),
      members := MembersAfter(a.members, env.payload),
      published := a.published + Published(env.payload))
  }

  function HeadTaken(a: Picture): Picture
    requires a.inbox != []
  {
    a.(inbox := a.inbox[1..], mustReply := true, log := a.log + [Received(a.inbox[0])])
  }

  /** Nothing is received when the socket waits for a reply, the receive is interrupted, or nothing is there. */
  predicate Idle(a: Picture, turn: Turn) {
    a.mustReply || turn.interrupted || a.inbox == []
  }

  function AfterTurn(a: Picture, turn: Turn, c: Choice): Picture {
    if Idle(a, turn) then a
    else if a.inbox[0].Garbage? then HeadTaken(a)
    else ServedBy(HeadTaken(a), a.inbox[0].env, turn.now, turn.second, c)
  }

  ghost predicate Allowed(a: Picture, turn: Turn, c: Choice) {
    !Idle(a, turn) && a.inbox[0].Packed? ==> MayServe(a, a.inbox[0].env.payload, turn.second, c)
  }

  /** The state of the managers, as the step model sees it. */
  function View(a: Picture, now: int): Server {
    Initial(now).(sessions := a.sessions, members := a.members)
  }

  /** A turn that handles a request does to the managers what the step model says of a request that is
      not interrupted: all its actions in a row. */
  lemma TurnIsProgram(a: Picture, turn: Turn, c: Choice)
    requires !Idle(a, turn) && a.inbox[0].Packed?
    ensures var t := PerformAll(View(a, turn.now), Program(a.inbox[0].env.payload), turn.second, c.deleted);
            AfterTurn(a, turn, c).sessions == t.sessions && AfterTurn(a, turn, c).members == t.members
  {
    ProgramEffect(View(a, turn.now), a.inbox[0].env.payload, turn.second, c.deleted);
  }

  // ------------------------------------------------------------------ what a request comes to

  /** The turn receives a request and handles `p`. */
  predicate Handles(a: Picture, turn: Turn, p: Payload) {
    !Idle(a, turn) && a.inbox[0].Packed? && a.inbox[0].env.payload == p
  }

  /** Every sign of life of a user sets its time to now and nobody else's; a logout takes its time away;
      nothing else changes any. */
  lemma TurnTouches(a: Picture, turn: Turn, c: Choice, p: Payload)
    requires Handles(a, turn, p)
    ensures var before, after := a.sessions.lastSeen, AfterTurn(a, turn, c).sessions.lastSeen;
            && (forall u | u != "" && SignOfLife(p, u) :: after == before[u := turn.now])
            && (p.LogoutReq? && p.username != "" ==> after == before - {p.username})
            && (p == LogoutReq("") || SignOfLife(p, "") || !IsRequest(p) ==> after == before)
  {
  }

  /** A login stores its token, a logout takes one token of its user away, nothing else touches any. */
  lemma TurnTokens(a: Picture, turn: Turn, c: Choice, p: Payload)
    requires Handles(a, turn, p) && Allowed(a, turn, c)
    ensures var before, after := a.sessions.users, AfterTurn(a, turn, c).sessions.users;
            && (p.LoginReq? && p.username != "" ==> after == before[Token(p.username, turn.second) := p.username])
            && (p.LogoutReq? && p.username != "" ==>
                  S.LostOne(S.TokensOf(a.sessions, p.username), S.TokensOf(AfterTurn(a, turn, c).sessions, p.username)) &&
                  forall u | u != p.username ::
                    S.TokensOf(AfterTurn(a, turn, c).sessions, u) == S.TokensOf(a.sessions, u))
            && (!p.LoginReq? && !p.LogoutReq? ==> after == before)
  {
    if p.LogoutReq? && p.username != "" {
      S.RemovalLosesOne(a.sessions, p.username, c.deleted);
      forall u | u != p.username
        ensures S.TokensOf(AfterTurn(a, turn, c).sessions, u) == S.TokensOf(a.sessions, u)
      {
        S.RemovalSparesOthers(a.sessions, p.username, c.deleted, u);
      }
    }
  }

  /** A login enters the welcome room and a logout leaves it, a join enters its room and a leave leaves
      it, each for its user alone and none for the empty name; nothing else changes membership. */
  lemma TurnMembers(a: Picture, turn: Turn, c: Choice, p: Payload, room: string, user: string)
    requires Handles(a, turn, p)
    ensures var before, after := (room, user) in a.members, (room, user) in AfterTurn(a, turn, c).members;
            if user != "" && (p == JoinRoomReq(room, user) || (p == LoginReq(user) && room == GENERAL)) then after
            else if user != "" && (p == LeaveRoomReq(room, user) || (p == LogoutReq(user) && room == GENERAL)) then !after
            else after == before
  {
  }

  /** The reply is positive unless the request is unknown, or a login, join or logout without a name. */
  lemma TurnReplies(a: Picture, turn: Turn, c: Choice, p: Payload)
    requires Handles(a, turn, p) && Allowed(a, turn, c)
    ensures var b := AfterTurn(a, turn, c);
            && b.log == a.log + [Received(a.inbox[0]), Replied(Envelope(a.inbox[0].env.messageId, c.reply))]
            && StatusOf(c.reply) ==
               Some(if !IsRequest(p) || p in {LoginReq(""), LogoutReq("")} || (p.JoinRoomReq? && p.username == "")
                    then StatusError else StatusOk)
  {
    var first, second := Received(a.inbox[0]), Replied(Envelope(a.inbox[0].env.messageId, c.reply));
    assert a.log + [first] + [second] == a.log + [first, second];
  }

  /** The reply to a login carries a token that is stored under its user, and the reply to a room list
      lists the rooms as they are. */
  lemma TurnReplyTells(a: Picture, turn: Turn, c: Choice, p: Payload)
    requires Handles(a, turn, p) && Allowed(a, turn, c)
    ensures var b := AfterTurn(a, turn, c);
            && (p.LoginReq? && p.username != "" ==> c.reply.LoginResp? && c.reply.token in S.TokensOf(b.sessions, p.username))
            && (p.ListRoomsReq? ==> c.reply.ListRoomsResp? && b.members == a.members && Lists(a.members, c.reply.rooms))
  {
  }

  // ------------------------------------------------------------------ any number of turns

  /** After the first `i` turns. */
  function AfterTurns(a: Picture, turns: seq<Turn>, choices: seq<Choice>, i: nat): Picture
    requires i <= |turns| && i <= |choices|
  {
    if i == 0 then a else AfterTurn(AfterTurns(a, turns, choices, i - 1), turns[i - 1], choices[i - 1])
  }

  ghost predicate AllowedAll(a: Picture, turns: seq<Turn>, choices: seq<Choice>, i: nat)
    requires i <= |turns| && i <= |choices|
  {
    i == 0 ||
    (AllowedAll(a, turns, choices, i - 1) &&
     Allowed(AfterTurns(a, turns, choices, i - 1), turns[i - 1], choices[i - 1]))
  }

  lemma {:induction false} LaterChoices(a: Picture, turns: seq<Turn>, choices: seq<Choice>, more: seq<Choice>, i: nat)
    requires i <= |turns| && i <= |choices|
    ensures AfterTurns(a, turns, choices + more, i) == AfterTurns(a, turns, choices, i)
    ensures AllowedAll(a, turns, choices + more, i) == AllowedAll(a, turns, choices, i)
  {
    if i > 0 {
      LaterChoices(a, turns, choices, more, i - 1);
    }
  }

  lemma OneMoreTurn(a: Picture, turns: seq<Turn>, choices: seq<Choice>, c: Choice)
    requires |choices| < |turns|
    ensures var i := |choices|;
            && AfterTurns(a, turns, choices + [c], i + 1) == AfterTurn(AfterTurns(a, turns, choices, i), turns[i], c)
            && (AllowedAll(a, turns, choices + [c], i + 1) <==>
                AllowedAll(a, turns, choices, i) && Allowed(AfterTurns(a, turns, choices, i), turns[i], c))
  {
    LaterChoices(a, turns, choices, [c], |choices|);
  }

  /** How many of the first `i` turns are not interrupted. */
  function Live(turns: seq<Turn>, i: nat): (n: nat)
    requires i <= |turns|
    ensures n <= i
  {
    if i == 0 then 0 else Live(turns, i - 1) + if turns[i - 1].interrupted then 0 else 1
  }

  /** How many of the waiting messages unpack, up to the first that does not. */
  function PackedPrefix(inbox: seq<Wire>): (n: nat)
    ensures n <= |inbox|
    ensures forall k | 0 <= k < n :: inbox[k].Packed?
    ensures n < |inbox| ==> inbox[n].Garbage?
  {
    if inbox == [] || inbox[0].Garbage? then 0 else 1 + PackedPrefix(inbox[1..])
  }

  /** How many messages the first `i` turns handle: those that unpack, up to the first that does not. */
  function HandledCount(a: Picture, turns: seq<Turn>, i: nat): (n: nat)
    requires i <= |turns|
    ensures n <= |a.inbox| && forall k | 0 <= k < n :: a.inbox[k].Packed?
  {
    if a.mustReply then 0 else Min(Live(turns, i), PackedPrefix(a.inbox))
  }

  /** One more live turn then takes the message that does not unpack, if there is one. */
  predicate GarbageTaken(a: Picture, turns: seq<Turn>, i: nat)
    requires i <= |turns|
  {
    !a.mustReply && PackedPrefix(a.inbox) < Live(turns, i) && PackedPrefix(a.inbox) < |a.inbox|
  }

  function ReceivedCount(a: Picture, turns: seq<Turn>, i: nat): (n: nat)
    requires i <= |turns|
    ensures n <= |a.inbox|
  {
    HandledCount(a, turns, i) + if GarbageTaken(a, turns, i) then 1 else 0
  }

  lemma CountNext(a: Picture, turns: seq<Turn>, i: nat)
    requires i < |turns|
    ensures var n := ReceivedCount(a, turns, i);
            if a.mustReply || GarbageTaken(a, turns, i) || turns[i].interrupted || n == |a.inbox|
            then ReceivedCount(a, turns, i + 1) == n && GarbageTaken(a, turns, i + 1) == GarbageTaken(a, turns, i)
            else ReceivedCount(a, turns, i + 1) == n + 1 && GarbageTaken(a, turns, i + 1) == a.inbox[n].Garbage?
  {
  }

  /** The reply socket of `b` is that of `a` after the first `i` turns. */
  predicate ReceivedUpTo(a: Picture, turns: seq<Turn>, i: nat, b: Picture)
    requires i <= |turns|
  {
    b.mustReply == (a.mustReply || GarbageTaken(a, turns, i)) && b.inbox == a.inbox[ReceivedCount(a, turns, i)..]
  }

  lemma ReceivesNext(a: Picture, turns: seq<Turn>, i: nat, m: Picture, b: Picture, c: Choice)
    requires 0 < i <= |turns| && ReceivedUpTo(a, turns, i - 1, m) && b == AfterTurn(m, turns[i - 1], c)
    ensures ReceivedUpTo(a, turns, i, b)
  {
    var n := ReceivedCount(a, turns, i - 1);
    CountNext(a, turns, i - 1);
    assert m.inbox == [] <==> n == |a.inbox|;
    if !Idle(m, turns[i - 1]) {
      assert m.inbox[0] == a.inbox[n] && m.inbox[1..] == a.inbox[n + 1..];
    }
  }

  /** What the turns do to the reply socket, from its inbox and the number of live turns alone. */
  lemma {:induction false} TurnsReceive(a: Picture, turns: seq<Turn>, choices: seq<Choice>, i: nat)
    requires i <= |turns| && i <= |choices|
    ensures ReceivedUpTo(a, turns, i, AfterTurns(a, turns, choices, i))
  {
    if i > 0 {
      TurnsReceive(a, turns, choices, i - 1);
      ReceivesNext(a, turns, i, AfterTurns(a, turns, choices, i - 1), AfterTurns(a, turns, choices, i), choices[i - 1]);
    }
  }

  /** The bytes received, in order. */
  function Wires(log: seq<RepEvent>): seq<Wire> {
    if log == [] then []
    else
      var e := log[|log| - 1];
      Wires(log[..|log| - 1]) + if e.Received? then [e.wire] else []
  }

  function Replies(log: seq<RepEvent>): seq<Envelope> {
    if log == [] then []
    else
      var e := log[|log| - 1];
      Replies(log[..|log| - 1]) + if e.Replied? then [e.env] else []
  }

  /** The requests received, in order; bytes that do not unpack are none. */
  function Handled(log: seq<RepEvent>): seq<Payload> {
    if log == [] then []
    else
      var e := log[|log| - 1];
      Handled(log[..|log| - 1]) + if e.Received? && e.wire.Packed? then [e.wire.env.payload] else []
  }

  /** What a list of requests makes the server publish. */
  function AllPublished(reqs: seq<Payload>): seq<(string, Payload)> {
    if reqs == [] then [] else AllPublished(reqs[..|reqs| - 1]) + Published(reqs[|reqs| - 1])
  }

  lemma HandledAppend(log: seq<RepEvent>, e: RepEvent)
    ensures Handled(log + [e]) ==
            Handled(log) + if e.Received? && e.wire.Packed? then [e.wire.env.payload] else []
  {
    assert (log + [e])[..|log|] == log;
  }

  /** What one more request adds to the accounts. */
  lemma OneMoreRequest(reqs: seq<Payload>, p: Payload)
    ensures RunRooms(RoomCalls(reqs + [p])) == MembersAfter(RunRooms(RoomCalls(reqs)), p)
    ensures AllPublished(reqs + [p]) == AllPublished(reqs) + Published(p)
  {
    assert (reqs + [p])[..|reqs|] == reqs;
    AppendRequest(reqs, p);
    var calls := RoomCalls(reqs);
    if CallOf(p) == [] {
      assert calls + [] == calls;
    } else {
      assert CallOf(p) == [CallOf(p)[0]];
      AppendCall(calls, CallOf(p)[0]);
    }
  }

  /** Receives and replies alternate, and each reply answers the request just received. */
  predicate Answered(log: seq<RepEvent>) {
    log == [] ||
    (var n := |log|;
     && n >= 2 && log[n - 2].Received? && log[n - 2].wire.Packed? && log[n - 1].Replied?
     && Answers(log[n - 2].wire.env, Packed(log[n - 1].env))
     && Answered(log[..n - 2]))
  }

  /** Between two turns: everything received has been answered, or the last thing received did not
      unpack and the socket is left waiting for a reply that nobody will send. */
  predicate Served(log: seq<RepEvent>, mustReply: bool) {
    if mustReply then log != [] && log[|log| - 1] == Received(Garbage) && Answered(log[..|log| - 1])
    else Answered(log)
  }

  lemma WiresAppend(log: seq<RepEvent>, e: RepEvent)
    ensures Wires(log + [e]) == Wires(log) + if e.Received? then [e.wire] else []
    ensures Replies(log + [e]) == Replies(log) + if e.Replied? then [e.env] else []
  {
    assert (log + [e])[..|log|] == log;
  }

  /** Receives and replies alternate in the right order, and room membership and everything published
      are what the requests handled so far say, in order. */
  predicate InOrder(a: Picture) {
    && Served(a.log, a.mustReply)
    && a.members == RunRooms(RoomCalls(Handled(a.log)))
    && a.published == AllPublished(Handled(a.log))
  }

  lemma OneMoreServed(log: seq<RepEvent>, req: Envelope, reply: Envelope)
    requires Served(log, false) && Answers(req, Packed(reply))
    ensures var all := log + [Received(Packed(req))] + [Replied(reply)];
            && Served(all, false) && Handled(all) == Handled(log) + [req.payload]
            && Wires(all) == Wires(log) + [Packed(req)]
  {
    var received := Received(Packed(req));
    assert (log + [received] + [Replied(reply)])[..|log|] == log;
    HandledAppend(log, received);
    HandledAppend(log + [received], Replied(reply));
    WiresAppend(log, received);
    WiresAppend(log + [received], Replied(reply));
    assert Handled(log) + [req.payload] + [] == Handled(log) + [req.payload];
    assert Wires(log) + [Packed(req)] + [] == Wires(log) + [Packed(req)];
  }

  lemma OneMoreGarbage(log: seq<RepEvent>)
    requires Served(log, false)
    ensures var all := log + [Received(Garbage)];
            Served(all, true) && Handled(all) == Handled(log) && Wires(all) == Wires(log) + [Garbage]
  {
    assert (log + [Received(Garbage)])[..|log|] == log;
    HandledAppend(log, Received(Garbage));
    WiresAppend(log, Received(Garbage));
    assert Handled(log) + [] == Handled(log);
  }

  lemma Regroup(w: seq<Wire>, inbox: seq<Wire>)
    requires inbox != []
    ensures w + [inbox[0]] + inbox[1..] == w + inbox
  {
  }

  /** One turn keeps the log in order, and loses and invents no message. */
  lemma TurnKeepsOrder(a: Picture, turn: Turn, c: Choice)
    requires InOrder(a) && Allowed(a, turn, c)
    ensures InOrder(AfterTurn(a, turn, c))
    ensures var b := AfterTurn(a, turn, c); Wires(b.log) + b.inbox == Wires(a.log) + a.inbox
  {
    if !Idle(a, turn) {
      Regroup(Wires(a.log), a.inbox);
      if a.inbox[0].Garbage? {
        OneMoreGarbage(a.log);
      } else {
        var env := a.inbox[0].env;
        OneMoreServed(a.log, env, Envelope(env.messageId, c.reply));
        OneMoreRequest(Handled(a.log), env.payload);
      }
    }
  }

  /** Over any number of turns the log stays in order, and no message is lost or invented. */
  lemma {:induction false} TurnsKeepOrder(a: Picture, turns: seq<Turn>, choices: seq<Choice>, i: nat)
    requires i <= |turns| && i <= |choices| && InOrder(a) && AllowedAll(a, turns, choices, i)
    ensures var b := AfterTurns(a, turns, choices, i);
            InOrder(b) && Wires(b.log) + b.inbox == Wires(a.log) + a.inbox
  {
    if i > 0 {
      TurnsKeepOrder(a, turns, choices, i - 1);
      TurnKeepsOrder(AfterTurns(a, turns, choices, i - 1), turns[i - 1], choices[i - 1]);
    }
  }

  /** In an answered log the k-th reply answers the k-th request, and there is one for each. */
  lemma {:induction false} AnsweredInOrder(log: seq<RepEvent>, k: nat)
    requires Answered(log)
    ensures |Replies(log)| == |Wires(log)|
    ensures k < |Wires(log)| ==> Wires(log)[k].Packed? && Answers(Wires(log)[k].env, Packed(Replies(log)[k]))
  {
    if log != [] {
      var n := |log|;
      var rest := log[..n - 2];
      AnsweredInOrder(rest, k);
      WiresAppend(rest, log[n - 2]);
      WiresAppend(rest + [log[n - 2]], log[n - 1]);
      assert log == rest + [log[n - 2]] + [log[n - 1]];
    }
  }

  /** Every request that unpacks gets exactly one reply, its own; after the first one that does not
      unpack nothing more is ever received, so no later request is ever handled. */
  lemma OneReplyEach(log: seq<RepEvent>, mustReply: bool, k: nat)
    requires Served(log, mustReply) && k < |Wires(log)|
    ensures |Replies(log)| == |Wires(log)| - (if mustReply then 1 else 0)
    ensures Wires(log)[k].Packed? ==>
              k < |Replies(log)| && Answers(Wires(log)[k].env, Packed(Replies(log)[k]))
    ensures Wires(log)[k].Garbage? ==> mustReply && k == |Wires(log)| - 1
  {
    if mustReply {
      var rest := log[..|log| - 1];
      WiresAppend(rest, Received(Garbage));
      assert log == rest + [Received(Garbage)];
      AnsweredInOrder(rest, k);
    } else {
      AnsweredInOrder(log, k);
    }
  }

  // ------------------------------------------------------------------ a pass of the reaper

  /** The reaper's two calls and its notice for one user. */
  function Reaped(a: Picture, user: string, deleted: Option<string>): Picture {
    a.(sessions := S.Removed(a.sessions, user, deleted), members := Left(a.members, GENERAL, user),
       published := a.published + [(RoomTopic(GENERAL), TimeoutNotice(user))])
  }

  /** After the first `i` users of a pass. */
  function Swept(a: Picture, users: seq<string>, deleted: seq<Option<string>>, i: nat): Picture
    requires i <= |users| && i <= |deleted|
  {
    if i == 0 then a else Reaped(Swept(a, users, deleted, i - 1), users[i - 1], deleted[i - 1])
  }

  predicate MaySweep(a: Picture, users: seq<string>, deleted: seq<Option<string>>, i: nat)
    requires i <= |users| && i <= |deleted|
  {
    i == 0 ||
    (MaySweep(a, users, deleted, i - 1) &&
     S.MayDelete(Swept(a, users, deleted, i - 1).sessions, users[i - 1], deleted[i - 1]))
  }

  lemma {:induction false} LaterDeletions(a: Picture, users: seq<string>, deleted: seq<Option<string>>,
                                          more: seq<Option<string>>, i: nat)
    requires i <= |users| && i <= |deleted|
    ensures Swept(a, users, deleted + more, i) == Swept(a, users, deleted, i)
    ensures MaySweep(a, users, deleted + more, i) == MaySweep(a, users, deleted, i)
  {
    if i > 0 {
      LaterDeletions(a, users, deleted, more, i - 1);
    }
  }

  lemma OneMoreSwept(a: Picture, users: seq<string>, deleted: seq<Option<string>>, token: Option<string>)
    requires |deleted| < |users|
    ensures var i := |deleted|;
            && Swept(a, users, deleted + [token], i + 1) == Reaped(Swept(a, users, deleted, i), users[i], token)
            && (MaySweep(a, users, deleted + [token], i + 1) <==>
                MaySweep(a, users, deleted, i) && S.MayDelete(Swept(a, users, deleted, i).sessions, users[i], token))
  {
    LaterDeletions(a, users, deleted, [token], |deleted|);
  }

  function Notices(users: seq<string>): seq<(string, Payload)> {
    seq(|users|, i requires 0 <= i < |users| => (RoomTopic(GENERAL), TimeoutNotice(users[i])))
  }

  /** A pass publishes one notice for each user, in order, and clears the welcome room of them. */
  lemma {:induction false} SweptInOrder(a: Picture, users: seq<string>, deleted: seq<Option<string>>, i: nat)
    requires i <= |users| == |deleted| && "" !in users
    ensures var b := Swept(a, users, deleted, i);
            b == a.(sessions := b.sessions, members := a.members - Guests(users[..i]),
                    published := a.published + Notices(users[..i]))
  {
    if i == 0 {
      assert Guests(users[..i]) == {} && Notices(users[..i]) == [];
    } else {
      var rest, u := users[..i - 1], users[i - 1];
      SweptInOrder(a, users, deleted, i - 1);
      assert u in users && users[..i] == rest + [u];
      GuestsAppend(rest, u);
      assert Notices(rest + [u]) == Notices(rest) + [(RoomTopic(GENERAL), TimeoutNotice(u))];
    }
  }

  /** If the users are distinct, each loses its activity and one token if it has any, and nobody else does. */
  lemma {:induction false} SweptLoseOneEach(a: Picture, users: seq<string>, deleted: seq<Option<string>>, i: nat)
    requires i <= |users| == |deleted| && MaySweep(a, users, deleted, i) && "" !in users
    requires forall i, j | 0 <= i < j < |users| :: users[i] != users[j]
    ensures S.LostOneEach(a.sessions, Swept(a, users, deleted, i).sessions, SetOf(users[..i]))
  {
    if i > 0 {
      var rest, u := users[..i - 1], users[i - 1];
      SweptLoseOneEach(a, users, deleted, i - 1);
      assert u in users && u !in rest;
      S.OneMoreLost(a.sessions, Swept(a, users, deleted, i - 1).sessions, SetOf(rest), u, deleted[i - 1]);
      SetOfPrefix(users, i);
    }
  }

  lemma SetOfPrefix(users: seq<string>, i: nat)
    requires 0 < i <= |users|
    ensures SetOf(users[..i]) == SetOf(users[..i - 1]) + {users[i - 1]}
  {
    SetOfAppended(users[..i - 1], users[i - 1]);
    assert users[..i] == users[..i - 1] + [users[i - 1]];
  }

  /** The comment in the reaper's loop promises that a removed user is in no room any more. That holds
      exactly for those who were in no room but the welcome room. */
  lemma OutOfAllRoomsIff(a: Picture, users: seq<string>, deleted: seq<Option<string>>, user: string)
    requires |users| == |deleted| && "" !in users && user in users
    ensures (forall room :: (room, user) !in Swept(a, users, deleted, |users|).members) <==>
            (forall room | room != GENERAL :: (room, user) !in a.members)
  {
    SweptInOrder(a, users, deleted, |users|);
    assert users[..|users|] == users;
    assert (GENERAL, user) in Guests(users);
  }
}
