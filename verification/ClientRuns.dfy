/** What one client asks of the server over its whole life, and what that leaves behind there. */
module ClientRuns {
  import opened Basics
  import opened Rooms
  import opened Envelopes
  import opened ReqRep
  import opened Commands
  import opened ClientController
  import Sessions
  import ServerSteps
  import opened ServerRuns

  /** A request a client makes between its login and its logout. */
  predicate IsOperation(env: Envelope, user: string) {
    match env.payload
    case ListRoomsReq(u) => u == ""
    case JoinRoomReq(_, u) => u == user
    case LeaveRoomReq(_, u) => u == user
    case RoomMsg(_, u, _) => u == user
    case DirectMsg(_, u, _) => u == user
    case Heartbeat(u) => u == user
    case _ => false
  }

  predicate AllOperations(envs: seq<Envelope>, user: string) {
    forall env | env in envs :: IsOperation(env, user)
  }

  /** The request that an iteration tries to send, if any. */
  function Asked(e: Event, user: string): (env: Option<Envelope>)
    requires GoodEvent(e)
    ensures env.Some? ==> IsOperation(env.value, user)
  {
    match e
    case Polled(shutdown, line, _) =>
      if shutdown == Some(KILL) then None
      else if line.Some? then (if line.value == "" then None else RequestFor(Dispatch(line.value), user))
      else if shutdown.None? then Some(PingEnvelope(user))
      else None
    case _ => None
  }

  lemma AskedIsTried(s: CtlState, user: string, e: Event)
    requires GoodEvent(e)
    ensures var t := AfterEvent(s, user, e).0;
            match Asked(e, user)
            case None => t.attempts == s.attempts && t.req == s.req
            case Some(env) => t.attempts == s.attempts + [env] && t.req == Exchanged(s.req, env, e.net).0
  {
  }

  /** One iteration tries at most one request, and sends at most the one it tries. */
  lemma EventAsksOnce(s: CtlState, user: string, e: Event) returns (tried: seq<Envelope>, sent: seq<Envelope>)
    requires GoodEvent(e)
    ensures var t := AfterEvent(s, user, e).0;
            t.attempts == s.attempts + tried && t.req.sent == s.req.sent + sent
    ensures |tried| <= 1 && (sent == [] || sent == tried)
    ensures AllOperations(tried, user)
  {
    AskedIsTried(s, user, e);
    tried, sent := [], [];
    match Asked(e, user) {
      case None =>
      case Some(env) =>
        tried := [env];
        sent := if Exchanged(s.req, env, e.net).0.sent == s.req.sent then [] else [env];
    }
  }

  lemma {:induction false} LoopAsksOperations(s: CtlState, user: string, events: seq<Event>)
    returns (tried: seq<Envelope>, sent: seq<Envelope>)
    requires forall e | e in events :: GoodEvent(e)
    ensures var t := AfterEvents(s, user, events).0;
            t.attempts == s.attempts + tried && t.req.sent == s.req.sent + sent
    ensures AllOperations(tried, user) && AllOperations(sent, user)
  {
    tried, sent := [], [];
    if events != [] {
      var rest, e := events[..|events| - 1], events[|events| - 1];
      tried, sent := LoopAsksOperations(s, user, rest);
      var (t, goesOn) := AfterEvents(s, user, rest);
      if goesOn {
        var a, b := EventAsksOnce(t, user, e);
        tried, sent := tried + a, sent + b;
      }
    }
  }

  /** One run of a client: its name, what the network did to its login and logout, and what came in
      while its loop ran. */
  datatype Client = Client(user: string, login: Net, events: seq<Event>, logout: Net)

  predicate GoodClient(c: Client) {
    forall e | e in c.events :: GoodEvent(e)
  }

  function EndOf(c: Client): (CtlState, Outcome)
    requires GoodClient(c)
  {
    Session(CtlState(UNUSED, [], [], []), c.user, c.login, c.events, c.logout)
  }

  /** The requests that went out. */
  function Sent(c: Client): seq<Envelope>
    requires GoodClient(c)
  {
    EndOf(c).0.req.sent
  }

  predicate LoggedOutProperly(c: Client)
    requires GoodClient(c)
  {
    EndOf(c).1 == LoggedOut(true)
  }

  /** However the loop is left, the requests tried are login, operations, and one logout at the end;
      once the logout is acknowledged the requests that went out have the same shape. */
  lemma SessionTrace(c: Client) returns (tried: seq<Envelope>, sent: seq<Envelope>)
    requires GoodClient(c)
    ensures AllOperations(tried, c.user) && AllOperations(sent, c.user)
    ensures var (s, outcome) := EndOf(c);
            && s.attempts == [LoginEnvelope(c.user)] + tried + (if outcome.LoggedOut? then [LogoutEnvelope(c.user)] else [])
            && (outcome.LoginFailed? ==> tried == [])
    ensures LoggedOutProperly(c) ==> Sent(c) == [LoginEnvelope(c.user)] + sent + [LogoutEnvelope(c.user)]
  {
    var (a, got) := AfterExchange(CtlState(UNUSED, [], [], []), LoginEnvelope(c.user), c.login);
    tried, sent := [], [];
    if LoggedIn(got) {
      tried, sent := LoopAsksOperations(a, c.user, c.events);
    }
  }

  // ------------------------------------------------------------------ together with the server

  function Payloads(envs: seq<Envelope>): seq<Payload> {
    seq(|envs|, i requires 0 <= i < |envs| => envs[i].payload)
  }

  /** The requests that name `user`, in order. */
  function NamedBy(reqs: seq<Payload>, user: string): seq<Payload> {
    if reqs == [] then []
    else NamedBy(reqs[..|reqs| - 1], user) + if Actor(reqs[|reqs| - 1]) == user then [reqs[|reqs| - 1]] else []
  }

  lemma NamedByAppend(reqs: seq<Payload>, p: Payload, user: string)
    ensures NamedBy(reqs + [p], user) == NamedBy(reqs, user) + if Actor(p) == user then [p] else []
  {
    assert (reqs + [p])[..|reqs|] == reqs;
  }

  lemma {:induction false} NamedByDecides(reqs: seq<Payload>, user: string, room: string)
    ensures ServerSteps.LastOf(reqs, user) ==
            var named := NamedBy(reqs, user); if named == [] then None else Some(named[|named| - 1])
    ensures JoinRequestedLast(reqs, room, user) <==> JoinRequestedLast(NamedBy(reqs, user), room, user)
  {
    if reqs != [] {
      var rest, p := reqs[..|reqs| - 1], reqs[|reqs| - 1];
      assert reqs == rest + [p];
      NamedByDecides(rest, user, room);
      JoinRequestedLastAppend(rest, p, room, user);
      if Actor(p) == user {
        JoinRequestedLastAppend(NamedBy(rest, user), p, room, user);
      } else {
        assert NamedBy(reqs, user) == NamedBy(rest, user);
      }
    }
  }

  lemma {:induction false} FirstDoesNotDecide(p: Payload, reqs: seq<Payload>, room: string, user: string)
    requires !p.JoinRoomReq?
    ensures JoinRequestedLast([p] + reqs, room, user) <==> JoinRequestedLast(reqs, room, user)
  {
    if reqs == [] {
      assert [p] + reqs == [] + [p];
      JoinRequestedLastAppend([], p, room, user);
    } else {
      var rest, last := reqs[..|reqs| - 1], reqs[|reqs| - 1];
      FirstDoesNotDecide(p, rest, room, user);
      JoinRequestedLastAppend(rest, last, room, user);
      JoinRequestedLastAppend([p] + rest, last, room, user);
      assert reqs == rest + [last] && [p] + reqs == [p] + rest + [last];
    }
  }

  /** A life of login, operations and logout ends with the logout, and its operations decide. */
  lemma LifeDecides(reqs: seq<Payload>, ops: seq<Payload>, user: string, room: string)
    requires NamedBy(reqs, user) == NamedBy([LoginReq(user)] + ops + [LogoutReq(user)], user)
    ensures ServerSteps.LastOf(reqs, user) == Some(LogoutReq(user))
    ensures JoinRequestedLast(reqs, room, user) <==> JoinRequestedLast(ops, room, user)
  {
    var whole := [LoginReq(user)] + ops + [LogoutReq(user)];
    NamedByAppend([LoginReq(user)] + ops, LogoutReq(user), user);
    NamedByDecides(reqs, user, room);
    NamedByDecides(whole, user, room);
    EndsDoNotDecide(LoginReq(user), ops, LogoutReq(user), room, user);
  }

  lemma EndsDoNotDecide(first: Payload, ops: seq<Payload>, last: Payload, room: string, user: string)
    requires !first.JoinRoomReq? && !last.JoinRoomReq? && !last.LeaveRoomReq?
    ensures JoinRequestedLast([first] + ops + [last], room, user) <==> JoinRequestedLast(ops, room, user)
  {
    JoinRequestedLastAppend([first] + ops, last, room, user);
    FirstDoesNotDecide(first, ops, room, user);
  }

  /** Nobody else uses the client's name, and of what the client sent the server has begun a part, in
      order, with all that has been answered in it. */
  ghost predicate SoleClient(c: Client, begun: seq<Payload>)
    requires GoodClient(c)
  {
    exists n | EndOf(c).0.req.answered <= n <= |Sent(c)| ::
      NamedBy(begun, c.user) == NamedBy(Payloads(Sent(c)[..n]), c.user)
  }

  lemma {:induction false} LoopStaysValid(s: CtlState, user: string, events: seq<Event>)
    requires Valid(s.req) && forall e | e in events :: GoodEvent(e)
    ensures Valid(AfterEvents(s, user, events).0.req)
  {
    if events != [] {
      var rest, e := events[..|events| - 1], events[|events| - 1];
      LoopStaysValid(s, user, rest);
      var t := AfterEvents(s, user, rest).0;
      AskedIsTried(t, user, e);
      if Asked(e, user).Some? {
        ExchangeKeepsValid(t.req, Asked(e, user).value, e.net);
      }
    }
  }

  /** An acknowledged logout means that every request the client sent has been answered. */
  lemma LogoutAnswersAll(c: Client)
    requires GoodClient(c) && LoggedOutProperly(c)
    ensures EndOf(c).0.req.answered == |Sent(c)|
  {
    var start := CtlState(UNUSED, [], [], []);
    ExchangeKeepsValid(start.req, LoginEnvelope(c.user), c.login);
    var a := AfterExchange(start, LoginEnvelope(c.user), c.login).0;
    LoopStaysValid(a, c.user, c.events);
    var b := AfterEvents(a, c.user, c.events).0;
    ExchangeKeepsValid(b.req, LogoutEnvelope(c.user), c.logout);
  }

  lemma PayloadsOfLife(user: string, ops: seq<Envelope>)
    ensures Payloads([LoginEnvelope(user)] + ops + [LogoutEnvelope(user)]) ==
            [LoginReq(user)] + Payloads(ops) + [LogoutReq(user)]
  {
  }

  /** Client and server together: when the sole client of a user has had its logout acknowledged, and
      the server has begun at least those of its requests that it answered, the user is neither in
      the welcome room nor tracked, and its membership of any other room is decided by the client's
      last join or leave of it; the reaper and all other users may have done anything meanwhile. */
  lemma AcknowledgedLogout(c: Client, run: seq<ServerSteps.Server>, labels: seq<ServerSteps.Label>, i: nat)
    returns (ops: seq<Envelope>)
    requires c.user != "" && GoodClient(c) && LoggedOutProperly(c)
    requires ServerSteps.IsRun(run, labels) && i < |run| && run[i].handler.Ready?
    requires SoleClient(c, run[i].begun)
    ensures AllOperations(ops, c.user)
    ensures Sent(c) == [LoginEnvelope(c.user)] + ops + [LogoutEnvelope(c.user)]
    ensures !ServerSteps.InGeneral(run[i], c.user) && !ServerSteps.Seen(run[i], c.user)
    ensures forall room | room != GENERAL ::
              (room, c.user) in run[i].members <==> JoinRequestedLast(Payloads(ops), room, c.user)
  {
    var _, sent := SessionTrace(c);
    ops := sent;
    PayloadsOfLife(c.user, ops);
    LogoutAnswersAll(c);
    assert Sent(c)[..|Sent(c)|] == Sent(c);
    ServerAfterLife(run, labels, i, Payloads(ops), c.user);
  }

  /** What the server is left with when the requests naming a user are those of one life. */
  lemma ServerAfterLife(run: seq<ServerSteps.Server>, labels: seq<ServerSteps.Label>, i: nat, ops: seq<Payload>, user: string)
    requires ServerSteps.IsRun(run, labels) && i < |run| && run[i].handler.Ready? && user != ""
    requires NamedBy(run[i].begun, user) == NamedBy([LoginReq(user)] + ops + [LogoutReq(user)], user)
    ensures !ServerSteps.InGeneral(run[i], user) && !ServerSteps.Seen(run[i], user)
    ensures forall room | room != GENERAL :: (room, user) in run[i].members <==> JoinRequestedLast(ops, room, user)
  {
    LifeDecides(run[i].begun, ops, user, GENERAL);
    LogoutForgets(run, labels, i, user);
    forall room | room != GENERAL
      ensures (room, user) in run[i].members <==> JoinRequestedLast(ops, room, user)
    {
      LastRequestDecides(run, labels, i, room, user);
      LifeDecides(run[i].begun, ops, user, room);
    }
  }

  // ------------------------------------------------------------------ such runs exist

  function Replied(reply: Payload, id: string): Net {
    Net(false, false, Packed(Envelope(id, reply)))
  }

  /** A client that logs in, is told to shut down, and logs out. */
  lemma ShortLife(user: string) returns (c: Client)
    ensures c.user == user && GoodClient(c) && LoggedOutProperly(c)
    ensures user != "" ==> Answers(LoginEnvelope(user), c.login.answer) && Answers(LogoutEnvelope(user), c.logout.answer)
    ensures Sent(c) == [LoginEnvelope(user), LogoutEnvelope(user)]
  {
    var login := Replied(LoginResp(StatusOk, "", ""), "req-login");
    c := Client(user, login, [Polled(Some(KILL), None, login)], Replied(Ack(StatusOk, ""), "cmd-logout"));
    assert c.events[..0] == [];
    var s := AfterExchange(CtlState(UNUSED, [], [], []), LoginEnvelope(user), login).0;
    assert AfterEvents(s, user, c.events) == (s, false);
  }

  /** Such a life and such a run exist for every user. */
  lemma AcknowledgedLogoutHappens(user: string)
    returns (c: Client, run: seq<ServerSteps.Server>, labels: seq<ServerSteps.Label>)
    requires user != ""
    ensures c.user == user && GoodClient(c) && LoggedOutProperly(c)
    ensures Answers(LoginEnvelope(user), c.login.answer) && Answers(LogoutEnvelope(user), c.logout.answer)
    ensures ServerSteps.IsRun(run, labels) && run[|run| - 1].handler.Ready?
    ensures SoleClient(c, run[|run| - 1].begun)
  {
    c := ShortLife(user);
    run, labels := Serve([ServerSteps.Initial(0)], [], LoginReq(user), 0, None);
    var token := PickToken(run[|run| - 1].sessions, user);
    run, labels := Serve(run, labels, LogoutReq(user), 0, token);
    assert run[|run| - 1].begun == Payloads(Sent(c));
    assert Sent(c)[..2] == Sent(c);
    LogoutAnswersAll(c);
  }

  /** Some removal is always possible. */
  lemma PickToken(s: Sessions.SessionState, user: string) returns (token: Option<string>)
    ensures Sessions.MayDelete(s, user, token)
  {
    token := None;
    if t :| t in Sessions.TokensOf(s, user) {
      token := Some(t);
    }
  }
}
