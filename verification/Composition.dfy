/** Controller, receiver and server put together: every life of a controller, together with a run of the
    server, is a run of the subscription model. */
module Composition {
  import opened Basics
  import opened Rooms
  import opened Envelopes
  import opened ReqRep
  import opened Commands
  import opened ClientController
  import opened ClientRuns
  import V = ServerSteps
  import T = ServerTurns
  import ServerRuns
  import W = Subscriptions

  // ------------------------------------------------------------------ one exchange

  /** The join or leave that a request of the client asks for, if any. */
  function OpOf(p: Payload): Option<W.Op> {
    match p
    case JoinRoomReq(r, _) => Some(W.JoinOp(r))
    case LeaveRoomReq(r, _) => Some(W.LeaveOp(r))
    case _ => None
  }

  predicate GoesOut(s: ReqState, net: Net) {
    !s.awaiting && !net.sendFails
  }

  /** What becomes of a request that goes out. */
  datatype Fate = Acknowledged | Misread | Lost

  function FateOf(net: Net): Fate {
    if net.recvFails then Lost else if net.answer.Packed? then Acknowledged else Misread
  }

  lemma ExchangeOutcome(s: ReqState, env: Envelope, net: Net)
    requires Valid(s)
    ensures var (t, got) := Exchanged(s, env, net);
            if GoesOut(s, net) then
              && t.sent == s.sent + [env] && t.awaiting == net.recvFails
              && (got.Some? <==> FateOf(net).Acknowledged?) && (got.Some? ==> Packed(got.value) == net.answer)
            else t == s && got == None
  {
  }

  /** The peer is honest in the exchange that an event leads to. */
  predicate HonestAt(s: CtlState, user: string, e: Event)
    requires GoodEvent(e)
  {
    Asked(e, user).Some? ==> Honest(AfterSend(s.req, Asked(e, user).value, false), e.net.answer)
  }

  predicate HonestLoop(s: CtlState, user: string, events: seq<Event>)
    requires forall e | e in events :: GoodEvent(e)
  {
    events == [] ||
    (var rest, e := events[..|events| - 1], events[|events| - 1];
     HonestLoop(s, user, rest) && HonestAt(AfterEvents(s, user, rest).0, user, e))
  }

  function AskedOp(e: Event, user: string): Option<W.Op>
    requires GoodEvent(e)
  {
    if Asked(e, user).Some? then OpOf(Asked(e, user).value.payload) else None
  }

  /** A join or leave is told to the receiver exactly if it goes out and is acknowledged, and otherwise
      the loop is left; nothing else tells the receiver anything. */
  lemma EventTells(s: CtlState, user: string, e: Event)
    requires GoodEvent(e) && Valid(s.req) && HonestAt(s, user, e)
    ensures var (t, goesOn) := AfterEvent(s, user, e);
            match AskedOp(e, user)
            case None => t.toReceiver == s.toReceiver
            case Some(op) =>
              && W.Typed(op) && goesOn == (GoesOut(s.req, e.net) && FateOf(e.net).Acknowledged?)
              && t.toReceiver == if goesOn then s.toReceiver + W.OpCommands(op) else s.toReceiver
  {
    if Asked(e, user).Some? {
      var env := Asked(e, user).value;
      ExchangeOutcome(s.req, env, e.net);
      if GoesOut(s.req, e.net) {
        OldestOwedIsNewest(s.req, env);
      }
    }
  }

  // ------------------------------------------------------------------ the subscription model follows

  /** Nothing is under way for `user`. */
  predicate Rests(w: W.World, user: string) {
    user in w.clients && W.Quiescent(w.clients[user]) && !w.clients[user].lost
  }

  predicate MayAsk(w: W.World, user: string, op: W.Op)
    requires user in w.clients
  {
    W.Typed(op) && op != W.Login &&
    (w.clients[user].phase.Running? || (w.clients[user].phase.Leaving? && op == W.Logout))
  }

  /** `w'` is `w` after a request of the client with the given fate, and the receiver's obedience. */
  predicate AfterAsking(w: W.World, w': W.World, user: string, op: W.Op, fate: Fate)
    requires user in w.clients && user in w'.clients
  {
    var c, c' := w.clients[user], w'.clients[user];
    && w'.members == AfterCall(w.members, W.OpCall(op, user))
    && c'.filters == (if fate.Acknowledged? then W.DrainAll(c.filters, W.OpCommands(op)) else c.filters)
    && c'.log == c.log + [W.Entry(op, fate.Acknowledged?)]
    && (fate.Acknowledged? && op != W.Logout ==> c'.phase == c.phase)
    && (fate.Misread? && op != W.Logout ==> c'.phase == W.Leaving)
  }

  lemma AskInWorld(run: seq<W.World>, labels: seq<W.Label>, user: string, op: W.Op, fate: Fate)
    returns (run': seq<W.World>, labels': seq<W.Label>)
    requires W.IsRun(run, labels) && Rests(run[|run| - 1], user) && MayAsk(run[|run| - 1], user, op)
    ensures W.IsRun(run', labels') && Rests(run'[|run'| - 1], user)
    ensures AfterAsking(run[|run| - 1], run'[|run'| - 1], user, op, fate)
  {
    run', labels' := W.Extend(run, labels, W.Ask(user, op));
    run', labels' := W.Extend(run', labels', W.Handle(user));
    match fate {
      case Acknowledged =>
        run', labels' := W.Extend(run', labels', W.Acknowledge(user));
        if op != W.Logout {
          OneCommand(run[|run| - 1].clients[user].filters, op);
          run', labels' := W.Extend(run', labels', W.Drain(user));
        }
      case Misread => run', labels' := W.Extend(run', labels', W.Misread(user));
      case Lost => run', labels' := W.Extend(run', labels', W.Lose(user));
    }
  }

  lemma OneCommand(f: W.Filters, op: W.Op)
    requires op.JoinOp? || op.LeaveOp?
    ensures W.DrainAll(f, W.OpCommands(op)) == W.Filtered(f, W.OpCommands(op)[0])
  {
    assert W.OpCommands(op)[..0] == [];
  }

  /** Membership as the requests sent so far decide it. */
  function Decided(s: CtlState): Membership {
    RunRooms(V.RoomCalls(Payloads(s.req.sent)))
  }

  lemma DecidedNext(s: CtlState, t: CtlState, env: Envelope)
    requires t.req.sent == s.req.sent + [env]
    ensures Decided(t) == T.MembersAfter(Decided(s), env.payload)
  {
    assert Payloads(t.req.sent) == Payloads(s.req.sent) + [env.payload];
    T.OneMoreRequest(Payloads(s.req.sent), env.payload);
  }

  /** The subscription model agrees with the controller: its filters are those that the commands told so
      far make, and its membership is what the requests sent so far decide. */
  ghost predicate Mirrors(w: W.World, user: string, s: CtlState) {
    && Rests(w, user)
    && w.clients[user].filters == W.DrainAll(W.InitialFilters(user), s.toReceiver)
    && w.members == Decided(s)
    && (forall op | op in W.Heard(w.clients[user].log) && op.LeaveOp? :: LeaveRoomReq(op.room, user) in Payloads(s.req.sent))
  }

  /** While the loop goes on every join and leave has been heard of, and until a receive fails the
      client may still log out. */
  ghost predicate InPhase(w: W.World, user: string, s: CtlState, goesOn: bool)
    requires user in w.clients
  {
    && (goesOn ==> w.clients[user].phase.Running? && forall e | e in w.clients[user].log :: e.heard)
    && (!s.req.awaiting ==> !w.clients[user].phase.Gone?)
  }

  lemma LeavesSent(log: seq<W.Entry>, e: W.Entry, sent: seq<Envelope>, env: Envelope, user: string)
    requires forall op | op in W.Heard(log) && op.LeaveOp? :: LeaveRoomReq(op.room, user) in Payloads(sent)
    requires e.op.LeaveOp? ==> env.payload == LeaveRoomReq(e.op.room, user)
    ensures forall op | op in W.Heard(log + [e]) && op.LeaveOp? :: LeaveRoomReq(op.room, user) in Payloads(sent + [env])
  {
    W.LogAppend(log, e);
    assert Payloads(sent + [env]) == Payloads(sent) + [env.payload];
  }

  /** The request sent and, if it is acknowledged, told to the receiver. */
  lemma AskingMirrors(w: W.World, w': W.World, user: string, s: CtlState, t: CtlState, env: Envelope, op: W.Op, fate: Fate)
    requires Mirrors(w, user, s) && Rests(w', user) && AfterAsking(w, w', user, op, fate)
    requires t.req.sent == s.req.sent + [env] && V.CallOf(env.payload) == [W.OpCall(op, user)]
    requires op.LeaveOp? ==> env.payload == LeaveRoomReq(op.room, user)
    requires t.toReceiver == if fate.Acknowledged? then s.toReceiver + W.OpCommands(op) else s.toReceiver
    ensures Mirrors(w', user, t)
  {
    DecidedNext(s, t, env);
    W.DrainAppend(W.InitialFilters(user), s.toReceiver, W.OpCommands(op));
    LeavesSent(w.clients[user].log, W.Entry(op, fate.Acknowledged?), s.req.sent, env, user);
  }

  lemma AskingKeepsPhase(w: W.World, w': W.World, user: string, s: CtlState, t: CtlState, op: W.Op, fate: Fate)
    requires user in w.clients && user in w'.clients && InPhase(w, user, s, true) && AfterAsking(w, w', user, op, fate)
    requires op != W.Logout && t.req.awaiting == fate.Lost?
    ensures InPhase(w', user, t, fate.Acknowledged?)
  {
  }

  /** One join or leave that goes out. */
  lemma OpProjects(run: seq<W.World>, labels: seq<W.Label>, user: string, s: CtlState, e: Event)
    returns (run': seq<W.World>, labels': seq<W.Label>)
    requires W.IsRun(run, labels) && Mirrors(run[|run| - 1], user, s) && InPhase(run[|run| - 1], user, s, true)
    requires user != "" && GoodEvent(e) && Valid(s.req) && HonestAt(s, user, e)
    requires AskedOp(e, user).Some? && GoesOut(s.req, e.net)
    ensures W.IsRun(run', labels')
    ensures var (t, goesOn) := AfterEvent(s, user, e);
            Mirrors(run'[|run'| - 1], user, t) && InPhase(run'[|run'| - 1], user, t, goesOn)
  {
    var env, op := Asked(e, user).value, AskedOp(e, user).value;
    EventTells(s, user, e);
    AskedIsTried(s, user, e);
    ExchangeOutcome(s.req, env, e.net);
    run', labels' := AskInWorld(run, labels, user, op, FateOf(e.net));
    AskingMirrors(run[|run| - 1], run'[|run'| - 1], user, s, AfterEvent(s, user, e).0, env, op, FateOf(e.net));
    AskingKeepsPhase(run[|run| - 1], run'[|run'| - 1], user, s, AfterEvent(s, user, e).0, op, FateOf(e.net));
  }

  /** Any other request leaves the model as it is. */
  lemma OtherRequestMirrors(w: W.World, user: string, s: CtlState, t: CtlState, env: Envelope)
    requires Mirrors(w, user, s) && t.toReceiver == s.toReceiver && t.req.sent == s.req.sent + [env]
    requires IsOperation(env, user) && OpOf(env.payload) == None
    ensures Mirrors(w, user, t)
  {
    DecidedNext(s, t, env);
    assert Payloads(s.req.sent + [env]) == Payloads(s.req.sent) + [env.payload];
  }

  lemma EventProjects(run: seq<W.World>, labels: seq<W.Label>, user: string, s: CtlState, e: Event)
    returns (run': seq<W.World>, labels': seq<W.Label>)
    requires W.IsRun(run, labels) && Mirrors(run[|run| - 1], user, s) && InPhase(run[|run| - 1], user, s, true)
    requires user != "" && GoodEvent(e) && Valid(s.req) && HonestAt(s, user, e)
    ensures W.IsRun(run', labels')
    ensures var (t, goesOn) := AfterEvent(s, user, e);
            Mirrors(run'[|run'| - 1], user, t) && InPhase(run'[|run'| - 1], user, t, goesOn)
  {
    if AskedOp(e, user).Some? && GoesOut(s.req, e.net) {
      run', labels' := OpProjects(run, labels, user, s, e);
    } else {
      QuietEventMirrors(run[|run| - 1], user, s, e);
      run', labels' := run, labels;
    }
  }

  lemma QuietEventMirrors(w: W.World, user: string, s: CtlState, e: Event)
    requires Mirrors(w, user, s) && GoodEvent(e) && Valid(s.req) && HonestAt(s, user, e)
    requires AskedOp(e, user).None? || !GoesOut(s.req, e.net)
    ensures Mirrors(w, user, AfterEvent(s, user, e).0)
  {
    var t := AfterEvent(s, user, e).0;
    EventTells(s, user, e);
    AskedIsTried(s, user, e);
    if Asked(e, user).Some? {
      ExchangeOutcome(s.req, Asked(e, user).value, e.net);
      if GoesOut(s.req, e.net) {
        OtherRequestMirrors(w, user, s, t, Asked(e, user).value);
      }
    }
  }

  lemma {:induction false} LoopProjects(run: seq<W.World>, labels: seq<W.Label>, user: string, s: CtlState, events: seq<Event>)
    returns (run': seq<W.World>, labels': seq<W.Label>)
    requires W.IsRun(run, labels) && Mirrors(run[|run| - 1], user, s) && InPhase(run[|run| - 1], user, s, true)
    requires user != "" && Valid(s.req) && (forall e | e in events :: GoodEvent(e)) && HonestLoop(s, user, events)
    ensures W.IsRun(run', labels')
    ensures var (t, goesOn) := AfterEvents(s, user, events);
            Mirrors(run'[|run'| - 1], user, t) && InPhase(run'[|run'| - 1], user, t, goesOn)
  {
    run', labels' := run, labels;
    if events != [] {
      var rest, e := events[..|events| - 1], events[|events| - 1];
      run', labels' := LoopProjects(run, labels, user, s, rest);
      var (t, goesOn) := AfterEvents(s, user, rest);
      LoopStaysValid(s, user, rest);
      if goesOn {
        run', labels' := EventProjects(run', labels', user, t, e);
      }
    }
  }

  // ------------------------------------------------------------------ a whole life

  const START := CtlState(UNUSED, [], [], [])

  function AfterLogin(c: Client): CtlState {
    AfterExchange(START, LoginEnvelope(c.user), c.login).0
  }

  function AfterLoop(c: Client): (CtlState, bool)
    requires GoodClient(c)
  {
    AfterEvents(AfterLogin(c), c.user, c.events)
  }

  /** A client that has logged in, with a peer that is honest in every exchange of its loop. */
  predicate HonestLife(c: Client)
    requires GoodClient(c)
  {
    && !EndOf(c).1.LoginFailed?
    && HonestLoop(AfterLogin(c), c.user, c.events)
  }

  /** A login that succeeds has gone out. */
  lemma LoginGoesOut(user: string, net: Net)
    requires LoggedIn(AfterExchange(START, LoginEnvelope(user), net).1)
    ensures var s := AfterExchange(START, LoginEnvelope(user), net).0;
            Valid(s.req) && !s.req.awaiting && s.toReceiver == [] && s.req.sent == [LoginEnvelope(user)]
  {
    ExchangeOutcome(UNUSED, LoginEnvelope(user), net);
    ExchangeKeepsValid(UNUSED, LoginEnvelope(user), net);
  }

  /** It decides that the user is in the welcome room. */
  lemma LoginDecides(user: string)
    requires user != ""
    ensures RunRooms(V.RoomCalls([LoginReq(user)])) == {(GENERAL, user)}
  {
    T.OneMoreRequest([], LoginReq(user));
    assert [] + [LoginReq(user)] == [LoginReq(user)];
  }

  lemma PayloadsOfLogin(user: string)
    ensures Payloads([LoginEnvelope(user)]) == [LoginReq(user)]
  {
  }

  lemma LoginSucceeded(c: Client)
    requires GoodClient(c) && HonestLife(c)
    ensures LoggedIn(AfterExchange(START, LoginEnvelope(c.user), c.login).1)
  {
  }

  lemma LoginProjects(c: Client) returns (run: seq<W.World>, labels: seq<W.Label>)
    requires GoodClient(c) && HonestLife(c) && W.LoginName(c.user)
    ensures W.IsRun(run, labels) && Valid(AfterLogin(c).req)
    ensures Mirrors(run[|run| - 1], c.user, AfterLogin(c)) && InPhase(run[|run| - 1], c.user, AfterLogin(c), true)
  {
    LoginSucceeded(c);
    LoginGoesOut(c.user, c.login);
    PayloadsOfLogin(c.user);
    LoginDecides(c.user);
    run, labels := W.LogIn(c.user);
  }

  /** Every life of a client is a run of the subscription model that ends at rest with the same filters
      and the same membership. */
  lemma LifeProjects(c: Client) returns (run: seq<W.World>, labels: seq<W.Label>)
    requires GoodClient(c) && HonestLife(c) && W.LoginName(c.user)
    ensures W.IsRun(run, labels) && Mirrors(run[|run| - 1], c.user, EndOf(c).0)
    ensures EndOf(c).1.StillRunning? ==> forall e | e in run[|run| - 1].clients[c.user].log :: e.heard
  {
    run, labels := LoginProjects(c);
    run, labels := LoopProjects(run, labels, c.user, AfterLogin(c), c.events);
    LoopStaysValid(AfterLogin(c), c.user, c.events);
    var (s, goesOn) := AfterLoop(c);
    if !goesOn {
      ExchangeOutcome(s.req, LogoutEnvelope(c.user), c.logout);
      if GoesOut(s.req, c.logout) {
        run, labels := LogoutProjects(run, labels, c.user, s, c.logout);
      }
    }
  }

  lemma LogoutProjects(run: seq<W.World>, labels: seq<W.Label>, user: string, s: CtlState, net: Net)
    returns (run': seq<W.World>, labels': seq<W.Label>)
    requires W.IsRun(run, labels) && Mirrors(run[|run| - 1], user, s) && InPhase(run[|run| - 1], user, s, false)
    requires user != "" && Valid(s.req) && GoesOut(s.req, net)
    ensures W.IsRun(run', labels') && Mirrors(run'[|run'| - 1], user, AfterExchange(s, LogoutEnvelope(user), net).0)
  {
    var env, t := LogoutEnvelope(user), AfterExchange(s, LogoutEnvelope(user), net).0;
    ExchangeOutcome(s.req, env, net);
    assert s.toReceiver + [] == s.toReceiver;
    run', labels' := AskInWorld(run, labels, user, W.Logout, FateOf(net));
    AskingMirrors(run[|run| - 1], run'[|run'| - 1], user, s, t, env, W.Logout, FateOf(net));
  }

  // ------------------------------------------------------------------ and the server

  function DecidedBy(reqs: seq<Payload>): Membership {
    RunRooms(V.RoomCalls(reqs))
  }

  lemma MembersNext(m: Membership, n: Membership, p: Payload, user: string, room: string)
    requires user != "" && ((room, user) in m <==> (room, user) in n)
    ensures (room, user) in T.MembersAfter(m, p) <==>
            (room, user) in if Actor(p) == user then T.MembersAfter(n, p) else n
  {
  }

  lemma NamedDecideNext(reqs: seq<Payload>, rest: seq<Payload>, p: Payload, user: string, room: string)
    requires user != "" && reqs == rest + [p]
    requires (room, user) in DecidedBy(rest) <==> (room, user) in DecidedBy(NamedBy(rest, user))
    ensures (room, user) in DecidedBy(reqs) <==> (room, user) in DecidedBy(NamedBy(reqs, user))
  {
    var named := NamedBy(rest, user);
    T.OneMoreRequest(rest, p);
    T.OneMoreRequest(named, p);
    NamedByAppend(rest, p, user);
    assert named + [] == named;
    MembersNext(DecidedBy(rest), DecidedBy(named), p, user, room);
  }

  lemma SplitLast(reqs: seq<Payload>) returns (rest: seq<Payload>, p: Payload)
    requires reqs != []
    ensures reqs == rest + [p]
  {
    rest, p := reqs[..|reqs| - 1], reqs[|reqs| - 1];
  }

  /** Only the requests that name a user decide its membership. */
  lemma {:induction false} NamedDecide(reqs: seq<Payload>, user: string, room: string)
    requires user != ""
    ensures (room, user) in DecidedBy(reqs) <==> (room, user) in DecidedBy(NamedBy(reqs, user))
    decreases |reqs|
  {
    if reqs != [] {
      var rest, p := SplitLast(reqs);
      NamedDecide(rest, user, room);
      NamedDecideNext(reqs, rest, p, user, room);
    }
  }

  /** The server has begun everything the client sent, and nobody else uses its name. */
  predicate AllBegun(c: Client, begun: seq<Payload>)
    requires GoodClient(c)
  {
    NamedBy(begun, c.user) == NamedBy(Payloads(Sent(c)), c.user)
  }

  /** The server's membership is what the client's requests decide, but for what the reaper took. */
  lemma ServerFollows(c: Client, srv: seq<V.Server>, steps: seq<V.Label>, i: nat, room: string)
    requires GoodClient(c) && c.user != ""
    requires V.IsRun(srv, steps) && i < |srv| && srv[i].handler.Ready? && AllBegun(c, srv[i].begun)
    ensures (room, c.user) in srv[i].members ==> (room, c.user) in Decided(EndOf(c).0)
    ensures room != GENERAL && (room, c.user) in Decided(EndOf(c).0) ==> (room, c.user) in srv[i].members
  {
    assert V.LogInv(srv[i]) by {
      V.RunKeepsInv(srv, steps, i);
    }
    NamedDecide(Payloads(Sent(c)), c.user, room);
    NamedDecide(srv[i].begun, c.user, room);
  }

  /** The subscription model and the server agree on the user's memberships. */
  ghost predicate SameMemberships(w: W.World, s: V.Server, user: string) {
    forall room :: (room, user) in w.members <==> (room, user) in s.members
  }

  /** The leaves that were heard of were sent, and while the loop goes on every join was heard of. */
  ghost predicate LogOfLife(log: seq<W.Entry>, c: Client)
    requires GoodClient(c)
  {
    && (forall op | op in W.Heard(log) && op.LeaveOp? :: LeaveRoomReq(op.room, c.user) in Payloads(Sent(c)))
    && (EndOf(c).1.StillRunning? ==> forall e | e in log :: e.heard)
  }

  /** The filters of the client's receiver when it has obeyed every command told to it. */
  function FiltersOf(c: Client): W.Filters
    requires GoodClient(c)
  {
    W.DrainAll(W.InitialFilters(c.user), EndOf(c).0.toReceiver)
  }

  lemma ReapToAgree(run: seq<W.World>, labels: seq<W.Label>, s: V.Server, user: string)
    returns (run': seq<W.World>, labels': seq<W.Label>)
    requires W.IsRun(run, labels) && user != ""
    requires forall room :: (room, user) in s.members ==> (room, user) in run[|run| - 1].members
    requires forall room | room != GENERAL :: (room, user) in run[|run| - 1].members ==> (room, user) in s.members
    ensures W.IsRun(run', labels') && SameMemberships(run'[|run'| - 1], s, user)
    ensures run'[|run'| - 1].clients == run[|run| - 1].clients
  {
    run', labels' := run, labels;
    if (GENERAL, user) !in s.members {
      run', labels' := W.Extend(run, labels, W.Reap(user));
    }
  }

  /** A life of a client together with a run of the server, whatever the reaper and the other clients do
      there, is a run of the subscription model: it ends at rest with the filters of the client's receiver
      and with the memberships of the user that the server holds. */
  lemma LifeAndServerProject(c: Client, srv: seq<V.Server>, steps: seq<V.Label>, i: nat)
    returns (run: seq<W.World>, labels: seq<W.Label>)
    requires GoodClient(c) && HonestLife(c) && W.LoginName(c.user)
    requires V.IsRun(srv, steps) && i < |srv| && srv[i].handler.Ready? && AllBegun(c, srv[i].begun)
    ensures W.IsRun(run, labels) && Rests(run[|run| - 1], c.user)
    ensures run[|run| - 1].clients[c.user].filters == FiltersOf(c)
    ensures SameMemberships(run[|run| - 1], srv[i], c.user)
    ensures LogOfLife(run[|run| - 1].clients[c.user].log, c)
  {
    run, labels := LifeProjects(c);
    forall room
      ensures (room, c.user) in srv[i].members ==> (room, c.user) in run[|run| - 1].members
      ensures room != GENERAL && (room, c.user) in run[|run| - 1].members ==> (room, c.user) in srv[i].members
    {
      ServerFollows(c, srv, steps, i, room);
    }
    run, labels := ReapToAgree(run, labels, srv[i], c.user);
  }

  /** What the parts come to: while a client's loop is still running, with everything it sent begun by the
      server and every command obeyed by its receiver, a message to any room of at most 121 characters
      that the server counts it a member of reaches it, if the rooms it has left have names no longer
      than that. */
  lemma RunningMemberHears(c: Client, srv: seq<V.Server>, steps: seq<V.Label>, i: nat, room: string)
    requires GoodClient(c) && HonestLife(c) && W.LoginName(c.user) && EndOf(c).1.StillRunning?
    requires V.IsRun(srv, steps) && i < |srv| && srv[i].handler.Ready? && AllBegun(c, srv[i].begun)
    requires |room| <= 121 && forall r | LeaveRoomReq(r, c.user) in Payloads(Sent(c)) :: |r| <= 121
    requires (room, c.user) in srv[i].members
    ensures W.Receives(FiltersOf(c), RoomTopic(room))
  {
    var run, labels := LifeAndServerProject(c, srv, steps, i);
    var log := run[|run| - 1].clients[c.user].log;
    forall op | op in W.Heard(log) && op.LeaveOp? ensures |op.room| <= 121 {
      assert LeaveRoomReq(op.room, c.user) in Payloads(Sent(c));
    }
    W.ShortNamesApart(W.Heard(log), room);
    assert !W.JoinUnheard(log, room);
    W.MembersReceive(run, labels, |run| - 1, c.user, room);
  }
}
