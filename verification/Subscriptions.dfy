/** Who receives what: the subscription filters of each client's receiver, which mirror the joins and
    leaves the server has acknowledged, against the membership the server keeps. */
module Subscriptions {
  import opened Basics
  import opened Rooms
  import opened Envelopes
  import opened Commands
  import opened ClientController

  // ------------------------------------------------------------------ the receiver

  /** A filter set counts duplicates (RFC 29/PUBSUB, section "The SUB Socket Type"); cancelling a
      filter that is not there does nothing. */
  type Filters = multiset<string>

  function InitialFilters(user: string): Filters {
    multiset{First(127, UserTopic(user)), RoomTopic(GENERAL)}
  }

  /** "+topic" subscribes, "-topic" cancels, anything else is ignored. */
  function Filtered(f: Filters, cmd: string): Filters {
    if cmd == "" then f
    else if cmd[0] == '+' then f + multiset{cmd[1..]}
    else if cmd[0] == '-' then f - multiset{cmd[1..]}
    else f
  }

  class Receiver {
    var filters: Filters

    constructor (username: string)
      ensures filters == InitialFilters(username)
    {
      filters := multiset{First(127, UserTopic(username))};
      filters := filters + multiset{RoomTopic(GENERAL)};
    }

    method HandleCommand(cmd: string)
      modifies this
      ensures filters == Filtered(old(filters), cmd)
    {
      if |cmd| > 0 {
        var topic := cmd[1..];
        if cmd[0] == '+' {
          filters := filters[topic := filters[topic] + 1];
        } else if cmd[0] == '-' {
          if topic in filters {
            filters := filters[topic := filters[topic] - 1];
          }
        }
      }
    }
  }

  /** A topic is delivered, once, if some filter is a prefix of it. */
  ghost predicate Receives(f: Filters, topic: string) {
    exists x :: x in f && x <= topic
  }

  // ------------------------------------------------------------------ clients and server

  datatype Op = Login | Logout | JoinOp(room: string) | LeaveOp(room: string)

  /** What the server does with it. */
  function OpCall(op: Op, user: string): RoomCall {
    match op
    case Login => Join(GENERAL, user)
    case Logout => Leave(GENERAL, user)
    case JoinOp(r) => Join(r, user)
    case LeaveOp(r) => Leave(r, user)
  }

  /** What the controller tells the receiver once it is acknowledged. */
  function OpCommands(op: Op): seq<string> {
    match op
    case JoinOp(r) => [FilterCommand("+", r)]
    case LeaveOp(r) => [FilterCommand("-", r)]
    case _ => []
  }

  /** An acknowledged join or leave makes the controller send just that command. */
  lemma AcknowledgedCommand(room: string, user: string, reply: Envelope)
    ensures IsReply(JoinRoomReq(room, user), reply.payload) ==>
              ReactTo(JoinRoom(room), true, Some(reply)).toReceiver == OpCommands(JoinOp(room))
    ensures IsReply(LeaveRoomReq(room, user), reply.payload) ==>
              ReactTo(LeaveRoom(room), true, Some(reply)).toReceiver == OpCommands(LeaveOp(room))
    ensures ReactTo(JoinRoom(room), true, None).toReceiver == ReactTo(LeaveRoom(room), true, None).toReceiver == []
  {
  }

  /** A request that is over: the client has heard its reply, or never will. */
  datatype Entry = Entry(op: Op, heard: bool)

  /** A client whose loop is left may still log out; then it is gone. */
  datatype Phase = Running | Leaving | Gone

  /** `pending`: the request under way, `handled` by the server or not yet; `lost`: its reply will not be
      received; `log`: the requests that are over, in the order in which the server handled them. */
  datatype Client = Client(
    phase: Phase,
    pending: Option<Op>,
    handled: bool,
    lost: bool,
    cmds: seq<string>,
    filters: Filters,
    log: seq<Entry>)

  datatype World = World(members: Membership, clients: map<string, Client>)

  const NOBODY := World({}, map[])

  datatype Label =
    | Connect(user: string)
    | Ask(user: string, op: Op)
    | Handle(user: string)
    | Acknowledge(user: string)
    | Misread(user: string)
    | Lose(user: string)
    | Drain(user: string)
    | Reap(user: string)

  /** What `%63s` reads. */
  predicate LoginName(user: string) {
    0 < |user| <= 63 && forall c | c in user :: c !in " \t\n\r\U{0B}\U{0C}\0"
  }

  /** A line of 511 characters leaves this much for the name of a room to join or to leave. */
  predicate Typed(op: Op) {
    match op
    case JoinOp(r) => |r| <= 505 && NUL !in r
    case LeaveOp(r) => |r| <= 504 && NUL !in r
    case _ => true
  }

  predicate Answerable(w: World, user: string) {
    user in w.clients && w.clients[user].pending.Some? && w.clients[user].handled
  }

  /** Each name is used by one client. A running client asks what it likes, one whose loop is left only to
      log out. A reply can be received as long as it is not lost. */
  predicate Enabled(w: World, l: Label) {
    match l
    case Connect(u) => u !in w.clients && LoginName(u)
    case Ask(u, op) =>
      && u in w.clients && w.clients[u].pending == None && op != Login && Typed(op)
      && (w.clients[u].phase.Running? || (w.clients[u].phase.Leaving? && op == Logout))
    case Handle(u) => u in w.clients && w.clients[u].pending.Some? && !w.clients[u].handled
    case Acknowledge(u) => Answerable(w, u)
    case Misread(u) => Answerable(w, u)
    case Lose(u) => u in w.clients && w.clients[u].pending.Some? && !w.clients[u].lost
    case Drain(u) => u in w.clients && w.clients[u].cmds != []
    case Reap(_) => true
  }

  function Over(c: Client, heard: bool): Client
    requires c.pending.Some?
  {
    c.(pending := None, handled := false, log := c.log + [Entry(c.pending.value, heard)])
  }

  /** A reply that does not unpack to a join or leave makes the client leave its loop and log out; to a
      login or logout it is the end. A reply that cannot be received is the end in any case, whether the
      server has handled the request already or will still do so. */
  function ClientStep(c: Client, l: Label): Client
    requires l.Handle? || l.Acknowledge? || l.Misread? ==> c.pending.Some?
    requires l.Drain? ==> c.cmds != []
  {
    match l
    case Ask(_, op) => c.(pending := Some(op), handled := false, phase := if op == Logout then Gone else c.phase)
    case Handle(_) => if c.lost then Over(c, false) else c.(handled := true)
    case Acknowledge(_) => Over(c, true).(cmds := c.cmds + OpCommands(c.pending.value))
    case Misread(_) =>
      Over(c, false).(phase := if c.pending.value.JoinOp? || c.pending.value.LeaveOp? then Leaving else Gone)
    case Lose(_) => (if c.pending.Some? && c.handled then Over(c, false) else c.(lost := true)).(phase := Gone)
    case Drain(_) => c.(filters := Filtered(c.filters, c.cmds[0]), cmds := c.cmds[1..])
    case _ => c
  }

  function Step(w: World, l: Label): World
    requires Enabled(w, l)
  {
    match l
    case Connect(u) =>
      w.(clients := w.clients[u := Client(Running, Some(Login), false, false, [], InitialFilters(u), [])])
    case Reap(u) => w.(members := Left(w.members, GENERAL, u))
    case Handle(u) =>
      World(AfterCall(w.members, OpCall(w.clients[u].pending.value, u)), w.clients[u := ClientStep(w.clients[u], l)])
    case _ => w.(clients := w.clients[l.user := ClientStep(w.clients[l.user], l)])
  }

  ghost predicate IsRun(run: seq<World>, labels: seq<Label>) {
    && |run| == |labels| + 1 && run[0] == NOBODY
    && forall i | 0 <= i < |labels| :: Enabled(run[i], labels[i]) && run[i + 1] == Step(run[i], labels[i])
  }

  /** Nothing under way between the client's threads, or between client and server. */
  predicate Quiescent(c: Client) {
    c.pending == None && c.cmds == []
  }

  // ------------------------------------------------------------------ folds over acknowledged requests

  function DrainAll(f: Filters, cmds: seq<string>): Filters {
    if cmds == [] then f else Filtered(DrainAll(f, cmds[..|cmds| - 1]), cmds[|cmds| - 1])
  }

  /** The filters after the acknowledged requests. */
  function FoldFilters(user: string, ops: seq<Op>): Filters {
    if ops == [] then InitialFilters(user)
    else DrainAll(FoldFilters(user, ops[..|ops| - 1]), OpCommands(ops[|ops| - 1]))
  }

  /** Room names are cut to the 121 characters that the command buffer leaves for them. */
  function Cut121(room: string): string {
    First(121, room)
  }

  /** One for the welcome room at the start, one more for each join, one less for each leave, never
      below zero; names count by what is left of them after the cut. */
  function Count(ops: seq<Op>, name: string): nat {
    if ops == [] then (if name == GENERAL then 1 else 0)
    else
      var before := Count(ops[..|ops| - 1], name);
      match ops[|ops| - 1]
      case JoinOp(r) => if Cut121(r) == name then before + 1 else before
      case LeaveOp(r) => if Cut121(r) == name && before > 0 then before - 1 else before
      case _ => before
  }

  /** What one request makes of being in `room`. */
  function InsideNext(before: bool, op: Op, room: string): bool {
    match op
    case Login => before || room == GENERAL
    case Logout => before && room != GENERAL
    case JoinOp(r) => before || r == room
    case LeaveOp(r) => before && r != room
  }

  /** What the requests say about membership of `room`. */
  function Inside(ops: seq<Op>, room: string): bool {
    ops != [] && InsideNext(Inside(ops[..|ops| - 1], room), ops[|ops| - 1], room)
  }

  function Ops(log: seq<Entry>): seq<Op> {
    seq(|log|, i requires 0 <= i < |log| => log[i].op)
  }

  /** The acknowledged requests. */
  function Heard(log: seq<Entry>): seq<Op> {
    if log == [] then []
    else
      var e := log[|log| - 1];
      Heard(log[..|log| - 1]) + if e.heard then [e.op] else []
  }

  /** The requests the server has handled. */
  function HandledOps(c: Client): seq<Op> {
    if c.pending.Some? && c.handled then Ops(c.log) + [c.pending.value] else Ops(c.log)
  }

  lemma LogAppend(log: seq<Entry>, e: Entry)
    ensures Ops(log + [e]) == Ops(log) + [e.op]
    ensures Heard(log + [e]) == Heard(log) + if e.heard then [e.op] else []
  {
    assert (log + [e])[..|log|] == log;
  }

  lemma FoldAppend(ops: seq<Op>, op: Op, user: string, room: string)
    ensures FoldFilters(user, ops + [op]) == DrainAll(FoldFilters(user, ops), OpCommands(op))
    ensures Inside(ops + [op], room) == InsideNext(Inside(ops, room), op, room)
  {
    assert (ops + [op])[..|ops|] == ops;
  }

  /** The server's call does to membership what the request says. */
  lemma CallInside(m: Membership, op: Op, user: string, room: string)
    requires user != ""
    ensures ((room, user) in AfterCall(m, OpCall(op, user))) == InsideNext((room, user) in m, op, room)
  {
  }

  lemma {:induction false} DrainAppend(f: Filters, cmds: seq<string>, more: seq<string>)
    ensures DrainAll(f, cmds + more) == DrainAll(DrainAll(f, cmds), more)
  {
    if more == [] {
      assert cmds + more == cmds;
    } else {
      var rest := more[..|more| - 1];
      assert (cmds + more)[..|cmds + more| - 1] == cmds + rest;
      DrainAppend(f, cmds, rest);
    }
  }

  lemma {:induction false} DrainFirst(f: Filters, cmds: seq<string>)
    requires cmds != []
    ensures DrainAll(Filtered(f, cmds[0]), cmds[1..]) == DrainAll(f, cmds)
  {
    assert cmds[..1][..0] == [];
    assert DrainAll(f, cmds[..1]) == Filtered(f, cmds[0]);
    DrainAppend(f, cmds[..1], cmds[1..]);
    assert cmds[..1] + cmds[1..] == cmds;
  }

  // ------------------------------------------------------------------ invariants of every run

  /** Once the pending commands are drained, the filters are what the acknowledged requests make them. */
  predicate MirrorInv(c: Client, user: string) {
    DrainAll(c.filters, c.cmds) == FoldFilters(user, Heard(c.log))
  }

  /** Membership is what the handled requests say, but for members the reaper took out of the welcome room. */
  predicate InsideInv(w: World, user: string, room: string) {
    && ((room, user) in w.members ==> Inside(Past(w, user), room))
    && (room != GENERAL && Inside(Past(w, user), room) ==> (room, user) in w.members)
  }

  /** Login is the first request and no other. */
  predicate LoginInv(c: Client) {
    && (c.log == [] <==> c.pending == Some(Login))
    && (c.log != [] ==> c.log[0].op == Login)
    && (forall i | 0 < i < |c.log| :: c.log[i].op != Login)
  }

  ghost predicate Inv(w: World) {
    && (forall u | u in w.clients :: 0 < |u| <= 63 && MirrorInv(w.clients[u], u) && LoginInv(w.clients[u]))
    && forall u, room :: InsideInv(w, u, room)
  }

  /** Nothing under way towards the filters is lost when a request is over or a command obeyed. */
  lemma ClientMirrors(c: Client, l: Label, user: string)
    requires MirrorInv(c, user)
    requires l.Handle? || l.Acknowledge? || l.Misread? ==> c.pending.Some?
    requires l.Drain? ==> c.cmds != []
    ensures MirrorInv(ClientStep(c, l), user)
  {
    if c.pending.Some? {
      var op := c.pending.value;
      LogAppend(c.log, Entry(op, false));
      LogAppend(c.log, Entry(op, true));
      assert Heard(c.log) + [] == Heard(c.log);
      FoldAppend(Heard(c.log), op, user, GENERAL);
      DrainAppend(c.filters, c.cmds, OpCommands(op));
    }
    if l.Drain? {
      DrainFirst(c.filters, c.cmds);
    }
  }

  lemma ClientLogsIn(c: Client, l: Label)
    requires LoginInv(c) && (l.Ask? ==> c.pending == None && l.op != Login)
    requires l.Handle? || l.Acknowledge? || l.Misread? ==> c.pending.Some?
    requires l.Drain? ==> c.cmds != []
    ensures LoginInv(ClientStep(c, l))
  {
  }

  lemma MirrorStep(w: World, l: Label, user: string)
    requires Inv(w) && Enabled(w, l) && user in Step(w, l).clients
    ensures MirrorInv(Step(w, l).clients[user], user) && LoginInv(Step(w, l).clients[user]) && 0 < |user| <= 63
  {
    if user in w.clients && l.user == user && !l.Reap? {
      ClientMirrors(w.clients[user], l, user);
      ClientLogsIn(w.clients[user], l);
    }
  }

  /** The requests of `user` the server has handled, if there is such a client. */
  function Past(w: World, user: string): seq<Op> {
    if user in w.clients then HandledOps(w.clients[user]) else []
  }

  /** Only handling a request of the user adds to what has been handled for it. */
  lemma PastStep(w: World, l: Label, user: string)
    requires Enabled(w, l)
    ensures Past(Step(w, l), user) ==
            if l == Handle(user) then Past(w, user) + [w.clients[user].pending.value] else Past(w, user)
    ensures user in w.clients ==> user in Step(w, l).clients
  {
  }

  /** Apart from that, only the reaper changes the user's memberships, and only that of the welcome room. */
  lemma MembersStep(w: World, l: Label, user: string, room: string)
    requires Enabled(w, l) && "" !in w.clients && user != ""
    ensures var before, after := (room, user) in w.members, (room, user) in Step(w, l).members;
            if l == Handle(user) then after == InsideNext(before, w.clients[user].pending.value, room)
            else (after ==> before) && (room != GENERAL && before ==> after)
  {
    if l == Handle(user) {
      CallInside(w.members, w.clients[user].pending.value, user, room);
    }
  }

  lemma InsideStep(w: World, l: Label, user: string, room: string)
    requires InsideInv(w, user, room) && Enabled(w, l) && "" !in w.clients
    ensures InsideInv(Step(w, l), user, room)
  {
    PastStep(w, l, user);
    if user != "" {
      MembersStep(w, l, user, room);
      if l == Handle(user) {
        FoldAppend(Past(w, user), w.clients[user].pending.value, user, room);
      }
    } else {
      EmptyNameStays(w, l, room);
    }
  }

  lemma EmptyNameStays(w: World, l: Label, room: string)
    requires (room, "") !in w.members && Enabled(w, l) && "" !in w.clients
    ensures (room, "") !in Step(w, l).members && "" !in Step(w, l).clients
  {
  }

  lemma {:induction false} RunKeepsInv(run: seq<World>, labels: seq<Label>, i: nat)
    requires IsRun(run, labels) && i < |run|
    ensures Inv(run[i])
  {
    if i > 0 {
      RunKeepsInv(run, labels, i - 1);
      forall u | u in run[i].clients
        ensures MirrorInv(run[i].clients[u], u) && LoginInv(run[i].clients[u]) && 0 < |u| <= 63
      {
        MirrorStep(run[i - 1], labels[i - 1], u);
      }
      forall u, room ensures InsideInv(run[i], u, room) {
        assert InsideInv(run[i - 1], u, room);
        InsideStep(run[i - 1], labels[i - 1], u, room);
      }
    }
  }

  // ------------------------------------------------------------------ the filters are the fold

  lemma TopicsAreNames(a: string, b: string)
    ensures RoomTopic(a) == RoomTopic(b) <==> a == b
    ensures RoomTopic(a) <= RoomTopic(b) <==> a <= b
    ensures UserTopic(a) == UserTopic(b) <==> a == b
    ensures UserTopic(a) <= UserTopic(b) <==> a <= b
  {
    PrefixUnderCommonHead(ROOM_TOPIC, a, b);
    PrefixUnderCommonHead(USER_TOPIC, a, b);
  }

  /** No filter of one kind is a prefix of a topic of the other kind. */
  lemma KindsApart(user: string, room: string)
    ensures !(UserTopic(user) <= RoomTopic(room)) && !(RoomTopic(room) <= UserTopic(user))
  {
    assert UserTopic(user)[0] == 'u' && RoomTopic(room)[0] == 'r';
  }

  lemma CommandTopic(sign: string, room: string)
    requires |sign| == 1
    ensures var cmd := FilterCommand(sign, room);
            cmd != "" && cmd[0] == sign[0] && cmd[1..] == RoomTopic(Cut121(room))
  {
    assert |sign + RoomTopic(room)| == 6 + |room|;
  }

  lemma OpFilters(f: Filters, op: Op)
    ensures DrainAll(f, OpCommands(op)) == OpFiltered(f, op)
  {
    var cmds := OpCommands(op);
    if cmds != [] {
      CommandTopic("+", op.room);
      CommandTopic("-", op.room);
      assert cmds[..0] == [];
      assert DrainAll(f, cmds) == Filtered(f, cmds[0]);
    }
  }

  function OpFiltered(f: Filters, op: Op): Filters {
    match op
    case JoinOp(r) => f + multiset{RoomTopic(Cut121(r))}
    case LeaveOp(r) => f - multiset{RoomTopic(Cut121(r))}
    case _ => f
  }

  lemma CountNext(ops: seq<Op>, op: Op, name: string)
    ensures Count(ops + [op], name) ==
            match op
            case JoinOp(r) => if Cut121(r) == name then Count(ops, name) + 1 else Count(ops, name)
            case LeaveOp(r) => if Cut121(r) == name && Count(ops, name) > 0 then Count(ops, name) - 1 else Count(ops, name)
            case _ => Count(ops, name)
  {
    assert (ops + [op])[..|ops|] == ops;
  }

  /** One request changes the count of each room's filter as the fold does. */
  lemma RoomFilterNext(f: Filters, ops: seq<Op>, op: Op, name: string)
    requires f[RoomTopic(name)] == Count(ops, name)
    ensures OpFiltered(f, op)[RoomTopic(name)] == Count(ops + [op], name)
  {
    CountNext(ops, op, name);
    if op.JoinOp? || op.LeaveOp? {
      TopicsAreNames(name, Cut121(op.room));
    }
  }

  lemma {:induction false} RoomFilterIsCount(user: string, ops: seq<Op>, name: string)
    requires |user| <= 63
    ensures FoldFilters(user, ops)[RoomTopic(name)] == Count(ops, name)
  {
    if ops == [] {
      assert First(127, UserTopic(user)) == UserTopic(user);
      KindsApart(user, name);
      TopicsAreNames(name, GENERAL);
    } else {
      var rest, op := ops[..|ops| - 1], ops[|ops| - 1];
      RoomFilterIsCount(user, rest, name);
      OpFilters(FoldFilters(user, rest), op);
      RoomFilterNext(FoldFilters(user, rest), rest, op, name);
      assert rest + [op] == ops;
    }
  }

  /** The filter for the user itself is always there once, and all other filters are for rooms. */
  lemma {:induction false} OtherFilters(user: string, ops: seq<Op>, x: string)
    requires |user| <= 63
    ensures x == UserTopic(user) ==> FoldFilters(user, ops)[x] == 1
    ensures x in FoldFilters(user, ops) ==> x == UserTopic(user) || exists k :: x == RoomTopic(k)
  {
    if ops == [] {
      assert First(127, UserTopic(user)) == UserTopic(user);
      KindsApart(user, GENERAL);
    } else {
      var rest, op := ops[..|ops| - 1], ops[|ops| - 1];
      OtherFilters(user, rest, x);
      OpFilters(FoldFilters(user, rest), op);
      if op.JoinOp? || op.LeaveOp? {
        KindsApart(user, Cut121(op.room));
      }
    }
  }

  // ------------------------------------------------------------------ what quiescence gives

  /** At every quiescent state the filter count of a room is the fold over the acknowledged joins and
      leaves, whatever the reaper and the other clients did. */
  lemma FilterCountAtRest(run: seq<World>, labels: seq<Label>, i: nat, user: string, name: string)
    requires IsRun(run, labels) && i < |run| && user in run[i].clients
    requires Quiescent(run[i].clients[user])
    ensures run[i].clients[user].filters[RoomTopic(name)] == Count(Heard(run[i].clients[user].log), name)
  {
    RunKeepsInv(run, labels, i);
    RoomFilterIsCount(user, Heard(run[i].clients[user].log), name);
  }

  /** The room names that requests and `room` use stay apart when cut. */
  ghost predicate ApartFrom(ops: seq<Op>, room: string) {
    forall op | op in ops && op.LeaveOp? :: Cut121(op.room) == Cut121(room) ==> op.room == room
  }

  /** Names of at most 121 characters always do. */
  lemma ShortNamesApart(ops: seq<Op>, room: string)
    requires |room| <= 121 && forall op | op in ops && op.LeaveOp? :: |op.room| <= 121
    ensures ApartFrom(ops, room) && Cut121(room) == room
  {
    assert room[..|room|] == room;
    forall op | op in ops && op.LeaveOp? ensures Cut121(op.room) == op.room {
      assert op.room[..|op.room|] == op.room;
    }
  }

  lemma CutIsGeneral(room: string)
    ensures Cut121(room) == GENERAL <==> room == GENERAL
  {
  }

  /** Without a leave of the welcome room its first filter stays. */
  lemma {:induction false} NeverLeftIsCounted(ops: seq<Op>)
    requires LeaveOp(GENERAL) !in ops
    ensures Count(ops, GENERAL) >= 1
  {
    if ops != [] {
      var op := ops[|ops| - 1];
      assert op in ops;
      NeverLeftIsCounted(ops[..|ops| - 1]);
      if op.LeaveOp? {
        CutIsGeneral(op.room);
      }
    }
  }

  /** Some join of `room` was handled without the client hearing of it. */
  predicate JoinUnheard(log: seq<Entry>, room: string) {
    Entry(JoinOp(room), false) in log
  }

  /** No leave of another room has a name that is cut to the same characters, and no join of the room went
      unheard; an unheard join of the welcome room does no harm while that was never left. */
  ghost predicate Safe(log: seq<Entry>, room: string) {
    && ApartFrom(Heard(log), room)
    && (JoinUnheard(log, room) ==> room == GENERAL && LeaveOp(GENERAL) !in Heard(log))
  }

  /** One more request keeps the filter of a room the user is in. */
  lemma CountedNext(ops: seq<Op>, e: Entry, room: string)
    requires e.op != JoinOp(room) || e.heard
    requires e.op.LeaveOp? ==> e.op.room != room && (e.heard ==> Cut121(e.op.room) != Cut121(room))
    requires e.op == JoinOp(room) || Count(ops, Cut121(room)) >= 1
    ensures Count(ops + if e.heard then [e.op] else [], Cut121(room)) >= 1
  {
    CountNext(ops, e.op, Cut121(room));
    assert ops + [] == ops;
  }

  /** A log in terms of its last entry. */
  lemma LogLast(log: seq<Entry>, room: string)
    requires log != []
    ensures var (rest, e) := (log[..|log| - 1], log[|log| - 1]);
            && Heard(log) == Heard(rest) + (if e.heard then [e.op] else [])
            && Inside(Ops(log), room) == InsideNext(Inside(Ops(rest), room), e.op, room)
  {
    var rest, e := log[..|log| - 1], log[|log| - 1];
    assert Ops(log)[..|log| - 1] == Ops(rest);
  }

  lemma LastKeepsApart(log: seq<Entry>, room: string)
    requires log != [] && ApartFrom(Heard(log), room) && !JoinUnheard(log, room)
    ensures var (rest, e) := (log[..|log| - 1], log[|log| - 1]);
            && ApartFrom(Heard(rest), room) && !JoinUnheard(rest, room)
            && (e.op == JoinOp(room) ==> e.heard)
            && (e.op.LeaveOp? && e.heard && e.op.room != room ==> Cut121(e.op.room) != Cut121(room))
  {
    var rest, e := log[..|log| - 1], log[|log| - 1];
    assert forall op | op in Heard(rest) :: op in Heard(log);
    assert e in log && (e.heard ==> e.op in Heard(log));
  }

  lemma {:induction false} InsideIsCounted(log: seq<Entry>, room: string)
    requires Inside(Ops(log), room) && ApartFrom(Heard(log), room) && !JoinUnheard(log, room)
    requires log[0].op == Login && forall i | 0 < i < |log| :: log[i].op != Login
    ensures Count(Heard(log), Cut121(room)) >= 1
  {
    var rest, e := log[..|log| - 1], log[|log| - 1];
    LogLast(log, room);
    LastKeepsApart(log, room);
    if rest == [] {
      CutIsGeneral(room);
      CountNext([], Login, GENERAL);
    } else {
      if Inside(Ops(rest), room) {
        InsideIsCounted(rest, room);
      }
      CountedNext(Heard(rest), e, room);
    }
  }

  /** At every quiescent state membership of a room implies a filter for it, provided no leave of
      another room has a name with the same first 121 characters, and no join of it went unheard. */
  lemma MemberHasFilter(run: seq<World>, labels: seq<Label>, i: nat, user: string, room: string)
    requires IsRun(run, labels) && i < |run| && (room, user) in run[i].members
    requires user in run[i].clients && Quiescent(run[i].clients[user])
    requires Safe(run[i].clients[user].log, room)
    ensures run[i].clients[user].filters[RoomTopic(Cut121(room))] >= 1
  {
    RunKeepsInv(run, labels, i);
    var c := run[i].clients[user];
    assert InsideInv(run[i], user, room) && LoginInv(c);
    if JoinUnheard(c.log, room) {
      NeverLeftIsCounted(Heard(c.log));
      CutIsGeneral(room);
    } else {
      InsideIsCounted(c.log, room);
    }
    FilterCountAtRest(run, labels, i, user, Cut121(room));
  }

  /** Delivery is complete: at rest, a message to a room reaches the receiver of every member. */
  lemma MembersReceive(run: seq<World>, labels: seq<Label>, i: nat, user: string, room: string)
    requires IsRun(run, labels) && i < |run| && (room, user) in run[i].members
    requires user in run[i].clients && Quiescent(run[i].clients[user])
    requires Safe(run[i].clients[user].log, room)
    ensures Receives(run[i].clients[user].filters, RoomTopic(room))
  {
    MemberHasFilter(run, labels, i, user, room);
    TopicsAreNames(Cut121(room), room);
    assert Cut121(room) <= room;
    assert RoomTopic(Cut121(room)) in run[i].clients[user].filters;
  }

  /** The joins and leaves a client has heard of leave a filter for some prefix of the name of `room`. */
  ghost predicate ListensTo(c: Client, room: string) {
    exists name | name <= room :: Count(Heard(c.log), name) >= 1
  }

  /** And its excess is exactly this: at rest, a message to a room reaches a receiver exactly when the
      joins and leaves of some prefix of the room's name leave a filter for that prefix. */
  lemma RoomReceivers(run: seq<World>, labels: seq<Label>, i: nat, user: string, room: string)
    requires IsRun(run, labels) && i < |run|
    requires user in run[i].clients && Quiescent(run[i].clients[user])
    ensures Receives(run[i].clients[user].filters, RoomTopic(room)) <==> ListensTo(run[i].clients[user], room)
  {
    RunKeepsInv(run, labels, i);
    var c := run[i].clients[user];
    if Receives(c.filters, RoomTopic(room)) {
      var x :| x in c.filters && x <= RoomTopic(room);
      OtherFilters(user, Heard(c.log), x);
      KindsApart(user, room);
      var name :| x == RoomTopic(name);
      FilterCountAtRest(run, labels, i, user, name);
      TopicsAreNames(name, room);
      assert name <= room && Count(Heard(c.log), name) >= 1;
    }
    if name :| name <= room && Count(Heard(c.log), name) >= 1 {
      FilterCountAtRest(run, labels, i, user, name);
      TopicsAreNames(name, room);
      assert RoomTopic(name) in c.filters;
    }
  }

  /** A direct message to `to` reaches the client of `user` exactly when `user` is a prefix of `to`. */
  lemma DirectReceivers(run: seq<World>, labels: seq<Label>, i: nat, user: string, to: string)
    requires IsRun(run, labels) && i < |run|
    requires user in run[i].clients && Quiescent(run[i].clients[user])
    ensures Receives(run[i].clients[user].filters, UserTopic(to)) <==> user <= to
  {
    RunKeepsInv(run, labels, i);
    var c := run[i].clients[user];
    TopicsAreNames(user, to);
    OtherFilters(user, Heard(c.log), UserTopic(user));
    if Receives(c.filters, UserTopic(to)) {
      var x :| x in c.filters && x <= UserTopic(to);
      OtherFilters(user, Heard(c.log), x);
      if k :| x == RoomTopic(k) {
        KindsApart(to, k);
      }
    }
    if user <= to {
      assert UserTopic(user) in c.filters && UserTopic(user) <= UserTopic(to);
    }
  }

  // ------------------------------------------------------------------ when a filter is lost

  lemma Extend(run: seq<World>, labels: seq<Label>, l: Label) returns (run': seq<World>, labels': seq<Label>)
    requires IsRun(run, labels) && Enabled(run[|run| - 1], l)
    ensures IsRun(run', labels') && run'[|run'| - 1] == Step(run[|run| - 1], l)
  {
    run', labels' := run + [Step(run[|run| - 1], l)], labels + [l];
  }

  /** A client that runs, with nothing under way and just these requests behind it, all heard. */
  ghost predicate Settled(w: World, user: string, ops: seq<Op>) {
    && user in w.clients && Quiescent(w.clients[user]) && w.clients[user].phase.Running? && !w.clients[user].lost
    && Ops(w.clients[user].log) == Heard(w.clients[user].log) == ops
    && forall e | e in w.clients[user].log :: e.heard
  }

  lemma LogIn(user: string) returns (run: seq<World>, labels: seq<Label>)
    requires LoginName(user)
    ensures IsRun(run, labels) && Settled(run[|run| - 1], user, [Login])
    ensures run[|run| - 1].members == {(GENERAL, user)}
    ensures run[|run| - 1].clients[user].filters == InitialFilters(user)
  {
    run, labels := Extend([NOBODY], [], Connect(user));
    run, labels := Extend(run, labels, Handle(user));
    run, labels := Extend(run, labels, Acknowledge(user));
    LogAppend([], Entry(Login, true));
    assert [] + [Entry(Login, true)] == [Entry(Login, true)];
  }

  /** The client of `user` asks `op`, is answered, and its receiver obeys. */
  lemma Perform(run: seq<World>, labels: seq<Label>, user: string, ops: seq<Op>, op: Op)
    returns (run': seq<World>, labels': seq<Label>)
    requires IsRun(run, labels) && (op.JoinOp? || op.LeaveOp?) && Typed(op)
    requires Settled(run[|run| - 1], user, ops)
    ensures IsRun(run', labels') && Settled(run'[|run'| - 1], user, ops + [op])
    ensures run'[|run'| - 1].members == AfterCall(run[|run| - 1].members, OpCall(op, user))
  {
    LogAppend(run[|run| - 1].clients[user].log, Entry(op, true));
    run', labels' := Extend(run, labels, Ask(user, op));
    run', labels' := Extend(run', labels', Handle(user));
    run', labels' := Extend(run', labels', Acknowledge(user));
    run', labels' := Extend(run', labels', Drain(user));
  }

  lemma CountAfterJoinAndLeave(a: string, b: string)
    requires a != b && Cut121(a) == Cut121(b)
    ensures Count([Login, JoinOp(a), LeaveOp(b)], Cut121(a)) == 0
  {
    var name := Cut121(a);
    assert name != GENERAL;
    CountNext([], Login, name);
    CountNext([Login], JoinOp(a), name);
    CountNext([Login] + [JoinOp(a)], LeaveOp(b), name);
    assert [] + [Login] == [Login] && [Login] + [JoinOp(a)] + [LeaveOp(b)] == [Login, JoinOp(a), LeaveOp(b)];
  }

  /** A run that ends at rest with the user in `room` but without a filter for it, after leaving no
      rooms but those named in `left`, and with no joins unheard but of those named in `unheard`. */
  ghost predicate LosesFilter(run: seq<World>, labels: seq<Label>, user: string, room: string,
                              left: set<string>, unheard: set<string>) {
    && IsRun(run, labels)
    && var w := run[|run| - 1];
       && user in w.clients && Quiescent(w.clients[user]) && (room, user) in w.members
       && (forall op | op in Heard(w.clients[user].log) && op.LeaveOp? :: op.room in left)
       && (forall r | JoinUnheard(w.clients[user].log, r) :: r in unheard)
       && w.clients[user].filters[RoomTopic(Cut121(room))] == 0
  }

  /** Leaving a room whose name is cut to the same 121 characters as that of a joined one takes away the
      filter while the membership stays. */
  lemma LongNamesLoseTheFilter(user: string, a: string, b: string) returns (run: seq<World>, labels: seq<Label>)
    requires LoginName(user) && a != b && Cut121(a) == Cut121(b) && Typed(JoinOp(a)) && Typed(LeaveOp(b))
    ensures LosesFilter(run, labels, user, a, {b}, {})
  {
    run, labels := LogIn(user);
    run, labels := Perform(run, labels, user, [Login], JoinOp(a));
    run, labels := Perform(run, labels, user, [Login] + [JoinOp(a)], LeaveOp(b));
    var ops := [Login, JoinOp(a), LeaveOp(b)];
    assert [Login] + [JoinOp(a)] + [LeaveOp(b)] == ops;
    CountAfterJoinAndLeave(a, b);
    FilterCountAtRest(run, labels, |run| - 1, user, Cut121(a));
  }

  /** A join that the server has handled, with a reply that does not unpack, makes a member without a
      filter: the client is never told to subscribe, and its logout leaves only the welcome room. The
      welcome room itself must have been left before, and the logout must not get out. */
  lemma UnheardJoinHasNoFilter(user: string, room: string) returns (run: seq<World>, labels: seq<Label>)
    requires LoginName(user) && Typed(JoinOp(room))
    ensures LosesFilter(run, labels, user, room, if room == GENERAL then {GENERAL} else {}, {room})
  {
    run, labels := LogIn(user);
    if room == GENERAL {
      run, labels := Perform(run, labels, user, [Login], LeaveOp(GENERAL));
      run, labels := JoinMisread(run, labels, user, [Login] + [LeaveOp(GENERAL)], room);
    } else {
      run, labels := JoinMisread(run, labels, user, [Login], room);
    }
    CountWithoutJoin(room);
    FilterCountAtRest(run, labels, |run| - 1, user, Cut121(room));
  }

  lemma CountWithoutJoin(room: string)
    ensures Count(if room == GENERAL then [Login] + [LeaveOp(GENERAL)] else [Login], Cut121(room)) == 0
  {
    CutIsGeneral(room);
    CountNext([], Login, Cut121(room));
    assert [] + [Login] == [Login];
    CountNext([Login], LeaveOp(GENERAL), GENERAL);
  }

  /** The client of `user` asks to join, the server does so, and the reply does not unpack. */
  lemma JoinMisread(run: seq<World>, labels: seq<Label>, user: string, ops: seq<Op>, room: string)
    returns (run': seq<World>, labels': seq<Label>)
    requires IsRun(run, labels) && Typed(JoinOp(room)) && user != "" && Settled(run[|run| - 1], user, ops)
    ensures IsRun(run', labels')
    ensures var w := run'[|run'| - 1];
            && user in w.clients && Quiescent(w.clients[user]) && (room, user) in w.members
            && Heard(w.clients[user].log) == ops
            && forall r | JoinUnheard(w.clients[user].log, r) :: r == room
  {
    var log := run[|run| - 1].clients[user].log;
    LogAppend(log, Entry(JoinOp(room), false));
    assert ops + [] == ops;
    run', labels' := Extend(run, labels, Ask(user, JoinOp(room)));
    run', labels' := Extend(run', labels', Handle(user));
    run', labels' := Extend(run', labels', Misread(user));
    assert run'[|run'| - 1].clients[user].log == log + [Entry(JoinOp(room), false)];
  }

  /** Exactly when a filter can be lost: a member of a room can end up without a filter for it if and
      only if one of the rooms it leaves has another name that is cut to the same 121 characters, or a
      join of the room may go unheard (after a leave, in the case of the welcome room). */
  lemma FilterLostIff(user: string, room: string, left: set<string>, unheard: set<string>)
    requires LoginName(user) && Typed(JoinOp(room)) && forall r | r in left :: Typed(LeaveOp(r))
    ensures (exists run, labels :: LosesFilter(run, labels, user, room, left, unheard)) <==>
            || (exists other | other in left :: other != room && Cut121(other) == Cut121(room))
            || (room in unheard && (room == GENERAL ==> GENERAL in left))
  {
    if run: seq<World>, labels: seq<Label> :| LosesFilter(run, labels, user, room, left, unheard) {
      if Safe(run[|run| - 1].clients[user].log, room) {
        MemberHasFilter(run, labels, |run| - 1, user, room);
      }
    }
    if other :| other in left && other != room && Cut121(other) == Cut121(room) {
      var run, labels := LongNamesLoseTheFilter(user, room, other);
      assert LosesFilter(run, labels, user, room, left, unheard);
    }
    if room in unheard && (room == GENERAL ==> GENERAL in left) {
      var run, labels := UnheardJoinHasNoFilter(user, room);
      assert LosesFilter(run, labels, user, room, left, unheard);
    }
  }
}
