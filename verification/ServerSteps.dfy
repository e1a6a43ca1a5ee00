/** The server as two processes that interleave at the granularity of the manager locks: the request
    loop and the heartbeat reaper. Each call on a manager is one step; a request or a reap pass is a
    sequence of steps, between which the other process may run. */
module ServerSteps {
  import opened Basics
  import S = Sessions
  import opened Rooms
  import opened Envelopes

  /** Six seconds, in milliseconds. */
  const TIMEOUT := 6000

  /** One locked call on a manager. */
  datatype Action =
    | Touch(user: string)
    | Create(user: string)
    | Enter(room: string, user: string)
    | Exit(room: string, user: string)
    | Forget(user: string)

  /** The locked calls a request makes, in order. */
  function Program(p: Payload): seq<Action> {
    match p
    case LoginReq(u) => if u == "" then [Touch(u), Create(u)] else [Touch(u), Create(u), Enter(GENERAL, u)]
    case JoinRoomReq(r, u) => [Touch(u), Enter(r, u)]
    case LeaveRoomReq(r, u) => [Touch(u), Exit(r, u)]
    case LogoutReq(u) => if u == "" then [] else [Exit(GENERAL, u), Forget(u)]
    case ListRoomsReq(u) => [Touch(u)]
    case RoomMsg(_, u, _) => [Touch(u)]
    case DirectMsg(_, u, _) => [Touch(u)]
    case Heartbeat(u) => [Touch(u)]
    case _ => []
  }

  datatype Handler = Ready | Busy(req: Payload, done: nat)

  /** `pending` is what is left of the snapshot; `left` says that its first user has been taken out
      of the welcome room but not yet out of the sessions. */
  datatype Reaper = Idle | Sweeping(started: int, pending: seq<string>, left: bool)

  /** Besides the shared state, the history that the properties speak about:
      `overlapped`: users with a request in progress while pending in a reap pass;
      `touchedAt`: when each user last touched the server; `floor`: snapshot time of the last
      completed pass (initially the start time); `begun`: the requests begun so far. */
  datatype Server = Server(
    now: int,
    sessions: S.SessionState,
    members: Membership,
    handler: Handler,
    reaper: Reaper,
    overlapped: set<string>,
    touchedAt: map<string, int>,
    floor: int,
    begun: seq<Payload>)

  function Initial(now: int): Server {
    Server(now, S.NO_SESSIONS, {}, Ready, Idle, {}, map[], now, [])
  }

  /** A step of either process, with the choices that clock, network and map order make for it. */
  datatype Label =
    | Tick(now: int)
    | Begin(req: Payload)
    | Act(second: nat, deleted: Option<string>)
    | Finish
    | Snapshot(dead: seq<string>)
    | ReapLeave
    | ReapForget(deleted: Option<string>)
    | EndSweep

  function Perform(s: Server, a: Action, second: nat, deleted: Option<string>): Server {
    match a
    case Touch(u) => s.(sessions := S.Touched(s.sessions, u, s.now),
                        touchedAt := if u == "" then s.touchedAt else s.touchedAt[u := s.now])
    case Create(u) => s.(sessions := S.Created(s.sessions, u, second))
    case Enter(r, u) => s.(members := Joined(s.members, r, u))
    case Exit(r, u) => s.(members := Left(s.members, r, u))
    case Forget(u) => s.(sessions := S.Removed(s.sessions, u, deleted))
  }

  /** All actions of a request in a row. */
  function PerformAll(s: Server, actions: seq<Action>, second: nat, deleted: Option<string>): Server
    decreases |actions|
  {
    if actions == [] then s
    else PerformAll(Perform(s, actions[0], second, deleted), actions[1..], second, deleted)
  }

  ghost predicate Enabled(s: Server, l: Label) {
    match l
    case Tick(now) => s.now <= now
    case Begin(_) => s.handler.Ready?
    case Act(_, deleted) =>
      s.handler.Busy? && s.handler.done < |Program(s.handler.req)| &&
      (var a := Program(s.handler.req)[s.handler.done];
       a.Forget? ==> S.MayDelete(s.sessions, a.user, deleted))
    case Finish => s.handler.Busy? && s.handler.done == |Program(s.handler.req)|
    case Snapshot(dead) => s.reaper.Idle? && S.ListsDead(s.sessions, s.now, TIMEOUT, dead)
    case ReapLeave => s.reaper.Sweeping? && s.reaper.pending != [] && !s.reaper.left
    case ReapForget(deleted) =>
      s.reaper.Sweeping? && s.reaper.pending != [] && s.reaper.left &&
      (s.reaper.pending[0] != "" ==> S.MayDelete(s.sessions, s.reaper.pending[0], deleted))
    case EndSweep => s.reaper.Sweeping? && s.reaper.pending == []
  }

  /** The reaper skips to the next user when a manager refuses the empty name. */
  function Move(s: Server, l: Label): Server
    requires Enabled(s, l)
  {
    match l
    case Tick(now) => s.(now := now)
    case Begin(req) => s.(handler := Busy(req, 0), begun := s.begun + [req])
    case Act(second, deleted) =>
      Perform(s, Program(s.handler.req)[s.handler.done], second, deleted)
      .(handler := Busy(s.handler.req, s.handler.done + 1))
    case Finish => s.(handler := Ready)
    case Snapshot(dead) => s.(reaper := Sweeping(s.now, dead, false))
    case ReapLeave =>
      var u := s.reaper.pending[0];
      if u == "" then s.(reaper := Sweeping(s.reaper.started, s.reaper.pending[1..], false))
      else s.(members := Left(s.members, GENERAL, u), reaper := s.reaper.(left := true))
    case ReapForget(deleted) =>
      s.(sessions := S.Removed(s.sessions, s.reaper.pending[0], deleted),
         reaper := Sweeping(s.reaper.started, s.reaper.pending[1..], false))
    case EndSweep => s.(reaper := Idle, floor := s.reaper.started)
  }

  function Working(s: Server, user: string): bool {
    s.handler.Busy? && Actor(s.handler.req) == user
  }

  function Doomed(s: Server, user: string): bool {
    s.reaper.Sweeping? && user in s.reaper.pending
  }

  function Step(s: Server, l: Label): Server
    requires Enabled(s, l)
  {
    var t := Move(s, l);
    t.(overlapped := if t.handler.Busy? && Doomed(t, Actor(t.handler.req))
                     then t.overlapped + {Actor(t.handler.req)} else t.overlapped)
  }

  ghost predicate IsRun(run: seq<Server>, labels: seq<Label>) {
    && |run| == |labels| + 1
    && run[0] == Initial(run[0].now)
    && forall i | 0 <= i < |labels| :: Enabled(run[i], labels[i]) && run[i + 1] == Step(run[i], labels[i])
  }

  /** The pairs that put `users` into the welcome room. */
  function Guests(users: seq<string>): Membership {
    set u | u in users :: (GENERAL, u)
  }

  lemma GuestsAppend(users: seq<string>, user: string)
    ensures Guests(users + [user]) == Guests(users) + {(GENERAL, user)}
  {
    assert forall u :: u in users + [user] <==> u in users || u == user;
  }

  // ------------------------------------------------------------------ invariants of every run

  /** The empty name is nowhere, and the session clock agrees with the history of touches. */
  predicate NamesInv(s: Server) {
    && "" !in s.sessions.lastSeen
    && (forall m | m in s.members :: m.1 != "")
    && (s.reaper.Sweeping? ==> "" !in s.reaper.pending && (s.reaper.left ==> s.reaper.pending != []))
    && (s.handler.Busy? ==> s.handler.done <= |Program(s.handler.req)|)
    && (forall u | u in s.sessions.lastSeen ::
          u in s.touchedAt && s.touchedAt[u] == s.sessions.lastSeen[u])
    && (forall u | u in s.touchedAt :: s.touchedAt[u] <= s.now)
  }

  /** Nobody silent since before the last completed pass is left, and nobody silent since before the
      pass in progress is left but those still pending. */
  predicate AgeInv(s: Server) {
    && s.floor <= s.now
    && (forall u | u in s.sessions.lastSeen :: s.sessions.lastSeen[u] >= s.floor - TIMEOUT)
    && (s.reaper.Sweeping? ==>
          && s.floor <= s.reaper.started <= s.now
          && forall u | u in s.sessions.lastSeen ::
               s.sessions.lastSeen[u] >= s.reaper.started - TIMEOUT || u in s.reaper.pending)
  }

  predicate Seen(s: Server, user: string) {
    user in s.sessions.lastSeen
  }

  predicate InGeneral(s: Server, user: string) {
    (GENERAL, user) in s.members
  }

  /** The request in progress has yet to put its user into `room`. */
  predicate WillEnter(s: Server, room: string) {
    s.handler.Busy? &&
    match s.handler.req
    case LoginReq(u) => u != "" && room == GENERAL && s.handler.done <= 2
    case JoinRoomReq(r, _) => room == r && s.handler.done <= 1
    case _ => false
  }

  /** What holds of a user whose requests never ran while the reaper had the user pending. */
  predicate NoOrphan(s: Server, user: string) {
    && (InGeneral(s, user) ==> Seen(s, user))
    && (Working(s, user) && s.handler.done >= 1 && WillEnter(s, GENERAL) ==> user == "" || Seen(s, user))
    && (Working(s, user) && s.handler.req.LogoutReq? && s.handler.done >= 1 ==> !InGeneral(s, user))
    && (s.reaper.Sweeping? && s.reaper.left && s.reaper.pending != [] && s.reaper.pending[0] == user ==>
          !InGeneral(s, user))
    && !(Working(s, user) && Doomed(s, user))
  }

  // -------------------------------------------------------- what the requests begun so far decide

  /** The one join or leave a request makes, if any. */
  function CallOf(p: Payload): seq<RoomCall> {
    match p
    case LoginReq(u) => if u == "" then [] else [Join(GENERAL, u)]
    case JoinRoomReq(r, u) => [Join(r, u)]
    case LeaveRoomReq(r, u) => [Leave(r, u)]
    case LogoutReq(u) => if u == "" then [] else [Leave(GENERAL, u)]
    case _ => []
  }

  function RoomCalls(reqs: seq<Payload>): seq<RoomCall> {
    if reqs == [] then [] else RoomCalls(reqs[..|reqs| - 1]) + CallOf(reqs[|reqs| - 1])
  }

  /** The request in progress has not made its join or leave yet. */
  predicate CallAhead(req: Payload, done: nat) {
    match req
    case LoginReq(u) => u != "" && done <= 2
    case JoinRoomReq(_, _) => done <= 1
    case LeaveRoomReq(_, _) => done <= 1
    case LogoutReq(u) => u != "" && done == 0
    case _ => false
  }

  /** The requests whose join or leave has been made. */
  function Settled(begun: seq<Payload>, handler: Handler): seq<Payload> {
    if handler.Busy? && begun != [] && CallAhead(handler.req, handler.done) then begun[..|begun| - 1] else begun
  }

  /** Membership is what the joins and leaves made so far say, except that the reaper may have taken
      users out of the welcome room. */
  predicate LogInv(s: Server) {
    && (s.handler.Busy? ==> s.begun != [] && s.begun[|s.begun| - 1] == s.handler.req)
    && Follows(s.members, Decided(s))
  }

  function Decided(s: Server): Membership {
    RunRooms(RoomCalls(Settled(s.begun, s.handler)))
  }

  /** The latest of the requests that names `user`. */
  function LastOf(reqs: seq<Payload>, user: string): Option<Payload> {
    if reqs == [] then None
    else if Actor(reqs[|reqs| - 1]) == user then Some(reqs[|reqs| - 1])
    else LastOf(reqs[..|reqs| - 1], user)
  }

  predicate Forgotten(s: Server, user: string) {
    !Seen(s, user) && !InGeneral(s, user)
  }

  predicate LogoutInv(s: Server, user: string) {
    && (Working(s, user) ==> LastOf(s.begun, user) == Some(s.handler.req))
    && (Working(s, user) && s.handler.req.LogoutReq? ==>
          && (s.handler.done >= 1 ==> !InGeneral(s, user))
          && (s.handler.done >= 2 ==> !Seen(s, user)))
    && (!Working(s, user) && LastOf(s.begun, user) == Some(LogoutReq(user)) ==> Forgotten(s, user))
  }

  // ------------------------------------------------------------------ each step keeps them

  lemma NamesStep(s: Server, l: Label)
    requires NamesInv(s) && Enabled(s, l)
    ensures NamesInv(Step(s, l))
  {
  }

  lemma AgeStep(s: Server, l: Label)
    requires NamesInv(s) && AgeInv(s) && Enabled(s, l)
    ensures AgeInv(Step(s, l))
  {
  }

  lemma NoOrphanStep(s: Server, l: Label, user: string)
    requires NamesInv(s) && Enabled(s, l)
    requires NoOrphan(s, user) && user !in Step(s, l).overlapped
    ensures NoOrphan(Step(s, l), user)
  {
  }

  lemma AppendRequest(reqs: seq<Payload>, p: Payload)
    ensures (reqs + [p])[..|reqs|] == reqs
    ensures RoomCalls(reqs + [p]) == RoomCalls(reqs) + CallOf(p)
  {
    assert (reqs + [p])[..|reqs|] == reqs;
  }

  lemma AppendCall(calls: seq<RoomCall>, c: RoomCall)
    ensures RunRooms(calls + [c]) == AfterCall(RunRooms(calls), c)
  {
    assert (calls + [c])[..|calls|] == calls;
  }

  /** The join or leave that an action makes, if any. */
  function CallMade(a: Action): seq<RoomCall> {
    match a
    case Enter(r, u) => [Join(r, u)]
    case Exit(r, u) => [Leave(r, u)]
    case _ => []
  }

  /** A request makes its call by exactly one of its actions. */
  lemma CallMadeOnce(p: Payload, i: nat)
    requires i < |Program(p)|
    ensures var c := CallMade(Program(p)[i]);
            && (CallAhead(p, i) && !CallAhead(p, i + 1) ==> c == CallOf(p) && |c| == 1)
            && (CallAhead(p, i) == CallAhead(p, i + 1) ==> c == [])
            && (CallAhead(p, i + 1) ==> CallAhead(p, i))
  {
  }

  lemma CallsStillAhead(p: Payload)
    ensures CallAhead(p, 0) <==> CallOf(p) != []
    ensures !CallAhead(p, |Program(p)|)
  {
  }

  lemma SettledAfterBegin(begun: seq<Payload>, req: Payload)
    ensures RoomCalls(Settled(begun + [req], Busy(req, 0))) == RoomCalls(begun)
  {
    AppendRequest(begun, req);
    CallsStillAhead(req);
    assert RoomCalls(begun) + [] == RoomCalls(begun);
  }

  lemma SettledAfterAct(begun: seq<Payload>, req: Payload, done: nat, c: seq<RoomCall>)
    requires begun != [] && begun[|begun| - 1] == req
    requires done < |Program(req)| && c == CallMade(Program(req)[done])
    ensures RoomCalls(Settled(begun, Busy(req, done + 1))) == RoomCalls(Settled(begun, Busy(req, done))) + c
  {
    CallMadeOnce(req, done);
    var rest := begun[..|begun| - 1];
    if CallAhead(req, done) && !CallAhead(req, done + 1) {
      AppendRequest(rest, req);
      assert rest + [req] == begun;
    } else {
      var calls := RoomCalls(Settled(begun, Busy(req, done)));
      assert calls + [] == calls;
    }
  }

  lemma ActMakesCall(s: Server, l: Label)
    requires Enabled(s, l) && l.Act?
    ensures var (t, c) := (Step(s, l), CallMade(Program(s.handler.req)[s.handler.done]));
            && t.begun == s.begun && t.handler == Busy(s.handler.req, s.handler.done + 1)
            && |c| <= 1 && t.members == if c == [] then s.members else AfterCall(s.members, c[0])
  {
  }

  lemma LogAfterAct(s: Server, l: Label)
    requires Enabled(s, l) && l.Act? && LogInv(s)
    ensures LogInv(Step(s, l))
  {
    var c := CallMade(Program(s.handler.req)[s.handler.done]);
    var calls := RoomCalls(Settled(s.begun, s.handler));
    ActMakesCall(s, l);
    SettledAfterAct(s.begun, s.handler.req, s.handler.done, c);
    if c == [] {
      assert calls + c == calls;
    } else {
      assert c == [c[0]];
      AppendCall(calls, c[0]);
      FollowsAfterCall(s.members, RunRooms(calls), c[0]);
    }
  }

  /** `m` is `d`, except that some members of the welcome room may be missing. */
  predicate Follows(m: Membership, d: Membership) {
    m <= d && forall x | x in d && x.0 != GENERAL :: x in m
  }

  lemma FollowsAfterCall(m: Membership, d: Membership, c: RoomCall)
    requires Follows(m, d)
    ensures Follows(AfterCall(m, c), AfterCall(d, c))
  {
  }

  lemma LogStep(s: Server, l: Label)
    requires NamesInv(s) && LogInv(s) && Enabled(s, l)
    ensures LogInv(Step(s, l))
  {
    if l.Begin? {
      SettledAfterBegin(s.begun, l.req);
    } else if l.Act? {
      LogAfterAct(s, l);
    } else if l.Finish? {
      CallsStillAhead(s.handler.req);
    }
  }

  lemma LogoutStep(s: Server, l: Label, user: string)
    requires NamesInv(s) && LogoutInv(s, user) && user != "" && Enabled(s, l)
    ensures LogoutInv(Step(s, l), user)
  {
    if l.Begin? {
      assert (s.begun + [l.req])[..|s.begun|] == s.begun;
    }
  }

  ghost predicate Inv(s: Server) {
    && NamesInv(s) && AgeInv(s) && LogInv(s)
    && (forall u | u !in s.overlapped :: NoOrphan(s, u))
    && (forall u | u != "" :: LogoutInv(s, u))
  }

  lemma NoOrphansStep(s: Server, l: Label)
    requires NamesInv(s) && Enabled(s, l) && forall u | u !in s.overlapped :: NoOrphan(s, u)
    ensures forall u | u !in Step(s, l).overlapped :: NoOrphan(Step(s, l), u)
  {
    forall u | u !in Step(s, l).overlapped ensures NoOrphan(Step(s, l), u) {
      NoOrphanStep(s, l, u);
    }
  }

  lemma LogoutsStep(s: Server, l: Label)
    requires NamesInv(s) && Enabled(s, l) && forall u | u != "" :: LogoutInv(s, u)
    ensures forall u | u != "" :: LogoutInv(Step(s, l), u)
  {
    forall u | u != "" ensures LogoutInv(Step(s, l), u) {
      LogoutStep(s, l, u);
    }
  }

  lemma InvStep(s: Server, l: Label)
    requires Inv(s) && Enabled(s, l)
    ensures Inv(Step(s, l))
  {
    NamesStep(s, l);
    AgeStep(s, l);
    LogStep(s, l);
    NoOrphansStep(s, l);
    LogoutsStep(s, l);
  }

  lemma {:induction false} RunKeepsInv(run: seq<Server>, labels: seq<Label>, i: nat)
    requires IsRun(run, labels) && i < |run|
    ensures Inv(run[i])
  {
    if i > 0 {
      RunKeepsInv(run, labels, i - 1);
      InvStep(run[i - 1], labels[i - 1]);
    }
  }
}
