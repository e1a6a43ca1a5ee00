/** What holds over every run of the server, under every interleaving of its two processes. */
module ServerRuns {
  import opened Basics
  import opened Rooms
  import S = Sessions
  import opened Envelopes
  import opened ServerSteps
  import T = ServerTurns

  // ------------------------------------------------------------------ interference

  lemma {:induction false} OverlapMeans(run: seq<Server>, labels: seq<Label>, i: nat, user: string)
    requires IsRun(run, labels) && i < |run| && user in run[i].overlapped
    ensures exists j | 0 <= j <= i :: Working(run[j], user) && Doomed(run[j], user)
  {
    if i > 0 && user in run[i - 1].overlapped {
      OverlapMeans(run, labels, i - 1, user);
    } else if i > 0 {
      assert run[i] == Step(run[i - 1], labels[i - 1]);
      assert Working(run[i], user) && Doomed(run[i], user);
    }
  }

  /** A user who is in the welcome room without being tracked by the heartbeat had a request in
      progress while pending in a reap pass. Runs without such an overlap therefore keep every
      member of the welcome room under the heartbeat's eye. */
  lemma OrphanNeedsOverlap(run: seq<Server>, labels: seq<Label>, i: nat, user: string)
    requires IsRun(run, labels) && i < |run|
    requires InGeneral(run[i], user) && !Seen(run[i], user)
    ensures exists j | 0 <= j <= i :: Working(run[j], user) && Doomed(run[j], user)
  {
    RunKeepsInv(run, labels, i);
    assert !NoOrphan(run[i], user);
    OverlapMeans(run, labels, i, user);
  }

  lemma Extend(run: seq<Server>, labels: seq<Label>, l: Label) returns (run': seq<Server>, labels': seq<Label>)
    requires IsRun(run, labels) && Enabled(run[|run| - 1], l)
    ensures IsRun(run', labels') && run'[|run'| - 1] == Step(run[|run| - 1], l)
  {
    run', labels' := run + [Step(run[|run| - 1], l)], labels + [l];
  }

  /** `t` is `s` but for the history of overlaps. */
  predicate SameButOverlap(t: Server, s: Server) {
    t == s.(overlapped := t.overlapped)
  }

  lemma {:induction false} ActOn(run: seq<Server>, labels: seq<Label>, second: nat, deleted: Option<string>)
    returns (run': seq<Server>, labels': seq<Label>)
    requires IsRun(run, labels)
    requires var s := run[|run| - 1];
             && s.handler.Busy? && s.handler.done <= |Program(s.handler.req)|
             && (s.handler.req.LogoutReq? && s.handler.done < 2 ==>
                   S.MayDelete(s.sessions, s.handler.req.username, deleted))
    ensures IsRun(run', labels')
    ensures var s := run[|run| - 1];
            SameButOverlap(run'[|run'| - 1],
              PerformAll(s, Program(s.handler.req)[s.handler.done..], second, deleted).(handler := Ready))
    decreases var h := run[|run| - 1].handler; |Program(h.req)| - h.done
  {
    var s := run[|run| - 1];
    var rest := Program(s.handler.req)[s.handler.done..];
    if rest == [] {
      run', labels' := Extend(run, labels, Finish);
    } else {
      var l := Act(second, deleted);
      run', labels' := Extend(run, labels, l);
      var t := run'[|run'| - 1];
      PerformIgnores(s, t, rest[0], rest[1..], second, deleted);
      assert rest[1..] == Program(t.handler.req)[t.handler.done..];
      run', labels' := ActOn(run', labels', second, deleted);
    }
  }

  /** Handler and overlap history do not matter to what actions do. */
  lemma PerformIgnores(s: Server, t: Server, a: Action, actions: seq<Action>, second: nat, deleted: Option<string>)
    requires t == Perform(s, a, second, deleted).(handler := t.handler, overlapped := t.overlapped)
    ensures SameButOverlap(
              PerformAll(t, actions, second, deleted).(handler := Ready),
              PerformAll(s, [a] + actions, second, deleted).(handler := Ready))
  {
    assert ([a] + actions)[1..] == actions;
    PerformAllIgnores(Perform(s, a, second, deleted), t, actions, second, deleted);
  }

  lemma {:induction false} PerformAllIgnores(s: Server, t: Server, actions: seq<Action>, second: nat, deleted: Option<string>)
    requires t == s.(handler := t.handler, overlapped := t.overlapped)
    ensures PerformAll(t, actions, second, deleted) ==
            PerformAll(s, actions, second, deleted).(handler := t.handler, overlapped := t.overlapped)
    decreases |actions|
  {
    if actions != [] {
      PerformAllIgnores(Perform(s, actions[0], second, deleted), Perform(t, actions[0], second, deleted),
                        actions[1..], second, deleted);
    }
  }

  lemma {:induction false} PerformAllKeepsRequests(s: Server, actions: seq<Action>, second: nat, deleted: Option<string>)
    ensures var t := PerformAll(s, actions, second, deleted); t.handler == s.handler && t.begun == s.begun
    decreases |actions|
  {
    if actions != [] {
      PerformAllKeepsRequests(Perform(s, actions[0], second, deleted), actions[1..], second, deleted);
    }
  }

  /** A request served without interruption has the effect of its actions in a row. */
  lemma Serve(run: seq<Server>, labels: seq<Label>, req: Payload, second: nat, deleted: Option<string>)
    returns (run': seq<Server>, labels': seq<Label>)
    requires IsRun(run, labels) && run[|run| - 1].handler.Ready?
    requires req.LogoutReq? ==> S.MayDelete(run[|run| - 1].sessions, req.username, deleted)
    ensures IsRun(run', labels')
    ensures var s := run[|run| - 1];
            SameButOverlap(run'[|run'| - 1],
              PerformAll(s.(begun := s.begun + [req]), Program(req), second, deleted))
    ensures run'[|run'| - 1].handler.Ready? && run'[|run'| - 1].begun == run[|run| - 1].begun + [req]
  {
    var s := run[|run| - 1];
    run', labels' := Extend(run, labels, Begin(req));
    var t := run'[|run'| - 1];
    assert Program(req)[0..] == Program(req);
    var base := s.(begun := s.begun + [req]);
    PerformAllIgnores(base, t, Program(req), second, deleted);
    PerformAllIgnores(base, base, Program(req), second, deleted);
    PerformAllKeepsRequests(base, Program(req), second, deleted);
    run', labels' := ActOn(run', labels', second, deleted);
  }

  /** The overlap does its harm: a user who rejoins between the two halves of its own removal stays
      in the welcome room with both processes at rest and the heartbeat not tracking it. */
  lemma OverlapCanOrphan(user: string) returns (run: seq<Server>, labels: seq<Label>)
    requires user != ""
    ensures IsRun(run, labels)
    ensures var s := run[|run| - 1];
            s.handler.Ready? && s.reaper.Idle? && InGeneral(s, user) && !Seen(s, user)
  {
    var join := JoinRoomReq(GENERAL, user);
    JoinActions(Initial(0).(begun := Initial(0).begun + [join]), GENERAL, user, 0, None);
    run, labels := Serve([Initial(0)], [], join, 0, None);
    run, labels := Extend(run, labels, Tick(TIMEOUT + 1));
    run, labels := Extend(run, labels, Snapshot([user]));
    run, labels := Extend(run, labels, ReapLeave);
    var s := run[|run| - 1];
    JoinActions(s.(begun := s.begun + [join]), GENERAL, user, 0, None);
    run, labels := Serve(run, labels, join, 0, None);
    run, labels := Extend(run, labels, ReapForget(None));
    run, labels := Extend(run, labels, EndSweep);
  }

  lemma JoinActions(s: Server, room: string, user: string, second: nat, deleted: Option<string>)
    ensures PerformAll(s, Program(JoinRoomReq(room, user)), second, deleted) ==
            Perform(Perform(s, Touch(user), second, deleted), Enter(room, user), second, deleted)
  {
    var actions := Program(JoinRoomReq(room, user));
    assert actions[1..] == [Enter(room, user)] && actions[1..][1..] == [];
    assert PerformAll(s, actions, second, deleted) ==
           PerformAll(Perform(s, Touch(user), second, deleted), actions[1..], second, deleted);
  }

  // ------------------------------------------------------------------ every request counts as a sign of life

  /** Step `l` sets the time of the user to now, and no other. */
  predicate SetsTime(s: Server, t: Server, user: string) {
    t.sessions.lastSeen == s.sessions.lastSeen[user := s.now]
  }

  /** The request begun at `i` is still in progress at `j`. */
  ghost predicate InProgress(run: seq<Server>, labels: seq<Label>, i: nat, j: nat) {
    i < j <= |labels| && labels[i].Begin? && forall k | i < k < j :: !labels[k].Finish?
  }

  lemma {:induction false} ProgressOfRequest(run: seq<Server>, labels: seq<Label>, i: nat, j: nat)
    requires IsRun(run, labels) && InProgress(run, labels, i, j)
    ensures run[j].handler.Busy? && run[j].handler.req == labels[i].req
    ensures run[j].handler.done > 0 ==>
              exists k | i < k < j :: labels[k].Act? && run[k].handler == Busy(labels[i].req, 0)
  {
    assert run[j] == Step(run[j - 1], labels[j - 1]);
    if j > i + 1 {
      ProgressOfRequest(run, labels, i, j - 1);
    }
  }

  /** Whatever comes between its steps, a request by which a user shows that it is there touches that user,
      and nobody else, in some step before it is finished. */
  lemma RequestTouches(run: seq<Server>, labels: seq<Label>, i: nat, j: nat, user: string) returns (k: nat)
    requires IsRun(run, labels) && InProgress(run, labels, i, j) && j < |labels| && labels[j].Finish?
    requires SignOfLife(labels[i].req, user) && user != ""
    ensures i < k < j && labels[k].Act? && SetsTime(run[k], run[k + 1], user)
  {
    ProgressOfRequest(run, labels, i, j);
    SignsTouchFirst(labels[i].req, user);
    k :| i < k < j && labels[k].Act? && run[k].handler == Busy(labels[i].req, 0);
    assert run[k + 1] == Step(run[k], labels[k]);
  }

  lemma SignsTouchFirst(p: Payload, user: string)
    requires SignOfLife(p, user) && user != ""
    ensures Program(p) != [] && Program(p)[0] == Touch(user)
  {
  }

  // ------------------------------------------------------------------ a pass that is not interrupted

  /** The managers of `s`, without sockets. */
  function Managers(s: Server): T.Picture {
    T.Picture(s.sessions, s.members, [], false, [], [])
  }

  /** `s` with the managers of `a`. */
  function WithManagers(s: Server, a: T.Picture): Server {
    s.(sessions := a.sessions, members := a.members)
  }

  /** The reaper has `pending` left and has not begun with the first of them. */
  predicate AtUser(s: Server, pending: seq<string>) {
    s.reaper.Sweeping? && s.reaper.pending == pending && !s.reaper.left
  }

  /** The two locked calls of the reaper for one user are the effect of its loop body. */
  lemma ReapedByMoves(s: Server, user: string, rest: seq<string>, deleted: Option<string>)
    requires AtUser(s, [user] + rest) && user != ""
    requires S.MayDelete(s.sessions, user, deleted)
    ensures Enabled(s, ReapLeave) && Enabled(Move(s, ReapLeave), ReapForget(deleted))
    ensures Move(Move(s, ReapLeave), ReapForget(deleted)) ==
            WithManagers(s, T.Reaped(Managers(s), user, deleted)).(reaper := Sweeping(s.reaper.started, rest, false))
  {
  }

  lemma ReapOne(run: seq<Server>, labels: seq<Label>, user: string, rest: seq<string>, deleted: Option<string>)
    returns (run': seq<Server>, labels': seq<Label>)
    requires IsRun(run, labels) && user != ""
    requires AtUser(run[|run| - 1], [user] + rest)
    requires S.MayDelete(run[|run| - 1].sessions, user, deleted)
    ensures IsRun(run', labels')
    ensures var s := run[|run| - 1];
            SameButOverlap(run'[|run'| - 1],
              WithManagers(s, T.Reaped(Managers(s), user, deleted)).(reaper := Sweeping(s.reaper.started, rest, false)))
  {
    ReapedByMoves(run[|run| - 1], user, rest, deleted);
    run', labels' := Extend(run, labels, ReapLeave);
    run', labels' := Extend(run', labels', ReapForget(deleted));
  }

  lemma {:induction false} SweepUsers(run: seq<Server>, labels: seq<Label>, dead: seq<string>,
                                      deleted: seq<Option<string>>, i: nat)
    returns (run': seq<Server>, labels': seq<Label>)
    requires IsRun(run, labels) && i <= |dead| == |deleted| && "" !in dead
    requires AtUser(run[|run| - 1], dead)
    requires T.MaySweep(Managers(run[|run| - 1]), dead, deleted, i)
    ensures IsRun(run', labels')
    ensures var s := run[|run| - 1];
            SameButOverlap(run'[|run'| - 1],
              WithManagers(s, T.Swept(Managers(s), dead, deleted, i)).(reaper := Sweeping(s.reaper.started, dead[i..], false)))
  {
    if i == 0 {
      run', labels' := run, labels;
      assert dead[0..] == dead;
    } else {
      run', labels' := SweepUsers(run, labels, dead, deleted, i - 1);
      assert dead[i - 1..] == [dead[i - 1]] + dead[i..] && dead[i - 1] in dead;
      run', labels' := ReapOne(run', labels', dead[i - 1], dead[i..], deleted[i - 1]);
    }
  }

  /** A pass that is not interrupted has in the step model the effect that it has on its own. */
  lemma Sweep(run: seq<Server>, labels: seq<Label>, dead: seq<string>, deleted: seq<Option<string>>)
    returns (run': seq<Server>, labels': seq<Label>)
    requires IsRun(run, labels) && run[|run| - 1].reaper.Idle? && |dead| == |deleted|
    requires S.ListsDead(run[|run| - 1].sessions, run[|run| - 1].now, TIMEOUT, dead)
    requires T.MaySweep(Managers(run[|run| - 1]), dead, deleted, |dead|)
    ensures IsRun(run', labels')
    ensures var s := run[|run| - 1];
            SameButOverlap(run'[|run'| - 1],
              WithManagers(s, T.Swept(Managers(s), dead, deleted, |dead|)).(floor := s.now))
  {
    var s := run[|run| - 1];
    RunKeepsInv(run, labels, |run| - 1);
    assert "" in dead ==> S.IsDead(s.sessions, "", s.now, TIMEOUT);
    run', labels' := Extend(run, labels, Snapshot(dead));
    run', labels' := SweepUsers(run', labels', dead, deleted, |dead|);
    run', labels' := Extend(run', labels', EndSweep);
  }

  // ------------------------------------------------------------------ exactly when a user is stranded

  /** In the welcome room, or on the way into it, without being tracked. */
  predicate AtRisk(s: Server, user: string) {
    !Seen(s, user) && (InGeneral(s, user) || Entering(s, user))
  }

  /** A request of the user has been touched and will still put it into the welcome room. */
  predicate Entering(s: Server, user: string) {
    Working(s, user) && s.handler.done >= 1 && WillEnter(s, GENERAL)
  }

  /** The reaper removes the session of a user who has come back into the welcome room since it was
      taken out, or is about to. */
  predicate Strands(s: Server, l: Label, user: string) {
    && l.ReapForget? && s.reaper.Sweeping? && s.reaper.pending != [] && s.reaper.pending[0] == user
    && (InGeneral(s, user) || Entering(s, user))
  }

  /** A request touches the user, or takes it out of the welcome room. */
  predicate Rescues(s: Server, l: Label, user: string) {
    && l.Act? && s.handler.Busy? && s.handler.done < |Program(s.handler.req)|
    && Program(s.handler.req)[s.handler.done] in {Touch(user), Exit(GENERAL, user)}
  }

  /** Some removal stranded the user and no later step rescued it. */
  ghost predicate Stranded(run: seq<Server>, labels: seq<Label>, i: nat, user: string)
    requires i <= |labels| && |run| == |labels| + 1
  {
    exists k | 0 <= k < i :: Strands(run[k], labels[k], user) &&
      forall j | k < j < i :: !Rescues(run[j], labels[j], user)
  }

  /** A pass holds each user once, and nobody at risk whom it has yet to take out of the welcome room. */
  ghost predicate PendingInv(s: Server, user: string) {
    s.reaper.Sweeping? ==>
      && (forall i, j | 0 <= i < j < |s.reaper.pending| :: s.reaper.pending[i] != s.reaper.pending[j])
      && (AtRisk(s, user) && Doomed(s, user) ==> s.reaper.left && s.reaper.pending[0] == user)
  }

  lemma RiskAfterAct(s: Server, l: Label, user: string)
    requires NamesInv(s) && LogoutInv(s, user) && Enabled(s, l) && l.Act? && user != ""
    ensures AtRisk(Step(s, l), user) <==> AtRisk(s, user) && !Rescues(s, l, user)
  {
  }

  lemma RiskAfterOther(s: Server, l: Label, user: string)
    requires NamesInv(s) && PendingInv(s, user) && Enabled(s, l) && !l.Act? && user != ""
    ensures AtRisk(Step(s, l), user) <==> Strands(s, l, user) || AtRisk(s, user)
  {
  }

  lemma PendingStep(s: Server, l: Label, user: string)
    requires NamesInv(s) && PendingInv(s, user) && Enabled(s, l)
    requires AtRisk(Step(s, l), user) <==> Strands(s, l, user) || (AtRisk(s, user) && !Rescues(s, l, user))
    ensures PendingInv(Step(s, l), user)
  {
  }

  lemma RiskStep(s: Server, l: Label, user: string)
    requires NamesInv(s) && LogoutInv(s, user) && PendingInv(s, user) && Enabled(s, l) && user != ""
    ensures PendingInv(Step(s, l), user)
    ensures AtRisk(Step(s, l), user) <==> Strands(s, l, user) || (AtRisk(s, user) && !Rescues(s, l, user))
  {
    if l.Act? {
      RiskAfterAct(s, l, user);
    } else {
      RiskAfterOther(s, l, user);
    }
    PendingStep(s, l, user);
  }

  lemma StrandedStep(run: seq<Server>, labels: seq<Label>, i: nat, user: string)
    requires 0 < i <= |labels| && |run| == |labels| + 1
    ensures Stranded(run, labels, i, user) <==>
            || Strands(run[i - 1], labels[i - 1], user)
            || (Stranded(run, labels, i - 1, user) && !Rescues(run[i - 1], labels[i - 1], user))
  {
  }

  lemma {:induction false} RiskIsStranding(run: seq<Server>, labels: seq<Label>, i: nat, user: string)
    requires IsRun(run, labels) && i < |run| && user != ""
    ensures PendingInv(run[i], user)
    ensures AtRisk(run[i], user) <==> Stranded(run, labels, i, user)
  {
    if i > 0 {
      RiskIsStranding(run, labels, i - 1, user);
      RunKeepsInv(run, labels, i - 1);
      RiskStep(run[i - 1], labels[i - 1], user);
      StrandedStep(run, labels, i, user);
    }
  }

  /** Between requests, a user is in the welcome room without being tracked exactly if some pass removed
      its session while the user was back in the room, or in the middle of a request that puts it
      there, and no request has touched the user or taken it out of the room since. */
  lemma StrayIffStranded(run: seq<Server>, labels: seq<Label>, i: nat, user: string)
    requires IsRun(run, labels) && i < |run| && run[i].handler.Ready? && user != ""
    ensures InGeneral(run[i], user) && !Seen(run[i], user) <==> Stranded(run, labels, i, user)
  {
    RiskIsStranding(run, labels, i, user);
  }

  // ------------------------------------------------------------------ timing

  /** Neither manager ever refuses the reaper: it never holds the empty name. */
  lemma ReaperNeverRefused(run: seq<Server>, labels: seq<Label>, i: nat)
    requires IsRun(run, labels) && i < |labels| && (labels[i].ReapLeave? || labels[i].ReapForget?)
    ensures run[i].reaper.pending[0] != ""
  {
    RunKeepsInv(run, labels, i);
    assert run[i].reaper.pending[0] in run[i].reaper.pending;
  }

  /** Pass `a` to `b`: a snapshot and the first end of a pass after it. */
  ghost predicate IsPass(labels: seq<Label>, a: nat, b: nat) {
    && a < b < |labels| && labels[a].Snapshot? && labels[b].EndSweep?
    && forall j | a < j < b :: !labels[j].EndSweep?
  }

  lemma {:induction false} PassInProgress(run: seq<Server>, labels: seq<Label>, a: nat, b: nat, j: nat)
    requires IsRun(run, labels) && IsPass(labels, a, b) && a < j <= b
    ensures run[j].reaper.Sweeping? && run[j].reaper.started == run[a].now
  {
    if j > a + 1 {
      PassInProgress(run, labels, a, b, j - 1);
    }
    assert run[j] == Step(run[j - 1], labels[j - 1]);
  }

  lemma {:induction false} FloorOnlyRises(run: seq<Server>, labels: seq<Label>, i: nat, j: nat)
    requires IsRun(run, labels) && i <= j < |run|
    ensures run[i].floor <= run[j].floor
  {
    if i < j {
      FloorOnlyRises(run, labels, i, j - 1);
      RunKeepsInv(run, labels, j - 1);
      assert run[j] == Step(run[j - 1], labels[j - 1]);
    }
  }

  /** From the end of a completed pass on, whatever the request loop did meanwhile, nobody is tracked
      whose last activity is older than the snapshot time of the pass minus the timeout. */
  lemma PassClearsTheSilent(run: seq<Server>, labels: seq<Label>, a: nat, b: nat, i: nat, user: string)
    requires IsRun(run, labels) && IsPass(labels, a, b) && b < i < |run|
    requires Seen(run[i], user)
    ensures run[i].sessions.lastSeen[user] >= run[a].now - TIMEOUT
  {
    PassInProgress(run, labels, a, b, b);
    assert run[b + 1] == Step(run[b], labels[b]);
    FloorOnlyRises(run, labels, b + 1, i);
    RunKeepsInv(run, labels, i);
  }

  /** Passes start at most `period` after the previous one started and last at most `length`. */
  predicate OnSchedule(s: Server, period: nat, length: nat) {
    match s.reaper
    case Idle => s.now <= s.floor + period
    case Sweeping(started, _, _) => started <= s.floor + period && s.now <= started + length
  }

  /** While the reaper is on schedule no tracked activity is older than timeout + period + length. */
  lemma NoEntryTooOld(run: seq<Server>, labels: seq<Label>, period: nat, length: nat, i: nat, user: string)
    requires IsRun(run, labels) && i < |run| && OnSchedule(run[i], period, length)
    requires Seen(run[i], user)
    ensures run[i].now - run[i].sessions.lastSeen[user] <= TIMEOUT + period + length
  {
    RunKeepsInv(run, labels, i);
  }

  /** No snapshot holds a user whose last touch is no older than the timeout. */
  lemma RecentlyTouchedNotDead(run: seq<Server>, labels: seq<Label>, i: nat, user: string)
    requires IsRun(run, labels) && i < |labels| && labels[i].Snapshot?
    requires user in run[i].touchedAt ==> run[i].now - run[i].touchedAt[user] <= TIMEOUT
    ensures user !in labels[i].dead
  {
    RunKeepsInv(run, labels, i);
  }

  // ------------------------------------------------------------------ requests decide membership

  /** Some join request of the pair has no later leave request of it. */
  ghost predicate JoinRequestedLast(reqs: seq<Payload>, room: string, user: string) {
    exists k | 0 <= k < |reqs| :: reqs[k] == JoinRoomReq(room, user) &&
      forall j | k < j < |reqs| :: reqs[j] != LeaveRoomReq(room, user)
  }

  lemma DecidedByAppend(rest: seq<Payload>, p: Payload, room: string, user: string)
    requires room != GENERAL
    ensures (room, user) in RunRooms(RoomCalls(rest + [p])) <==>
            (p == JoinRoomReq(room, user) && user != "") ||
            ((room, user) in RunRooms(RoomCalls(rest)) && (user != "" ==> p != LeaveRoomReq(room, user)))
  {
    AppendRequest(rest, p);
    if CallOf(p) == [] {
      assert RoomCalls(rest) + [] == RoomCalls(rest);
    } else {
      AppendCall(RoomCalls(rest), CallOf(p)[0]);
      assert CallOf(p) == [CallOf(p)[0]];
    }
  }

  lemma {:induction false} CallsAreRequests(reqs: seq<Payload>, room: string, user: string)
    requires room != GENERAL
    ensures (room, user) in RunRooms(RoomCalls(reqs)) <==> user != "" && JoinRequestedLast(reqs, room, user)
  {
    if reqs != [] {
      var rest, p := reqs[..|reqs| - 1], reqs[|reqs| - 1];
      assert rest + [p] == reqs;
      CallsAreRequests(rest, room, user);
      DecidedByAppend(rest, p, room, user);
      JoinRequestedLastAppend(rest, p, room, user);
    }
  }

  lemma JoinRequestedLastAppend(rest: seq<Payload>, p: Payload, room: string, user: string)
    ensures JoinRequestedLast(rest + [p], room, user) <==>
            p == JoinRoomReq(room, user) || (JoinRequestedLast(rest, room, user) && p != LeaveRoomReq(room, user))
  {
    var all, n := rest + [p], |rest|;
    assert all[n] == p && forall j | 0 <= j < n :: all[j] == rest[j];
    if JoinRequestedLast(rest, room, user) && p != LeaveRoomReq(room, user) {
      var k :| 0 <= k < n && rest[k] == JoinRoomReq(room, user) &&
               forall j | k < j < n :: rest[j] != LeaveRoomReq(room, user);
      assert all[k] == JoinRoomReq(room, user);
    }
    if JoinRequestedLast(all, room, user) && p != JoinRoomReq(room, user) {
      var k :| 0 <= k <= n && all[k] == JoinRoomReq(room, user) &&
               forall j | k < j <= n :: all[j] != LeaveRoomReq(room, user);
      assert rest[k] == JoinRoomReq(room, user);
      assert forall j | k < j < n :: rest[j] == all[j];
    }
  }

  /** Between requests, membership of every room but the welcome room is decided by the last join or
      leave request of the pair, whatever the reaper did. */
  lemma LastRequestDecides(run: seq<Server>, labels: seq<Label>, i: nat, room: string, user: string)
    requires IsRun(run, labels) && i < |run| && run[i].handler.Ready? && room != GENERAL
    ensures (room, user) in run[i].members <==> user != "" && JoinRequestedLast(run[i].begun, room, user)
  {
    RunKeepsInv(run, labels, i);
    CallsAreRequests(run[i].begun, room, user);
  }

  /** Once its logout is done, and until the next request that names it, a user is neither in the
      welcome room nor tracked. */
  lemma LogoutForgets(run: seq<Server>, labels: seq<Label>, i: nat, user: string)
    requires IsRun(run, labels) && i < |run| && user != ""
    requires LastOf(run[i].begun, user) == Some(LogoutReq(user)) && !Working(run[i], user)
    ensures !InGeneral(run[i], user) && !Seen(run[i], user)
  {
    RunKeepsInv(run, labels, i);
    assert LogoutInv(run[i], user);
  }
}
