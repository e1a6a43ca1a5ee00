/** Why a client that keeps running is not taken for dead: the time between two of its touches of the
    server, against the timeout of the reaper. Times are in milliseconds. */
module Heartbeat {
  import opened Basics
  import opened Rooms
  import S = Sessions
  import opened Envelopes
  import opened ReqRep
  import opened Commands
  import opened ClientController
  import opened ClientRuns
  import opened ServerSteps
  import opened ServerRuns

  /** The poll returns within two seconds. */
  const POLL := 2000

  /** One iteration of the controller: how long it polled and how long it worked; if it makes a request
      that names the user, the server handles it `at` into the work. */
  datatype Iteration = Iteration(event: Event, wait: nat, work: nat, at: nat)

  predicate Touching(it: Iteration, user: string)
    requires GoodEvent(it.event)
  {
    Asked(it.event, user).Some? && Actor(Asked(it.event, user).value.payload) == user
  }

  /** A line touches the server unless it quits, lists the rooms, is unknown, or is a message without
      name or content. */
  predicate TouchingLine(line: string)
    requires GoodLine(line)
  {
    match Dispatch(line)
    case JoinRoom(_) => true
    case LeaveRoom(_) => true
    case RoomMessage(text) => Split(text).0.Some? && Split(text).1.Some?
    case DirectMessage(text) => Split(text).0.Some? && Split(text).1.Some?
    case _ => false
  }

  /** Exactly these iterations touch the server: two seconds without input, and those that take such a
      line; and what they ask shows the server that the user is there. */
  lemma SilentIterations(it: Iteration, user: string)
    requires GoodEvent(it.event) && user != ""
    ensures Touching(it, user) <==>
            it.event.Polled? && it.event.shutdown != Some("KILL_CONTROLLER") &&
            if it.event.line.None? then it.event.shutdown.None?
            else it.event.line.value != "" && TouchingLine(it.event.line.value)
    ensures Touching(it, user) ==> SignOfLife(Asked(it.event, user).value.payload, user)
  {
  }

  /** No iteration works longer than `d`, and every request is answered within its iteration. */
  predicate Timely(its: seq<Iteration>, d: nat) {
    forall it | it in its ::
      && GoodEvent(it.event) && it.wait <= POLL && it.work <= d && it.at <= it.work
      && (it.event.Polled? ==> !it.event.net.sendFails && !it.event.net.recvFails)
  }

  /** The login is handled at `login`, and its exchange is over by `start`, when the loop begins with the
      socket in state `core`. */
  datatype Life = Life(user: string, login: int, start: int, core: CtlState, its: seq<Iteration>)

  function EndOf(life: Life): int
    decreases |life.its|
  {
    if life.its == [] then life.start
    else
      var it := life.its[|life.its| - 1];
      EndOf(Before(life)) + it.wait + it.work
  }

  function Before(life: Life): Life
    requires life.its != []
  {
    life.(its := life.its[..|life.its| - 1])
  }

  function LastIteration(life: Life): Iteration
    requires life.its != []
  {
    life.its[|life.its| - 1]
  }

  predicate GoodEvents(life: Life) {
    forall it | it in life.its :: GoodEvent(it.event)
  }

  /** What the controller has come to. */
  function StateOf(life: Life): CtlState
    requires GoodEvents(life)
    decreases |life.its|
  {
    if life.its == [] then life.core
    else
      assert LastIteration(life) in life.its;
      AfterEvent(StateOf(Before(life)), life.user, LastIteration(life).event).0
  }

  /** No iteration has made the client leave its loop. */
  predicate InLoop(life: Life)
    requires GoodEvents(life)
    decreases |life.its|
  {
    life.its != [] ==>
      assert LastIteration(life) in life.its;
      InLoop(Before(life)) && AfterEvent(StateOf(Before(life)), life.user, LastIteration(life).event).1
  }

  function Events(its: seq<Iteration>): seq<Event> {
    seq(|its|, i requires 0 <= i < |its| => its[i].event)
  }

  /** That is the loop of the controller, still going on. */
  lemma {:induction false} LifeIsLoop(life: Life)
    requires GoodEvents(life) && InLoop(life)
    ensures (forall e | e in Events(life.its) :: GoodEvent(e)) &&
            AfterEvents(life.core, life.user, Events(life.its)) == (StateOf(life), true)
    decreases |life.its|
  {
    if life.its != [] {
      LifeIsLoop(Before(life));
      assert Events(life.its) == Events(Before(life).its) + [LastIteration(life).event];
      assert Events(life.its)[..|life.its| - 1] == Events(Before(life).its);
    }
  }

  predicate Good(life: Life, d: nat) {
    Timely(life.its, d) && life.login <= life.start <= life.login + d && life.user != "" && InLoop(life)
    && Valid(life.core.req) && !life.core.req.awaiting
  }

  /** When the touches of a life happen, in order. */
  function Touches(life: Life, d: nat): seq<int>
    requires Good(life, d)
    decreases |life.its|
  {
    if life.its == [] then [life.login]
    else
      var it := LastIteration(life);
      Touches(Before(life), d) +
      if Touching(it, life.user) then [EndOf(Before(life)) + it.wait + it.at] else []
  }

  /** How many iterations in a row, up to the end, did not touch the server. */
  function Silent(life: Life, d: nat): nat
    requires Good(life, d)
    decreases |life.its|
  {
    if life.its == [] || Touching(LastIteration(life), life.user) then 0 else Silent(Before(life), d) + 1
  }

  /** Never more than `k` iterations in a row without a touch. */
  predicate AtMostSilent(life: Life, d: nat, k: nat)
    requires Good(life, d)
    decreases |life.its|
  {
    Silent(life, d) <= k && (life.its != [] ==> AtMostSilent(Before(life), d, k))
  }

  function Gap(k: nat, d: nat): nat {
    (k + 1) * (POLL + d) + d
  }

  lemma Times(k: nat, n: nat, c: nat)
    ensures (k + 1) * c == k * c + c
    ensures k <= n ==> k * c <= n * c
  {
    if k <= n {
      assert n * c == k * c + (n - k) * c;
    }
  }

  /** Up to the end, the time since the last touch is bounded by the silent iterations behind it. */
  lemma {:induction false} SinceLastTouch(life: Life, d: nat)
    requires Good(life, d)
    ensures var ts := Touches(life, d);
            && ts != [] && ts[|ts| - 1] <= EndOf(life)
            && EndOf(life) - ts[|ts| - 1] <= Silent(life, d) * (POLL + d) + d
    decreases |life.its|
  {
    if life.its != [] {
      SinceLastTouch(Before(life), d);
      assert LastIteration(life) in life.its;
      Times(Silent(Before(life), d), 0, POLL + d);
    }
  }

  /** Touches are at most (k+1)(2000+d)+d apart: every moment of the life after the login comes that
      soon after an earlier touch. */
  lemma {:induction false} TouchedRecently(life: Life, d: nat, k: nat, t: int) returns (touch: int)
    requires Good(life, d) && AtMostSilent(life, d, k)
    requires life.login < t <= EndOf(life)
    ensures touch in Touches(life, d) && touch < t <= touch + Gap(k, d)
    decreases |life.its|
  {
    if life.its == [] {
      touch := life.login;
    } else if t <= EndOf(Before(life)) {
      touch := TouchedRecently(Before(life), d, k, t);
    } else {
      var ts := Touches(Before(life), d);
      SinceLastTouch(Before(life), d);
      assert LastIteration(life) in life.its;
      touch := ts[|ts| - 1];
      Times(Silent(Before(life), d), k, POLL + d);
      Times(k, k, POLL + d);
    }
  }

  /** Step `j` of the run touches the user. */
  predicate TouchStep(s: Server, l: ServerSteps.Label, user: string) {
    && l.Act? && s.handler.Busy? && s.handler.done < |Program(s.handler.req)|
    && Program(s.handler.req)[s.handler.done] == Touch(user)
  }

  /** Every iteration that touches the server is delivered by the request it makes: whatever comes between
      the steps of that request, one of them touches the user. */
  lemma TouchingIsDelivered(it: Iteration, user: string, run: seq<Server>, labels: seq<ServerSteps.Label>, i: nat, j: nat)
    returns (k: nat)
    requires GoodEvent(it.event) && user != "" && Touching(it, user)
    requires IsRun(run, labels) && InProgress(run, labels, i, j) && j < |labels| && labels[j].Finish?
    requires labels[i].req == Asked(it.event, user).value.payload
    ensures i < k < j && TouchStep(run[k], labels[k], user) && SetsTime(run[k], run[k + 1], user)
  {
    SilentIterations(it, user);
    SignsTouchFirst(labels[i].req, user);
    ProgressOfRequest(run, labels, i, j);
    k :| i < k < j && labels[k].Act? && run[k].handler == Busy(labels[i].req, 0);
    assert run[k + 1] == Step(run[k], labels[k]);
  }

  /** Up to state `i` the run has taken a step for every touch of the life that lies in its past, at
      the time of that touch, and none for the user before the login. */
  ghost predicate Delivered(life: Life, d: nat, run: seq<Server>, labels: seq<ServerSteps.Label>, i: nat)
    requires Good(life, d) && i <= |labels| && |run| == |labels| + 1
  {
    && (forall touch | touch in Touches(life, d) && touch < run[i].now ::
          exists j | 0 <= j < i :: TouchStep(run[j], labels[j], life.user) && run[j].now == touch)
    && (forall j | 0 <= j < i && TouchStep(run[j], labels[j], life.user) :: run[j].now >= life.login)
  }

  lemma TouchedAtStep(s: Server, l: ServerSteps.Label, user: string)
    requires NamesInv(s) && Enabled(s, l) && user != ""
    ensures var t := Step(s, l);
            && s.now <= t.now
            && (TouchStep(s, l, user) ==> user in t.touchedAt && t.touchedAt[user] == s.now)
            && (user in s.touchedAt ==> user in t.touchedAt && t.touchedAt[user] >= s.touchedAt[user])
  {
  }

  lemma TouchedInRun(run: seq<Server>, labels: seq<ServerSteps.Label>, i: nat, user: string)
    requires IsRun(run, labels) && i < |labels| && user != ""
    ensures TouchStep(run[i], labels[i], user) ==> user in run[i + 1].touchedAt && run[i + 1].touchedAt[user] == run[i].now
    ensures user in run[i].touchedAt ==>
              user in run[i + 1].touchedAt && run[i + 1].touchedAt[user] >= run[i].touchedAt[user]
  {
    RunKeepsInv(run, labels, i);
    TouchedAtStep(run[i], labels[i], user);
  }

  /** The time kept for a user only rises, from each of its touches on. */
  lemma {:induction false} TouchIsRemembered(run: seq<Server>, labels: seq<ServerSteps.Label>, j: nat, i: nat, user: string)
    requires IsRun(run, labels) && j < i < |run| && user != ""
    requires TouchStep(run[j], labels[j], user)
    ensures user in run[i].touchedAt && run[i].touchedAt[user] >= run[j].now
  {
    TouchedInRun(run, labels, i - 1, user);
    if j < i - 1 {
      TouchIsRemembered(run, labels, j, i - 1, user);
    }
  }

  /** And it is the time of one of them. */
  lemma {:induction false} RememberedIsTouch(run: seq<Server>, labels: seq<ServerSteps.Label>, i: nat, user: string)
    requires IsRun(run, labels) && i < |run| && user in run[i].touchedAt
    ensures exists j | 0 <= j < i :: TouchStep(run[j], labels[j], user) && run[j].now == run[i].touchedAt[user]
  {
    if i > 0 {
      assert run[i] == Step(run[i - 1], labels[i - 1]);
      if user in run[i - 1].touchedAt {
        RememberedIsTouch(run, labels, i - 1, user);
      }
    }
  }

  /** Up to the end of its life a snapshot of the run takes the client's user for dead, although every
      touch of the life, with at most `k` silent iterations in a row, has been delivered in time. */
  ghost predicate Misjudges(life: Life, d: nat, k: nat, run: seq<Server>, labels: seq<ServerSteps.Label>, i: nat) {
    && Good(life, d) && AtMostSilent(life, d, k)
    && IsRun(run, labels) && i < |labels| && labels[i].Snapshot? && run[i].now <= EndOf(life)
    && Delivered(life, d, run, labels, i)
    && life.user in labels[i].dead
  }

  /** A live client is never taken for dead: as long as the bound on its silence does not exceed the
      timeout, no snapshot of the whole run, up to the end of its life, holds the user. */
  lemma LiveClientNeverDead(life: Life, d: nat, k: nat, run: seq<Server>, labels: seq<ServerSteps.Label>, i: nat)
    requires Good(life, d) && AtMostSilent(life, d, k) && Gap(k, d) <= TIMEOUT
    requires IsRun(run, labels) && i < |labels| && labels[i].Snapshot? && run[i].now <= EndOf(life)
    requires Delivered(life, d, run, labels, i)
    ensures life.user !in labels[i].dead
  {
    if life.user in run[i].touchedAt {
      RememberedIsTouch(run, labels, i, life.user);
    }
    if life.login < run[i].now {
      var touch := TouchedRecently(life, d, k, run[i].now);
      var j :| 0 <= j < i && TouchStep(run[j], labels[j], life.user) && run[j].now == touch;
      TouchIsRemembered(run, labels, j, i, life.user);
    }
    RecentlyTouchedNotDead(run, labels, i, life.user);
  }

  // ------------------------------------------------------------------ the bound is reached

  function Idling(k: nat, d: nat): seq<Iteration> {
    seq(k, _ => Iteration(Interrupted, POLL, d, 0))
  }

  /** The bound is the best possible: for every `k` and `d` there is a life, with at most `k` silent
      iterations in a row, whose last two touches are exactly that far apart. */
  lemma GapIsReached(user: string, d: nat, k: nat) returns (life: Life)
    requires user != ""
    ensures Good(life, d) && AtMostSilent(life, d, k) && life.user == user
    ensures life.login == 0 && Touches(life, d) == [0, Gap(k, d)] && EndOf(life) == Gap(k, d)
  {
    IdlingLife(user, d, k, k);
    Times(k, k, POLL + d);
    var ping := Iteration(Polled(None, None, Net(false, false, Garbage)), POLL, d, d);
    assert Touching(ping, user);
    life := OneMoreIteration(IdleFor(user, d, k), d, k, ping);
  }

  /** A client that logs in and whose polls are then interrupted, over and over. */
  function IdleFor(user: string, d: nat, n: nat): Life {
    Life(user, 0, d, CtlState(UNUSED, [], [], []), Idling(n, d))
  }

  lemma IdleOnceMore(user: string, d: nat, n: nat)
    requires n > 0
    ensures var life, it := IdleFor(user, d, n - 1), Iteration(Interrupted, POLL, d, 0);
            IdleFor(user, d, n) == life.(its := life.its + [it])
  {
    assert Idling(n, d) == Idling(n - 1, d) + [Iteration(Interrupted, POLL, d, 0)];
  }

  predicate Extends(longer: Life, life: Life, it: Iteration) {
    longer.its != [] && Before(longer) == life && LastIteration(longer) == it
  }

  lemma Extension(life: Life, it: Iteration) returns (longer: Life)
    ensures longer == life.(its := life.its + [it]) && Extends(longer, life, it)
  {
    longer := life.(its := life.its + [it]);
    assert longer.its[..|life.its|] == life.its;
  }

  lemma ExtensionIsGood(longer: Life, life: Life, it: Iteration, d: nat)
    requires Extends(longer, life, it) && Good(life, d) && Timely([it], d) && GoodEvent(it.event)
    requires AfterEvent(StateOf(life), life.user, it.event).1
    ensures Good(longer, d)
  {
    assert it in [it];
    assert forall x | x in longer.its :: x in Before(longer).its || x == LastIteration(longer);
  }

  lemma ExtensionComesTo(longer: Life, life: Life, it: Iteration, d: nat, k: nat)
    requires Extends(longer, life, it) && Good(life, d) && Good(longer, d) && AtMostSilent(life, d, k)
    requires Touching(it, life.user) || Silent(life, d) < k
    ensures AtMostSilent(longer, d, k)
    ensures Touches(longer, d) ==
            Touches(life, d) + if Touching(it, life.user) then [EndOf(life) + it.wait + it.at] else []
    ensures Silent(longer, d) == if Touching(it, life.user) then 0 else Silent(life, d) + 1
    ensures EndOf(longer) == EndOf(life) + it.wait + it.work
  {
  }

  /** One more iteration, which does not make the client leave its loop. */
  lemma OneMoreIteration(life: Life, d: nat, k: nat, it: Iteration) returns (longer: Life)
    requires Good(life, d) && AtMostSilent(life, d, k) && Timely([it], d) && GoodEvent(it.event)
    requires AfterEvent(StateOf(life), life.user, it.event).1 && (Touching(it, life.user) || Silent(life, d) < k)
    ensures longer == life.(its := life.its + [it]) && Good(longer, d) && AtMostSilent(longer, d, k)
    ensures Touches(longer, d) ==
            Touches(life, d) + if Touching(it, life.user) then [EndOf(life) + it.wait + it.at] else []
    ensures Silent(longer, d) == if Touching(it, life.user) then 0 else Silent(life, d) + 1
    ensures EndOf(longer) == EndOf(life) + it.wait + it.work
  {
    longer := Extension(life, it);
    ExtensionIsGood(longer, life, it, d);
    ExtensionComesTo(longer, life, it, d, k);
  }

  lemma {:induction false} IdlingLife(user: string, d: nat, k: nat, n: nat)
    requires user != "" && n <= k
    ensures var life := IdleFor(user, d, n);
            && Good(life, d) && Silent(life, d) == n && AtMostSilent(life, d, k)
            && Touches(life, d) == [0] && EndOf(life) == n * (POLL + d) + d
  {
    if n > 0 {
      IdlingLife(user, d, k, n - 1);
      IdleOnceMore(user, d, n);
      Times(n - 1, n, POLL + d);
      var life := OneMoreIteration(IdleFor(user, d, n - 1), d, k, Iteration(Interrupted, POLL, d, 0));
    }
  }

  /** Beyond the timeout the bound does not protect: some client, silent for no more iterations in a
      row than allowed and with every touch delivered in time, is taken for dead. */
  lemma LateClientIsReaped(user: string, d: nat, k: nat)
    returns (life: Life, run: seq<Server>, labels: seq<ServerSteps.Label>, i: nat)
    requires user != "" && Gap(k, d) > TIMEOUT
    ensures life.user == user && Misjudges(life, d, k, run, labels, i)
  {
    life := GapIsReached(user, d, k);
    run, labels := LoginThenSilence(user, Gap(k, d));
    i := 6;
    assert TouchStep(run[1], labels[1], user);
  }

  /** The server serves a login at once. */
  lemma LoginServed(user: string) returns (run: seq<Server>, labels: seq<ServerSteps.Label>)
    requires user != ""
    ensures IsRun(run, labels) && |labels| == 5 && TouchStep(run[1], labels[1], user)
    ensures forall j | 0 <= j < 6 :: run[j].now == 0
    ensures run[5].reaper.Idle? && run[5].sessions.lastSeen == map[user := 0]
  {
    var act := Act(0, None);
    labels := [ServerSteps.Begin(LoginReq(user)), act, act, act, Finish];
    var s0 := Initial(0);
    var s1 := Step(s0, labels[0]);
    var s2 := Step(s1, act);
    assert s2 == s1.(sessions := S.Touched(S.NO_SESSIONS, user, 0), touchedAt := map[user := 0], handler := Busy(LoginReq(user), 1));
    var s3 := Step(s2, act);
    assert s3 == s2.(sessions := S.Created(s2.sessions, user, 0), handler := Busy(LoginReq(user), 2));
    var s4 := Step(s3, act);
    assert s4 == s3.(members := {(GENERAL, user)}, handler := Busy(LoginReq(user), 3));
    run := [s0, s1, s2, s3, s4, Step(s4, Finish)];
  }

  /** And hears nothing more until a snapshot at `now`. */
  lemma LoginThenSilence(user: string, now: nat) returns (run: seq<Server>, labels: seq<ServerSteps.Label>)
    requires user != "" && now > TIMEOUT
    ensures IsRun(run, labels) && |labels| == 7 && labels[6] == Snapshot([user]) && run[6].now == now
    ensures TouchStep(run[1], labels[1], user) && run[1].now == 0
    ensures forall j | 0 <= j < 7 :: run[j].now >= 0
  {
    run, labels := LoginServed(user);
    var tick, snapshot := Tick(now), Snapshot([user]);
    var s := Step(run[5], tick);
    run, labels := run + [s, Step(s, snapshot)], labels + [tick, snapshot];
  }

  /** The guarantee holds exactly as far as the bound on the silence stays within the timeout. */
  lemma SafeIffGapWithinTimeout(user: string, d: nat, k: nat)
    requires user != ""
    ensures (forall life: Life, run, labels, i :: life.user == user ==> !Misjudges(life, d, k, run, labels, i)) <==>
            Gap(k, d) <= TIMEOUT
  {
    if Gap(k, d) <= TIMEOUT {
      forall life: Life, run, labels, i | life.user == user
        ensures !Misjudges(life, d, k, run, labels, i)
      {
        if Misjudges(life, d, k, run, labels, i) {
          LiveClientNeverDead(life, d, k, run, labels, i);
        }
      }
    } else {
      var life, run, labels, i := LateClientIsReaped(user, d, k);
    }
  }
}
