/** Who receives what the server publishes: the entries that a turn or the reaper adds to the publication
    log, against the filters of the receivers. */
module Delivery {
  import opened Basics
  import opened Rooms
  import opened Envelopes
  import opened ClientController
  import opened ClientRuns
  import opened ServerTurns
  import V = ServerSteps
  import W = Subscriptions
  import Composition

  /** What was published last. */
  function Newest(b: Picture): (string, Payload)
    requires b.published != []
  {
    b.published[|b.published| - 1]
  }

  predicate OneMorePublished(a: Picture, b: Picture) {
    b.published != [] && b.published == a.published + [Newest(b)]
  }

  /** What was published last reaches, of the receivers at rest, exactly those that listen to `room`. */
  ghost predicate ReachesListeners(b: Picture, w: W.World, room: string)
    requires b.published != []
  {
    forall user | user in w.clients && W.Quiescent(w.clients[user]) ::
      W.Receives(w.clients[user].filters, Newest(b).0) <==> W.ListensTo(w.clients[user], room)
  }

  lemma RoomTopicReaches(b: Picture, run: seq<W.World>, labels: seq<W.Label>, i: nat, room: string)
    requires W.IsRun(run, labels) && i < |run| && b.published != [] && Newest(b).0 == RoomTopic(room)
    ensures ReachesListeners(b, run[i], room)
  {
    forall user | user in run[i].clients && W.Quiescent(run[i].clients[user])
      ensures W.Receives(run[i].clients[user].filters, Newest(b).0) <==> W.ListensTo(run[i].clients[user], room)
    {
      W.RoomReceivers(run, labels, i, user, room);
    }
  }

  /** A room message is published once, unchanged, and reaches exactly the listeners of its room. */
  lemma RoomMessageDelivered(a: Picture, turn: Turn, c: Choice, room: string, sender: string, content: string,
                             run: seq<W.World>, labels: seq<W.Label>, i: nat)
    requires Handles(a, turn, RoomMsg(room, sender, content)) && W.IsRun(run, labels) && i < |run|
    ensures var b := AfterTurn(a, turn, c);
            OneMorePublished(a, b) && Newest(b).1 == RoomMsg(room, sender, content) && ReachesListeners(b, run[i], room)
  {
    RoomTopicReaches(AfterTurn(a, turn, c), run, labels, i, room);
  }

  /** A direct message is published once, unchanged, and reaches exactly the clients whose name is a prefix
      of the recipient's. */
  lemma DirectMessageDelivered(a: Picture, turn: Turn, c: Choice, to: string, sender: string, content: string,
                               run: seq<W.World>, labels: seq<W.Label>, i: nat)
    requires Handles(a, turn, DirectMsg(to, sender, content)) && W.IsRun(run, labels) && i < |run|
    ensures var b := AfterTurn(a, turn, c);
            && OneMorePublished(a, b) && Newest(b).1 == DirectMsg(to, sender, content)
            && forall user | user in run[i].clients && W.Quiescent(run[i].clients[user]) ::
                 W.Receives(run[i].clients[user].filters, Newest(b).0) <==> user <= to
  {
    forall user | user in run[i].clients && W.Quiescent(run[i].clients[user])
      ensures W.Receives(run[i].clients[user].filters, Newest(AfterTurn(a, turn, c)).0) <==> user <= to
    {
      W.DirectReceivers(run, labels, i, user, to);
    }
  }

  /** A notice of the given kind about `user` in `room`. */
  predicate NoticeOf(p: Payload, kind: NotificationType, room: string, user: string) {
    p.SystemNotif? && p.kind == kind && p.room == room && "user " + user <= p.message
  }

  /** A successful join is announced to the listeners of the room it enters, a leave to those of the room
      it leaves, a logout to those of the welcome room. */
  lemma NoticeDelivered(a: Picture, turn: Turn, c: Choice, p: Payload, run: seq<W.World>, labels: seq<W.Label>, i: nat)
    requires Handles(a, turn, p) && W.IsRun(run, labels) && i < |run|
    requires p.LeaveRoomReq? || ((p.JoinRoomReq? || p.LogoutReq?) && p.username != "")
    ensures var b, room := AfterTurn(a, turn, c), if p.LogoutReq? then GENERAL else p.room;
            && OneMorePublished(a, b) && ReachesListeners(b, run[i], room)
            && NoticeOf(Newest(b).1, if p.JoinRoomReq? then UserJoined else UserLeft, room, p.username)
  {
    var room := if p.LogoutReq? then GENERAL else p.room;
    RoomTopicReaches(AfterTurn(a, turn, c), run, labels, i, room);
  }

  /** All other payloads make the server publish nothing, and so do a join or logout without a name. */
  lemma NothingPublished(a: Picture, turn: Turn, c: Choice, p: Payload)
    requires Handles(a, turn, p) && !p.RoomMsg? && !p.DirectMsg? && !p.LeaveRoomReq?
    requires (p.JoinRoomReq? || p.LogoutReq?) ==> p.username == ""
    ensures AfterTurn(a, turn, c).published == a.published
  {
  }

  /** A user removed for its silence is announced to the listeners of the welcome room. */
  lemma TimeoutDelivered(a: Picture, user: string, deleted: Option<string>, run: seq<W.World>, labels: seq<W.Label>, i: nat)
    requires W.IsRun(run, labels) && i < |run|
    ensures var b := Reaped(a, user, deleted);
            && OneMorePublished(a, b) && NoticeOf(Newest(b).1, UserLeft, GENERAL, user)
            && ReachesListeners(b, run[i], GENERAL)
  {
    RoomTopicReaches(Reaped(a, user, deleted), run, labels, i, GENERAL);
  }

  /** From end to end: when the server handles a message to a room, what it then publishes is that message,
      and the receiver of every running client that the server counts a member of the room gets it; the
      room and the rooms that the client has left have names of at most 121 characters. */
  lemma MessageReachesMember(a: Picture, turn: Turn, choice: Choice, room: string, sender: string, content: string,
                             c: Client, srv: seq<V.Server>, steps: seq<V.Label>, i: nat)
    requires Handles(a, turn, RoomMsg(room, sender, content))
    requires GoodClient(c) && Composition.HonestLife(c) && W.LoginName(c.user) && EndOf(c).1.StillRunning?
    requires V.IsRun(srv, steps) && i < |srv| && srv[i].handler.Ready? && Composition.AllBegun(c, srv[i].begun)
    requires |room| <= 121 && forall r | LeaveRoomReq(r, c.user) in Payloads(Sent(c)) :: |r| <= 121
    requires (room, c.user) in srv[i].members
    ensures var b := AfterTurn(a, turn, choice);
            && OneMorePublished(a, b) && Newest(b).1 == RoomMsg(room, sender, content)
            && W.Receives(Composition.FiltersOf(c), Newest(b).0)
  {
    Composition.RunningMemberHears(c, srv, steps, i, room);
  }

  /** A direct message that the server handles reaches the receiver of a running client exactly if the
      client's name is a prefix of the recipient's. */
  lemma DirectMessageReaches(a: Picture, turn: Turn, choice: Choice, to: string, sender: string, content: string, c: Client)
    requires Handles(a, turn, DirectMsg(to, sender, content))
    requires GoodClient(c) && Composition.HonestLife(c) && W.LoginName(c.user)
    ensures var b := AfterTurn(a, turn, choice);
            && OneMorePublished(a, b) && Newest(b).1 == DirectMsg(to, sender, content)
            && (W.Receives(Composition.FiltersOf(c), Newest(b).0) <==> c.user <= to)
  {
    var run, labels := Composition.LifeProjects(c);
    W.DirectReceivers(run, labels, |run| - 1, c.user, to);
  }
}
