/** The client's request socket, which sends and receives strictly in turn (RFC 28/REQREP, section
    "The REQ Socket Type"), and the helper that exchanges one request for one reply on it. */
module ReqRep {
  import opened Basics
  import opened Envelopes

  /** A reply on its way, with the index of the request it answers. */
  datatype Reply = Reply(index: nat, wire: Wire)

  /** `sent`: requests handed to the network; `answered`: how many of them the peer has answered, in
      order; `inbound`: replies not yet received; `awaiting`: a receive is due before the next send. */
  datatype ReqState = ReqState(sent: seq<Envelope>, answered: nat, inbound: seq<Reply>, awaiting: bool)

  const UNUSED := ReqState([], 0, [], false)

  /** How the network treats one exchange: which socket call fails, and what the peer answers. */
  datatype Net = Net(sendFails: bool, recvFails: bool, answer: Wire)

  predicate Valid(s: ReqState) {
    && s.answered <= |s.sent|
    && |s.inbound| <= s.answered
    && |s.sent| == s.answered - |s.inbound| + (if s.awaiting then 1 else 0)
    && (forall i | 0 <= i < |s.inbound| :: s.inbound[i].index == s.answered - |s.inbound| + i)
  }

  /** Every reply under way is one that the request it answers is owed. */
  predicate HonestReplies(s: ReqState) {
    forall r | r in s.inbound :: r.index < |s.sent| && Answers(s.sent[r.index], r.wire)
  }

  /** The peer answers the oldest request it has not answered yet. */
  function PeerAnswers(s: ReqState, wire: Wire): ReqState
    requires s.answered < |s.sent|
  {
    s.(answered := s.answered + 1, inbound := s.inbound + [Reply(s.answered, wire)])
  }

  function AfterSend(s: ReqState, env: Envelope, fails: bool): ReqState {
    if s.awaiting || fails then s else s.(sent := s.sent + [env], awaiting := true)
  }

  /** Nothing has come and nothing is owed: a receive would block for ever. */
  predicate NothingDue(s: ReqState) {
    s.inbound == [] && s.answered >= |s.sent|
  }

  /** A receive blocks until a reply is there; a failed one leaves the socket waiting. */
  function AfterRecv(s: ReqState, net: Net): (ReqState, Option<Reply>) {
    if !s.awaiting || net.recvFails || NothingDue(s) then (s, None)
    else
      var t := if s.inbound == [] then PeerAnswers(s, net.answer) else s;
      (t.(inbound := t.inbound[1..], awaiting := false), Some(t.inbound[0]))
  }

  /** The peer answers the oldest request it owes a reply, and with a reply that request is owed. */
  predicate Honest(s: ReqState, wire: Wire) {
    s.answered < |s.sent| ==> Answers(s.sent[s.answered], wire)
  }

  function Unpacked(r: Option<Reply>): Option<Envelope> {
    if r.Some? && r.value.wire.Packed? then Some(r.value.wire.env) else None
  }

  /** Send, then receive, then unpack. */
  function Exchanged(s: ReqState, env: Envelope, net: Net): (ReqState, Option<Envelope>) {
    if s.awaiting || net.sendFails then (s, None)
    else
      var (t, r) := AfterRecv(AfterSend(s, env, false), net);
      (t, Unpacked(r))
  }

  class ReqSocket {
    var state: ReqState

    constructor ()
      ensures state == UNUSED
    {
      state := UNUSED;
    }

    method Send(env: Envelope, fails: bool) returns (rc: int)
      modifies this
      ensures state == AfterSend(old(state), env, fails)
      ensures rc < 0 <==> old(state).awaiting || fails
    {
      if state.awaiting || fails {
        return -1;
      }
      state := state.(sent := state.sent + [env], awaiting := true);
      rc := 0;
    }

    method Recv(net: Net) returns (reply: Option<Reply>)
      requires !NothingDue(state)
      modifies this
      ensures (state, reply) == AfterRecv(old(state), net)
    {
      if !state.awaiting || net.recvFails {
        return None;
      }
      if state.inbound == [] {
        state := PeerAnswers(state, net.answer);
      }
      reply := Some(state.inbound[0]);
      state := state.(inbound := state.inbound[1..], awaiting := false);
    }
  }

  method SendAndRecvEnv(socket: ReqSocket, env: Envelope, net: Net) returns (got: Option<Envelope>)
    requires Valid(socket.state)
    modifies socket
    ensures (socket.state, got) == Exchanged(old(socket.state), env, net)
    ensures Valid(socket.state)
  {
    ExchangeKeepsValid(socket.state, env, net);
    var rc := socket.Send(env, net.sendFails);
    if rc < 0 {
      return None;
    }
    var reply := socket.Recv(net);
    if reply == None || reply.value.wire.Garbage? {
      return None;
    }
    got := Some(reply.value.wire.env);
  }

  lemma ExchangeKeepsValid(s: ReqState, env: Envelope, net: Net)
    requires Valid(s)
    ensures var t := Exchanged(s, env, net).0;
            Valid(t) && (t.sent == s.sent || t.sent == s.sent + [env])
  {
  }

  /** Alternation leaves no older request open: a usable socket has every request answered and every
      reply received, so the oldest request owed a reply after a send is the one just sent. */
  lemma OldestOwedIsNewest(s: ReqState, env: Envelope)
    requires Valid(s) && !s.awaiting
    ensures var t := AfterSend(s, env, false);
            t.inbound == [] && t.answered == |t.sent| - 1 && t.sent[t.answered] == env
  {
  }

  /** The peer being honest towards the oldest request it owes, an envelope returned by an exchange
      answers the request sent in that same exchange: same message id, and the kind of reply that
      request is owed. */
  lemma ExchangeMatches(s: ReqState, env: Envelope, net: Net)
    requires Valid(s) && HonestReplies(s) && Honest(AfterSend(s, env, false), net.answer)
    ensures var (t, got) := Exchanged(s, env, net);
            && HonestReplies(t)
            && (got.Some? ==> t.sent == s.sent + [env] && !t.awaiting && Answers(env, Packed(got.value)))
  {
    if !s.awaiting && !net.sendFails {
      OldestOwedIsNewest(s, env);
    }
  }

  // ------------------------------------------------------------------ every run

  datatype ReqEvent = Call(env: Envelope, net: Net) | Late(wire: Wire)

  predicate Allowed(s: ReqState, e: ReqEvent) {
    match e
    case Call(env, net) => Honest(AfterSend(s, env, false), net.answer)
    case Late(wire) => s.answered < |s.sent| && Honest(s, wire)
  }

  function AfterReqEvent(s: ReqState, e: ReqEvent): (ReqState, Option<Envelope>)
    requires Allowed(s, e)
  {
    match e
    case Call(env, net) => Exchanged(s, env, net)
    case Late(wire) => (PeerAnswers(s, wire), None)
  }

  ghost predicate IsReqRun(run: seq<ReqState>, events: seq<ReqEvent>) {
    && |run| == |events| + 1 && run[0] == UNUSED
    && forall i | 0 <= i < |events| ::
         Allowed(run[i], events[i]) && run[i + 1] == AfterReqEvent(run[i], events[i]).0
  }

  /** In every state of every run the replies under way answer the oldest requests still owed one. */
  lemma {:induction false} RunStaysValid(run: seq<ReqState>, events: seq<ReqEvent>, i: nat)
    requires IsReqRun(run, events) && i < |run|
    ensures Valid(run[i]) && HonestReplies(run[i])
  {
    if i > 0 {
      RunStaysValid(run, events, i - 1);
      var s, e := run[i - 1], events[i - 1];
      assert run[i] == AfterReqEvent(s, e).0;
      if e.Call? {
        ExchangeKeepsValid(s, e.env, e.net);
        ExchangeMatches(s, e.env, e.net);
      }
    }
  }

  /** A reply that came late, after its receive had failed, is never handed to a later call: after one
      failed receive every later call sends nothing and returns nothing. */
  lemma {:induction false} FailedReceiveBlocksForEver(run: seq<ReqState>, events: seq<ReqEvent>, k: nat, i: nat)
    requires IsReqRun(run, events) && k < i < |events|
    requires events[k].Call? && !run[k].awaiting && !events[k].net.sendFails && events[k].net.recvFails
    ensures run[i].awaiting && AfterReqEvent(run[i], events[i]).1 == None
    ensures run[i].sent == run[k].sent + [events[k].env] == run[i + 1].sent
  {
    if i > k + 1 {
      FailedReceiveBlocksForEver(run, events, k, i - 1);
    }
    assert run[i] == AfterReqEvent(run[i - 1], events[i - 1]).0;
  }

  /** In every run, late replies included, whatever a call returns answers the request of that call. */
  lemma EveryCallMatches(run: seq<ReqState>, events: seq<ReqEvent>, i: nat)
    requires IsReqRun(run, events) && i < |events| && events[i].Call?
    ensures var got := AfterReqEvent(run[i], events[i]).1;
            got.Some? ==>
              run[i + 1].sent == run[i].sent + [events[i].env] && Answers(events[i].env, Packed(got.value))
  {
    RunStaysValid(run, events, i);
    ExchangeMatches(run[i], events[i].env, events[i].net);
    assert run[i + 1] == AfterReqEvent(run[i], events[i]).0;
  }

  /** In every run the socket is blocked exactly if some call got its request out and failed to
      receive: neither a failed send nor bytes that do not unpack block a later call. */
  lemma {:induction false} BlockedIff(run: seq<ReqState>, events: seq<ReqEvent>, i: nat)
    requires IsReqRun(run, events) && i < |run|
    ensures run[i].awaiting <==>
            exists k | 0 <= k < i :: events[k].Call? && !events[k].net.sendFails && events[k].net.recvFails
  {
    if i > 0 {
      BlockedIff(run, events, i - 1);
      RunStaysValid(run, events, i - 1);
      assert run[i] == AfterReqEvent(run[i - 1], events[i - 1]).0;
    }
  }
}
