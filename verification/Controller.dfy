/** The controller thread of the client: one loop over shutdown messages, command lines and the
    two-second timeout, with one request to the server per iteration at most. */
module ClientController {
  import opened Basics
  import opened Envelopes
  import opened ReqRep
  import opened Commands
  import opened RoomListing

  const OK := 0
  const QUIT := 1001
  const ERROR_GENERAL := -1
  const ERROR_REQ_SEND := -1001

  // ------------------------------------------------------------------ texts, byte by byte

  const NO_ROOM_LIST := "could not get rooms list"
  const JOIN_FAILED := "B\U{C5}\U{82}\U{C4}\U{85}d do\U{C5}\U{82}\U{C4}\U{85}czania do pokoju."
  const LEAVE_FAILED := "error leaving room"
  const MESSAGE_SENT := "[ACK] message sent"
  const UNKNOWN_COMMAND := "Nieznana komenda."

  /** The C code sends the first `n` bytes of some of its texts. */
  function First(n: nat, text: string): string {
    text[..Min(n, |text|)]
  }

  const MESSAGE_FAILED := First(31, "[ERR] B\U{C5}\U{82}\U{C4}\U{85}d wysy\U{C5}\U{82}ania wiadomo\U{C5}\U{9B}ci")
  const MESSAGE_USAGE := First(35, "U\U{C5}\U{BC}ycie: /msg <nazwa_pokoju> <tre\U{C5}\U{9B}\U{C4}\U{87}>")
  const DIRECT_SENT := First(32, "[ACK] Wiadomo\U{C5}\U{9B}\U{C4}\U{87} prywatna wys\U{C5}\U{82}ana")
  const DIRECT_FAILED := First(23, "[ERR] B\U{C5}\U{82}\U{C4}\U{85}d wysy\U{C5}\U{82}ania DM")
  const DIRECT_USAGE := First(32, "U\U{C5}\U{BC}ycie: /dm <u\U{C5}\U{BC}ytkownik> <tre\U{C5}\U{9B}\U{C4}\U{87}>")

  /** A buffer of 256 characters for the server's word, one of 128 for the receiver's command. */
  function ServerSays(message: string): string {
    First(255, "[SERWER]: " + message)
  }

  function FilterCommand(sign: string, room: string): string {
    First(127, sign + RoomTopic(room))
  }

  // ------------------------------------------------------------------ what a command asks and does

  function LoginEnvelope(user: string): Envelope {
    Envelope("req-login", LoginReq(user))
  }

  function PingEnvelope(user: string): Envelope {
    Envelope("heartbeat-ping", Heartbeat(user))
  }

  function LogoutEnvelope(user: string): Envelope {
    Envelope("cmd-logout", LogoutReq(user))
  }

  /** The request a command sends; the room list names no user, and a malformed message asks nothing. */
  function RequestFor(c: Command, user: string): Option<Envelope> {
    match c
    case ListRooms => Some(Envelope("cmd-rooms", ListRoomsReq("")))
    case JoinRoom(room) => Some(Envelope("cmd-join", JoinRoomReq(room, user)))
    case LeaveRoom(room) => Some(Envelope("cmd-leave", LeaveRoomReq(room, user)))
    case RoomMessage(text) =>
      (match Split(text)
       case (Some(room), Some(content)) => Some(Envelope("cmd-msg", RoomMsg(room, user, content)))
       case _ => None)
    case DirectMessage(text) =>
      (match Split(text)
       case (Some(to), Some(content)) => Some(Envelope("cmd-dm", DirectMsg(to, user, content)))
       case _ => None)
    case _ => None
  }

  datatype Reaction = Reaction(toUi: seq<string>, toReceiver: seq<string>, code: int)

  /** What is sent to the other threads, and the result, once the server has answered or not. */
  function ReactTo(c: Command, asked: bool, got: Option<Envelope>): Reaction {
    match c
    case Quit => Reaction([], [], QUIT)
    case ListRooms =>
      if got == None then Reaction([], [], ERROR_REQ_SEND)
      else if got.value.payload.ListRoomsResp? then
        var rooms := got.value.payload.rooms;
        Reaction([First(BUFFER_SIZE - 1, Listing(|rooms|, rooms))], [], OK)
      else Reaction([NO_ROOM_LIST], [], OK)
    case JoinRoom(room) =>
      if got == None then Reaction([], [], ERROR_REQ_SEND)
      else if got.value.payload.Ack? then
        Reaction([ServerSays(got.value.payload.message)], [FilterCommand("+", room)], OK)
      else Reaction([JOIN_FAILED], [], OK)
    case LeaveRoom(room) =>
      if got == None then Reaction([], [], ERROR_REQ_SEND)
      else if got.value.payload.Ack? then
        Reaction([ServerSays(got.value.payload.message)], [FilterCommand("-", room)], OK)
      else Reaction([LEAVE_FAILED], [], OK)
    case RoomMessage(_) =>
      Reaction([if !asked then MESSAGE_USAGE else if got.Some? then MESSAGE_SENT else MESSAGE_FAILED], [], OK)
    case DirectMessage(_) =>
      Reaction([if !asked then DIRECT_USAGE else if got.Some? then DIRECT_SENT else DIRECT_FAILED], [], OK)
    case Unknown => Reaction([UNKNOWN_COMMAND], [], |UNKNOWN_COMMAND|)
  }

  /** The socket, what was sent to the other threads, and every request the controller tried to send. */
  datatype CtlState = CtlState(req: ReqState, toUi: seq<string>, toReceiver: seq<string>, attempts: seq<Envelope>)

  function AfterExchange(s: CtlState, env: Envelope, net: Net): (CtlState, Option<Envelope>) {
    var (r, got) := Exchanged(s.req, env, net);
    (s.(req := r, attempts := s.attempts + [env]), got)
  }

  function AfterCommand(s: CtlState, user: string, c: Command, net: Net): (CtlState, int) {
    var asked := RequestFor(c, user);
    var (t, got) := if asked.Some? then AfterExchange(s, asked.value, net) else (s, None);
    var r := ReactTo(c, asked.Some?, got);
    (t.(toUi := t.toUi + r.toUi, toReceiver := t.toReceiver + r.toReceiver), r.code)
  }

  /** What the UI sends: a line of 1 to 511 characters that reaches its handler's fixed offset. */
  predicate GoodLine(line: string) {
    0 < |line| <= 511 && NUL !in line && LongEnough(line)
  }

  /** A room list that the fixed buffer can take, but for the end of its last line. */
  predicate FitsBuffer(wire: Wire) {
    wire.Packed? && wire.env.payload.ListRoomsResp? ==>
      var rooms := wire.env.payload.rooms;
      && (forall r | r in rooms :: Printable(r.name))
      && |Listing(|rooms|, AllButLast(rooms))| <= BUFFER_SIZE
  }

  class Controller {
    const username: string
    const req: ReqSocket
    var toUi: seq<string>
    var toReceiver: seq<string>
    var attempts: seq<Envelope>

    ghost predicate Ready()
      reads this, req
    {
      Valid(req.state) && forall r | r in req.state.inbound :: FitsBuffer(r.wire)
    }

    ghost function State(): CtlState
      reads this, req
    {
      CtlState(req.state, toUi, toReceiver, attempts)
    }

    constructor (username: string)
      ensures this.username == username && fresh(req) && Ready()
      ensures State() == CtlState(UNUSED, [], [], [])
    {
      this.username := username;
      req := new ReqSocket();
      toUi, toReceiver, attempts := [], [], [];
    }

    method Exchange(env: Envelope, net: Net) returns (got: Option<Envelope>)
      requires Ready() && FitsBuffer(net.answer)
      modifies this`attempts, req
      ensures Ready()
      ensures (State(), got) == AfterExchange(old(State()), env, net)
      ensures got.Some? ==> FitsBuffer(Packed(got.value))
    {
      attempts := attempts + [env];
      got := SendAndRecvEnv(req, env, net);
    }

    /** One answer to the UI, and the command to the receiver if there is one. */
    method Tell(ui: seq<string>, receiver: seq<string>)
      modifies this`toUi, this`toReceiver
      ensures toUi == old(toUi) + ui && toReceiver == old(toReceiver) + receiver
    {
      toUi, toReceiver := toUi + ui, toReceiver + receiver;
    }

    method HandleRoomList(net: Net) returns (result: int)
      requires Ready() && FitsBuffer(net.answer)
      modifies this, req
      ensures Ready()
      ensures (State(), result) == AfterCommand(old(State()), username, ListRooms, net)
    {
      var got := Exchange(Envelope("cmd-rooms", ListRoomsReq("")), net);
      if got == None {
        assert toUi + [] == toUi && toReceiver + [] == toReceiver;
        return ERROR_REQ_SEND;
      }
      var text := NO_ROOM_LIST;
      if got.value.payload.ListRoomsResp? {
        var outBuf := new char[BUFFER_SIZE](_ => NUL);
        var rooms := got.value.payload.rooms;
        OverrunsIff(rooms);
        var offset, _ := RenderRooms(rooms, outBuf);
        text := CStr(outBuf[..], 0);
        CStrEndsAt(outBuf[..], 0, Min(offset, BUFFER_SIZE - 1));
        assert text == First(BUFFER_SIZE - 1, Listing(|rooms|, rooms));
      }
      Tell([text], []);
      result := OK;
    }

    method HandleRoomJoin(room: string, net: Net) returns (result: int)
      requires Ready() && FitsBuffer(net.answer)
      modifies this, req
      ensures Ready()
      ensures (State(), result) == AfterCommand(old(State()), username, JoinRoom(room), net)
    {
      var got := Exchange(Envelope("cmd-join", JoinRoomReq(room, username)), net);
      if got == None {
        assert toUi + [] == toUi && toReceiver + [] == toReceiver;
        return ERROR_REQ_SEND;
      }
      if got.value.payload.Ack? {
        Tell([ServerSays(got.value.payload.message)], [FilterCommand("+", room)]);
      } else {
        Tell([JOIN_FAILED], []);
      }
      result := OK;
    }

    method HandleRoomLeave(room: string, net: Net) returns (result: int)
      requires Ready() && FitsBuffer(net.answer)
      modifies this, req
      ensures Ready()
      ensures (State(), result) == AfterCommand(old(State()), username, LeaveRoom(room), net)
    {
      var got := Exchange(Envelope("cmd-leave", LeaveRoomReq(room, username)), net);
      if got == None {
        assert toUi + [] == toUi && toReceiver + [] == toReceiver;
        return ERROR_REQ_SEND;
      }
      if got.value.payload.Ack? {
        Tell([ServerSays(got.value.payload.message)], [FilterCommand("-", room)]);
      } else {
        Tell([LEAVE_FAILED], []);
      }
      result := OK;
    }

    method HandleMessageRoom(line: array<char>, ghost end: nat, net: Net) returns (result: int)
      requires Ready() && FitsBuffer(net.answer) && EndsAt(line[..], 5, end)
      modifies this, req, line
      ensures Ready()
      ensures (State(), result) == AfterCommand(old(State()), username, RoomMessage(old(line[..])[5..end]), net)
    {
      var room, content := SplitInPlace(line, 5, end);
      if room.Some? && content.Some? {
        var got := Exchange(Envelope("cmd-msg", RoomMsg(room.value, username, content.value)), net);
        Tell([if got.Some? then MESSAGE_SENT else MESSAGE_FAILED], []);
      } else {
        Tell([MESSAGE_USAGE], []);
      }
      result := OK;
    }

    method HandleMessageDirect(line: array<char>, ghost end: nat, net: Net) returns (result: int)
      requires Ready() && FitsBuffer(net.answer) && EndsAt(line[..], 4, end)
      modifies this, req, line
      ensures Ready()
      ensures (State(), result) == AfterCommand(old(State()), username, DirectMessage(old(line[..])[4..end]), net)
    {
      var target, content := SplitInPlace(line, 4, end);
      if target.Some? && content.Some? {
        var got := Exchange(Envelope("cmd-dm", DirectMsg(target.value, username, content.value)), net);
        Tell([if got.Some? then DIRECT_SENT else DIRECT_FAILED], []);
      } else {
        Tell([DIRECT_USAGE], []);
      }
      result := OK;
    }

    /** `received` is what the PAIR socket delivered; an empty or failed receive is an error. */
    method HandleMessageUi(received: string, net: Net) returns (result: int)
      requires Ready() && FitsBuffer(net.answer) && (received == "" || GoodLine(received))
      modifies this, req
      ensures Ready()
      ensures (State(), result) == AfterLine(old(State()), username, received, net)
    {
      if received == "" {
        return ERROR_GENERAL;
      }
      var cmdBuf := new char[512](_ => NUL);
      for i := 0 to |received|
        invariant cmdBuf[..i] == received[..i]
        invariant forall k | i <= k < 512 :: cmdBuf[k] == NUL
        modifies cmdBuf
      {
        cmdBuf[i] := received[i];
      }
      ghost var end := |received|;
      assert cmdBuf[..end] == received;
      assert EndsAt(cmdBuf[..], 0, end);
      var line := CStr(cmdBuf[..], 0);
      assert line == received;
      if line == "/quit" {
        assert toUi + [] == toUi && toReceiver + [] == toReceiver;
        return QUIT;
      }
      if line == "/rooms" {
        result := HandleRoomList(net);
      } else if "/join" <= line {
        result := HandleRoomJoin(line[6..], net);
      } else if "/leave" <= line {
        result := HandleRoomLeave(line[7..], net);
      } else if "/msg" <= line {
        assert cmdBuf[..][5..end] == line[5..];
        result := HandleMessageRoom(cmdBuf, end, net);
      } else if "/dm" <= line {
        assert cmdBuf[..][4..end] == line[4..];
        result := HandleMessageDirect(cmdBuf, end, net);
      } else {
        Tell([UNKNOWN_COMMAND], []);
        result := |UNKNOWN_COMMAND|;
      }
    }
  }

  function AfterLine(s: CtlState, user: string, received: string, net: Net): (CtlState, int)
    requires received == "" || GoodLine(received)
  {
    if received == "" then (s, ERROR_GENERAL) else AfterCommand(s, user, Dispatch(received), net)
  }

  // ------------------------------------------------------------------ the loop

  const KILL := "KILL_CONTROLLER"

  /** One return of the poll: interrupted, failed, or with what came in: a shutdown message, a line
      from the UI, both, or neither when two seconds have passed. `net` is the exchange it leads to. */
  datatype Event =
    | Interrupted
    | PollFailed
    | Polled(shutdown: Option<string>, line: Option<string>, net: Net)

  predicate GoodEvent(e: Event) {
    e.Polled? ==> FitsBuffer(e.net.answer) && (e.line.Some? ==> e.line.value == "" || GoodLine(e.line.value))
  }

  /** One iteration: the new state, and whether the loop goes on. */
  function AfterEvent(s: CtlState, user: string, e: Event): (CtlState, bool)
    requires GoodEvent(e)
  {
    match e
    case Interrupted => (s, true)
    case PollFailed => (s, false)
    case Polled(shutdown, line, net) =>
      if shutdown == Some(KILL) then (s, false)
      else if line.Some? then
        var (t, code) := AfterLine(s, user, line.value, net);
        (t, code >= 0 && code != QUIT)
      else if shutdown.None? then (AfterExchange(s, PingEnvelope(user), net).0, true)
      else (s, true)
  }

  /** The loop over a run of events; once left it does not come back. */
  function AfterEvents(s: CtlState, user: string, events: seq<Event>): (CtlState, bool)
    requires forall e | e in events :: GoodEvent(e)
  {
    if events == [] then (s, true)
    else
      var (t, goesOn) := AfterEvents(s, user, events[..|events| - 1]);
      if goesOn then AfterEvent(t, user, events[|events| - 1]) else (t, false)
  }

  predicate LoggedIn(got: Option<Envelope>) {
    got.Some? && got.value.payload.LoginResp? && got.value.payload.status == StatusOk
  }

  datatype Outcome = LoginFailed | StillRunning | LoggedOut(acknowledged: bool)

  predicate Acknowledged(got: Option<Envelope>) {
    got.Some? && got.value.payload.Ack?
  }

  /** The whole thread: login, the loop, and one logout once the loop is left. */
  function Session(s: CtlState, user: string, login: Net, events: seq<Event>, logout: Net): (CtlState, Outcome)
    requires forall e | e in events :: GoodEvent(e)
  {
    var (a, got) := AfterExchange(s, LoginEnvelope(user), login);
    if !LoggedIn(got) then (a, LoginFailed)
    else
      var (b, goesOn) := AfterEvents(a, user, events);
      if goesOn then (b, StillRunning)
      else
        var (c, reply) := AfterExchange(b, LogoutEnvelope(user), logout);
        (c, LoggedOut(Acknowledged(reply)))
  }

  method HandleEvent(ctl: Controller, e: Event) returns (goesOn: bool)
    requires ctl.Ready() && GoodEvent(e)
    modifies ctl, ctl.req
    ensures ctl.Ready()
    ensures (ctl.State(), goesOn) == AfterEvent(old(ctl.State()), ctl.username, e)
  {
    goesOn := true;
    match e {
      case Interrupted =>
      case PollFailed => goesOn := false;
      case Polled(shutdown, line, net) =>
        if shutdown == Some(KILL) {
          goesOn := false;
        } else if line.Some? {
          var result := ctl.HandleMessageUi(line.value, net);
          goesOn := result >= 0 && result != QUIT;
        } else if shutdown.None? {
          var _ := ctl.Exchange(PingEnvelope(ctl.username), net);
        }
    }
  }

  /** The controller thread, for the events that come in while it runs. */
  method RoutineChatController(ctl: Controller, login: Net, events: seq<Event>, logout: Net) returns (outcome: Outcome)
    requires ctl.Ready() && FitsBuffer(login.answer) && FitsBuffer(logout.answer)
    requires forall e | e in events :: GoodEvent(e)
    modifies ctl, ctl.req
    ensures (ctl.State(), outcome) == Session(old(ctl.State()), ctl.username, login, events, logout)
  {
    var got := ctl.Exchange(LoginEnvelope(ctl.username), login);
    if !LoggedIn(got) {
      return LoginFailed;
    }
    ghost var start := ctl.State();
    var goesOn := true;
    for i := 0 to |events|
      invariant ctl.Ready()
      invariant goesOn && (ctl.State(), true) == AfterEvents(start, ctl.username, events[..i])
    {
      assert events[..i + 1][..i] == events[..i];
      goesOn := HandleEvent(ctl, events[i]);
      if !goesOn {
        LeftForGood(start, ctl.username, events, i + 1);
        break;
      }
    }
    if goesOn {
      assert events[..|events|] == events;
      return StillRunning;
    }
    var reply := ctl.Exchange(LogoutEnvelope(ctl.username), logout);
    outcome := LoggedOut(Acknowledged(reply));
  }

  lemma {:induction false} LeftForGood(s: CtlState, user: string, events: seq<Event>, i: nat)
    requires forall e | e in events :: GoodEvent(e)
    requires i <= |events| && !AfterEvents(s, user, events[..i]).1
    ensures AfterEvents(s, user, events) == AfterEvents(s, user, events[..i])
  {
    if i == |events| {
      assert events[..i] == events;
    } else {
      var rest := events[..|events| - 1];
      assert rest[..i] == events[..i];
      LeftForGood(s, user, rest, i);
    }
  }
}
