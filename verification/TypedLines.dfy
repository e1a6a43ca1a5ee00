/** What a line typed at the terminal comes to: what the UI sends, what the controller asks of the server
    and answers, and whether its loop goes on. */
module TypedLines {
  import opened Basics
  import opened Envelopes
  import opened ReqRep
  import opened Commands
  import opened RoomListing
  import opened ClientController
  import opened Lockstep

  // ------------------------------------------------------------------ reading a line

  predicate OneLine(line: string) {
    '\r' !in line && '\n' !in line
  }

  /** What follows a line: nothing, or its line break and anything behind it. */
  predicate Break(tail: string) {
    tail == "" || tail[0] == '\r' || tail[0] == '\n'
  }

  lemma {:induction false} StopAtBreak(line: string, tail: string, p: nat)
    requires OneLine(line) && Break(tail) && p <= |line|
    ensures Stop(line + tail, p, "\r\n", false) == |line|
    decreases |line| - p
  {
    if p < |line| {
      assert (line + tail)[p] == line[p] && line[p] in line;
      StopAtBreak(line, tail, p + 1);
    } else if tail != "" {
      assert (line + tail)[p] == tail[0];
    }
  }

  /** The UI sends just the line, whole and without its line break, unless it is empty; it then leaves
      after `/quit`, and waits for the answer to any other line. */
  lemma LineIsSent(line: string, tail: string)
    requires OneLine(line) && Break(tail)
    ensures UiSends(Some(line + tail)) == if line == "" then [] else [line]
    ensures UiActs(Some(line + tail)) == if line == "" then Prompt else if line == "/quit" then Leave else Await
    ensures UiSends(None) == [] && UiActs(None) == Leave
  {
    StopAtBreak(line, tail, 0);
    assert (line + tail)[..|line|] == line;
  }

  // ------------------------------------------------------------------ what the controller asks

  predicate Usable(s: CtlState, net: Net) {
    !s.req.awaiting && !net.sendFails
  }

  /** The controller takes the line and sends exactly this payload. */
  predicate Asks(s: CtlState, user: string, line: string, net: Net, p: Payload)
    requires GoodLine(line)
  {
    var t := AfterLine(s, user, line, net).0;
    && |t.req.sent| == |s.req.sent| + 1 && s.req.sent <= t.req.sent
    && t.req.sent[|s.req.sent|].payload == p
  }

  /** The commands a user may print, with the payloads they stand for. */
  datatype Printed =
    | PrintedRooms
    | PrintedJoin(room: string)
    | PrintedLeave(room: string)
    | PrintedMessage(room: string, content: string)
    | PrintedDirect(to: string, content: string)

  function Print(c: Printed): string {
    match c
    case PrintedRooms => "/rooms"
    case PrintedJoin(r) => "/join" + " " + r
    case PrintedLeave(r) => "/leave" + " " + r
    case PrintedMessage(r, content) => "/msg" + " " + (r + " " + content)
    case PrintedDirect(to, content) => "/dm" + " " + (to + " " + content)
  }

  /** A message needs a name without blanks and a content. */
  predicate Printable(c: Printed) {
    match c
    case PrintedMessage(r, content) => r != "" && ' ' !in r && content != ""
    case PrintedDirect(to, content) => to != "" && ' ' !in to && content != ""
    case _ => true
  }

  function Meant(c: Printed, user: string): Payload {
    match c
    case PrintedRooms => ListRoomsReq("")
    case PrintedJoin(r) => JoinRoomReq(r, user)
    case PrintedLeave(r) => LeaveRoomReq(r, user)
    case PrintedMessage(r, content) => RoomMsg(r, user, content)
    case PrintedDirect(to, content) => DirectMsg(to, user, content)
  }

  lemma RequestGoesOut(s: CtlState, user: string, line: string, net: Net, env: Envelope)
    requires GoodLine(line) && Usable(s, net) && RequestFor(Dispatch(line), user) == Some(env)
    ensures Asks(s, user, line, net, env.payload)
  {
    assert Exchanged(s.req, env, net).0.sent == s.req.sent + [env];
  }

  lemma RoomsLine()
    ensures GoodLine("/rooms") && Dispatch("/rooms") == ListRooms
  {
    CommandLetter("/rooms");
  }

  lemma MessageMeans(c: Command, name: string, content: string, user: string)
    requires c.RoomMessage? || c.DirectMessage?
    requires Split(c.text) == (Some(name), Some(content))
    ensures RequestFor(c, user) == Some(if c.RoomMessage? then Envelope("cmd-msg", RoomMsg(name, user, content))
                                        else Envelope("cmd-dm", DirectMsg(name, user, content)))
  {
  }

  lemma PrintedMeans(c: Printed, user: string) returns (env: Envelope)
    requires Printable(c) && GoodLine(Print(c))
    ensures RequestFor(Dispatch(Print(c)), user) == Some(env) && env.payload == Meant(c, user)
  {
    match c {
      case PrintedRooms =>
        RoomsLine();
        env := Envelope("cmd-rooms", ListRoomsReq(""));
      case PrintedJoin(r) =>
        JoinAndLeaveUndoPrint(r);
        env := Envelope("cmd-join", JoinRoomReq(r, user));
      case PrintedLeave(r) =>
        JoinAndLeaveUndoPrint(r);
        env := Envelope("cmd-leave", LeaveRoomReq(r, user));
      case PrintedMessage(r, content) =>
        ParseUndoesPrint(r, content);
        MessageMeans(Dispatch(Print(c)), r, content, user);
        env := Envelope("cmd-msg", RoomMsg(r, user, content));
      case PrintedDirect(to, content) =>
        ParseUndoesPrint(to, content);
        MessageMeans(Dispatch(Print(c)), to, content, user);
        env := Envelope("cmd-dm", DirectMsg(to, user, content));
    }
  }

  /** The printed command is the request that goes out. */
  lemma PrintedIsAsked(s: CtlState, user: string, c: Printed, net: Net)
    requires Printable(c) && GoodLine(Print(c)) && Usable(s, net)
    ensures Asks(s, user, Print(c), net, Meant(c, user))
  {
    var env := PrintedMeans(c, user);
    RequestGoesOut(s, user, Print(c), net, env);
  }

  /** From the terminal to the network: a command typed on a line of its own is read whole, sent to the
      controller, and asked of the server as it was meant. */
  lemma TypedIsAsked(s: CtlState, user: string, c: Printed, tail: string, net: Net)
    requires Printable(c) && OneLine(Print(c)) && Break(tail) && GoodLine(Print(c)) && Usable(s, net)
    ensures UiSends(Some(Print(c) + tail)) == [Print(c)] && UiActs(Some(Print(c) + tail)) == Await
    ensures Asks(s, user, UiSends(Some(Print(c) + tail))[0], net, Meant(c, user))
  {
    LineIsSent(Print(c), tail);
    PrintedIsAsked(s, user, c, net);
    CommandIsNotQuit(c);
  }

  lemma CommandIsNotQuit(c: Printed)
    ensures Print(c) != "" && Print(c) != "/quit"
  {
    assert Print(c)[1] == match c
                          case PrintedRooms => 'r'
                          case PrintedJoin(_) => 'j'
                          case PrintedLeave(_) => 'l'
                          case PrintedMessage(_, _) => 'm'
                          case PrintedDirect(_, _) => 'd';
  }

  /** Two seconds without input make it ping, for its own user; an interrupted or failed poll, a shutdown
      message and a quit line ask nothing. */
  lemma IdleAsks(s: CtlState, user: string, e: Event)
    requires GoodEvent(e)
    ensures var t := AfterEvent(s, user, e).0;
            && (e.Polled? && e.shutdown == None && e.line == None && Usable(s, e.net) ==>
                  |t.req.sent| == |s.req.sent| + 1 && s.req.sent <= t.req.sent &&
                  t.req.sent[|s.req.sent|].payload == Heartbeat(user))
            && ((!e.Polled? || (e.shutdown.Some? && e.line.None?) || e.shutdown == Some("KILL_CONTROLLER") ||
                 e.line == Some("/quit")) ==> t == s)
  {
  }

  // ------------------------------------------------------------------ when the loop is left

  /** The exchange hands an envelope back. */
  predicate Returns(s: CtlState, net: Net) {
    Usable(s, net) && !net.recvFails && net.answer.Packed?
  }

  /** Lines whose handlers fail without a reply. */
  predicate NeedsReply(line: string) {
    line == "/rooms" || "/join" <= line || "/leave" <= line
  }

  /** The loop is left exactly if the poll failed, the controller is told to shut down, the line is empty
      or quits, or a room list, join or leave brings nothing back. An interrupted poll, a ping, a message
      and an unknown line never leave it, whatever the network does. */
  lemma LoopIsLeftIff(s: CtlState, user: string, e: Event)
    requires GoodEvent(e) && Valid(s.req)
    ensures !AfterEvent(s, user, e).1 <==>
            || e.PollFailed?
            || (e.Polled? && e.shutdown == Some("KILL_CONTROLLER"))
            || (e.Polled? && e.line.Some? &&
                (e.line.value in {"", "/quit"} || (NeedsReply(e.line.value) && !Returns(s, e.net))))
  {
  }

  // ------------------------------------------------------------------ what the user is told

  /** What the controller says to the UI in answer to a line. */
  predicate Says(s: CtlState, user: string, line: string, net: Net, text: string)
    requires GoodLine(line)
  {
    AfterLine(s, user, line, net).0.toUi == s.toUi + [text]
  }

  /** A message is confirmed exactly if a reply came back, and the user is told how to write one exactly if
      the line holds no message. */
  lemma MessageAnswers(s: CtlState, user: string, line: string, net: Net)
    requires GoodLine(line) && Valid(s.req) && (Dispatch(line).RoomMessage? || Dispatch(line).DirectMessage?)
    ensures var (name, content) := Split(Dispatch(line).text);
            var toRoom := Dispatch(line).RoomMessage?;
            Says(s, user, line, net,
              if name.None? || content.None? then (if toRoom then MESSAGE_USAGE else DIRECT_USAGE)
              else if Returns(s, net) then (if toRoom then MESSAGE_SENT else DIRECT_SENT)
              else (if toRoom then MESSAGE_FAILED else DIRECT_FAILED))
  {
  }

  /** Success and failure can be told apart. */
  lemma TextsStart()
    ensures "[ACK]" <= MESSAGE_SENT && "[ACK]" <= DIRECT_SENT && "[ERR]" <= MESSAGE_FAILED && "[ERR]" <= DIRECT_FAILED
  {
  }

  /** Any other line is answered at once and asks nothing. */
  lemma UnknownAnswers(s: CtlState, user: string, line: string, net: Net)
    requires GoodLine(line) && line != "/quit" && !NeedsReply(line) && !("/msg" <= line) && !("/dm" <= line)
    ensures Says(s, user, line, net, "Nieznana komenda.") && AfterLine(s, user, line, net).0.req == s.req
  {
  }

  /** A join or leave shows the server's own words exactly if it acknowledges. */
  lemma RoomAnswers(s: CtlState, user: string, line: string, net: Net)
    requires GoodLine(line) && Valid(s.req) && (Dispatch(line).JoinRoom? || Dispatch(line).LeaveRoom?)
    requires Returns(s, net)
    ensures net.answer.env.payload.Ack? ==>
              Says(s, user, line, net, First(255, "[SERWER]: " + net.answer.env.payload.message))
    ensures !net.answer.env.payload.Ack? ==> exists text :: Says(s, user, line, net, text) && !("[SERWER]: " <= text)
  {
    if !net.answer.env.payload.Ack? {
      var text := if Dispatch(line).JoinRoom? then JOIN_FAILED else LEAVE_FAILED;
      assert Says(s, user, line, net, text);
      assert text[0] != '[';
    }
  }

  /** The room list shows the rooms of the reply, as far as they fit. */
  lemma ListAnswers(s: CtlState, user: string, net: Net)
    requires Valid(s.req) && Returns(s, net) && net.answer.env.payload.ListRoomsResp?
    ensures var rooms := net.answer.env.payload.rooms;
            GoodLine("/rooms") && Says(s, user, "/rooms", net, First(1023, Listing(|rooms|, rooms)))
  {
    RoomsLine();
  }

  // ------------------------------------------------------------------ logging in

  /** With a server that gives the reply it owes, the login fails exactly if no reply comes back or the name
      is empty. */
  lemma LoginFailsIff(s: CtlState, user: string, login: Net, events: seq<Event>, logout: Net)
    requires Valid(s.req) && (forall e | e in events :: GoodEvent(e))
    requires Honest(AfterSend(s.req, LoginEnvelope(user), false), login.answer)
    ensures Session(s, user, login, events, logout).1.LoginFailed? <==> !Returns(s, login) || user == ""
  {
    if Usable(s, login) {
      OldestOwedIsNewest(s.req, LoginEnvelope(user));
    }
  }
}
