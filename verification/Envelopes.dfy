/** The messages exchanged between client and server. */
module Envelopes {
  import opened Basics
  import opened Rooms

  datatype Status = StatusOk | StatusError

  datatype NotificationType = UserJoined | UserLeft

  datatype Payload =
    | LoginReq(username: string)
    | LoginResp(status: Status, token: string, errorMessage: string)
    | JoinRoomReq(room: string, username: string)
    | LeaveRoomReq(room: string, username: string)
    | ListRoomsReq(username: string)
    | ListRoomsResp(status: Status, rooms: seq<RoomInfo>)
    | RoomMsg(room: string, sender: string, content: string)
    | DirectMsg(recipient: string, sender: string, content: string)
    | SystemNotif(kind: NotificationType, room: string, message: string)
    | Ack(status: Status, message: string)
    | Heartbeat(username: string)
    | LogoutReq(username: string)
    | NoPayload

  datatype Envelope = Envelope(messageId: string, payload: Payload)

  /** What arrives on a socket: a message that unpacks, or bytes that do not. */
  datatype Wire = Packed(env: Envelope) | Garbage

  /** The user on whose behalf a message asks for something; "" when it names none. */
  function Actor(p: Payload): string {
    match p
    case LoginReq(u) => u
    case JoinRoomReq(_, u) => u
    case LeaveRoomReq(_, u) => u
    case ListRoomsReq(u) => u
    case RoomMsg(_, u, _) => u
    case DirectMsg(_, u, _) => u
    case Heartbeat(u) => u
    case LogoutReq(u) => u
    case _ => ""
  }

  /** A request by which `user` shows that it is there. A logout is none. */
  predicate SignOfLife(p: Payload, user: string) {
    || p == LoginReq(user) || p == ListRoomsReq(user) || p == Heartbeat(user)
    || (p.JoinRoomReq? && p.username == user) || (p.LeaveRoomReq? && p.username == user)
    || (p.RoomMsg? && p.sender == user) || (p.DirectMsg? && p.sender == user)
  }

  predicate IsRequest(p: Payload) {
    p.LogoutReq? || SignOfLife(p, Actor(p))
  }

  /** What the server owes to each kind of request. */
  predicate IsReply(req: Payload, reply: Payload) {
    match req
    case LoginReq(u) =>
      reply.LoginResp? && (reply.status == StatusOk <==> u != "") && (u == "" <==> reply.errorMessage != "")
    case ListRoomsReq(_) => reply.ListRoomsResp? && reply.status == StatusOk
    case JoinRoomReq(_, u) => reply.Ack? && (reply.status == StatusOk <==> u != "")
    case LeaveRoomReq(_, _) => reply.Ack? && reply.status == StatusOk
    case RoomMsg(_, _, _) => reply == Ack(StatusOk, "sent")
    case DirectMsg(_, _, _) => reply == Ack(StatusOk, "direct message delivered")
    case Heartbeat(_) => reply == Ack(StatusOk, "pong")
    case LogoutReq(u) => reply.Ack? && (reply.status == StatusOk <==> u != "")
    case _ => reply == Ack(StatusError, "unknown request type")
  }

  /** `wire` is a reply to `req`, or does not unpack. */
  predicate Answers(req: Envelope, wire: Wire) {
    wire.Packed? ==> wire.env.messageId == req.messageId && IsReply(req.payload, wire.env.payload)
  }

  const ROOM_TOPIC := "room:"
  const USER_TOPIC := "user:"

  function RoomTopic(room: string): string {
    ROOM_TOPIC + room
  }

  function UserTopic(user: string): string {
    USER_TOPIC + user
  }

  /** The topics are those of the source, whose general topic is spelled out. */
  lemma TopicTexts(name: string)
    ensures RoomTopic(GENERAL) == "room:general"
    ensures RoomTopic(name)[5..] == name && UserTopic(name)[5..] == name
    ensures RoomTopic(name)[..5] == "room:" && UserTopic(name)[..5] == "user:"
  {
    var r, u := ROOM_TOPIC, USER_TOPIC;
    assert |r| == 5 && |u| == 5;
  }

  /** The status a reply carries. */
  function StatusOf(reply: Payload): Option<Status> {
    match reply
    case LoginResp(status, _, _) => Some(status)
    case ListRoomsResp(status, _) => Some(status)
    case Ack(status, _) => Some(status)
    case _ => None
  }
}
