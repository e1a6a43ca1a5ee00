# A verified model of the chat system

A chat server written in Go and a chat client written in C talk over ZeroMQ sockets. The server keeps
sessions and rooms, serves one request at a time, and removes users it has not heard from for six
seconds. The client runs three threads: a controller that talks to the server, a receiver that
subscribes to rooms, and a user interface that hands over command lines.

The project follows that structure:

- `Sessions`, `Rooms` and `Tokens` are the two managers, as classes with their maps on the heap, and the
  text of a session token.
- `ChatServer` is the request router, the endless receive loop and one pass of the heartbeat reaper;
  `ServerTurns` says on values what they do.
- `ServerSteps` and `ServerRuns` take the server apart at the granularity of its locks: the request loop
  and the reaper interleave between any two manager calls.
- `ReqRep`, `Commands`, `RoomListing` and `ClientController` are the controller thread, with its request
  socket, its command lines cut in place and its fixed buffers; `ClientRuns` and `Heartbeat` put
  controller and server together, over whole runs and over time.
- `Lockstep` is the user interface against the controller, `Subscriptions` the receivers' filters against
  the membership the server keeps, and `Composition` shows that controller and server together behave as
  `Subscriptions` says.
- `TypedLines` says what a typed line comes to, from the terminal to the request, the answer and the end of
  the loop; `Delivery` says who receives what the server publishes.
- `Multipart` and `ArrayQueue` are the client's two data-handling utilities.
- `Envelopes` holds the messages, `Basics` facts about numbers and strings.

Three promises of the design are false of the code, and each comes with its exact condition:

- Not every member of `general` is tracked by the heartbeat. `ServerRuns.StrayIffStranded` says which
  removals strand a user.
- Not every member of a room has a filter for it. `Subscriptions.FilterLostIff` says which room names
  and which unheard joins cost one.
- A removal does not forget the user altogether. `Sessions.RemovalClearsTokensIff` says when it leaves no
  token, and `ServerTurns.OutOfAllRoomsIff` when it leaves no room: the comment at server.go:74 promises
  all rooms, the code and the model leave `general` only.

The heartbeat protects a live client exactly up to the silence that `Heartbeat.SafeIffGapWithinTimeout`
gives. The first rows of the table are the main results; the others are the methods that implement the
model and the lemmas that say what their specifications mean. Two small lemmas say where hypotheses come
from: `Subscriptions.AcknowledgedCommand` which replies change a filter, and
`Subscriptions.ShortNamesApart` that names of at most 121 characters are never confused.

## Model

| member | source | states |
|---|---|---|
| `ServerSteps.RunKeepsInv` | zmqchatserver/internal/server/server.go:48-142 | In every state of every interleaving of request loop and reaper: the empty name is nowhere, the session clock agrees with the history of touches, nobody older than the last finished pass allows is tracked, membership is what the requests made of it apart from the reaper's removals, and a user without overlap is not orphaned. |
| `ServerRuns.StrayIffStranded` | zmqchatserver/internal/server/server.go:71-87 | The exact condition, over every interleaving: between requests a user is in `general` without being tracked if and only if some pass removed its session while the user was back in the room, or in the middle of a request that puts it there, and no request has touched the user or taken it out of the room since. |
| `ServerRuns.PassClearsTheSilent` | zmqchatserver/internal/server/server.go:68-102 | After a completed pass, whatever was interleaved with it and whatever came later, no tracked activity is older than the snapshot time of the pass minus the timeout. |
| `ServerTurns.TurnsKeepOrder` | zmqchatserver/internal/server/server.go:48-60 | Over any number of turns: receives and replies alternate, each reply answering the request before it; no message is lost or invented; membership and the whole publication log are what the requests handled so far say, in order. |
| `ServerTurns.TurnsReceive` | zmqchatserver/internal/server/server.go:48-60 | From the inbox and the number of turns not interrupted alone: the turns receive just the messages that unpack, up to the first that does not, and then that one, after which the socket is stuck for good. |
| `Sessions.TokenConservation` | zmqchatserver/internal/server/session.go:27-69 | Over every run and map order, a user's live tokens number its logins that made a new token minus its removals that found one. |
| `Rooms.MembershipIsLastCall` | zmqchatserver/internal/server/room.go:30-72 | Over every sequence of calls, a user is in a room exactly if the name is not empty and some join of the pair has no later leave. |
| `Tokens.TokenCollision` | zmqchatserver/internal/server/session.go:33-34 | Over all integers, two token texts are equal exactly when user and second agree, or when a minus sign is mistaken for a trailing dash of the name. |
| `ClientRuns.SessionTrace` | zmqchatclient/src/client/chat_client_controller.c:142-209 | However the loop is left, the requests tried are login, operations, one logout; if the logout is acknowledged the requests sent have that shape too. |
| `ClientRuns.AcknowledgedLogout` | zmqchatclient/src/client/chat_client_controller.c:496-522 | Controller and interleaved server together: after the acknowledged logout of a user's sole client, the server having begun at least what it has answered, the user is in neither `general` nor the tracking table, and its last join or leave decides every other room. |
| `Heartbeat.SafeIffGapWithinTimeout` | zmqchatserver/internal/server/session.go:72-86 | A live client is safe in every run if and only if (k+1)(2000+d)+d is at most 6000. |
| `ReqRep.EveryCallMatches` | zmqchatclient/src/client/chat_client_controller.c:323-353 | In every run, with failures and late replies anywhere, whatever a call returns answers the request sent in that call. |
| `Lockstep.RunKeepsInv` | zmqchatclient/src/client/chat_client_ui.c:120-155 | In every state of every interleaving of the two threads the line awaited is in exactly one place: on its way, in hand, answered but unread, or lost with the controller. |
| `Subscriptions.FilterLostIff` | zmqchatclient/src/client/chat_client_controller.c:262-399 | The exact condition, over every run of clients that type their lines: leaving only rooms from one set and with unheard joins only of rooms from another, a member of a room can end up without a filter for it if and only if some other name in the first set is cut to the same 121 characters, or the room is in the second (and, for `general`, also in the first). |
| `Subscriptions.RoomReceivers` | zmqchatserver/internal/server/server.go:248-253 | At rest a room message reaches a receiver exactly if its requests leave a filter for some prefix of the room name. |
| `Composition.LifeAndServerProject` | zmqchatclient/src/client/chat_client_controller.c:142-209 | Every life of the controller, with failures and unreadable replies anywhere, together with a run of the server and its reaper, is a run of the subscription model that ends with the filters of the receiver and the memberships the server holds. |
| `Composition.RunningMemberHears` | zmqchatserver/internal/server/server.go:248-253 | Controller, receiver and interleaved server together: while a client is running and nothing is under way, a message to any room that the server counts it a member of reaches it, if the room and those it has left have names of at most 121 characters. |
| `Delivery.MessageReachesMember` | zmqchatserver/internal/server/server.go:248-253 | From end to end: a room message that the server handles is published once and unchanged, and the receiver of every running client that the server counts a member of the room gets that very entry, if the room and those the client has left have names of at most 121 characters. |
| `TypedLines.TypedIsAsked` | zmqchatclient/src/client/chat_client_ui.c:120-147 | From the terminal to the network: a printed `/rooms`, `/join`, `/leave`, `/msg` or `/dm` line, with its line break, is sent whole to the controller and is the one request that goes out, with the room or recipient, the user and the content in their places. |
| `TypedLines.LoopIsLeftIff` | zmqchatclient/src/client/chat_client_controller.c:159-201 | The exact exit condition of the loop, over all events and network failures: a failed poll, the shutdown message, an empty or quit line, or a room list, join or leave that brings nothing back; interrupted polls, pings, messages and unknown lines never leave it. |
| `ServerRuns.RequestTouches` | zmqchatserver/internal/server/server.go:107-139 | Over every interleaving, each login, join, leave, room list, room or direct message and heartbeat that names a user sets the time of that user, and no other, in some step before it is finished. |
| `Commands.SplitMeans` | zmqchatclient/src/client/chat_client_controller.c:401-483 | A text is split into a name and a content exactly if it is blanks, that space-free name, one blank and that non-empty content. |
| `RoomListing.RenderRooms` | zmqchatclient/src/client/chat_client_controller.c:226-248 | The offset is the length of the text; the buffer holds header and lines in order, all of them if they fit and cut at 1023 characters if only the last line does not; it reports an overrun exactly when some line would start behind the buffer. |
| `Multipart.RoundTrip` | zmqchatclient/src/utils/zmq_messages.c:105-187 | Any list of non-empty messages sent comes back message by message and byte by byte, with what follows on the stream untouched. |
| `ArrayQueue.FifoAndConservation` | zmqchatclient/src/utils/zmq_utils.c:43-98 | What was accepted is what was popped followed by what is queued, and each pushed element is in exactly one of queued, popped, freed. |
| `ServerRuns.OrphanNeedsOverlap` | zmqchatserver/internal/server/server.go:63-142 | Over every interleaving, at every step, a user who is in `general` but not tracked had a request in progress while pending in a reap pass; without such an overlap every member of `general` is tracked. |
| `ServerRuns.OverlapCanOrphan` | zmqchatserver/internal/server/server.go:70-87 | The overlap is harmful for every user name: a run ends with both processes at rest, the user in `general`, and nothing tracking it. |
| `ServerRuns.ReaperNeverRefused` | zmqchatserver/internal/server/server.go:76-87 | The two error branches of the reaper are unreachable: it never holds the empty name. |
| `ServerRuns.NoEntryTooOld` | zmqchatserver/internal/server/server.go:63-104 | With passes starting at most p apart and lasting at most q, no tracked activity is ever older than timeout + p + q. |
| `ServerRuns.LastRequestDecides` | zmqchatserver/internal/server/server.go:188-231 | Between requests, membership of any room but `general` is decided by the last join or leave request of that user and room, whatever the reaper did. |
| `ServerRuns.LogoutForgets` | zmqchatserver/internal/server/server.go:264-291 | Once a logout is done, and until the next request naming the user, the user is neither in `general` nor tracked, in every interleaving. |
| `ServerRuns.Sweep` | zmqchatserver/internal/server/server.go:71-101 | A pass that no request interrupts is a run of the step model, and its effect there is the effect of the reaper's loop on its own. |
| `ChatServer.ZmqServer.Start` | zmqchatserver/internal/server/server.go:48-60 | The whole state of the server, sessions and publications included, is what the given turns make of it one after the other; the loop stops early only where its receive would block. |
| `ChatServer.ZmqServer.Turn` | zmqchatserver/internal/server/server.go:51-59 | One turn takes the head of the inbox unless the receive is interrupted or a reply is still due, and serves it if it unpacks; otherwise everything stays as it was. |
| `ServerTurns.TurnIsProgram` | zmqchatserver/internal/server/server.go:107-142 | What a turn does to the managers is what the step model says of a request that is not interrupted. |
| `ServerTurns.TurnTouches` | zmqchatserver/internal/server/server.go:107-139 | Serving any such request sets the user's time to now and nobody else's; a logout takes its time away; nothing else changes any. |
| `ServerTurns.TurnMembers` | zmqchatserver/internal/server/server.go:148-231 | Login enters and logout leaves `general`, join and leave their room, each for its user alone and none for the empty name; nothing else changes membership. |
| `ServerTurns.TurnTokens` | zmqchatserver/internal/server/server.go:148-186 | A login stores its token, a logout takes exactly one of its user's tokens if there is one, nothing else touches any. |
| `ServerTurns.TurnReplies` | zmqchatserver/internal/server/server.go:107-304 | One received message, one reply with its id; the reply is negative exactly for unknown payloads and for a login, join or logout without a name. |
| `ServerTurns.TurnReplyTells` | zmqchatserver/internal/server/server.go:148-246 | The token in a login reply is stored under its user, and a room list reply lists the rooms as they are. |
| `ChatServer.ZmqServer.HandleEnvelope` | zmqchatserver/internal/server/server.go:107-142 | Every payload kind gets exactly one reply with the message id of the request and of the kind it is owed; sessions, rooms and publications change exactly as that kind demands. |
| `ChatServer.ZmqServer.HandleLogin` | zmqchatserver/internal/server/server.go:148-186 | A login creates the session, enters `general` and answers with the token; the empty name changes nothing and is answered with an error. |
| `ChatServer.ZmqServer.HandleJoinRoom` | zmqchatserver/internal/server/server.go:188-211 | Adds exactly the pair of room and user, and publishes the notice only if the join succeeded; the empty room name is accepted. |
| `ChatServer.ZmqServer.HandleLeaveRoom` | zmqchatserver/internal/server/server.go:213-231 | Removes exactly the pair; reply and notice go out even when there was nothing to leave. |
| `ChatServer.ZmqServer.HandleListRooms` | zmqchatserver/internal/server/server.go:233-246 | The reply lists each existing room once with its exact members. |
| `ChatServer.ZmqServer.HandleMessage` | zmqchatserver/internal/server/server.go:248-262 | A room or direct message is acknowledged once and published unchanged under its topic. |
| `Delivery.RoomMessageDelivered` | zmqchatserver/internal/server/server.go:248-253 | A room message adds one entry to the publication log, the message itself, and it reaches exactly the receivers whose joins and leaves leave a filter for some prefix of the room name. |
| `Delivery.DirectMessageDelivered` | zmqchatserver/internal/server/server.go:255-262 | A direct message adds one entry, the message itself, and it reaches exactly the clients whose name is a prefix of the recipient's. |
| `Delivery.NoticeDelivered` | zmqchatserver/internal/server/server.go:197-290 | A successful join, a leave and a logout each add one notice of the right kind that names user and room and reaches exactly the listeners of that room. |
| `Delivery.TimeoutDelivered` | zmqchatserver/internal/server/server.go:88-100 | So does a removal by the reaper, to the listeners of `general`. |
| `Delivery.NothingPublished` | zmqchatserver/internal/server/server.go:107-291 | Nothing else is published. |
| `Delivery.DirectMessageReaches` | zmqchatserver/internal/server/server.go:255-262 | A direct message the server handles reaches the receiver of a logged-in client exactly if the client's name is a prefix of the recipient's, whatever it joined and left. |
| `ChatServer.ZmqServer.HandleLogoutRequest` | zmqchatserver/internal/server/server.go:264-291 | Leaves `general` only, forgets the activity, deletes at most one token, publishes a notice, answers once. |
| `ChatServer.ZmqServer.ReapPass` | zmqchatserver/internal/server/server.go:71-101 | An undisturbed pass lists exactly the users silent for more than the timeout; each loses its activity, exactly one token if it has any, and `general`, with one notice in snapshot order; no other user loses a token, its activity or a room. |
| `ServerTurns.OutOfAllRoomsIff` | zmqchatserver/internal/server/server.go:74-83 | A user whom a pass removes is in no room afterwards exactly if it was in no room but `general` before; the comment in the loop promises it always. |
| `ServerTurns.OneReplyEach` | zmqchatserver/internal/server/server.go:48-60 | Each request that unpacks gets one reply, its own; a request that does not unpack is the last thing ever received. |
| `Sessions.SessionManager.CreateSession` | zmqchatserver/internal/server/session.go:27-37 | Stores the token of user and second, or refuses the empty name and changes nothing. |
| `Sessions.SessionManager.TouchUser` | zmqchatserver/internal/server/session.go:40-48 | Sets this user's time and nobody else's, or refuses the empty name. |
| `Sessions.SessionManager.RemoveUser` | zmqchatserver/internal/server/session.go:51-69 | Forgets the activity and deletes one token of the user, whichever the map order finds first; none only if the user has none. |
| `Sessions.SessionManager.GetDeadUsers` | zmqchatserver/internal/server/session.go:72-86 | Lists exactly the users silent for more than the timeout, each once. |
| `Sessions.RunIsWellKeyed` | zmqchatserver/internal/server/session.go:27-69 | In every reachable state each token decodes to the user stored under it, and the empty name is not tracked. |
| `Sessions.LoginKeepsForeignTokens` | zmqchatserver/internal/server/session.go:27-37 | In every reachable state a login that meets an existing token meets its own user's. |
| `Sessions.AlternatingKeepsOneToken` | zmqchatserver/internal/server/session.go:27-69 | A user whose logins and removals alternate has one token while logged in and none afterwards. |
| `Sessions.RemovalClearsTokensIff` | zmqchatserver/internal/server/session.go:51-69 | A removal leaves the user without tokens exactly when there was at most one. |
| `Sessions.SecondLoginOutlivesRemoval` | zmqchatserver/internal/server/session.go:61-67 | A run of two logins and one removal that leaves a token behind. |
| `Tokens.DecodeToken` | zmqchatserver/internal/server/session.go:33-34 | The token text is a reversible encoding of user and non-negative second, even for names with dashes and digits. |
| `Rooms.RoomManager.constructor` | zmqchatserver/internal/server/room.go:18-28 | Starts with `general`, empty. |
| `Rooms.RoomManager.JoinRoom` | zmqchatserver/internal/server/room.go:30-51 | On the heap of distinct room objects: adds exactly one pair to the relation, creating the room if need be, or refuses the empty user name. |
| `Rooms.RoomManager.LeaveRoom` | zmqchatserver/internal/server/room.go:53-72 | Removes exactly one pair and drops a room with its last member, unless it is `general`. |
| `Rooms.RoomManager.GetRoomsInfo` | zmqchatserver/internal/server/room.go:74-92 | Lists each existing room once, with exactly its members and their number as a 32-bit integer. |
| `Rooms.ListingTells` | zmqchatserver/internal/server/room.go:74-92 | A listing names a room exactly if it is `general` or somebody is in it, once, with exactly its members, none twice, and their number below 2^31. |
| `Rooms.RoomManager.MembersInHeap` | zmqchatserver/internal/server/room.go:8-28 | Each room object's members are those of the relation, a room object exists exactly if the room is `general` or has a member, and the empty name is no member. |
| `ReqRep.SendAndRecvEnv` | zmqchatclient/src/client/chat_client_controller.c:323-353 | The exchange on the socket object is the specified one, for every failure of send, receive and unpacking. |
| `ReqRep.ExchangeMatches` | zmqchatclient/src/client/chat_client_controller.c:323-353 | If the peer answers the oldest request it owes a reply, then, because sends and receives alternate, an envelope returned by an exchange answers the request sent in that same exchange. |
| `ReqRep.FailedReceiveBlocksForEver` | zmqchatclient/src/client/chat_client_controller.c:341-350 | After one failed receive every later call sends nothing and returns nothing, even if the reply comes late. |
| `ReqRep.BlockedIff` | zmqchatclient/src/client/chat_client_controller.c:331-352 | In every run the socket is blocked if and only if some call got its request out and failed to receive; failed sends and bytes that do not unpack never block it. |
| `Commands.StrTok` | zmqchatclient/src/client/chat_client_controller.c:407-408 | The in-place cut finds the first token and the rest that the buffer held before, although it overwrites a delimiter. |
| `Commands.SplitInPlace` | zmqchatclient/src/client/chat_client_controller.c:407-408 | The two cuts on one buffer yield the name and the content that the text before the cuts had. |
| `Commands.SplitRefuses` | zmqchatclient/src/client/chat_client_controller.c:401-483 | The usage answer is given exactly to texts that are not of that form. |
| `Commands.ParseUndoesPrint` | zmqchatclient/src/client/chat_client_controller.c:589-611 | Printed `/msg` and `/dm` lines reach the right handler and come apart into the name and content printed. |
| `Commands.JoinAndLeaveUndoPrint` | zmqchatclient/src/client/chat_client_controller.c:593-602 | Printed `/join` and `/leave` lines reach the right handler with the room printed. |
| `RoomListing.OverrunsIff` | zmqchatclient/src/client/chat_client_controller.c:236-247 | Some line starts behind the buffer, where the size left wraps around, if and only if header and lines but the last are longer than the buffer. |
| `RoomListing.OverrunHappens` | zmqchatclient/src/client/chat_client_controller.c:236-247 | Two rooms with 505-character names and any third one are such a list. |
| `RoomListing.ListingLength` | zmqchatclient/src/client/chat_client_controller.c:236-247 | That length is the header's plus, for each room, 23 + max(10, name) + digits. |
| `RoomListing.HeaderTells` | zmqchatclient/src/client/chat_client_controller.c:236-237 | The number in the header, read back, is the number of rooms. |
| `RoomListing.LineTells` | zmqchatclient/src/client/chat_client_controller.c:243-247 | A line holds the name of its room at a fixed place, and the number in it, read back, is the number of members. |
| `ClientController.Controller.HandleMessageUi` | zmqchatclient/src/client/chat_client_controller.c:570-617 | One line has exactly one effect on socket, UI, receiver and result, chosen by the dispatch on the line; an empty receive is an error. |
| `ClientController.Controller.HandleRoomList` | zmqchatclient/src/client/chat_client_controller.c:211-260 | Asks without a user name; answers with the rendered list, with a fixed text for another reply, and not at all without a reply. |
| `ClientController.Controller.HandleRoomJoin` | zmqchatclient/src/client/chat_client_controller.c:262-321 | Any acknowledgement, also a negative one, makes it send the subscription command. |
| `ClientController.Controller.HandleRoomLeave` | zmqchatclient/src/client/chat_client_controller.c:355-399 | The same for leaving. |
| `ClientController.Controller.HandleMessageRoom` | zmqchatclient/src/client/chat_client_controller.c:401-441 | Splits the line in its buffer, asks only if there are a name and a content, and answers in every case. |
| `ClientController.Controller.HandleMessageDirect` | zmqchatclient/src/client/chat_client_controller.c:443-483 | The same for direct messages. |
| `TypedLines.PrintedIsAsked` | zmqchatclient/src/client/chat_client_controller.c:401-617 | A printed command that the controller takes on a usable socket is the one request that goes out. |
| `TypedLines.IdleAsks` | zmqchatclient/src/client/chat_client_controller.c:159-201 | Two seconds without input ping for the client's own user; an interrupted or failed poll, a shutdown message and a quit line ask nothing. |
| `TypedLines.MessageAnswers` | zmqchatclient/src/client/chat_client_controller.c:401-483 | A message is confirmed exactly if a reply came back, refused with the usage exactly if the line holds no message, and reported as failed otherwise. |
| `TypedLines.TextsStart` | zmqchatclient/src/client/chat_client_controller.c:401-483 | Success starts with `[ACK]` and failure with `[ERR]`. |
| `TypedLines.RoomAnswers` | zmqchatclient/src/client/chat_client_controller.c:262-399 | A join or leave that was answered shows the server's words exactly if the answer is an acknowledgement. |
| `TypedLines.ListAnswers` | zmqchatclient/src/client/chat_client_controller.c:211-260 | The room list shows the rooms of the reply, as far as they fit. |
| `TypedLines.UnknownAnswers` | zmqchatclient/src/client/chat_client_controller.c:612-615 | Any other line is answered at once and asks nothing. |
| `TypedLines.LoginFailsIff` | zmqchatclient/src/client/chat_client_controller.c:619-645 | With a server that gives the reply it owes, the login fails exactly if no reply comes back or the name is empty. |
| `ClientController.HandleEvent` | zmqchatclient/src/client/chat_client_controller.c:159-201 | One return of the poll: shutdown before line before ping, and whether the loop goes on. |
| `ClientController.RoutineChatController` | zmqchatclient/src/client/chat_client_controller.c:142-209 | Login, the loop over the events, and one logout when the loop is left. |
| `ClientRuns.LogoutAnswersAll` | zmqchatclient/src/client/chat_client_controller.c:496-522 | An acknowledged logout means that every request the client ever sent has been answered. |
| `ClientRuns.AcknowledgedLogoutHappens` | zmqchatclient/src/client/chat_client_controller.c:142-209 | Such a life and such a run of the server exist for every non-empty user name. |
| `Heartbeat.TouchedRecently` | zmqchatclient/src/client/chat_client_controller.c:159-201 | With at most k silent iterations in a row and work d, touches are at most (k+1)(2000+d)+d ms apart. |
| `Heartbeat.SilentIterations` | zmqchatclient/src/client/chat_client_controller.c:159-201 | Exactly the iterations without input for two seconds and those that take a join, a leave or a well-formed message touch the server, and what they ask shows that the user is there. |
| `Heartbeat.TouchingIsDelivered` | zmqchatserver/internal/server/server.go:107-139 | Each such iteration's request, pings included, touches its user at the server before it is finished, whatever comes between. |
| `Heartbeat.LifeIsLoop` | zmqchatclient/src/client/chat_client_controller.c:142-201 | The iterations of a life are a run of the controller's loop that is still going on. |
| `Heartbeat.LiveClientNeverDead` | zmqchatserver/internal/server/session.go:72-86 | If the bound is at most 6000 ms, no snapshot of any run in which the touches of the client have been delivered holds its user. |
| `Heartbeat.LateClientIsReaped` | zmqchatserver/internal/server/session.go:72-86 | For every user, work time and number of silent iterations with a bound beyond 6000 ms, a client within that bound whose touches are all delivered in time is listed as dead. |
| `Lockstep.Ui.HandleStdin` | zmqchatclient/src/client/chat_client_ui.c:120-155 | A line is cut at its line break; an empty one prompts again, `/quit` is sent and leaves, any other is sent and awaited. |
| `TypedLines.LineIsSent` | zmqchatclient/src/client/chat_client_ui.c:120-147 | A line is sent whole, without its line break and what follows; an empty line sends nothing and prompts; `/quit` is sent and leaves; any other line is awaited. |
| `Lockstep.OneAnswerPerLine` | zmqchatclient/src/client/chat_client_controller.c:570-617 | A handled line is answered exactly once if the loop goes on, and not at all if it is left. |
| `Lockstep.OneLineAtATime` | zmqchatclient/src/client/chat_client_ui.c:140-155 | At most one line is outstanding, no response is unread when the next line is read, and the k-th response answers the k-th non-quit line. |
| `Lockstep.WaitingMakesProgress` | zmqchatclient/src/client/chat_client_ui.c:145-152 | While the controller is in its loop, a waiting UI has an enabled step that brings its response nearer, and no step takes it further away. |
| `Lockstep.StuckMeansGone` | zmqchatclient/src/client/chat_client_ui.c:145-152 | The UI waits for ever exactly if the controller left its loop without answering. |
| `Subscriptions.Receiver.HandleCommand` | zmqchatclient/src/client/chat_client_receiver.c:188-211 | A plus adds one to the count of a filter, a minus takes one away if there is one, anything else changes nothing. |
| `Subscriptions.RunKeepsInv` | zmqchatclient/src/client/chat_client_controller.c:262-399 | In every state of clients, server and reaper, with replies heard, misread or lost: draining the pending commands would give the fold of the acknowledged requests, and membership is what the handled requests say but for the reaper. |
| `Subscriptions.FilterCountAtRest` | zmqchatclient/src/client/chat_client_receiver.c:83-211 | At rest the count of a room's filter is the fold of acknowledged joins and leaves, floored at zero, starting from one for `general`. |
| `Subscriptions.MemberHasFilter` | zmqchatclient/src/client/chat_client_controller.c:262-399 | At rest membership implies a filter, whatever the reaper did, provided no left room shares its first 121 characters with another name and no join of the room went unheard. |
| `Subscriptions.LongNamesLoseTheFilter` | zmqchatclient/src/client/chat_client_controller.c:382-384 | Any two different names a line can carry that are cut to the same 121 characters break it: after joining one and leaving the other the membership stays and the filter is gone. |
| `Subscriptions.UnheardJoinHasNoFilter` | zmqchatclient/src/client/chat_client_controller.c:281-319 | So does a join that the server has handled and whose reply does not unpack: the handler gives up before it tells the receiver, and the logout leaves only `general`. |
| `Composition.EventTells` | zmqchatclient/src/client/chat_client_controller.c:262-399 | An iteration tells the receiver to subscribe or cancel exactly if its join or leave goes out and is acknowledged; a join or leave that is not makes the loop end; nothing else tells the receiver anything. |
| `Subscriptions.MembersReceive` | zmqchatserver/internal/server/server.go:248-253 | At rest, under the same proviso, a room message reaches the receiver of every member. |
| `Subscriptions.DirectReceivers` | zmqchatserver/internal/server/server.go:255-262 | A direct message reaches the client of u exactly if u is a prefix of the recipient. |
| `Subscriptions.KindsApart` | zmqchatclient/src/client/chat_client_receiver.c:83-88 | No user filter matches a room topic, nor the reverse. |
| `Envelopes.TopicTexts` | zmqchatserver/internal/server/common.go:11-16 | Topics are `room:` or `user:` and the name, and the general topic is the constant the server publishes on. |
| `Multipart.Message.AddFrame` | zmqchatclient/src/utils/zmq_messages.c:68-94 | Appends the frame, zero bytes included; a failed allocation leaves the message as it was. |
| `Multipart.Message.Send` | zmqchatclient/src/utils/zmq_messages.c:153-187 | Puts the frames on the stream, all but the last marked, up to the frame whose send fails. |
| `Multipart.MessageRecv` | zmqchatclient/src/utils/zmq_messages.c:105-141 | Takes exactly the frames of one message; a failed receive or allocation at any frame gives NULL and has consumed exactly the frames before it, or also that frame. |
| `Multipart.RoundTripIff` | zmqchatclient/src/utils/zmq_messages.c:170-174 | The round trip holds exactly if the caller's flags do not ask for more frames. |
| `Multipart.Transfer` | zmqchatclient/src/utils/zmq_messages.c:68-187 | The three operations composed give back every list of messages. |
| `ArrayQueue.QueuePop` | zmqchatclient/src/utils/zmq_utils.c:43-58 | Takes the front element, shifts the rest and keeps NULL from the end on. |
| `ArrayQueue.QueuePush` | zmqchatclient/src/utils/zmq_utils.c:68-80 | Appends the element, or frees it when the queue is full. |
| `ArrayQueue.QueueCleanup` | zmqchatclient/src/utils/zmq_utils.c:88-98 | Frees each queued element once and leaves the queue empty. |
| `ArrayQueue.QueueSize` | zmqchatclient/src/utils/zmq_utils.c:100-109 | Stops inside the array and returns the number of elements. |
| `ArrayQueue.QueueIsEmpty` | zmqchatclient/src/utils/zmq_utils.c:111-114 | True exactly for the empty queue. |
| `ArrayQueue.Replay` | zmqchatclient/src/utils/zmq_utils.c:43-80 | Every run of pushes and pops on a real array refines the run on an abstract bounded FIFO. |

## Left out

- Composition.LifeAndServerProject: a login that fails is left out; it speaks of the moments at which the server has begun everything the client sent.
- Subscriptions.RunKeepsInv: assumes one client per user name over the whole run; memberships left behind by an earlier client of the same name are not modelled.
- RoomListing.RenderRooms: stops at an overrun; what the original writes from there on, with the size wrapped around, is not modelled.
- ClientController.Controller.HandleRoomList: room lists that overrun the buffer are excluded, and so they are from the methods that call it.
- Heartbeat.LiveClientNeverDead: takes it as given that the server handles each touch at the time the client's iteration says, within its work time.
- Lockstep.OneAnswerPerLine: PAIR sends are assumed to succeed, to the UI and to the receiver.
- ClientController.Controller.HandleMessageUi: lines `/join`, `/leave`, `/msg` and `/dm` too short for the handler's fixed offset are excluded.
- ChatServer.ZmqServer.Start: the endless loop is a run of any finite length without the reaper; interleavings with the reaper are those of `ServerSteps`.
- ChatServer.PubSocket.PublishTopicEnvelope: topic and payload leave together; the two goroutines share the socket without a lock, and frame-level interleaving is not modelled.
- ChatServer.ZmqServer.HandleMessage: one method stands for both the room and the direct message handler, which differ in acknowledgement text and topic.
- Sessions.SessionManager.RemoveUser: the token that the map order picks is a ghost result.
- Multipart.Message.AddFrame: frames are values in a sequence; separately allocated buffers and their release are not modelled.
- The order between what goes out on the reply socket and on the publishing socket.
- Notification ids, timestamps, the client version and the time in a ping, which nothing depends on.
- The second test of the user name in room.go:34-36 and room.go:57-59, which no call can reach.
- Encoding of envelopes as bytes, and replies larger than the client's 4096-byte buffer.
- Formatting and printing of received messages, logs, signals, thread start and end, and the shutdown messages of receiver and UI.
- The router's cases, the loop bodies and the room manager's heap updates are methods of their own, which the source writes in line.
