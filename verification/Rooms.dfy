/** The room table of the server: a heap map of rooms that stands for a plain membership relation. */
module Rooms {
  import opened Basics
  import opened Sessions

  const GENERAL := "general"

  /** Pairs (room name, user name). */
  type Membership = set<(string, string)>

  function Joined(p: Membership, room: string, user: string): Membership {
    if user == "" then p else p + {(room, user)}
  }

  function Left(p: Membership, room: string, user: string): Membership {
    if user == "" then p else p - {(room, user)}
  }

  function MembersOf(p: Membership, room: string): set<string> {
    set m | m in p && m.0 == room :: m.1
  }

  /** A room exists exactly when it is the welcome room or has a member. */
  predicate Exists(p: Membership, room: string) {
    room == GENERAL || MembersOf(p, room) != {}
  }

  datatype RoomInfo = RoomInfo(name: string, memberCount: int, members: seq<string>)

  /** Conversion to a signed 32-bit integer, which wraps around. */
  function Int32(n: int): (r: int)
    ensures -0x8000_0000 <= r < 0x8000_0000
    ensures -0x8000_0000 <= n < 0x8000_0000 ==> r == n
  {
    (n + 0x8000_0000) % 0x1_0000_0000 - 0x8000_0000
  }

  function SetOf(s: seq<string>): set<string> {
    set x | x in s
  }

  function NamesOf(infos: seq<RoomInfo>): set<string> {
    set i | 0 <= i < |infos| :: infos[i].name
  }

  predicate Describes(info: RoomInfo, members: set<string>) {
    && SetOf(info.members) == members
    && |info.members| == |members|
    && info.memberCount == Int32(|members|)
  }

  /** `infos` describes each of the given rooms of the table once and nothing else. */
  predicate ListsOnly(table: map<string, set<string>>, infos: seq<RoomInfo>, names: set<string>) {
    && (forall i, j | 0 <= i < j < |infos| :: infos[i].name != infos[j].name)
    && (forall i | 0 <= i < |infos| :: infos[i].name in table && Describes(infos[i], table[infos[i].name]))
    && NamesOf(infos) == names
  }

  /** `infos` describes every existing room once and nothing else. */
  ghost predicate Lists(p: Membership, infos: seq<RoomInfo>) {
    && (forall i, j | 0 <= i < j < |infos| :: infos[i].name != infos[j].name)
    && (forall i | 0 <= i < |infos| :: Describes(infos[i], MembersOf(p, infos[i].name)))
    && (forall r :: Exists(p, r) <==> r in NamesOf(infos))
  }

  /** What a listing tells: a room appears exactly if it is the welcome room or somebody is in it, and only
      once; its members are exactly those in it, none twice, and their number is given as long as it fits
      32 bits. */
  lemma ListingTells(p: Membership, infos: seq<RoomInfo>, room: string)
    requires Lists(p, infos)
    ensures (exists i | 0 <= i < |infos| :: infos[i].name == room) <==> room == GENERAL || exists u :: (room, u) in p
    ensures forall i, j | 0 <= i < j < |infos| :: infos[i].name != infos[j].name
    ensures forall i, u | 0 <= i < |infos| :: u in infos[i].members <==> (infos[i].name, u) in p
    ensures forall i | 0 <= i < |infos| ::
              && |infos[i].members| == |SetOf(infos[i].members)|
              && (|infos[i].members| < 0x8000_0000 ==> infos[i].memberCount == |infos[i].members|)
  {
    assert Exists(p, room) <==> room in NamesOf(infos);
    assert forall u :: u in MembersOf(p, room) <==> (room, u) in p;
    assert Exists(p, room) ==> room == GENERAL || exists u :: u in MembersOf(p, room);
    forall i, u | 0 <= i < |infos| ensures u in infos[i].members <==> (infos[i].name, u) in p {
      assert Describes(infos[i], MembersOf(p, infos[i].name));
      assert u in infos[i].members <==> u in SetOf(infos[i].members);
    }
  }

  /** The pairs of a table from room names to member sets. */
  function PairsOf(table: map<string, set<string>>): Membership {
    set r, u | r in table && u in table[r] :: (r, u)
  }

  function JoinedTable(t: map<string, set<string>>, room: string, user: string): map<string, set<string>> {
    t[room := (if room in t then t[room] else {}) + {user}]
  }

  function LeftTable(t: map<string, set<string>>, room: string, user: string): map<string, set<string>> {
    if room !in t then t
    else if t[room] - {user} == {} && room != GENERAL then t - {room}
    else t[room := t[room] - {user}]
  }

  /** The welcome room exists, every other room has a member, and nobody has the empty name. */
  predicate Sound(t: map<string, set<string>>) {
    && GENERAL in t
    && (forall r | r in t :: (r == GENERAL || t[r] != {}) && "" !in t[r])
  }

  predicate StandsFor(t: map<string, set<string>>, p: Membership) {
    Sound(t) && p == PairsOf(t)
  }

  /** Entering a room in the table, which may create it, adds one pair. */
  lemma JoinedStandsFor(t: map<string, set<string>>, p: Membership, room: string, user: string)
    requires StandsFor(t, p) && user != ""
    ensures StandsFor(JoinedTable(t, room, user), Joined(p, room, user))
  {
  }

  /** Leaving one, which may delete it, removes one pair. */
  lemma LeftStandsFor(t: map<string, set<string>>, p: Membership, room: string, user: string)
    requires StandsFor(t, p) && user != ""
    ensures StandsFor(LeftTable(t, room, user), Left(p, room, user))
  {
    if room in t && t[room] - {user} == {} {
      assert forall v | v in t[room] && v != user :: v in t[room] - {user};
    }
  }

  class Room {
    const Name: string
    var Members: map<string, bool>

    constructor (name: string)
      ensures Name == name && Members == map[]
    {
      Name := name;
      Members := map[];
    }

    /** The inner loop of the room listing. */
    method MemberList() returns (members: seq<string>)
      ensures SetOf(members) == Members.Keys
      ensures |members| == |Members.Keys|
    {
      members := [];
      var left := Members.Keys;
      while left != {}
        invariant left <= Members.Keys
        invariant SetOf(members) == Members.Keys - left
        invariant |members| == |Members.Keys| - |left|
      {
        var user :| user in left;
        left := left - {user};
        SetOfAppended(members, user);
        members := members + [user];
      }
    }
  }

  class RoomManager {
    var rooms: map<string, Room>
    ghost var Pairs: Membership  // the relation that the heap structure stands for
    ghost var Repr: set<Room>    // the room objects of the table

    /** Every key is the name of its room object, so distinct keys have distinct objects. */
    ghost predicate Keyed()
      reads this`rooms, rooms.Values
    {
      forall r | r in rooms :: rooms[r].Name == r
    }

    ghost predicate Valid()
      reads this, Repr
    {
      Repr == rooms.Values && Keyed() && StandsFor(Table(), Pairs)
    }

    ghost function Table(): (t: map<string, set<string>>)
      reads this`rooms, rooms.Values
      ensures t.Keys == rooms.Keys
    {
      map r | r in rooms :: rooms[r].Members.Keys
    }

    lemma MembersInHeap()
      requires Valid()
      ensures forall r | r in rooms :: MembersOf(Pairs, r) == rooms[r].Members.Keys
      ensures forall r :: r in rooms <==> Exists(Pairs, r)
      ensures forall m | m in Pairs :: m.1 != ""
    {
      forall r | r in rooms
        ensures MembersOf(Pairs, r) == rooms[r].Members.Keys
      {
        forall u | u in rooms[r].Members.Keys ensures u in MembersOf(Pairs, r) {
          assert (r, u) in Pairs;
        }
      }
      forall r ensures r in rooms <==> Exists(Pairs, r) {
        if r in rooms && r != GENERAL {
          var u :| u in rooms[r].Members.Keys;
          assert (r, u) in Pairs;
        }
      }
    }

    constructor ()
      ensures Valid() && fresh(Repr)
      ensures Pairs == {}
    {
      var general := new Room(GENERAL);
      rooms := map[GENERAL := general];
      Pairs, Repr := {}, {general};
      new;
      assert rooms[GENERAL] == general;
    }

    /** Creates the room on its first join; the empty room name is accepted. */
    method JoinRoom(roomName: string, username: string) returns (err: Option<Error>)
      requires Valid()
      modifies this, Repr
      ensures Valid() && fresh(Repr - old(Repr))
      ensures Pairs == Joined(old(Pairs), roomName, username)
      ensures err == if username == "" then Some(IncorrectRoomName) else None
    {
      if username == "" {
        return Some(IncorrectRoomName);
      }
      JoinedStandsFor(Table(), Pairs, roomName, username);
      Insert(roomName, username);
      Pairs, Repr := Joined(Pairs, roomName, username), rooms.Values;
      err := None;
    }

    method Insert(roomName: string, username: string)
      requires Keyed()
      modifies this`rooms, rooms.Values
      ensures Keyed() && fresh(rooms.Values - old(rooms.Values))
      ensures Table() == JoinedTable(old(Table()), roomName, username)
    {
      if roomName !in rooms {
        AddRoom(roomName);
      }
      SetMember(roomName, username, true);
    }

    method Expel(roomName: string, username: string)
      requires Keyed()
      modifies this`rooms, rooms.Values
      ensures Keyed() && rooms.Values <= old(rooms.Values)
      ensures Table() == LeftTable(old(Table()), roomName, username)
    {
      if roomName in rooms {
        SetMember(roomName, username, false);
        DropIfEmpty(roomName);
      }
    }

    /** Adds or deletes one key of one room's member map. */
    method SetMember(roomName: string, username: string, present: bool)
      requires Keyed() && roomName in rooms
      modifies rooms[roomName]
      ensures Keyed()
      ensures var was := old(Table())[roomName];
              Table() == old(Table())[roomName := if present then was + {username} else was - {username}]
    {
      var room := rooms[roomName];
      if present {
        room.Members := room.Members[username := true];
      } else {
        room.Members := room.Members - {username};
      }
      assert room.Members.Keys == old(room.Members.Keys) + {username} || !present;
      assert room.Members.Keys == old(room.Members.Keys) - {username} || present;
    }

    /** Creates an empty room. */
    method AddRoom(roomName: string)
      requires Keyed() && roomName !in rooms
      modifies this`rooms
      ensures Keyed() && fresh(rooms.Values - old(rooms.Values))
      ensures Table() == old(Table())[roomName := {}]
    {
      var created := new Room(roomName);
      rooms := rooms[roomName := created];
      assert created.Members.Keys == {};
    }

    /** Deletes the room if it has no members, unless it is the welcome room. */
    method DropIfEmpty(roomName: string)
      requires Keyed() && roomName in rooms
      modifies this`rooms
      ensures Keyed() && rooms.Values <= old(rooms.Values)
      ensures Table() == if old(Table())[roomName] == {} && roomName != GENERAL then old(Table()) - {roomName}
                         else old(Table())
    {
      assert |rooms[roomName].Members| == |Table()[roomName]|;
      if |rooms[roomName].Members| == 0 && roomName != GENERAL {
        Drop(roomName);
      }
    }

    method Drop(roomName: string)
      requires Keyed() && roomName in rooms
      modifies this`rooms
      ensures Keyed() && rooms.Values <= old(rooms.Values)
      ensures Table() == old(Table()) - {roomName}
    {
      rooms := rooms - {roomName};
    }

    /** Drops the room with its last member, unless it is the welcome room. */
    method LeaveRoom(roomName: string, username: string) returns (err: Option<Error>)
      requires Valid()
      modifies this, Repr
      ensures Valid() && Repr <= old(Repr)
      ensures Pairs == Left(old(Pairs), roomName, username)
      ensures err == if username == "" then Some(IncorrectRoomName) else None
    {
      if username == "" {
        return Some(IncorrectRoomName);
      }
      LeftStandsFor(Table(), Pairs, roomName, username);
      Expel(roomName, username);
      Pairs, Repr := Left(Pairs, roomName, username), rooms.Values;
      err := None;
    }

    /** Both maps are visited in an arbitrary order. */
    method GetRoomsInfo() returns (infos: seq<RoomInfo>)
      requires Valid()
      ensures Lists(Pairs, infos)
    {
      infos := [];
      ghost var table := Table();
      var unvisited := rooms.Keys;
      while unvisited != {}
        invariant unvisited <= table.Keys
        invariant ListsOnly(table, infos, table.Keys - unvisited)
      {
        var name :| name in unvisited;
        var room := rooms[name];
        var members := room.MemberList();
        var info := RoomInfo(name, Int32(|room.Members|), members);
        ListsOneMore(table, infos, table.Keys - unvisited, info);
        OneMoreVisited(table.Keys, unvisited, name);
        infos := infos + [info];
        unvisited := unvisited - {name};
      }
      TableLists(infos);
    }

    lemma TableLists(infos: seq<RoomInfo>)
      requires Valid() && ListsOnly(Table(), infos, rooms.Keys)
      ensures Lists(Pairs, infos)
    {
      MembersInHeap();
    }
  }

  lemma OneMoreVisited(all: set<string>, unvisited: set<string>, x: string)
    requires unvisited <= all && x in unvisited
    ensures all - (unvisited - {x}) == all - unvisited + {x}
  {
  }

  lemma SetOfAppended(s: seq<string>, x: string)
    ensures SetOf(s + [x]) == SetOf(s) + {x}
  {
    assert forall y :: y in s + [x] <==> y in s || y == x;
  }

  lemma ListsOneMore(table: map<string, set<string>>, infos: seq<RoomInfo>, names: set<string>, info: RoomInfo)
    requires ListsOnly(table, infos, names) && info.name in table && info.name !in names
    requires Describes(info, table[info.name])
    ensures ListsOnly(table, infos + [info], names + {info.name})
  {
    NamesOfAppended(infos, info);
    assert forall i | 0 <= i < |infos| :: infos[i].name in NamesOf(infos);
  }

  lemma NamesOfAppended(infos: seq<RoomInfo>, info: RoomInfo)
    ensures NamesOf(infos + [info]) == NamesOf(infos) + {info.name}
  {
    var all := infos + [info];
    assert forall i | 0 <= i < |infos| :: all[i] == infos[i];
    assert all[|infos|] == info;
    forall r | r in NamesOf(infos) + {info.name} ensures r in NamesOf(all) {
      if r != info.name {
        var i :| 0 <= i < |infos| && infos[i].name == r;
        assert all[i].name == r;
      }
    }
  }

  // ------------------------------------------------------------------ every run of room calls

  datatype RoomCall = Join(room: string, user: string) | Leave(room: string, user: string)

  function AfterCall(p: Membership, c: RoomCall): Membership {
    match c
    case Join(r, u) => Joined(p, r, u)
    case Leave(r, u) => Left(p, r, u)
  }

  function RunRooms(calls: seq<RoomCall>): Membership {
    if calls == [] then {} else AfterCall(RunRooms(calls[..|calls| - 1]), calls[|calls| - 1])
  }

  /** Some join of the pair has no later leave of it. */
  ghost predicate JoinedLast(calls: seq<RoomCall>, room: string, user: string) {
    exists i :: 0 <= i < |calls| && calls[i] == Join(room, user) &&
                forall j | i < j < |calls| :: calls[j] != Leave(room, user)
  }

  /** Over every run, who is in which room is decided by the last join or leave of that pair;
      no call makes the empty name a member. */
  lemma {:induction false} MembershipIsLastCall(calls: seq<RoomCall>, room: string, user: string)
    ensures (room, user) in RunRooms(calls) <==> user != "" && JoinedLast(calls, room, user)
  {
    if calls != [] {
      var n := |calls| - 1;
      var rest, c := calls[..n], calls[n];
      MembershipIsLastCall(rest, room, user);
      if JoinedLast(calls, room, user) && c != Join(room, user) {
        var i :| 0 <= i < |calls| && calls[i] == Join(room, user) &&
                 forall j | i < j < |calls| :: calls[j] != Leave(room, user);
        assert rest[i] == calls[i];
        assert forall j | i < j < |rest| :: rest[j] == calls[j];
      }
      if JoinedLast(rest, room, user) && c != Leave(room, user) {
        var i :| 0 <= i < |rest| && rest[i] == Join(room, user) &&
                 forall j | i < j < |rest| :: rest[j] != Leave(room, user);
        assert calls[i] == rest[i];
        assert forall j | i < j < n :: calls[j] == rest[j];
      }
      if c == Join(room, user) {
        assert calls[n] == Join(room, user);
      }
    }
  }
}
