/** Multipart messages: a list of frames that goes onto a stream frame by frame, each marked with
    whether more follow, and is collected again on the other side. */
module Multipart {
  import opened Basics

  type Bytes = seq<bv8>

  /** A frame on the stream, with its "more" mark. */
  datatype Frame = Frame(data: Bytes, more: bool)

  /** What the caller of a send asks for besides the frames. */
  datatype Flags = Flags(dontWait: bool, sndMore: bool)

  /** The frames of one message as they appear on the stream. */
  function Encode(frames: seq<Bytes>, last: bool): seq<Frame> {
    seq(|frames|, i requires 0 <= i < |frames| => Frame(frames[i], i < |frames| - 1 || last))
  }

  /** How many frames the first message of a stream has; one more than the stream if it does not end. */
  function FirstLength(stream: seq<Frame>): (n: nat)
    ensures 1 <= n <= |stream| + 1
    ensures forall i | 0 <= i < n - 1 :: stream[i].more
    ensures n <= |stream| ==> !stream[n - 1].more
  {
    if stream == [] || !stream[0].more then 1 else 1 + FirstLength(stream[1..])
  }

  function Data(stream: seq<Frame>): seq<Bytes> {
    seq(|stream|, i requires 0 <= i < |stream| => stream[i].data)
  }

  class Socket {
    var outgoing: seq<Frame>
    var incoming: seq<Frame>

    constructor (incoming: seq<Frame>)
      ensures this.incoming == incoming && outgoing == []
    {
      this.incoming, outgoing := incoming, [];
    }

    method SendFrame(data: Bytes, more: bool, fails: bool) returns (rc: int)
      modifies this`outgoing
      ensures rc == (if fails then -1 else |data|)
      ensures outgoing == if fails then old(outgoing) else old(outgoing) + [Frame(data, more)]
    {
      if fails {
        return -1;
      }
      outgoing := outgoing + [Frame(data, more)];
      rc := |data|;
    }

    /** Waits for a frame, so one must come. */
    method RecvFrame(fails: bool) returns (frame: Option<Frame>)
      requires fails || incoming != []
      modifies this`incoming
      ensures fails ==> frame == None && incoming == old(incoming)
      ensures !fails ==> frame == Some(old(incoming)[0]) && incoming == old(incoming)[1..]
    {
      if fails {
        return None;
      }
      frame, incoming := Some(incoming[0]), incoming[1..];
    }
  }

  /** Which of the two allocations of one call fail; allocating nothing may return nothing. */
  datatype Memory = Memory(growFails: bool, copyFails: bool)

  predicate AllocationFails(memory: Memory, data: Bytes) {
    memory.growFails || (memory.copyFails && |data| > 0)
  }

  class Message {
    var frames: seq<Bytes>
    var count: nat

    ghost predicate Valid()
      reads this
    {
      count == |frames|
    }

    constructor ()
      ensures Valid() && frames == []
    {
      frames, count := [], 0;
    }

    /** A failed allocation leaves the message as it was. */
    method AddFrame(data: Bytes, memory: Memory) returns (rc: int)
      requires Valid()
      modifies this
      ensures Valid()
      ensures rc == (if AllocationFails(memory, data) then -1 else 0)
      ensures frames == if rc == 0 then old(frames) + [data] else old(frames)
    {
      if memory.growFails {
        return -1;
      }
      if memory.copyFails && |data| > 0 {
        return -1;
      }
      frames := frames + [data];
      count := count + 1;
      rc := 0;
    }

    /** Every frame but the last is marked; the last one only if the caller's flags say so. If the send
        of frame `failAt` fails, the frames before it are on the stream and the call reports it. */
    method Send(socket: Socket, flags: Flags, failAt: Option<nat>) returns (rc: int)
      requires Valid()
      modifies socket`outgoing
      ensures rc == (if frames == [] || (failAt.Some? && failAt.value < |frames|) then -1 else 0)
      ensures var all := Encode(frames, flags.sndMore);
              socket.outgoing == old(socket.outgoing) +
                (if failAt.Some? && failAt.value < |all| then all[..failAt.value] else all)
    {
      if count == 0 {
        return -1;
      }
      ghost var all := Encode(frames, flags.sndMore);
      for i := 0 to count
        invariant failAt.Some? ==> i <= failAt.value
        invariant socket.outgoing == old(socket.outgoing) + all[..i]
      {
        var more := flags.sndMore;
        if i < count - 1 {
          more := true;
        }
        var sent := socket.SendFrame(frames[i], more, failAt == Some(i));
        if sent == -1 {
          return -1;
        }
        assert all[..i + 1] == all[..i] + [all[i]];
      }
      assert all[..count] == all;
      rc := 0;
    }
  }

  /** What may go wrong in a receive: no memory for the message, a failed receive of frame `at`, or no
      memory to keep that frame. */
  datatype Fault = NoFault | NoMessage | FrameFails(at: nat) | FrameLost(at: nat)

  /** Whether a fault strikes a message of `n` frames. */
  predicate Strikes(fault: Fault, n: nat) {
    match fault
    case NoFault => false
    case NoMessage => true
    case FrameFails(at) => at < n
    case FrameLost(at) => at < n
  }

  /** How many frames the receive of a message of `n` frames takes from the stream. */
  function Taken(fault: Fault, n: nat): nat {
    if !Strikes(fault, n) then n
    else if fault.FrameLost? then fault.at + 1
    else if fault.FrameFails? then fault.at
    else 0
  }

  /** Collects frames up to the first unmarked one, or up to a fault, which drops what was collected.
      The frames must be on the stream, or the receive would wait for ever. */
  method MessageRecv(socket: Socket, fault: Fault) returns (msg: Message?)
    requires Taken(fault, FirstLength(socket.incoming)) <= |socket.incoming|
    modifies socket`incoming
    ensures msg == null <==> Strikes(fault, FirstLength(old(socket.incoming)))
    ensures socket.incoming == old(socket.incoming)[Taken(fault, FirstLength(old(socket.incoming)))..]
    ensures msg != null ==>
              fresh(msg) && msg.Valid() && msg.frames == Data(old(socket.incoming)[..FirstLength(old(socket.incoming))])
  {
    ghost var stream, n := socket.incoming, FirstLength(socket.incoming);
    if fault.NoMessage? {
      return null;
    }
    var m := new Message();
    var more := true;
    var k := 0;
    while more
      invariant k <= n && m.Valid() && fresh(m)
      invariant fault.FrameFails? || fault.FrameLost? ==> k <= fault.at
      invariant more <==> k < n
      invariant k <= |stream| && socket.incoming == stream[k..]
      invariant |m.frames| == k && forall j | 0 <= j < k :: m.frames[j] == stream[j].data
      decreases n - k
    {
      var frame := socket.RecvFrame(fault == FrameFails(k));
      if frame == None {
        return null;
      }
      var rc := m.AddFrame(frame.value.data, Memory(fault == FrameLost(k), false));
      if rc != 0 {
        return null;
      }
      more := frame.value.more;
      k := k + 1;
    }
    msg := m;
  }

  // ------------------------------------------------------------------ many messages

  /** The stream that sending the messages one after the other leaves. */
  function EncodeAll(messages: seq<seq<Bytes>>, last: bool): seq<Frame> {
    if messages == [] then [] else Encode(messages[0], last) + EncodeAll(messages[1..], last)
  }

  /** What `n` receives in a row take from a stream: the messages, and what is left; None if a receive
      would wait for ever. */
  function DecodeMany(stream: seq<Frame>, n: nat): Option<(seq<seq<Bytes>>, seq<Frame>)> {
    if n == 0 then Some(([], stream))
    else
      var k := FirstLength(stream);
      if k > |stream| then None
      else
        match DecodeMany(stream[k..], n - 1)
        case None => None
        case Some((messages, rest)) => Some(([Data(stream[..k])] + messages, rest))
  }

  lemma FirstOfEncoded(frames: seq<Bytes>, rest: seq<Frame>)
    requires frames != []
    ensures var stream := Encode(frames, false) + rest;
            FirstLength(stream) == |frames| && Data(stream[..|frames|]) == frames && stream[|frames|..] == rest
  {
    var stream := Encode(frames, false) + rest;
    assert forall i | 0 <= i < |frames| :: stream[i] == Frame(frames[i], i < |frames| - 1);
    assert !stream[|frames| - 1].more && forall i | 0 <= i < |frames| - 1 :: stream[i].more;
    assert stream[..|frames|] == Encode(frames, false);
  }

  lemma DecodeOneMore(frames: seq<Bytes>, tail: seq<Frame>, n: nat, messages: seq<seq<Bytes>>, rest: seq<Frame>)
    requires frames != [] && DecodeMany(tail, n) == Some((messages, rest))
    ensures DecodeMany(Encode(frames, false) + tail, n + 1) == Some(([frames] + messages, rest))
  {
    FirstOfEncoded(frames, tail);
  }

  /** Round trip: non-empty messages, whatever their frames hold, sent without the caller's own "more"
      flag, come back as they were, frame by frame, and each receive takes exactly its own frames. */
  lemma {:induction false} RoundTrip(messages: seq<seq<Bytes>>, rest: seq<Frame>)
    requires forall m | m in messages :: m != []
    ensures DecodeMany(EncodeAll(messages, false) + rest, |messages|) == Some((messages, rest))
  {
    if messages == [] {
      assert EncodeAll(messages, false) + rest == rest;
    } else {
      var first, later := messages[0], messages[1..];
      assert first in messages && forall m | m in later :: m in messages;
      RoundTrip(later, rest);
      var tail := EncodeAll(later, false) + rest;
      assert EncodeAll(messages, false) + rest == Encode(first, false) + tail;
      DecodeOneMore(first, tail, |later|, later, rest);
      assert [first] + later == messages;
    }
  }

  lemma {:induction false} AllMarked(messages: seq<seq<Bytes>>)
    ensures forall f | f in EncodeAll(messages, true) :: f.more
  {
    if messages != [] {
      AllMarked(messages[1..]);
    }
  }

  /** With the caller's own "more" flag no message ever ends: the round trip holds exactly without it. */
  lemma RoundTripIff(messages: seq<seq<Bytes>>, last: bool)
    requires messages != [] && forall m | m in messages :: m != []
    ensures DecodeMany(EncodeAll(messages, last), |messages|) == Some((messages, [])) <==> !last
  {
    var stream := EncodeAll(messages, last);
    if last {
      AllMarked(messages);
      assert forall i | 0 <= i < |stream| :: stream[i] in stream;
      assert FirstLength(stream) == |stream| + 1;
    } else {
      RoundTrip(messages, []);
      assert stream + [] == stream;
    }
  }

  /** The receives of a list of messages, one after the other. */
  method ReceiveAll(socket: Socket, n: nat) returns (messages: seq<seq<Bytes>>)
    requires DecodeMany(socket.incoming, n).Some?
    modifies socket`incoming
    ensures Some((messages, socket.incoming)) == DecodeMany(old(socket.incoming), n)
    decreases n
  {
    messages := [];
    if n > 0 {
      var msg := MessageRecv(socket, NoFault);
      var first := msg.frames;
      messages := ReceiveAll(socket, n - 1);
      messages := [first] + messages;
    }
  }

  lemma {:induction false} EncodeAllAppend(messages: seq<seq<Bytes>>, m: seq<Bytes>, last: bool)
    ensures EncodeAll(messages + [m], last) == EncodeAll(messages, last) + Encode(m, last)
  {
    if messages == [] {
      assert EncodeAll([m], last) == Encode(m, last) + EncodeAll([], last);
    } else {
      EncodeAllAppend(messages[1..], m, last);
      assert (messages + [m])[1..] == messages[1..] + [m];
    }
  }

  /** End to end: messages built frame by frame, sent on one socket and received from the stream that
      leaves, come out as they went in. */
  method Transfer(messages: seq<seq<Bytes>>) returns (received: seq<seq<Bytes>>)
    requires forall m | m in messages :: m != []
    ensures received == messages
  {
    var sender := new Socket([]);
    for i := 0 to |messages|
      invariant sender.outgoing == EncodeAll(messages[..i], false)
    {
      var msg := new Message();
      for k := 0 to |messages[i]|
        invariant msg.Valid() && msg.frames == messages[i][..k]
        modifies msg
      {
        var _ := msg.AddFrame(messages[i][k], Memory(false, false));
      }
      assert messages[i][..|messages[i]|] == messages[i];
      var _ := msg.Send(sender, Flags(false, false), None);
      EncodeAllAppend(messages[..i], messages[i], false);
      assert messages[..i + 1] == messages[..i] + [messages[i]];
    }
    assert messages[..|messages|] == messages;
    RoundTrip(messages, []);
    assert sender.outgoing + [] == sender.outgoing;
    var receiver := new Socket(sender.outgoing);
    received := ReceiveAll(receiver, |messages|);
  }
}
