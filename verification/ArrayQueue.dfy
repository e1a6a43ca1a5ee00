/** The client's array queue: elements at the front, NULL from there on, shifted on every pop. */
module ArrayQueue {
  import opened Basics

  /** An element is the address of an allocated string. */
  type Pointer = nat

  type Slots = seq<Option<Pointer>>

  /** Elements below `capacity`, NULL from there on, and one slot more than may ever be filled. */
  predicate Queue(slots: Slots, capacity: int, max: nat) {
    && 0 <= capacity <= max && |slots| == max + 1
    && (forall i | 0 <= i < capacity :: slots[i].Some?)
    && (forall i | capacity <= i < |slots| :: slots[i] == None)
  }

  /** The elements from the front on. */
  function Elements(slots: Slots, capacity: int): seq<Pointer>
    requires 0 <= capacity <= |slots| && forall i | 0 <= i < capacity :: slots[i].Some?
  {
    seq(capacity, i requires 0 <= i < capacity => slots[i].value)
  }

  method QueuePop(queue: array<Option<Pointer>>, capacity: int, ghost max: nat)
    returns (element: Option<Pointer>, capacity': int)
    requires Queue(queue[..], capacity, max)
    modifies queue
    ensures Queue(queue[..], capacity', max)
    ensures var q := old(Elements(queue[..], capacity));
            if q == [] then element == None && Elements(queue[..], capacity') == []
            else element == Some(q[0]) && Elements(queue[..], capacity') == q[1..]
  {
    if capacity <= 0 {
      return None, capacity;
    }
    ghost var was := queue[..];
    element := queue[0];
    for i := 0 to capacity - 1
      invariant forall k | 0 <= k < i :: queue[k] == was[k + 1]
      invariant forall k | i <= k < queue.Length :: queue[k] == was[k]
    {
      queue[i] := queue[i + 1];
    }
    capacity' := capacity - 1;
    queue[capacity'] := None;
  }

  /** An element that finds the queue full is freed. */
  method QueuePush(queue: array<Option<Pointer>>, capacity: int, element: Pointer, max: nat)
    returns (capacity': int, freed: seq<Pointer>)
    requires Queue(queue[..], capacity, max)
    modifies queue
    ensures Queue(queue[..], capacity', max)
    ensures var q := old(Elements(queue[..], capacity));
            if |q| < max then Elements(queue[..], capacity') == q + [element] && freed == []
            else Elements(queue[..], capacity') == q && freed == [element]
  {
    if capacity < max {
      queue[capacity] := Some(element);
      return capacity + 1, [];
    }
    capacity', freed := capacity, [element];
  }

  /** Frees every element, front first; the queue is empty afterwards. */
  method QueueCleanup(queue: array<Option<Pointer>>, capacity: int, ghost max: nat) returns (freed: seq<Pointer>)
    requires Queue(queue[..], capacity, max)
    modifies queue
    ensures Queue(queue[..], 0, max)
    ensures freed == old(Elements(queue[..], capacity))
  {
    ghost var was := queue[..];
    freed := [];
    for i := 0 to capacity
      invariant |freed| == i && forall k | 0 <= k < i :: freed[k] == was[k].value && queue[k] == None
      invariant forall k | i <= k < queue.Length :: queue[k] == was[k]
    {
      if queue[i] != None {
        freed := freed + [queue[i].value];
        queue[i] := None;
      }
    }
  }

  /** Runs up to the NULL behind the last element, which the spare slot guarantees. */
  method QueueSize(queue: array<Option<Pointer>>, ghost capacity: int, ghost max: nat) returns (count: int)
    requires Queue(queue[..], capacity, max)
    ensures count == capacity == |Elements(queue[..], capacity)|
  {
    count := 0;
    while queue[count] != None
      invariant 0 <= count <= capacity
      decreases capacity - count
    {
      count := count + 1;
    }
  }

  method QueueIsEmpty(queue: array<Option<Pointer>>, ghost capacity: int, ghost max: nat) returns (empty: bool)
    requires Queue(queue[..], capacity, max)
    ensures empty <==> Elements(queue[..], capacity) == []
  {
    var size := QueueSize(queue, capacity, max);
    empty := size == 0;
  }

  // ------------------------------------------------------------------ every run of calls

  datatype Call = Push(element: Pointer) | Pop

  /** What is queued, and what has been popped and freed so far, in order. */
  datatype History = History(queued: seq<Pointer>, popped: seq<Pointer>, freed: seq<Pointer>)

  function After(h: History, c: Call, max: nat): History {
    match c
    case Push(x) => if |h.queued| < max then h.(queued := h.queued + [x]) else h.(freed := h.freed + [x])
    case Pop => if h.queued == [] then h else h.(queued := h.queued[1..], popped := h.popped + [h.queued[0]])
  }

  function Run(calls: seq<Call>, max: nat): History {
    if calls == [] then History([], [], []) else After(Run(calls[..|calls| - 1], max), calls[|calls| - 1], max)
  }

  /** A run of calls on a real array is the run on the history. */
  method Replay(calls: seq<Call>, max: nat) returns (queue: array<Option<Pointer>>, capacity: int, ghost h: History)
    ensures fresh(queue) && Queue(queue[..], capacity, max)
    ensures h == Run(calls, max) && Elements(queue[..], capacity) == h.queued
  {
    queue := new Option<Pointer>[max + 1](_ => None);
    capacity := 0;
    h := History([], [], []);
    for i := 0 to |calls|
      invariant Queue(queue[..], capacity, max)
      invariant h == Run(calls[..i], max) && Elements(queue[..], capacity) == h.queued
    {
      assert calls[..i + 1][..i] == calls[..i];
      match calls[i] {
        case Push(x) =>
          var freed: seq<Pointer>;
          capacity, freed := QueuePush(queue, capacity, x, max);
          h := h.(queued := Elements(queue[..], capacity), freed := h.freed + freed);
        case Pop =>
          var element;
          element, capacity := QueuePop(queue, capacity, max);
          h := h.(queued := Elements(queue[..], capacity),
                  popped := if element.Some? then h.popped + [element.value] else h.popped);
      }
    }
    assert calls[..|calls|] == calls;
  }

  /** The pushed elements, in order. */
  function Pushed(calls: seq<Call>): seq<Pointer> {
    if calls == [] then []
    else
      var c := calls[|calls| - 1];
      Pushed(calls[..|calls| - 1]) + if c.Push? then [c.element] else []
  }

  /** The pushed elements that found room, in order. */
  function Accepted(calls: seq<Call>, max: nat): seq<Pointer> {
    if calls == [] then []
    else
      var rest, c := calls[..|calls| - 1], calls[|calls| - 1];
      Accepted(rest, max) + if c.Push? && |Run(rest, max).queued| < max then [c.element] else []
  }

  predicate Conserves(h: History, accepted: seq<Pointer>, pushed: seq<Pointer>) {
    && accepted == h.popped + h.queued
    && multiset(pushed) == multiset(h.queued) + multiset(h.popped) + multiset(h.freed)
  }

  lemma CallConserves(h: History, c: Call, max: nat, accepted: seq<Pointer>, pushed: seq<Pointer>)
    requires Conserves(h, accepted, pushed)
    ensures Conserves(After(h, c, max),
                      accepted + (if c.Push? && |h.queued| < max then [c.element] else []),
                      pushed + (if c.Push? then [c.element] else []))
  {
    if c.Pop? && h.queued != [] {
      assert h.queued == [h.queued[0]] + h.queued[1..];
      assert h.popped + h.queued == h.popped + [h.queued[0]] + h.queued[1..];
    }
    if c.Push? && |h.queued| < max {
      assert h.popped + h.queued + [c.element] == h.popped + (h.queued + [c.element]);
    }
    assert accepted + [] == accepted && pushed + [] == pushed;
  }

  /** First in, first out, and conservation: what was accepted is what was popped followed by what is
      queued, and every pushed element is in exactly one of queued, popped and freed. A final cleanup,
      which frees what is queued, then leaves popped and freed only. */
  lemma {:induction false} FifoAndConservation(calls: seq<Call>, max: nat)
    ensures |Run(calls, max).queued| <= max
    ensures Accepted(calls, max) == Run(calls, max).popped + Run(calls, max).queued
    ensures var h := Run(calls, max);
            multiset(Pushed(calls)) == multiset(h.queued) + multiset(h.popped) + multiset(h.freed)
  {
    if calls != [] {
      var rest, c := calls[..|calls| - 1], calls[|calls| - 1];
      FifoAndConservation(rest, max);
      CallConserves(Run(rest, max), c, max, Accepted(rest, max), Pushed(rest));
    }
  }
}
