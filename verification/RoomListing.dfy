/** The room list that the client prints into a fixed buffer, one `snprintf` call after the other. */
module RoomListing {
  import opened Basics
  import opened Rooms
  import opened Commands

  const BUFFER_SIZE := 1024

  /** `%-10s`. */
  function Padded(s: string): (p: string)
    ensures |p| == Max(10, |s|) && s <= p
  {
    s + Blanks(Max(0, 10 - |s|))
  }

  /** The two bytes of the accented letter are written out. */
  function Header(n: nat): string {
    "--- Lista Pokoj\U{C3}\U{B3}w (" + Digits(n) + ") ---\n"
  }

  function Line(r: RoomInfo): (line: string)
    ensures |line| == 23 + Max(10, |r.name|) + |FormatInt(r.memberCount)|
  {
    " * room: #" + Padded(r.name) + " | members: " + FormatInt(r.memberCount) + "\n"
  }

  /** The whole text: the header and every line, in order. */
  function Listing(n: nat, rooms: seq<RoomInfo>): string {
    if rooms == [] then Header(n) else Listing(n, rooms[..|rooms| - 1]) + Line(rooms[|rooms| - 1])
  }

  function SumOfLengths(rooms: seq<RoomInfo>): int {
    if rooms == [] then 0
    else
      var r := rooms[|rooms| - 1];
      SumOfLengths(rooms[..|rooms| - 1]) + 23 + Max(10, |r.name|) + |FormatInt(r.memberCount)|
  }

  lemma {:induction false} ListingLength(n: nat, rooms: seq<RoomInfo>)
    ensures |Listing(n, rooms)| == |Header(n)| + SumOfLengths(rooms)
  {
    if rooms != [] {
      ListingLength(n, rooms[..|rooms| - 1]);
    }
  }

  /** The header tells how many rooms there are. */
  lemma HeaderTells(n: nat)
    ensures Value(Header(n)[20..|Header(n)| - 6]) == n
  {
    var head, tail := "--- Lista Pokoj\U{C3}\U{B3}w (", ") ---\n";
    assert |head| == 20 && |tail| == 6;
    assert (head + Digits(n) + tail)[20..20 + |Digits(n)|] == Digits(n);
    ValueOfDigits(n);
  }

  /** A line tells the name of its room and the number of its members. */
  lemma LineTells(r: RoomInfo)
    ensures Line(r)[10..10 + |r.name|] == r.name
    ensures r.memberCount >= 0 ==> Value(Line(r)[22 + Max(10, |r.name|)..|Line(r)| - 1]) == r.memberCount
  {
    var head, middle, tail := " * room: #", " | members: ", "\n";
    var name, count := Padded(r.name), FormatInt(r.memberCount);
    var front := head + name + middle;
    assert |head| == 10 && |middle| == 12 && |front| == 22 + |name|;
    assert Line(r) == front + count + tail;
    assert (front + count + tail)[|front|..|front| + |count|] == count;
    assert front[10..10 + |name|] == name && name[..|r.name|] == r.name;
    if r.memberCount >= 0 {
      ValueOfDigits(r.memberCount);
    }
  }

  lemma ListingStep(n: nat, rooms: seq<RoomInfo>, i: nat)
    requires i < |rooms|
    ensures Listing(n, rooms[..i + 1]) == Listing(n, rooms[..i]) + Line(rooms[i])
  {
    assert rooms[..i + 1][..i] == rooms[..i];
  }

  lemma {:induction false} ListingGrows(n: nat, rooms: seq<RoomInfo>, i: nat)
    requires i <= |rooms|
    ensures |Listing(n, rooms[..i])| <= |Listing(n, rooms)|
  {
    if i == |rooms| {
      assert rooms[..i] == rooms;
    } else {
      var rest := rooms[..|rooms| - 1];
      assert rooms[..i] == rest[..i];
      ListingGrows(n, rest, i);
    }
  }

  predicate Printable(s: string) {
    NUL !in s
  }

  lemma PrintableConcat(a: string, b: string)
    requires Printable(a) && Printable(b)
    ensures Printable(a + b)
  {
  }

  lemma DigitsPrintable(n: int)
    ensures Printable(FormatInt(n))
  {
    var d := Digits(if n < 0 then -n else n);
    assert forall c | c in d :: '0' <= c;
  }

  lemma LinePrintable(r: RoomInfo)
    requires Printable(r.name)
    ensures Printable(Line(r))
  {
    DigitsPrintable(r.memberCount);
    var head := " * room: #";
    PrintableConcat(head, Padded(r.name));
    PrintableConcat(head + Padded(r.name), " | members: ");
    PrintableConcat(head + Padded(r.name) + " | members: ", FormatInt(r.memberCount));
  }

  lemma {:induction false} ListingPrintable(n: nat, rooms: seq<RoomInfo>)
    requires forall r | r in rooms :: Printable(r.name)
    ensures Printable(Listing(n, rooms))
  {
    if rooms == [] {
      DigitsPrintable(n);
    } else {
      var rest, r := rooms[..|rooms| - 1], rooms[|rooms| - 1];
      ListingPrintable(n, rest);
      LinePrintable(r);
      PrintableConcat(Listing(n, rest), Line(r));
    }
  }

  /** `snprintf(buf + offset, size, text)`: writes what fits with its NUL, returns the full length. */
  method Snprintf(buf: array<char>, offset: nat, size: nat, text: string) returns (written: nat)
    requires offset + size <= buf.Length
    modifies buf
    ensures written == |text|
    ensures size == 0 ==> buf[..] == old(buf[..])
    ensures size > 0 ==>
              var n := Min(|text|, size - 1);
              && buf[..offset] == old(buf[..offset]) && buf[offset..offset + n] == text[..n]
              && buf[offset + n] == NUL
  {
    written := |text|;
    if size > 0 {
      var n := Min(|text|, size - 1);
      for i := 0 to n
        invariant buf[..offset] == old(buf[..offset]) && buf[offset..offset + i] == text[..i]
      {
        buf[offset + i] := text[i];
      }
      buf[offset + n] := NUL;
    }
  }

  /** What the buffer holds after the texts written so far: all of it, cut to 1023 characters. */
  predicate Holds(s: string, text: string) {
    |s| == BUFFER_SIZE && EndsAt(s, 0, Min(|text|, BUFFER_SIZE - 1)) &&
    s[..Min(|text|, BUFFER_SIZE - 1)] == text[..Min(|text|, BUFFER_SIZE - 1)]
  }

  /** One more `snprintf` at the end of what is there. */
  method Append(buf: array<char>, ghost text: string, offset: nat, more: string) returns (offset': nat)
    requires buf.Length == BUFFER_SIZE && offset == |text| <= BUFFER_SIZE
    requires text == "" || Holds(buf[..], text)
    requires Printable(text) && Printable(more)
    modifies buf
    ensures offset' == |text + more| && Holds(buf[..], text + more)
  {
    ghost var s := buf[..];
    var n := Snprintf(buf, offset, BUFFER_SIZE - offset, more);
    offset' := offset + n;
    ghost var all := text + more;
    ghost var m := Min(|all|, BUFFER_SIZE - 1);
    if offset < BUFFER_SIZE {
      assert buf[..offset] == text;
      assert buf[..m] == all[..m];
      assert forall i | 0 <= i < m :: all[i] in text || all[i] in more;
    } else {
      assert all[..m] == text[..m];
    }
  }

  /** Some line would be printed with the offset already behind the buffer, where the size that is left
      wraps around. */
  ghost predicate Overruns(rooms: seq<RoomInfo>) {
    exists i | 0 <= i < |rooms| :: |Listing(|rooms|, rooms[..i])| > BUFFER_SIZE
  }

  function AllButLast(rooms: seq<RoomInfo>): seq<RoomInfo> {
    if rooms == [] then [] else rooms[..|rooms| - 1]
  }

  /** That happens exactly if header and lines but the last one do not fit. */
  lemma OverrunsIff(rooms: seq<RoomInfo>)
    ensures Overruns(rooms) <==> |Listing(|rooms|, AllButLast(rooms))| > BUFFER_SIZE
  {
    var n, most := |rooms|, AllButLast(rooms);
    if i :| 0 <= i < n && |Listing(n, rooms[..i])| > BUFFER_SIZE {
      assert rooms[..i] == most[..i];
      ListingGrows(n, most, i);
    }
    if rooms == [] {
      HeaderFits();
    }
  }

  lemma HeaderFits()
    ensures |Header(0)| <= BUFFER_SIZE
  {
    assert Digits(0) == [DigitChar(0)];
  }

  /** Some lists do: two rooms whose names a line can still carry, and any third room. */
  lemma OverrunHappens(name: string, last: RoomInfo)
    requires |name| == 505
    ensures Overruns([RoomInfo(name, 1, []), RoomInfo(name, 1, []), last])
  {
    var r := RoomInfo(name, 1, []);
    var rooms := [r, r, last];
    assert AllButLast(rooms) == [r, r] && [r, r][..1] == [r] && [r][..0] == [];
    assert Listing(3, [r, r]) == Listing(3, [r]) + Line(r);
    assert Listing(3, [r]) == Header(3) + Line(r);
    OverrunsIff(rooms);
  }

  /** Each iteration keeps the offset equal to the length of the text printed so far, and the buffer
      ends up with header and lines in order, cut to its 1023 characters; if they all fit, that is the
      whole text. It stops short exactly where the next line would be written behind the buffer. */
  method RenderRooms(rooms: seq<RoomInfo>, buf: array<char>) returns (offset: nat, overrun: bool)
    requires buf.Length == BUFFER_SIZE
    requires forall r | r in rooms :: Printable(r.name)
    modifies buf
    ensures overrun <==> Overruns(rooms)
    ensures !overrun ==> offset == |Listing(|rooms|, rooms)| && Holds(buf[..], Listing(|rooms|, rooms))
    ensures !overrun && offset < BUFFER_SIZE ==> CStr(buf[..], 0) == Listing(|rooms|, rooms)
  {
    ghost var n := |rooms|;
    ListingPrintable(n, []);
    assert "" + Header(n) == Header(n);
    offset := Append(buf, "", 0, Header(|rooms|));
    for i := 0 to |rooms|
      invariant offset == |Listing(n, rooms[..i])|
      invariant Holds(buf[..], Listing(n, rooms[..i]))
      invariant i > 0 ==> |Listing(n, rooms[..i - 1])| <= BUFFER_SIZE
    {
      if offset > BUFFER_SIZE {
        return offset, true;
      }
      ListingStep(n, rooms, i);
      ListingPrintable(n, rooms[..i]);
      LinePrintable(rooms[i]);
      offset := Append(buf, Listing(n, rooms[..i]), offset, Line(rooms[i]));
    }
    overrun := false;
    OverrunsIff(rooms);
    assert rooms[..n] == rooms;
    CStrEndsAt(buf[..], 0, Min(offset, BUFFER_SIZE - 1));
  }
}
