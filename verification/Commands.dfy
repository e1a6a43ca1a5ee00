/** The command line of the chat client: NUL-terminated buffers, `strtok` in place, and dispatch. */
module Commands {
  import opened Basics

  const NUL: char := '\0'

  /** Where the run from `p` of characters that are all in `chars`, or all outside it, stops. */
  function Stop(s: string, p: nat, chars: string, inside: bool): (e: nat)
    requires p <= |s|
    ensures p <= e <= |s|
    ensures forall i | p <= i < e :: (s[i] in chars) == inside
    ensures e < |s| ==> (s[e] in chars) != inside
    decreases |s| - p
  {
    if p == |s| || (s[p] in chars) != inside then p else Stop(s, p + 1, chars, inside)
  }

  /** The C string at position `p` of a buffer. */
  function CStr(s: string, p: nat): string
    requires p <= |s|
  {
    s[p..Stop(s, p, [NUL], false)]
  }

  /** What one call cuts from `text`: a token (none if only delimiters are left) and what is left to cut. */
  function Cut(text: string, delims: string): (r: (Option<string>, string))
    ensures r.0.Some? ==> r.0.value != ""
  {
    var p := Stop(text, 0, delims, true);
    var e := Stop(text, p, delims, false);
    if p == |text| then (None, "") else (Some(text[p..e]), if e < |text| then text[e + 1..] else "")
  }

  /** The two calls of the message handlers: a word, then everything behind the blank after it. */
  function Split(text: string): (Option<string>, Option<string>) {
    var (word, rest) := Cut(text, " ");
    (word, Cut(rest, "").0)
  }

  predicate EndsAt(s: string, p: nat, end: nat) {
    p <= end < |s| && s[end] == NUL && forall i | p <= i < end :: s[i] != NUL
  }

  lemma CStrEndsAt(s: string, p: nat, end: nat)
    requires EndsAt(s, p, end)
    ensures CStr(s, p) == s[p..end]
  {
  }

  lemma {:induction false} StopInSlice(s: string, start: nat, end: nat, q: nat, chars: string, inside: bool, e: nat)
    requires start <= q <= e <= end <= |s|
    requires forall i | q <= i < e :: (s[i] in chars) == inside
    requires e < end ==> (s[e] in chars) != inside
    ensures Stop(s[start..end], q - start, chars, inside) == e - start
    decreases e - q
  {
    assert q < end ==> s[start..end][q - start] == s[q];
    if q < e {
      StopInSlice(s, start, end, q + 1, chars, inside, e);
    }
  }

  /** `Cut` in terms of positions in the buffer. */
  lemma CutAt(s: string, start: nat, end: nat, delims: string, p: nat, e: nat)
    requires start <= p <= e <= end <= |s|
    requires forall i | start <= i < p :: s[i] in delims
    requires p < end ==> s[p] !in delims
    requires forall i | p <= i < e :: s[i] !in delims
    requires e < end ==> s[e] in delims
    ensures Cut(s[start..end], delims) ==
            if p == end then (None, "") else (Some(s[p..e]), if e < end then s[e + 1..end] else "")
  {
    var text := s[start..end];
    StopInSlice(s, start, end, start, delims, true, p);
    StopInSlice(s, start, end, p, delims, false, e);
    SliceOfSlice(s, start, end, p, e);
    if e < end {
      SliceOfSlice(s, start, end, e + 1, end);
    }
  }

  lemma SliceOfSlice(s: string, start: nat, end: nat, p: nat, e: nat)
    requires start <= p <= e <= end <= |s|
    ensures s[start..end][p - start..e - start] == s[p..e]
  {
    var piece := s[start..end][p - start..e - start];
    assert |piece| == e - p;
    assert forall i | 0 <= i < e - p :: piece[i] == s[start..end][p - start + i] == s[p..e][i];
  }

  /** Moves a pointer over a leading run, as `strspn` and `strcspn` do. */
  method Skip(buf: array<char>, start: nat, chars: string, inside: bool, ghost end: nat) returns (p: nat)
    requires EndsAt(buf[..], start, end)
    ensures start <= p <= end
    ensures forall i | start <= i < p :: (buf[i] in chars) == inside
    ensures p < end ==> (buf[p] in chars) != inside
  {
    p := start;
    while buf[p] != NUL && (buf[p] in chars) == inside
      invariant start <= p <= end
      invariant forall i | start <= i < p :: (buf[i] in chars) == inside
      decreases end - p
    {
      p := p + 1;
    }
  }

  /** `strtok(buf + start, delims)`: skips delimiters, ends the token with a NUL written over the first
      delimiter behind it, and remembers where to go on. */
  method StrTok(buf: array<char>, start: nat, delims: string, ghost end: nat) returns (token: Option<nat>, save: nat)
    requires EndsAt(buf[..], start, end)
    modifies buf
    ensures start <= save <= end && EndsAt(buf[..], save, end)
    ensures var (word, rest) := Cut(CStr(old(buf[..]), start), delims);
            && CStr(buf[..], save) == rest
            && (token.None? <==> word.None?)
            && (token.Some? ==> start <= token.value < end && CStr(buf[..], token.value) == word.value)
    ensures delims == "" ==> buf[..] == old(buf[..])
  {
    ghost var s := buf[..];
    CStrEndsAt(s, start, end);
    var p := Skip(buf, start, delims, true, end);
    if buf[p] == NUL {
      CutAt(s, start, end, delims, p, p);
      CStrEndsAt(s, p, end);
      return None, p;
    }
    var e := Skip(buf, p, delims, false, end);
    CutAt(s, start, end, delims, p, e);
    token := Some(p);
    if buf[e] == NUL {
      save := e;
    } else {
      buf[e] := NUL;
      save := e + 1;
      assert buf[p..e] == s[p..e] && buf[save..end] == s[save..end];
    }
    CStrEndsAt(buf[..], p, e);
    CStrEndsAt(buf[..], save, end);
  }

  /** The two `strtok` calls of the message handlers, on the text behind the command word. */
  method SplitInPlace(buf: array<char>, start: nat, ghost end: nat) returns (word: Option<string>, rest: Option<string>)
    requires EndsAt(buf[..], start, end)
    modifies buf
    ensures (word, rest) == Split(old(buf[..])[start..end])
  {
    CStrEndsAt(buf[..], start, end);
    var first, save := StrTok(buf, start, " ", end);
    var second, _ := StrTok(buf, save, "", end);
    word := if first.Some? then Some(CStr(buf[..], first.value)) else None;
    rest := if second.Some? then Some(CStr(buf[..], second.value)) else None;
  }

  // ------------------------------------------------------------------ what the split means

  function Blanks(k: nat): string {
    seq(k, _ => ' ')
  }

  lemma RestIsWhole(rest: string)
    ensures Cut(rest, "").0 == if rest == "" then None else Some(rest)
  {
    assert Stop(rest, 0, "", true) == 0;
    assert Stop(rest, 0, "", false) == |rest|;
    assert rest[0..|rest|] == rest;
  }

  ghost predicate Written(text: string, word: string, content: string) {
    exists k: nat :: text == Blanks(k) + word + " " + content
  }

  lemma SplitOfWritten(k: nat, word: string, content: string)
    requires word != "" && ' ' !in word && content != ""
    ensures Split(Blanks(k) + word + " " + content) == (Some(word), Some(content))
  {
    var text, e := Blanks(k) + word + " " + content, k + |word|;
    assert forall i | 0 <= i < k :: text[i] == ' ';
    assert forall i | k <= i < e :: text[i] == word[i - k] && word[i - k] in word;
    assert text[e] == ' ';
    assert text[k..e] == word && text[e + 1..] == content && text[0..|text|] == text;
    CutAt(text, 0, |text|, " ", k, e);
    RestIsWhole(content);
  }

  lemma AcceptedIsWritten(text: string)
    requires Split(text).0.Some? && Split(text).1.Some?
    ensures var (word, content) := (Split(text).0.value, Split(text).1.value);
            word != "" && ' ' !in word && content != "" && Written(text, word, content)
  {
    var p := Stop(text, 0, " ", true);
    var e := Stop(text, p, " ", false);
    RestIsWhole(Cut(text, " ").1);
    assert text[..p] == Blanks(p);
    assert [text[e]] == " ";
    assert text == text[..p] + text[p..e] + [text[e]] + text[e + 1..];
    assert ' ' !in text[p..e];
  }

  /** A line is accepted with a given name and content exactly when it is some blanks, the name, one
      blank and the content; the content keeps its own leading and inner blanks. */
  lemma SplitMeans(text: string, word: string, content: string)
    ensures Split(text) == (Some(word), Some(content)) <==>
            word != "" && ' ' !in word && content != "" && Written(text, word, content)
  {
    if Split(text) == (Some(word), Some(content)) {
      AcceptedIsWritten(text);
    }
    if word != "" && ' ' !in word && content != "" && Written(text, word, content) {
      var k: nat :| text == Blanks(k) + word + " " + content;
      SplitOfWritten(k, word, content);
    }
  }

  /** The other lines are refused: no name, or nothing behind it. */
  lemma SplitRefuses(text: string)
    ensures Split(text).0.None? || Split(text).1.None? <==>
            !exists word, content ::
               word != "" && ' ' !in word && content != "" && Written(text, word, content)
  {
    var s := Split(text);
    if s.0.Some? && s.1.Some? {
      SplitMeans(text, s.0.value, s.1.value);
    }
    if word, content :| word != "" && ' ' !in word && content != "" && Written(text, word, content) {
      SplitMeans(text, word, content);
    }
  }

  // ------------------------------------------------------------------ dispatch

  datatype Command =
    | Quit
    | ListRooms
    | JoinRoom(room: string)
    | LeaveRoom(room: string)
    | RoomMessage(text: string)
    | DirectMessage(text: string)
    | Unknown

  /** The line reaches the fixed offset at which its handler starts to read. */
  predicate LongEnough(line: string) {
    && ("/join" <= line ==> |line| >= 6)
    && ("/leave" <= line ==> |line| >= 7)
    && ("/msg" <= line ==> |line| >= 5)
    && ("/dm" <= line ==> |line| >= 4)
  }

  function Dispatch(line: string): Command
    requires LongEnough(line)
  {
    if line == "/quit" then Quit
    else if line == "/rooms" then ListRooms
    else if "/join" <= line then JoinRoom(line[6..])
    else if "/leave" <= line then LeaveRoom(line[7..])
    else if "/msg" <= line then RoomMessage(line[5..])
    else if "/dm" <= line then DirectMessage(line[4..])
    else Unknown
  }

  /** The second character tells the commands apart. */
  lemma CommandLetter(line: string)
    requires |line| >= 2
    ensures line == "/quit" ==> line[1] == 'q'
    ensures line == "/rooms" ==> line[1] == 'r'
    ensures "/join" <= line ==> line[1] == 'j'
    ensures "/leave" <= line ==> line[1] == 'l'
    ensures "/msg" <= line ==> line[1] == 'm'
    ensures "/dm" <= line ==> line[1] == 'd'
  {
    assert "/join" <= line ==> line[1] == "/join"[1];
    assert "/leave" <= line ==> line[1] == "/leave"[1];
    assert "/msg" <= line ==> line[1] == "/msg"[1];
    assert "/dm" <= line ==> line[1] == "/dm"[1];
  }

  lemma CommandWord(word: string, rest: string)
    requires |word| >= 2
    ensures var line := word + " " + rest;
            line[1] == word[1] && word <= line && line[|word| + 1..] == rest
  {
  }

  /** Parsing undoes printing: the message commands reach their handlers and come apart into exactly
      the name and the content that were put in. */
  lemma ParseUndoesPrint(name: string, content: string)
    requires name != "" && ' ' !in name && content != ""
    ensures var line := "/msg" + " " + (name + " " + content);
            LongEnough(line) && Dispatch(line).RoomMessage? &&
            Split(Dispatch(line).text) == (Some(name), Some(content))
    ensures var line := "/dm" + " " + (name + " " + content);
            LongEnough(line) && Dispatch(line).DirectMessage? &&
            Split(Dispatch(line).text) == (Some(name), Some(content))
  {
    var text := name + " " + content;
    assert text == Blanks(0) + name + " " + content;
    SplitMeans(text, name, content);
    CommandWord("/msg", text);
    CommandLetter("/msg" + " " + text);
    CommandWord("/dm", text);
    CommandLetter("/dm" + " " + text);
  }

  lemma JoinAndLeaveUndoPrint(room: string)
    ensures LongEnough("/join" + " " + room) && Dispatch("/join" + " " + room) == JoinRoom(room)
    ensures LongEnough("/leave" + " " + room) && Dispatch("/leave" + " " + room) == LeaveRoom(room)
  {
    CommandWord("/join", room);
    CommandLetter("/join" + " " + room);
    CommandWord("/leave", room);
    CommandLetter("/leave" + " " + room);
  }
}
