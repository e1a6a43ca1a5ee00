/** The UI thread and the controller thread over their PAIR socket (RFC 31/EXPAIR, section "The PAIR
    Socket Type"): the UI sends a line and waits for its response before it reads the next one. */
module Lockstep {
  import opened Basics
  import opened Envelopes
  import opened ReqRep
  import opened Commands
  import opened ClientController

  // ------------------------------------------------------------------ the stdin branch of the UI

  datatype UiAction = Leave | Prompt | Await

  /** The line as read, up to its line break. */
  function Stripped(raw: string): string {
    raw[..Stop(raw, 0, "\r\n", false)]
  }

  function UiSends(raw: Option<string>): seq<string> {
    if raw == None || Stripped(raw.value) == "" then [] else [Stripped(raw.value)]
  }

  function UiActs(raw: Option<string>): UiAction {
    if raw == None then Leave
    else if Stripped(raw.value) == "" then Prompt
    else if Stripped(raw.value) == "/quit" then Leave
    else Await
  }

  class Ui {
    var toController: seq<string>

    constructor ()
      ensures toController == []
    {
      toController := [];
    }

    /** One line from the terminal, or the end of the input. */
    method HandleStdin(raw: Option<string>) returns (action: UiAction)
      modifies this
      ensures action == UiActs(raw) && toController == old(toController) + UiSends(raw)
    {
      if raw == None {
        return Leave;
      }
      var end := 0;
      while end < |raw.value| && raw.value[end] !in "\r\n"
        invariant end <= |raw.value| && forall i | 0 <= i < end :: raw.value[i] !in "\r\n"
      {
        end := end + 1;
      }
      var line := raw.value[..end];
      assert end == Stop(raw.value, 0, "\r\n", false);
      if |line| == 0 {
        return Prompt;
      }
      toController := toController + [line];
      action := if line == "/quit" then Leave else Await;
    }
  }

  // ------------------------------------------------------------------ both threads

  /** A line under way, with the number of lines that wanted a response before it; a response likewise. */
  datatype Numbered = Numbered(index: nat, text: string)

  datatype UiPc = AtPrompt | Waiting | UiGone
  datatype CtlPc = Looping | Handling(line: Numbered) | CtlGone

  /** `lines`: the non-quit lines sent so far; `responses`: what the controller has sent back so far. */
  datatype Threads = Threads(
    ui: UiPc,
    ctl: CtlPc,
    toCtl: seq<Numbered>,
    toUi: seq<Numbered>,
    core: CtlState,
    lines: seq<string>,
    responses: seq<Numbered>)

  function Begin(core: CtlState): Threads {
    Threads(AtPrompt, Looping, [], [], core, [], [])
  }

  datatype Label =
    | UiReads(raw: Option<string>)
    | UiKilled
    | UiReceives
    | CtlTakes
    | CtlAnswers(net: Net)
    | CtlElse(event: Event)

  predicate Enabled(s: Threads, l: Label) {
    match l
    case UiReads(raw) => s.ui.AtPrompt? && forall line | line in UiSends(raw) :: GoodLine(line)
    case UiKilled => s.ui.AtPrompt?
    case UiReceives => s.ui.Waiting? && s.toUi != []
    case CtlTakes => s.ctl.Looping? && s.toCtl != []
    case CtlAnswers(_) => s.ctl.Handling? && GoodLine(s.ctl.line.text)
    case CtlElse(e) => s.ctl.Looping? && GoodEvent(e) && (e.Polled? ==> e.line.None?)
  }

  /** What the controller has sent to the UI since it was in state `a`. */
  function NewlySaid(a: CtlState, b: CtlState): seq<string> {
    if |a.toUi| <= |b.toUi| then b.toUi[|a.toUi|..] else []
  }

  function Number(index: nat, texts: seq<string>): seq<Numbered> {
    seq(|texts|, i requires 0 <= i < |texts| => Numbered(index, texts[i]))
  }

  function Step(s: Threads, user: string, l: Label): Threads
    requires Enabled(s, l)
  {
    match l
    case UiReads(raw) =>
      var sent := s.toCtl + Number(|s.lines|, UiSends(raw));
      (match UiActs(raw)
       case Leave => s.(ui := UiGone, toCtl := sent)
       case Prompt => s
       case Await => s.(ui := Waiting, toCtl := sent, lines := s.lines + UiSends(raw)))
    case UiKilled => s.(ui := UiGone)
    case UiReceives => s.(ui := AtPrompt, toUi := s.toUi[1..])
    case CtlTakes => s.(ctl := Handling(s.toCtl[0]), toCtl := s.toCtl[1..])
    case CtlAnswers(net) =>
      var line := s.ctl.line;
      var (core, code) := AfterLine(s.core, user, line.text, net);
      var said := Number(line.index, NewlySaid(s.core, core));
      s.(core := core, toUi := s.toUi + said, responses := s.responses + said,
         ctl := if code >= 0 && code != QUIT then Looping else CtlGone)
    case CtlElse(e) =>
      var (core, goesOn) := AfterEvent(s.core, user, e);
      s.(core := core, toUi := s.toUi + Number(0, NewlySaid(s.core, core)),
         ctl := if goesOn then Looping else CtlGone)
  }

  ghost predicate IsRun(run: seq<Threads>, user: string, labels: seq<Label>) {
    && |run| == |labels| + 1 && run[0] == Begin(run[0].core)
    && forall i | 0 <= i < |labels| :: Enabled(run[i], labels[i]) && run[i + 1] == Step(run[i], user, labels[i])
  }

  // ------------------------------------------------------------------ the invariant

  /** `text` is a response the controller may give to `line`. */
  ghost predicate MayAnswer(line: string, text: string) {
    GoodLine(line) && exists asked, got :: ReactTo(Dispatch(line), asked, got).toUi == [text]
  }

  /** A handled line is answered once if the loop goes on, and not at all if it is left. */
  lemma OneAnswerPerLine(core: CtlState, user: string, line: string, net: Net)
    requires GoodLine(line)
    ensures var (t, code) := AfterLine(core, user, line, net);
            var said := NewlySaid(core, t);
            if code >= 0 && code != QUIT then |said| == 1 && MayAnswer(line, said[0]) else said == []
  {
    var c := Dispatch(line);
    var asked := RequestFor(c, user);
    var (t, got) := if asked.Some? then AfterExchange(core, asked.value, net) else (core, None);
    var r := ReactTo(c, asked.Some?, got);
    assert (t.toUi + r.toUi)[|t.toUi|..] == r.toUi;
    assert |r.toUi| == 1 ==> r.toUi == [r.toUi[0]];
  }

  lemma OtherEventsSayNothing(core: CtlState, user: string, e: Event)
    requires GoodEvent(e) && (e.Polled? ==> e.line.None?)
    ensures NewlySaid(core, AfterEvent(core, user, e).0) == []
  {
  }

  /** Where the line the UI waits for is: on its way, being handled, answered, or lost with the controller. */
  datatype Whereabouts = OnItsWay | InHand | AnswerUnread | Lost

  function Where(s: Threads): Whereabouts {
    if s.toCtl != [] then OnItsWay
    else if s.toUi != [] then AnswerUnread
    else if s.ctl.Handling? then InHand
    else Lost
  }

  ghost predicate AnsweredInOrder(s: Threads) {
    && |s.responses| <= |s.lines|
    && (forall k | 0 <= k < |s.responses| ::
          s.responses[k].index == k && MayAnswer(s.lines[k], s.responses[k].text))
  }

  /** The only line beyond the last non-quit line is a quit line. */
  predicate QuitLine(line: Numbered) {
    line.text == "/quit"
  }

  ghost predicate Inv(s: Threads) {
    && AnsweredInOrder(s)
    && (forall line | line in s.lines :: GoodLine(line))
    && match s.ui
       case AtPrompt => |s.lines| == |s.responses| && s.toCtl == [] && s.toUi == [] && !s.ctl.Handling?
       case UiGone =>
         && |s.lines| == |s.responses| && s.toUi == []
         && (s.toCtl == [] || (|s.toCtl| == 1 && QuitLine(s.toCtl[0]) && !s.ctl.Handling?))
         && (s.ctl.Handling? ==> QuitLine(s.ctl.line))
       case Waiting =>
         && s.lines != []
         && var n := |s.lines| - 1;
            var last := Numbered(n, s.lines[n]);
            match Where(s)
            case OnItsWay => s.toCtl == [last] && s.toUi == [] && !s.ctl.Handling? && |s.responses| == n
            case InHand => s.ctl.line == last && |s.responses| == n
            case AnswerUnread =>
              |s.responses| == n + 1 && s.toUi == [s.responses[n]] && !s.ctl.Handling?
            case Lost => s.ctl.CtlGone? && |s.responses| == n
  }

  lemma UiReadsKeeps(s: Threads, user: string, raw: Option<string>)
    requires Inv(s) && Enabled(s, UiReads(raw))
    ensures Inv(Step(s, user, UiReads(raw)))
  {
    if UiSends(raw) != [] {
      assert UiSends(raw)[0] in UiSends(raw);
      assert Number(|s.lines|, UiSends(raw)) == [Numbered(|s.lines|, UiSends(raw)[0])];
    }
  }

  lemma CtlAnswersKeeps(s: Threads, user: string, net: Net)
    requires Inv(s) && Enabled(s, CtlAnswers(net))
    ensures Inv(Step(s, user, CtlAnswers(net)))
  {
    var line := s.ctl.line;
    OneAnswerPerLine(s.core, user, line.text, net);
    var said := NewlySaid(s.core, AfterLine(s.core, user, line.text, net).0);
    if said != [] {
      assert Number(line.index, said) == [Numbered(line.index, said[0])];
    }
  }

  lemma StepKeepsInv(s: Threads, user: string, l: Label)
    requires Inv(s) && Enabled(s, l)
    ensures Inv(Step(s, user, l))
  {
    match l {
      case UiReads(raw) => UiReadsKeeps(s, user, raw);
      case CtlAnswers(net) => CtlAnswersKeeps(s, user, net);
      case CtlElse(e) => OtherEventsSayNothing(s.core, user, e);
      case _ =>
    }
  }

  lemma {:induction false} RunKeepsInv(run: seq<Threads>, user: string, labels: seq<Label>, i: nat)
    requires IsRun(run, user, labels) && i < |run|
    ensures Inv(run[i])
  {
    if i > 0 {
      RunKeepsInv(run, user, labels, i - 1);
      StepKeepsInv(run[i - 1], user, labels[i - 1]);
    }
  }

  // ------------------------------------------------------------------ what follows for every run

  /** At most one line is outstanding; when the UI reads its next line no response is unread and every
      line before it has had its own; the k-th response is one for the k-th non-quit line. */
  lemma OneLineAtATime(run: seq<Threads>, user: string, labels: seq<Label>, i: nat, k: nat)
    requires IsRun(run, user, labels) && i < |run|
    ensures |run[i].toCtl| + (if run[i].ctl.Handling? then 1 else 0) <= 1
    ensures run[i].ui.AtPrompt? ==> run[i].toUi == [] && |run[i].responses| == |run[i].lines|
    ensures k < |run[i].responses| ==>
              k < |run[i].lines| && run[i].responses[k].index == k &&
              MayAnswer(run[i].lines[k], run[i].responses[k].text)
  {
    RunKeepsInv(run, user, labels, i);
  }

  /** How many steps of the two threads lie between the waiting UI and its prompt. */
  function Distance(s: Threads): nat {
    if !s.ui.Waiting? then 0
    else match Where(s) case OnItsWay => 3 case InHand => 2 case AnswerUnread => 1 case Lost => 0
  }

  /** While the controller has not left its loop, a waiting UI is never stuck: the step that brings its
      response nearer is enabled and does so, and no other step puts it further away. */
  lemma WaitingMakesProgress(s: Threads, user: string, net: Net)
    requires Inv(s) && s.ui.Waiting? && !s.ctl.CtlGone?
    ensures exists l | l in {CtlTakes, CtlAnswers(net), UiReceives} ::
              Enabled(s, l) && Distance(Step(s, user, l)) < Distance(s)
    ensures forall l | Enabled(s, l) :: Distance(Step(s, user, l)) <= Distance(s)
  {
    var l := match Where(s) case OnItsWay => CtlTakes case InHand => CtlAnswers(net) case _ => UiReceives;
    assert Enabled(s, l);
    StepKeepsInv(s, user, l);
    if Where(s).InHand? {
      OneAnswerPerLine(s.core, user, s.ctl.line.text, net);
    }
    forall l | Enabled(s, l) ensures Distance(Step(s, user, l)) <= Distance(s) {
      StepKeepsInv(s, user, l);
      if l.CtlElse? {
        OtherEventsSayNothing(s.core, user, l.event);
      }
    }
  }

  /** The UI waits for a response that never comes exactly when the controller has left its loop
      without answering: then neither thread has a step left. */
  lemma StuckMeansGone(s: Threads, user: string)
    requires Inv(s) && s.ui.Waiting?
    ensures s.ctl.CtlGone? && s.toUi == [] ==> forall l :: !Enabled(s, l)
    ensures !(s.ctl.CtlGone? && s.toUi == []) ==>
              exists l :: Enabled(s, l) && Distance(Step(s, user, l)) < Distance(s)
  {
    if s.ctl.CtlGone? && s.toUi != [] {
      assert Enabled(s, UiReceives);
      StepKeepsInv(s, user, UiReceives);
    } else if !s.ctl.CtlGone? {
      WaitingMakesProgress(s, user, Net(false, false, Garbage));
    }
  }
}
