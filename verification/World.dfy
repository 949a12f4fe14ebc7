/**
 The daemon among its shells and clients: what the shells print, how read() chops it, which lines
 reach which client. The conversation of every client is right over every run, although clients come,
 go away in the middle of a command and share the shells.
 */
module World {
  import opened Bytes
  import opened StreamSpec
  import opened Prompt
  import opened Framing
  import opened Decimal
  import opened DaemonSpec
  import opened DaemonRuns

  /** What running a command gives: lines of output and an exit status. */
  datatype Answer = Answer(out: string, code: nat)

  /** The answer to the command submitted at a given position of the log of the daemon. */
  type Answers = nat -> Answer

  ghost predicate GoodAnswers(ans: Answers) {
    forall n :: Framed(PROMPT, ans(n).out) && NoNul(ans(n).out)
  }

  /** The terminal of a shell: bytes not read yet, output lines not delivered yet, `$?`. */
  datatype Tty = Tty(out: string, unread: string, code: nat)

  datatype World = World(d: Daemon, ttys: seq<Tty>)

  function StatusLine(code: nat): string {
    Show(code) + "\n"
  }

  /** A line is submitted to the shell, which will print `text` and its prompt. */
  function Submit(t: Tty, text: string): Tty {
    t.(out := text, unread := t.unread + (text + PROMPT))
  }

  /** The reads `evs` have been done for a reception with outcome `o`. */
  function AfterRead(t: Tty, o: Outcome, evs: seq<ReadEvent>): Tty
    requires o.Done?
  {
    t.(unread := if |BytesOf(evs)| <= |t.unread| then t.unread[|BytesOf(evs)|..] else "",
       out := if o.rc == Data && |o.data| <= |t.out| then t.out[|o.data|..] else "")
  }

  /** The terminal `t` of the shell `sh` behind a data event. */
  function TtyAfter(sh: Shell, t: Tty, evs: seq<ReadEvent>, sendOk: bool, submitOk: bool): Tty
    requires Receive(PROMPT, sh.kept, evs).Done?
  {
    var o := Receive(PROMPT, sh.kept, evs);
    var t' := AfterRead(t, o, evs);
    match sh.state
    case WaitEoc =>
      if ReadDisplay(o.rc, o.data, sendOk).code == PromptSeen && submitOk then Submit(t', StatusLine(t'.code)) else t'
    case WaitStatus => t'
    case Freeing => t'
    case _ => t
  }

  function ShellTty(w: World, i: nat, evs: seq<ReadEvent>, sendOk: bool, submitOk: bool): Tty
    requires i < |w.d.shells| == |w.ttys| && Received(w.d, i, evs).Done?
  {
    TtyAfter(w.d.shells[i], w.ttys[i], evs, sendOk, submitOk)
  }

  /** Shell to which a client's command is submitted, if any. */
  function Target(d: Daemon, c: nat): Option<nat>
    requires c in d.clients
  {
    if d.clients[c].shell == None then FirstFree(d.shells, 0) else None
  }

  function WorldStep(w: World, e: Event, ans: Answers): World
    requires Inv(w.d) && Legal(w.d, e) && |w.ttys| == |w.d.shells|
  {
    var d' := Step(w.d, e);
    match e
    case ShellReady(i, evs, sendOk, submitOk) => World(d', w.ttys[i := ShellTty(w, i, evs, sendOk, submitOk)])
    case ClientReady(c, true, true) =>
      (match Target(w.d, c)
       case Some(i) =>
         var a := ans(|w.d.log|);
         World(d', w.ttys[i := Submit(w.ttys[i].(code := a.code), a.out)])
       case None => World(d', w.ttys))
    case _ => World(d', w.ttys)
  }

  /** The reads of a data event give the next bytes of the terminal, whatever the chopping. */
  ghost predicate Possible(w: World, e: Event) {
    && Legal(w.d, e)
    && (e.ShellReady? ==>
          e.shell < |w.ttys| && Healthy(e.evs) && BytesOf(e.evs) <= w.ttys[e.shell].unread)
  }

  /** No message to a client fails in the middle of the output of its command; it may fail at the end of it. */
  predicate SendsWork(d: Daemon, e: Event) {
    e.ShellReady? && e.shell < |d.shells| && d.shells[e.shell].state == WaitEoc ==>
      var o := Received(d, e.shell, e.evs); e.sendOk || (o.Done? && o.rc == Found)
  }

  // ------------------------------------------------------------------ conversation of a client

  /** Where a client stands: nothing running, output to come, status to come, command refused. It is cut off
      when a message to it has failed: nothing is promised to it any more. */
  datatype Stage = Idle | Running(out: string, code: nat) | Asked(code: nat) | Refused | CutOff | Wrong

  /** What an action of the daemon makes of the conversation with the client `c`. */
  function Next(t: Stage, a: Act, c: nat, answer: Answer): Stage {
    if t == CutOff then t
    else
    match a
    case Command(x, _, ok) =>
      if x != c then t
      else if t == Idle then (if ok then Running(answer.out, answer.code) else Refused)
      else Wrong
    case Display(x, text, sent) =>
      if x != c then t
      else if t.Running? && EndsWithNewline(text) && text <= t.out then
        (if sent then t.(out := t.out[|text|..]) else CutOff)
      else Wrong
    case StatusRequest(x, _, ok) =>
      if x != c then t
      else if t.Running? && t.out == "" then (if ok then Asked(t.code) else Refused)
      else Wrong
    case Eoc(x, status) =>
      if x != c then t
      else if t.Asked? && status == t.code then Idle
      else if t == Refused && status == -1 then Idle
      else Wrong
    case Busy(x) => if x != c || t == Idle then t else Wrong
    case Oom(_) => t
  }

  /**
   The conversation so far: each command of the client is followed by its own output, line by line and
   complete, then by its own status; a command that could not be submitted is answered by -1. It is
   Wrong for ever as soon as the client gets anything else, unless a message to it has failed before.
   */
  function Conversation(log: seq<Act>, c: nat, ans: Answers): Stage {
    if log == [] then Idle
    else Next(Conversation(log[..|log| - 1], c, ans), log[|log| - 1], c, ans(|log| - 1))
  }

  lemma ConversationStep(log: seq<Act>, a: Act, c: nat, ans: Answers)
    ensures Conversation(log + [a], c, ans) == Next(Conversation(log, c, ans), a, c, ans(|log|))
  {
  }

  /** Every message to the client was sent. */
  predicate AllSent(log: seq<Act>, c: nat) {
    forall j :: 0 <= j < |log| && log[j].Display? && log[j].client == c ==> log[j].sent
  }

  lemma NextNotCutOff(t: Stage, a: Act, c: nat, answer: Answer)
    requires t != CutOff && (a.Display? && a.client == c ==> a.sent)
    ensures Next(t, a, c, answer) != CutOff
  {
  }

  /** A client is cut off by the failure of a message to itself, not to another. */
  lemma {:induction false} NotCutOff(log: seq<Act>, c: nat, ans: Answers)
    requires AllSent(log, c)
    ensures Conversation(log, c, ans) != CutOff
  {
    if log != [] {
      var before := log[..|log| - 1];
      assert forall j :: 0 <= j < |before| ==> before[j] == log[j];
      NotCutOff(before, c, ans);
      NextNotCutOff(Conversation(before, c, ans), log[|log| - 1], c, ans(|log| - 1));
    }
  }

  /** A client that is not cut off stands there. */
  ghost predicate Stands(stage: Stage, there: Stage) {
    stage == CutOff || stage == there
  }

  // ------------------------------------------------------------------ invariant of the world

  /** What a shell still has to print, according to the state of its context: nothing when it is free,
      otherwise exactly one prompt behind complete lines. */
  ghost predicate TtyOk(sh: Shell, t: Tty) {
    match sh.state
    case Free => sh.kept == "" && t.unread == ""
    case Allocated => sh.kept == "" && t.unread == ""
    case WaitEoc => Answering(PROMPT, t.out, sh.kept, t.unread)
    case WaitStatus =>
      && Answering(PROMPT, t.out, sh.kept, t.unread)
      && (t.out == StatusLine(t.code) || (t.out == "" && sh.status == t.code))
    case Freeing => Answering(PROMPT, t.out, sh.kept, t.unread)
  }

  /** Where the client must stand, according to the state of its shell. */
  ghost predicate StageOk(d: Daemon, ttys: seq<Tty>, c: nat, stage: Stage)
    requires |ttys| == |d.shells|
  {
    if c !in d.clients then stage != Wrong && (c >= d.next ==> stage == Idle)
    else
      match d.clients[c].shell
      case None => Stands(stage, Idle)
      case Some(i) =>
        i < |ttys| && Stands(stage, if d.shells[i].state == WaitStatus then Asked(ttys[i].code)
                                    else Running(ttys[i].out, ttys[i].code))
  }

  ghost predicate WorldInv(w: World, ans: Answers) {
    && Inv(w.d) && |w.ttys| == |w.d.shells| && !w.d.crashed
    && (forall i :: 0 <= i < |w.ttys| ==> TtyOk(w.d.shells[i], w.ttys[i]))
    && (forall c: nat :: StageOk(w.d, w.ttys, c, Conversation(w.d.log, c, ans)))
  }

  lemma StatusLineFramed(code: nat)
    ensures Framed(PROMPT, StatusLine(code)) && NoNul(StatusLine(code))
    ensures EndsWithNewline(StatusLine(code)) && '\n' !in Show(code)
  {
    assert IsDigit(Show(code)[0]) && PROMPT[0] == 'R';
    OneLineFramed(PROMPT, Show(code));
  }

  /** Splitting what is unread at the reads made. */
  lemma ReadPart(t: Tty, o: Outcome, evs: seq<ReadEvent>)
    requires o.Done? && BytesOf(evs) <= t.unread
    ensures BytesOf(evs) + AfterRead(t, o, evs).unread == t.unread
  {
  }

  /** A reception in the middle of an answer. */
  lemma TtyProgress(t: Tty, kept: string, evs: seq<ReadEvent>)
    requires Healthy(evs) && BytesOf(evs) <= t.unread && Answering(PROMPT, t.out, kept, t.unread)
    requires Receive(PROMPT, kept, evs).Done? && Receive(PROMPT, kept, evs).rest == []
    ensures var o := Receive(PROMPT, kept, evs);
            var t' := AfterRead(t, o, evs);
            if o.rc == Found then o.data == t.out + PROMPT && o.kept == "" && t'.unread == "" && t'.out == ""
            else
              && o.rc == Data && EndsWithNewline(o.data) && o.data + t'.out == t.out
              && Answering(PROMPT, t'.out, o.kept, t'.unread)
  {
    hide Receive, Healthy, Framed, BytesOf, Answering;
    var o := Receive(PROMPT, kept, evs);
    var t' := AfterRead(t, o, evs);
    ReadPart(t, o, evs);
    ReceiveProgress(PROMPT, t.out, kept, evs, t'.unread);
    NothingUnread(t'.unread);
    PrefixRest(o.data, t.out);
  }

  lemma NothingUnread(later: string)
    ensures BytesOf([]) + later == later
  {
  }

  lemma PrefixRest(a: string, b: string)
    ensures a <= b ==> a + b[|a|..] == b
  {
  }

  // ------------------------------------------------------------------ keeping the invariant

  /** The client that an action is about. */
  function About(a: Act): Option<nat> {
    match a
    case Command(x, _, _) => Some(x)
    case Display(x, _, _) => Some(x)
    case StatusRequest(x, _, _) => Some(x)
    case Eoc(x, _) => Some(x)
    case Busy(x) => Some(x)
    case Oom(_) => None
  }

  /** Nothing is done about the other clients. */
  ghost predicate QuietFor(log: seq<Act>, log': seq<Act>, c: nat, ans: Answers) {
    forall x: nat :: x != c ==> Conversation(log', x, ans) == Conversation(log, x, ans)
  }

  lemma QuietAct(log: seq<Act>, log1: seq<Act>, a: Act, c: nat, ans: Answers)
    requires QuietFor(log, log1, c, ans) && (About(a) == Some(c) || About(a) == None)
    ensures QuietFor(log, log1 + [a], c, ans)
  {
  }

  /** Everything but the shell `i` and the client `c` is untouched. */
  ghost predicate Confined(w: World, w': World, i: nat, c: nat) {
    && |w'.d.shells| == |w.d.shells| && |w'.ttys| == |w.ttys| == |w.d.shells| && w'.d.next == w.d.next
    && (forall j :: 0 <= j < |w.d.shells| && j != i ==> w'.d.shells[j] == w.d.shells[j] && w'.ttys[j] == w.ttys[j])
    && (forall x :: x != c ==> (x in w'.d.clients <==> x in w.d.clients))
    && (forall x :: x != c && x in w.d.clients ==> w'.d.clients[x] == w.d.clients[x])
  }

  lemma ConfinedKeeps(w: World, w': World, i: nat, c: nat, ans: Answers)
    requires WorldInv(w, ans) && Inv(w'.d) && !w'.d.crashed && Confined(w, w', i, c)
    requires forall x :: x in w.d.clients && w.d.clients[x].shell == Some(i) ==> x == c
    requires i < |w'.ttys| ==> TtyOk(w'.d.shells[i], w'.ttys[i])
    requires QuietFor(w.d.log, w'.d.log, c, ans)
    requires StageOk(w'.d, w'.ttys, c, Conversation(w'.d.log, c, ans))
    ensures WorldInv(w', ans)
  {
  }

  lemma OnlyItsClient(d: Daemon, i: nat)
    requires Inv(d) && i < |d.shells|
    ensures InUse(d.shells[i].state) ==> Linked(d, i)
    ensures forall x :: x in d.clients && d.clients[x].shell == Some(i) ==>
              InUse(d.shells[i].state) && d.shells[i].client == Some(x)
  {
    assert ShellLinked(d.shells, d.clients, i);
    forall x | x in d.clients && d.clients[x].shell == Some(i)
      ensures InUse(d.shells[i].state) && d.shells[i].client == Some(x)
    {
      assert ClientLinked(d.shells, d.clients, x);
    }
  }

  // -------------------------------------- a shell in WAIT_EOC

  /** The log behind the display part of a data event. */
  function LogDisplay(log: seq<Act>, c: nat, text: Option<string>, sent: bool): seq<Act> {
    if text.Some? then log + [Display(c, text.value, sent)] else log
  }

  /** What the daemon does of a reception of output lines, or of the end of the output. */
  lemma DisplayEffect(t: Tty, o: Outcome, sendOk: bool)
    requires o.Done? && WholeLines(t.out)
    requires if o.rc == Found then o.data == t.out + PROMPT else o.rc == Data && EndsWithNewline(o.data)
    ensures var r := ReadDisplay(o.rc, o.data, sendOk);
            if o.rc == Found && t.out == "" then r == DisplayRead(PromptSeen, None)
            else r == DisplayRead(if !sendOk then ReadError else if o.rc == Found then PromptSeen else MoreToCome,
                                  Some(if o.rc == Found then t.out else o.data))
  {
  }

  lemma DisplayStage(log: seq<Act>, c: nat, ans: Answers, stage: Stage, text: Option<string>, sent: bool)
    requires Stands(Conversation(log, c, ans), stage) && stage.Running?
    requires text.Some? ==> EndsWithNewline(text.value) && text.value <= stage.out
    ensures var stage' := Conversation(LogDisplay(log, c, text, sent), c, ans);
            if text == None then stage' == Conversation(log, c, ans)
            else if sent then Stands(stage', stage.(out := stage.out[|text.value|..]))
            else stage' == CutOff
    ensures QuietFor(log, LogDisplay(log, c, text, sent), c, ans)
  {
  }

  lemma FinishStage(log: seq<Act>, log1: seq<Act>, c: nat, status: int, ans: Answers)
    requires QuietFor(log, log1, c, ans)
    requires var s := Conversation(log1, c, ans);
             s == CutOff || (s.Asked? && s.code == status) || (s == Refused && status == -1)
    ensures Stands(Conversation(log1 + [Eoc(c, status)], c, ans), Idle)
    ensures QuietFor(log, log1 + [Eoc(c, status)], c, ans)
  {
  }

  lemma AskStage(log: seq<Act>, log1: seq<Act>, c: nat, i: nat, ok: bool, ans: Answers, code: nat)
    requires QuietFor(log, log1, c, ans) && Stands(Conversation(log1, c, ans), Running("", code))
    ensures Stands(Conversation(log1 + [StatusRequest(c, i, ok)], c, ans), if ok then Asked(code) else Refused)
    ensures QuietFor(log, log1 + [StatusRequest(c, i, ok)], c, ans)
  {
  }

  /** Where the client of a busy shell stands. */
  lemma ItsStage(w: World, i: nat, ans: Answers) returns (c: nat)
    requires WorldInv(w, ans) && i < |w.ttys| && InUse(w.d.shells[i].state)
    ensures w.d.shells[i].client == Some(c) && Linked(w.d, i) && c in w.d.clients
    ensures forall x :: x in w.d.clients && w.d.clients[x].shell == Some(i) ==> x == c
    ensures Stands(Conversation(w.d.log, c, ans), if w.d.shells[i].state == WaitStatus then Asked(w.ttys[i].code)
                                                  else Running(w.ttys[i].out, w.ttys[i].code))
  {
    OnlyItsClient(w.d, i);
    c := w.d.shells[i].client.value;
    assert StageOk(w.d, w.ttys, c, Conversation(w.d.log, c, ans));
  }

  /** Output lines go to the client. */
  lemma EocMore(w: World, d': Daemon, i: nat, t': Tty, o: Outcome, ans: Answers)
    requires WorldInv(w, ans) && i < |w.ttys| && w.d.shells[i].state == WaitEoc && w.d.shells[i].client.Some? && o.Done?
    requires d' == Do(Store(w.d, i, o.kept), Display(w.d.shells[i].client.value, o.data, true)) && Inv(d')
    requires EndsWithNewline(o.data) && o.data + t'.out == w.ttys[i].out
    requires t'.code == w.ttys[i].code && Answering(PROMPT, t'.out, o.kept, t'.unread)
    ensures WorldInv(World(d', w.ttys[i := t']), ans)
  {
    var c := ItsStage(w, i, ans);
    DisplayStage(w.d.log, c, ans, Running(w.ttys[i].out, w.ttys[i].code), Some(o.data), true);
    assert w.ttys[i].out[|o.data|..] == t'.out;
    ConfinedKeeps(w, World(d', w.ttys[i := t']), i, c, ans);
  }

  /** The text of the end of the output. */
  function Rest(t: Tty): Option<string> {
    if t.out == "" then None else Some(t.out)
  }

  /** The end of the output: the rest of it goes to the client, then the status is asked for. */
  lemma EocEnd(w: World, d1: Daemon, i: nat, c: nat, submitOk: bool, ans: Answers)
    requires WorldInv(w, ans) && i < |w.ttys| && w.d.shells[i].state == WaitEoc && w.d.shells[i].client == Some(c)
    requires WholeLines(w.ttys[i].out)
    requires d1.log == LogDisplay(w.d.log, c, Rest(w.ttys[i]), true) + [StatusRequest(c, i, submitOk)]
    ensures QuietFor(w.d.log, d1.log, c, ans)
    ensures Stands(Conversation(d1.log, c, ans), if submitOk then Asked(w.ttys[i].code) else Refused)
  {
    var text, stage := Rest(w.ttys[i]), Running(w.ttys[i].out, w.ttys[i].code);
    var c' := ItsStage(w, i, ans);
    DisplayStage(w.d.log, c, ans, stage, text, true);
    AskStage(w.d.log, LogDisplay(w.d.log, c, text, true), c, i, submitOk, ans, w.ttys[i].code);
  }

  lemma EocAsked(w: World, d': Daemon, i: nat, t': Tty, ans: Answers)
    requires WorldInv(w, ans) && i < |w.ttys| && w.d.shells[i].state == WaitEoc && WholeLines(w.ttys[i].out)
    requires w.d.shells[i].client.Some? && Inv(d') && !d'.crashed
    requires var c := w.d.shells[i].client.value;
             && d'.log == LogDisplay(w.d.log, c, Rest(w.ttys[i]), true) + [StatusRequest(c, i, true)]
             && d' == SetState(Store(w.d, i, ""), i, WaitStatus).(log := d'.log)
    requires t' == Tty(StatusLine(w.ttys[i].code), StatusLine(w.ttys[i].code) + PROMPT, w.ttys[i].code)
    ensures WorldInv(World(d', w.ttys[i := t']), ans)
  {
    var c := ItsStage(w, i, ans);
    EocEnd(w, d', i, c, true, ans);
    StatusLineFramed(t'.code);
    Empty(t'.unread);
    ConfinedKeeps(w, World(d', w.ttys[i := t']), i, c, ans);
  }

  lemma EocNotAsked(w: World, d1: Daemon, i: nat, t': Tty, ans: Answers)
    requires WorldInv(w, ans) && i < |w.ttys| && w.d.shells[i].state == WaitEoc && WholeLines(w.ttys[i].out)
    requires w.d.shells[i].client.Some? && !d1.crashed
    requires var c := w.d.shells[i].client.value;
             && d1.log == LogDisplay(w.d.log, c, Rest(w.ttys[i]), true) + [StatusRequest(c, i, false)]
             && d1 == Store(w.d, i, "").(log := d1.log)
    requires i < |d1.shells| && Linked(d1, i) && Inv(Finish(d1, i, -1)) && t'.unread == ""
    ensures WorldInv(World(Finish(d1, i, -1), w.ttys[i := t']), ans)
  {
    var c := ItsStage(w, i, ans);
    EocEnd(w, d1, i, c, false, ans);
    FinishStage(w.d.log, d1.log, c, -1, ans);
    ConfinedKeeps(w, World(Finish(d1, i, -1), w.ttys[i := t']), i, c, ans);
  }

  /** The end of the output cannot be sent: the client is told -1, and it is cut off. */
  lemma EocNotSent(w: World, d1: Daemon, i: nat, t': Tty, ans: Answers)
    requires WorldInv(w, ans) && i < |w.ttys| && w.d.shells[i].state == WaitEoc && EndsWithNewline(w.ttys[i].out)
    requires w.d.shells[i].client.Some? && !d1.crashed
    requires var c := w.d.shells[i].client.value;
             && d1.log == w.d.log + [Display(c, w.ttys[i].out, false)]
             && d1 == Store(w.d, i, "").(log := d1.log)
    requires i < |d1.shells| && Linked(d1, i) && Inv(Finish(d1, i, -1)) && t'.unread == ""
    ensures WorldInv(World(Finish(d1, i, -1), w.ttys[i := t']), ans)
  {
    var c := ItsStage(w, i, ans);
    DisplayStage(w.d.log, c, ans, Running(w.ttys[i].out, w.ttys[i].code), Some(w.ttys[i].out), false);
    FinishStage(w.d.log, d1.log, c, -1, ans);
    ConfinedKeeps(w, World(Finish(d1, i, -1), w.ttys[i := t']), i, c, ans);
  }

  // -------------------------------------- a shell in WAIT_STATUS

  /** The status line comes alone, or the prompt comes, with the status line when it is still to come. */
  lemma StatusEffect(t: Tty, o: Outcome, status: int)
    requires o.Done? && (t.out == StatusLine(t.code) || (t.out == "" && status == t.code))
    requires if o.rc == Found then o.data == t.out + PROMPT
             else o.rc == Data && EndsWithNewline(o.data) && o.data <= t.out
    ensures ReadStatus(o.rc, o.data, status) == StatusRead(if o.rc == Found then PromptSeen else MoreToCome, t.code)
    ensures o.rc == Data ==> o.data == t.out
  {
    StatusLineFramed(t.code);
    AtoiOfShow(t.code);
    if o.rc == Found && t.out != "" {
      assert o.data[..|o.data| - (|PROMPT| + 1)] == Show(t.code);
    } else if o.rc == Data {
      assert t.out[|o.data| - 1] == '\n';
      assert |o.data| == |t.out| && o.data == t.out;
      assert o.data[..|o.data| - 1] == Show(t.code);
    }
  }

  lemma StatusMore(w: World, d': Daemon, i: nat, t': Tty, kept: string, ans: Answers)
    requires WorldInv(w, ans) && i < |w.ttys| && w.d.shells[i].state == WaitStatus && Inv(d')
    requires d' == w.d.(shells := w.d.shells[i := w.d.shells[i].(kept := kept, status := w.ttys[i].code)])
    requires t'.code == w.ttys[i].code && t'.out == "" && Answering(PROMPT, "", kept, t'.unread)
    ensures WorldInv(World(d', w.ttys[i := t']), ans)
  {
  }

  lemma StatusEnd(w: World, d1: Daemon, i: nat, t': Tty, ans: Answers)
    requires WorldInv(w, ans) && i < |w.ttys| && w.d.shells[i].state == WaitStatus && t'.unread == ""
    requires d1 == w.d.(shells := w.d.shells[i := w.d.shells[i].(kept := "", status := w.ttys[i].code)])
    requires Linked(d1, i) && Inv(Finish(d1, i, w.ttys[i].code))
    ensures WorldInv(World(Finish(d1, i, w.ttys[i].code), w.ttys[i := t']), ans)
  {
    var c := ItsStage(w, i, ans);
    assert QuietFor(w.d.log, d1.log, c, ans);
    FinishStage(w.d.log, d1.log, c, w.ttys[i].code, ans);
    ConfinedKeeps(w, World(Finish(d1, i, w.ttys[i].code), w.ttys[i := t']), i, c, ans);
  }

  // -------------------------------------- a shell in FREEING

  lemma Flushed(w: World, d': Daemon, i: nat, t': Tty, kept: string, s: ShellState, ans: Answers)
    requires WorldInv(w, ans) && i < |w.ttys| && w.d.shells[i].state == Freeing && Inv(d')
    requires d' == w.d.(shells := w.d.shells[i := w.d.shells[i].(kept := kept, state := s)])
    requires TtyOk(d'.shells[i], t')
    ensures WorldInv(World(d', w.ttys[i := t']), ans)
  {
  }

  // -------------------------------------- any data event

  lemma ShellStepIs(w: World, i: nat, evs: seq<ReadEvent>, sendOk: bool, submitOk: bool, ans: Answers)
    requires Inv(w.d) && Legal(w.d, ShellReady(i, evs, sendOk, submitOk)) && |w.ttys| == |w.d.shells|
    ensures FsmReady(w.d, i, EvtDcnx)
    ensures var o := Received(w.d, i, evs);
            var d' := Fsm(w.d, i, EvtData(o.rc, o.data, o.kept, sendOk, submitOk));
            WorldStep(w, ShellReady(i, evs, sendOk, submitOk), ans) == World(d', w.ttys[i := ShellTty(w, i, evs, sendOk, submitOk)])
    ensures Inv(WorldStep(w, ShellReady(i, evs, sendOk, submitOk), ans).d)
  {
    OnlyItsClient(w.d, i);
    StepKeepsInv(w.d, ShellReady(i, evs, sendOk, submitOk));
  }

  /** A data event `e` of the shell `i`, after which its terminal is `t'`. */
  ghost predicate Reading(w: World, i: nat, evs: seq<ReadEvent>, e: FsmEvent, t': Tty, ans: Answers) {
    && WorldInv(w, ans) && i < |w.ttys| && FsmReady(w.d, i, e) && Inv(Fsm(w.d, i, e))
    && Healthy(evs) && BytesOf(evs) <= w.ttys[i].unread
    && Received(w.d, i, evs).Done? && Received(w.d, i, evs).rest == []
    && (var o := Received(w.d, i, evs);
        e.EvtData? && e.rc == o.rc && e.data == o.data && e.kept == o.kept
        && t' == ShellTty(w, i, evs, e.sendOk, e.submitOk))
  }

  lemma EocKeeps(w: World, i: nat, evs: seq<ReadEvent>, e: FsmEvent, t': Tty, ans: Answers)
    requires Reading(w, i, evs, e, t', ans) && w.d.shells[i].state == WaitEoc && (e.sendOk || e.rc == Found)
    ensures WorldInv(World(Fsm(w.d, i, e), w.ttys[i := t']), ans)
  {
    var o, t := Received(w.d, i, evs), w.ttys[i];
    assert TtyOk(w.d.shells[i], t);
    TtyProgress(t, w.d.shells[i].kept, evs);
    DisplayEffect(t, o, e.sendOk);
    if o.rc == Data {
      FsmDisplayMore(w.d, i, e);
      EocMore(w, Fsm(w.d, i, e), i, t', o, ans);
    } else if e.sendOk || t.out == "" {
      EocPrompt(w, i, e, AfterRead(t, o, evs), ans);
    } else {
      EocLost(w, i, e, t', ans);
    }
  }

  lemma EocLost(w: World, i: nat, e: FsmEvent, t': Tty, ans: Answers)
    requires WorldInv(w, ans) && i < |w.ttys| && FsmReady(w.d, i, e) && Inv(Fsm(w.d, i, e))
    requires w.d.shells[i].state == WaitEoc && EndsWithNewline(w.ttys[i].out) && t'.unread == ""
    requires e.EvtData? && e.kept == "" && ReadDisplay(e.rc, e.data, e.sendOk) == DisplayRead(ReadError, Some(w.ttys[i].out))
    requires !e.sendOk
    ensures WorldInv(World(Fsm(w.d, i, e), w.ttys[i := t']), ans)
  {
    var c := w.d.shells[i].client.value;
    var d1 := Store(w.d, i, "").(log := w.d.log + [Display(c, w.ttys[i].out, false)]);
    FsmDisplayNotSent(w.d, i, e, w.ttys[i].out, d1);
    EocNotSent(w, d1, i, t', ans);
  }

  lemma EocPrompt(w: World, i: nat, e: FsmEvent, t: Tty, ans: Answers)
    requires WorldInv(w, ans) && i < |w.ttys| && FsmReady(w.d, i, e) && Inv(Fsm(w.d, i, e))
    requires w.d.shells[i].state == WaitEoc && WholeLines(w.ttys[i].out)
    requires e.EvtData? && e.kept == "" && ReadDisplay(e.rc, e.data, e.sendOk) == DisplayRead(PromptSeen, Rest(w.ttys[i]))
    requires e.sendOk || w.ttys[i].out == ""
    requires t == Tty("", "", w.ttys[i].code)
    ensures WorldInv(World(Fsm(w.d, i, e), w.ttys[i := if e.submitOk then Submit(t, StatusLine(t.code)) else t]), ans)
  {
    var c := w.d.shells[i].client.value;
    var d1 := Store(w.d, i, "").(log := LogDisplay(w.d.log, c, Rest(w.ttys[i]), true) + [StatusRequest(c, i, e.submitOk)]);
    FsmDisplayEnd(w.d, i, e, Rest(w.ttys[i]), d1);
    if e.submitOk {
      Empty(StatusLine(t.code) + PROMPT);
      EocAsked(w, Fsm(w.d, i, e), i, Submit(t, StatusLine(t.code)), ans);
    } else {
      EocNotAsked(w, d1, i, t, ans);
    }
  }

  lemma StatusKeeps(w: World, i: nat, evs: seq<ReadEvent>, e: FsmEvent, t': Tty, ans: Answers)
    requires Reading(w, i, evs, e, t', ans) && w.d.shells[i].state == WaitStatus
    ensures WorldInv(World(Fsm(w.d, i, e), w.ttys[i := t']), ans)
  {
    var o, t := Received(w.d, i, evs), w.ttys[i];
    assert TtyOk(w.d.shells[i], t);
    TtyProgress(t, w.d.shells[i].kept, evs);
    StatusEffect(t, o, w.d.shells[i].status);
    var d1 := w.d.(shells := w.d.shells[i := w.d.shells[i].(kept := o.kept, status := t.code)]);
    FsmStatus(w.d, i, e, t.code, d1);
    if o.rc == Data {
      assert |t'.out| == 0;
      StatusMore(w, d1, i, t', o.kept, ans);
    } else {
      StatusEnd(w, d1, i, t', ans);
    }
  }

  lemma FreeingKeeps(w: World, i: nat, evs: seq<ReadEvent>, e: FsmEvent, t': Tty, ans: Answers)
    requires Reading(w, i, evs, e, t', ans) && w.d.shells[i].state == Freeing
    ensures WorldInv(World(Fsm(w.d, i, e), w.ttys[i := t']), ans)
  {
    assert TtyOk(w.d.shells[i], w.ttys[i]);
    TtyProgress(w.ttys[i], w.d.shells[i].kept, evs);
    FsmFlush(w.d, i, e);
    Flushed(w, Fsm(w.d, i, e), i, t', e.kept, if e.rc == Found then Free else Freeing, ans);
  }

  lemma ShellKeeps(w: World, i: nat, evs: seq<ReadEvent>, sendOk: bool, submitOk: bool, ans: Answers)
    requires WorldInv(w, ans) && Possible(w, ShellReady(i, evs, sendOk, submitOk))
    requires SendsWork(w.d, ShellReady(i, evs, sendOk, submitOk))
    ensures WorldInv(WorldStep(w, ShellReady(i, evs, sendOk, submitOk), ans), ans)
  {
    hide WorldStep, Received, Receive, Inv, TtyOk, StageOk, Conversation, Fsm, AfterRead, Healthy;
    var o := Received(w.d, i, evs);
    var e, t' := EvtData(o.rc, o.data, o.kept, sendOk, submitOk), ShellTty(w, i, evs, sendOk, submitOk);
    ShellStepIs(w, i, evs, sendOk, submitOk, ans);
    match w.d.shells[i].state {
      case WaitEoc => EocKeeps(w, i, evs, e, t', ans);
      case WaitStatus => StatusKeeps(w, i, evs, e, t', ans);
      case Freeing => FreeingKeeps(w, i, evs, e, t', ans);
      case Allocated => NotAllocated(w, i, ans);
      case Free => FreeUnread(w, i, e, t', ans);
    }
  }

  lemma NotAllocated(w: World, i: nat, ans: Answers)
    requires WorldInv(w, ans) && i < |w.ttys|
    ensures w.d.shells[i].state != Allocated
  {
  }

  /** A free shell is not read. */
  lemma FreeUnread(w: World, i: nat, e: FsmEvent, t': Tty, ans: Answers)
    requires WorldInv(w, ans) && i < |w.ttys| && FsmReady(w.d, i, e) && e.EvtData?
    requires w.d.shells[i].state == Free && t' == w.ttys[i]
    ensures WorldInv(World(Fsm(w.d, i, e), w.ttys[i := t']), ans)
  {
    hide Inv, TtyOk, StageOk;
    assert w.ttys[i := w.ttys[i]] == w.ttys;
  }

  // ------------------------------------------------------------------ clients

  lemma AtClient(w: World, c: nat, ans: Answers)
    requires WorldInv(w, ans) && c in w.d.clients
    ensures c < w.d.next && StageOk(w.d, w.ttys, c, Conversation(w.d.log, c, ans))
    ensures ClientLinked(w.d.shells, w.d.clients, c)
    ensures w.d.clients[c].shell == None ==> Stands(Conversation(w.d.log, c, ans), Idle)
  {
  }

  /** A free shell that nobody points at. */
  lemma AtFree(w: World, i: nat, ans: Answers)
    requires WorldInv(w, ans) && i < |w.ttys| && w.d.shells[i].state == Free
    ensures w.d.shells[i].kept == "" && w.ttys[i].unread == ""
    ensures forall x :: x in w.d.clients ==> w.d.clients[x].shell != Some(i)
  {
  }

  lemma BusyKeeps(w: World, c: nat, ans: Answers)
    requires WorldInv(w, ans) && c in w.d.clients && w.d.clients[c].shell == None
    ensures WorldInv(World(Do(w.d, DaemonSpec.Busy(c)), w.ttys), ans)
  {
  }

  lemma CommandRuns(w: World, d': Daemon, c: nat, i: nat, ans: Answers)
    requires WorldInv(w, ans) && c in w.d.clients && w.d.clients[c].shell == None
    requires i < |w.ttys| && w.d.shells[i].state == Free && Inv(d')
    requires d' == w.d.(shells := w.d.shells[i := w.d.shells[i].(state := WaitEoc, client := Some(c))],
                        clients := w.d.clients[c := w.d.clients[c].(shell := Some(i))],
                        log := w.d.log + [Command(c, i, true)])
    requires Framed(PROMPT, ans(|w.d.log|).out)
    ensures var a := ans(|w.d.log|);
            WorldInv(World(d', w.ttys[i := Submit(w.ttys[i].(code := a.code), a.out)]), ans)
  {
    hide Inv, Framed;
    var a := ans(|w.d.log|);
    AtClient(w, c, ans);
    AtFree(w, i, ans);
    ConversationStep(w.d.log, Command(c, i, true), c, ans);
    QuietAct(w.d.log, w.d.log, Command(c, i, true), c, ans);
    Empty(a.out + PROMPT);
    hide QuietFor;
    ConfinedKeeps(w, World(d', w.ttys[i := Submit(w.ttys[i].(code := a.code), a.out)]), i, c, ans);
  }

  lemma CommandRefused(w: World, d': Daemon, c: nat, i: nat, ans: Answers)
    requires WorldInv(w, ans) && c in w.d.clients && w.d.clients[c].shell == None
    requires i < |w.ttys| && w.d.shells[i].state == Free && Inv(d')
    requires d' == w.d.(shells := w.d.shells[i := w.d.shells[i].(client := None)],
                        log := w.d.log + [Command(c, i, false)] + [Eoc(c, -1)])
    ensures WorldInv(World(d', w.ttys), ans)
  {
    AtClient(w, c, ans);
    AtFree(w, i, ans);
    var log1 := w.d.log + [Command(c, i, false)];
    ConversationStep(w.d.log, Command(c, i, false), c, ans);
    QuietAct(w.d.log, w.d.log, Command(c, i, false), c, ans);
    FinishStage(w.d.log, log1, c, -1, ans);
    ConfinedKeeps(w, World(d', w.ttys), i, c, ans);
  }

  /** A client goes away: `i` is its shell, or the one it was given in passing. */
  lemma LeaveKeeps(w: World, d': Daemon, c: nat, i: nat, s: ShellState, ans: Answers)
    requires WorldInv(w, ans) && c in w.d.clients && Inv(d')
    requires i < |w.ttys| ==>
               d' == FreeClient(w.d, c).(shells := w.d.shells[i := w.d.shells[i].(state := s, client := None)])
    requires i >= |w.ttys| ==> d' == FreeClient(w.d, c)
    requires i < |w.ttys| ==>
               if w.d.clients[c].shell == None then w.d.shells[i].state == Free && s == Free
               else w.d.clients[c].shell == Some(i) && s == Freeing
    requires i >= |w.ttys| ==> w.d.clients[c].shell == None
    ensures WorldInv(World(d', w.ttys), ans)
  {
    AtClient(w, c, ans);
    forall x | x in w.d.clients && w.d.clients[x].shell == Some(i) ensures x == c {
      AtClient(w, x, ans);
    }
    if i < |w.ttys| {
      assert TtyOk(w.d.shells[i], w.ttys[i]);
    }
    ConfinedKeeps(w, World(d', w.ttys), i, c, ans);
  }

  lemma CommandKeeps(w: World, c: nat, ok: bool, ans: Answers)
    requires WorldInv(w, ans) && GoodAnswers(ans) && c in w.d.clients
    ensures WorldInv(WorldStep(w, ClientReady(c, true, ok), ans), ans)
  {
    ServeClientKeepsInv(w.d, c, true, ok);
    if w.d.clients[c].shell.Some? {
      ServeSecondCommand(w.d, c, ok);
    } else {
      ServeCommand(w.d, c, ok);
      match FirstFree(w.d.shells, 0) {
        case None => BusyKeeps(w, c, ans);
        case Some(i) =>
          if ok {
            CommandRuns(w, ServeClient(w.d, c, true, ok), c, i, ans);
          } else {
            CommandRefused(w, ServeClient(w.d, c, true, ok), c, i, ans);
          }
      }
    }
  }

  lemma ClientLeaveKeeps(w: World, c: nat, ok: bool, ans: Answers)
    requires WorldInv(w, ans) && c in w.d.clients
    ensures WorldInv(World(ServeClient(w.d, c, false, ok), w.ttys), ans)
  {
    var d' := ServeClient(w.d, c, false, ok);
    ServeClientKeepsInv(w.d, c, false, ok);
    AtClient(w, c, ans);
    match w.d.clients[c].shell {
      case Some(i) =>
        ServeLeaveBusy(w.d, c, i, ok);
        LeaveKeeps(w, d', c, i, Freeing, ans);
      case None =>
        ServeLeave(w.d, c, ok);
        var s := FirstFree(w.d.shells, 0);
        LeaveKeeps(w, d', c, if s.Some? then s.value else |w.ttys|, Free, ans);
    }
  }

  lemma AcceptKeeps(w: World, sd: nat, ans: Answers)
    requires WorldInv(w, ans) && Legal(w.d, Accept(sd))
    ensures WorldInv(World(NewClient(w.d, sd), w.ttys), ans)
  {
    var d' := NewClient(w.d, sd);
    AcceptKeepsInv(w.d, sd);
    forall x: nat ensures StageOk(d', w.ttys, x, Conversation(d'.log, x, ans)) {
      assert StageOk(w.d, w.ttys, x, Conversation(w.d.log, x, ans));
    }
  }

  lemma OomKeeps(w: World, sd: nat, ans: Answers)
    requires WorldInv(w, ans)
    ensures WorldInv(World(Do(w.d, DaemonSpec.Oom(sd)), w.ttys), ans)
  {
  }

  // ------------------------------------------------------------------ all runs

  lemma WorldStepKeeps(w: World, e: Event, ans: Answers)
    requires WorldInv(w, ans) && GoodAnswers(ans) && Possible(w, e) && SendsWork(w.d, e)
    ensures WorldInv(WorldStep(w, e, ans), ans)
  {
    match e {
      case Accept(sd) => AcceptKeeps(w, sd, ans);
      case AcceptOom(sd) => OomKeeps(w, sd, ans);
      case ShellReady(i, evs, sendOk, submitOk) => ShellKeeps(w, i, evs, sendOk, submitOk, ans);
      case ClientReady(c, command, ok) =>
        if command {
          CommandKeeps(w, c, ok, ans);
        } else {
          ClientLeaveKeeps(w, c, ok, ans);
        }
    }
  }

  /** The shells have given their first prompt, nobody is connected. */
  ghost predicate WorldStart(w: World) {
    && Start(w.d) && |w.ttys| == |w.d.shells|
    && forall i :: 0 <= i < |w.ttys| ==> w.d.shells[i].kept == "" && w.ttys[i].unread == ""
  }

  /** A run in which no message to a client fails in the middle of the output of its command. */
  ghost predicate SmoothRun(ws: seq<World>, es: seq<Event>, ans: Answers) {
    && |ws| == |es| + 1 && WorldStart(ws[0])
    && forall k :: 0 <= k < |es| ==>
         Inv(ws[k].d) && |ws[k].ttys| == |ws[k].d.shells| ==>
           Possible(ws[k], es[k]) && SendsWork(ws[k].d, es[k]) && ws[k + 1] == WorldStep(ws[k], es[k], ans)
  }

  lemma {:induction false} RunKeeps(ws: seq<World>, es: seq<Event>, ans: Answers, k: nat)
    requires SmoothRun(ws, es, ans) && GoodAnswers(ans) && k < |ws|
    ensures WorldInv(ws[k], ans)
  {
    if k > 0 {
      RunKeeps(ws, es, ans, k - 1);
      WorldStepKeeps(ws[k - 1], es[k - 1], ans);
    }
  }

  /**
   Over every smooth run, whatever the interleaving of the clients, their disconnections, the chopping
   of the reads, the refused submissions and the messages that fail at the end of an output: no client
   whose messages have been sent ever gets anything but the complete output and the status of its own
   commands, no assert of the daemon fails, and a free shell owes nothing.
   */
  lemma NoCrossTalk(ws: seq<World>, es: seq<Event>, ans: Answers, k: nat)
    requires SmoothRun(ws, es, ans) && GoodAnswers(ans) && k < |ws|
    ensures forall c: nat :: Conversation(ws[k].d.log, c, ans) != Wrong
    ensures forall c: nat :: AllSent(ws[k].d.log, c) ==> Conversation(ws[k].d.log, c, ans) != CutOff
    ensures !ws[k].d.crashed && |ws[k].ttys| == |ws[k].d.shells|
    ensures forall i :: 0 <= i < |ws[k].ttys| && ws[k].d.shells[i].state == Free ==>
              ws[k].d.shells[i].kept + ws[k].ttys[i].unread == ""
    ensures forall i :: 0 <= i < |ws[k].ttys| && ws[k].d.shells[i].state != Free ==>
              Answering(PROMPT, ws[k].ttys[i].out, ws[k].d.shells[i].kept, ws[k].ttys[i].unread)
  {
    RunKeeps(ws, es, ans, k);
    var w := ws[k];
    forall c: nat ensures Conversation(w.d.log, c, ans) != Wrong {
      assert StageOk(w.d, w.ttys, c, Conversation(w.d.log, c, ans));
    }
    forall c: nat | AllSent(w.d.log, c) ensures Conversation(w.d.log, c, ans) != CutOff {
      NotCutOff(w.d.log, c, ans);
    }
    forall i | 0 <= i < |w.ttys| ensures TtyOk(w.d.shells[i], w.ttys[i]) && w.d.shells[i].state != Allocated {
    }
  }

  // ------------------------------------------------------------------ when a message cannot be sent

  /** A free shell owes nothing: its next client starts from a fresh prompt. */
  ghost predicate Clean(sh: Shell, t: Tty) {
    sh.state == Free ==> sh.kept + t.unread == ""
  }

  /** The shell behind a message that could not be sent. */
  lemma LostOutput(d: Daemon, i: nat, t: Tty, evs: seq<ReadEvent>, e: FsmEvent)
    requires Losing(d, i, t, evs, e)
    ensures var d', t' := Fsm(d, i, e), AfterRead(t, Received(d, i, evs), evs);
            && |d'.shells| == |d.shells| && d'.shells[i].kept == e.kept
            && if e.rc == Found then e.kept == "" && t'.unread == ""
               else d'.shells[i].state == Free && e.data + t'.out == t.out && e.kept + t'.unread == t'.out + PROMPT
  {
    TtyProgress(t, d.shells[i].kept, evs);
    DisplayEffect(t, Received(d, i, evs), e.sendOk);
    FsmDisplayLost(d, i, e);
  }

  /** A data event in state WAIT_EOC whose message, if any, cannot be sent. */
  ghost predicate Losing(d: Daemon, i: nat, t: Tty, evs: seq<ReadEvent>, e: FsmEvent) {
    && FsmReady(d, i, e) && e.EvtData? && d.shells[i].state == WaitEoc && !e.sendOk && TtyOk(d.shells[i], t)
    && Healthy(evs) && BytesOf(evs) <= t.unread
    && Received(d, i, evs) == Done(e.rc, e.data, e.kept, [])
  }

  lemma CleanWhenAsked(d: Daemon, i: nat, t: Tty, evs: seq<ReadEvent>, e: FsmEvent)
    requires Losing(d, i, t, evs, e) && e.submitOk && ReadDisplay(e.rc, e.data, false).code == PromptSeen
    ensures |Fsm(d, i, e).shells| == |d.shells|
    ensures Clean(Fsm(d, i, e).shells[i], TtyAfter(d.shells[i], t, evs, false, e.submitOk)) && e.rc == Found
  {
    hide Fsm, TtyOk, FsmReady, TtyAfter, Received, Receive, Healthy;
    FsmAsked(d, i, e);
  }

  lemma TtyNotAsked(sh: Shell, t: Tty, evs: seq<ReadEvent>, sendOk: bool, submitOk: bool)
    requires sh.state == WaitEoc && Receive(PROMPT, sh.kept, evs).Done?
    requires var o := Receive(PROMPT, sh.kept, evs); !(submitOk && ReadDisplay(o.rc, o.data, sendOk).code == PromptSeen)
    ensures TtyAfter(sh, t, evs, sendOk, submitOk) == AfterRead(t, Receive(PROMPT, sh.kept, evs), evs)
  {
  }

  lemma CleanIff(sh: Shell, t: Tty, rc: RecvCode, kept: string)
    requires sh.kept == kept
    requires if rc == Found then kept == "" && t.unread == "" else sh.state == Free && kept + t.unread == t.out + PROMPT
    ensures Clean(sh, t) <==> rc == Found
  {
  }

  lemma CleanWhenNotAsked(d: Daemon, i: nat, t: Tty, evs: seq<ReadEvent>, e: FsmEvent)
    requires Losing(d, i, t, evs, e) && !(e.submitOk && ReadDisplay(e.rc, e.data, false).code == PromptSeen)
    ensures |Fsm(d, i, e).shells| == |d.shells|
    ensures Clean(Fsm(d, i, e).shells[i], TtyAfter(d.shells[i], t, evs, false, e.submitOk)) <==> e.rc == Found
  {
    hide Fsm, TtyAfter, Healthy, TtyOk, Clean, Receive, ReadDisplay;
    TtyNotAsked(d.shells[i], t, evs, false, e.submitOk);
    LostOutput(d, i, t, evs, e);
    CleanIff(Fsm(d, i, e).shells[i], AfterRead(t, Received(d, i, evs), evs), e.rc, e.kept);
  }

  lemma CleanWhenLost(d: Daemon, i: nat, t: Tty, evs: seq<ReadEvent>, e: FsmEvent)
    requires Losing(d, i, t, evs, e)
    ensures |Fsm(d, i, e).shells| == |d.shells|
    ensures Clean(Fsm(d, i, e).shells[i], TtyAfter(d.shells[i], t, evs, false, e.submitOk)) <==> e.rc == Found
  {
    if e.submitOk && ReadDisplay(e.rc, e.data, false).code == PromptSeen {
      CleanWhenAsked(d, i, t, evs, e);
    } else {
      CleanWhenNotAsked(d, i, t, evs, e);
    }
  }

  lemma CleanWhenSent(w: World, i: nat, evs: seq<ReadEvent>, e: FsmEvent, t': Tty, ans: Answers)
    requires Reading(w, i, evs, e, t', ans) && w.d.shells[i].state == WaitEoc && e.sendOk
    ensures |Fsm(w.d, i, e).shells| == |w.ttys| && Clean(Fsm(w.d, i, e).shells[i], t')
  {
    EocKeeps(w, i, evs, e, t', ans);
    var w' := World(Fsm(w.d, i, e), w.ttys[i := t']);
    assert |w'.ttys| == |w'.d.shells|;
    assert TtyOk(w'.d.shells[i], w'.ttys[i]);
  }

  /**
   The exact condition: reading the output of a command keeps the shell clean if and only if the message
   to the client is sent or the prompt has been seen. When the client has gone before its output is
   complete, the shell is given back with the end of this output still to come.
   */
  lemma SendFailureExact(w: World, i: nat, evs: seq<ReadEvent>, sendOk: bool, submitOk: bool, ans: Answers)
    requires WorldInv(w, ans) && Possible(w, ShellReady(i, evs, sendOk, submitOk)) && w.d.shells[i].state == WaitEoc
    ensures var w' := WorldStep(w, ShellReady(i, evs, sendOk, submitOk), ans);
            && |w'.ttys| == |w'.d.shells| == |w.ttys| && i < |w'.ttys|
            && (Clean(w'.d.shells[i], w'.ttys[i]) <==> sendOk || Received(w.d, i, evs).rc == Found)
  {
    var o := Received(w.d, i, evs);
    var e, t' := EvtData(o.rc, o.data, o.kept, sendOk, submitOk), ShellTty(w, i, evs, sendOk, submitOk);
    ShellStepIs(w, i, evs, sendOk, submitOk, ans);
    if sendOk {
      CleanWhenSent(w, i, evs, e, t', ans);
    } else {
      assert TtyOk(w.d.shells[i], w.ttys[i]);
      CleanWhenLost(w.d, i, w.ttys[i], evs, e);
    }
  }

  // ------------------------------------------------------------------ an output given to another client

  // A run with one shell. The command of the first client prints "a" and "b"; the message with "a" fails,
  // and the shell is given back. The command of the second client must print "c": it gets "b".

  const LOST_OUT: string := "a\nb\n"
  const NEXT_OUT: string := "c\n"

  function AloneWith(sh: Shell, clients: map<nat, Client>, list: seq<nat>, log: seq<Act>, tty: Tty): World {
    World(Daemon([sh], clients, list, |list|, log, false), [tty])
  }

  function LeakLog(k: nat): seq<Act> {
    var log := [Command(0, 0, true), Display(0, "a\n", false), Eoc(0, -1), Command(1, 0, true), Display(1, "b\n", true)];
    if k <= 1 then [] else if k == 2 then log[..1] else if k <= 4 then log[..3] else if k == 5 then log[..4] else log
  }

  /** The worlds of the run. */
  function Leak(k: nat): World {
    var first, second := Client(true, 7, None), Client(true, 8, None);
    var lost, next := LOST_OUT + PROMPT, "b\n" + PROMPT;
    if k == 0 then AloneWith(Shell(Free, None, -1, ""), map[], [], [], Tty("", "", 0))
    else if k == 1 then AloneWith(Shell(Free, None, -1, ""), map[0 := first], [0], [], Tty("", "", 0))
    else if k == 2 then
      AloneWith(Shell(WaitEoc, Some(0), -1, ""), map[0 := first.(shell := Some(0))], [0], LeakLog(k), Tty(LOST_OUT, lost, 0))
    else if k == 3 then AloneWith(Shell(Free, None, -1, ""), map[0 := first], [0], LeakLog(k), Tty("b\n", next, 0))
    else if k == 4 then
      AloneWith(Shell(Free, None, -1, ""), map[0 := first, 1 := second], [1, 0], LeakLog(k), Tty("b\n", next, 0))
    else
      AloneWith(Shell(WaitEoc, Some(1), -1, ""), map[0 := first, 1 := second.(shell := Some(0))], [1, 0], LeakLog(k),
                if k == 5 then Tty(NEXT_OUT, next + (NEXT_OUT + PROMPT), 0) else Tty("", PROMPT + (NEXT_OUT + PROMPT), 0))
  }

  function LeakEvent(k: nat): Event {
    if k == 0 then Accept(7)
    else if k == 1 then ClientReady(0, true, true)
    else if k == 2 then ShellReady(0, [Chunk("a\n", false)], false, true)
    else if k == 3 then Accept(8)
    else if k == 4 then ClientReady(1, true, true)
    else ShellReady(0, [Chunk("b\n", false)], true, true)
  }

  /** One step of the run. */
  ghost predicate LeakStep(k: nat, ans: Answers) {
    && Inv(Leak(k).d) && |Leak(k).ttys| == |Leak(k).d.shells|
    && Possible(Leak(k), LeakEvent(k)) && Leak(k + 1) == WorldStep(Leak(k), LeakEvent(k), ans)
  }

  lemma LeakInv(k: nat)
    requires k <= 5
    ensures Inv(Leak(k).d)
  {
    if k < 2 {
      LeakInv0(k);
    } else if k < 4 {
      LeakInv2(k);
    } else if k == 4 {
      LeakInv4();
    } else {
      LeakInv5();
    }
  }

  lemma LeakInv0(k: nat)
    requires k < 2
    ensures Inv(Leak(k).d)
  {
  }

  lemma LeakInv2(k: nat)
    requires 2 <= k < 4
    ensures Inv(Leak(k).d)
  {
  }

  lemma LeakInv4()
    ensures Inv(Leak(4).d)
  {
  }

  lemma LeakInv5()
    ensures Inv(Leak(5).d)
  {
  }

  /** One line of output is delivered, whatever line it is. */
  lemma OneLine(line: string)
    requires line == "a\n" || line == "b\n"
    ensures Receive(PROMPT, "", [Chunk(line, false)]) == Done(Data, line, "", [])
    ensures Healthy([Chunk(line, false)]) && BytesOf([Chunk(line, false)]) == line
  {
    LineFramed(line);
    hide Receive, Healthy, BytesOf, Framed, Examine;
    OneRead(line);
    NoMatchYet(PROMPT, line, line, PROMPT);
    LineExamined(line);
    Empty(line);
    ReadOne(line);
  }

  lemma LineFramed(line: string)
    requires line == "a\n" || line == "b\n"
    ensures Framed(PROMPT, line) && IsPrompt(PROMPT) && NoNul(line) && EndsWithNewline(line)
  {
  }

  lemma LineExamined(line: string)
    requires FindPrompt(PROMPT, line, 0) == None && EndsWithNewline(line)
    ensures Examine(PromptRegex(PROMPT), false, true, false, line) == Deliver(Data, line, "")
  {
    hide FindPrompt, LinesLength;
    WholeLine(line);
  }

  lemma WholeLine(line: string)
    requires EndsWithNewline(line)
    ensures LinesLength(line) == |line| && line[..|line|] == line && line[|line|..] == ""
  {
  }

  lemma ReadOne(line: string)
    requires Examine(PromptRegex(PROMPT), false, true, false, "" + line) == Deliver(Data, line, "")
    ensures Receive(PROMPT, "", [Chunk(line, false)]) == Done(Data, line, "", [])
  {
    hide Examine;
    assert [Chunk(line, false)][1..] == [];
  }

  lemma LeakAccept(k: nat, ans: Answers)
    requires k == 0 || k == 3
    ensures LeakStep(k, ans)
  {
    LeakInv(k);
  }

  lemma LeakCommand(ans: Answers)
    requires ans(0) == Answer(LOST_OUT, 0)
    ensures LeakStep(1, ans)
  {
    LeakInv(1);
    ServeCommand(Leak(1).d, 0, true);
    Empty(LOST_OUT + PROMPT);
  }

  lemma LeakNextCommand(ans: Answers)
    requires ans(3) == Answer(NEXT_OUT, 0)
    ensures LeakStep(4, ans)
  {
    LeakInv(4);
    ServeCommand(Leak(4).d, 1, true);
  }

  /** A line comes from the shell of the command. */
  lemma LineEvent(w: World, line: string, sendOk: bool, ans: Answers)
    requires Inv(w.d) && |w.ttys| == |w.d.shells| == 1 && w.d.shells[0].state == WaitEoc && w.d.shells[0].kept == ""
    requires (line == "a\n" || line == "b\n") && line <= w.ttys[0].unread
    ensures var e := ShellReady(0, [Chunk(line, false)], sendOk, true);
            var e' := EvtData(Data, line, "", sendOk, true);
            && Possible(w, e) && (SendsWork(w.d, e) <==> sendOk) && FsmReady(w.d, 0, e')
            && WorldStep(w, e, ans) == World(Fsm(w.d, 0, e'), [AfterRead(w.ttys[0], Done(Data, line, "", []), [Chunk(line, false)])])
  {
    hide Receive, Fsm, Inv, Healthy, AfterRead, BytesOf;
    OneLine(line);
    ShellStepIs(w, 0, [Chunk(line, false)], sendOk, true, ans);
    assert ReadDisplay(Data, line, sendOk).code != PromptSeen;
    var t := AfterRead(w.ttys[0], Done(Data, line, "", []), [Chunk(line, false)]);
    assert w.ttys[0 := t] == [t];
  }

  lemma TtyLine(t: Tty, line: string, evs: seq<ReadEvent>, out: string, unread: string)
    requires BytesOf(evs) == line && t.unread == line + unread && |line| <= |t.out| && t.out[|line|..] == out
    ensures line <= t.unread && AfterRead(t, Done(Data, line, "", []), evs) == Tty(out, unread, t.code)
  {
    hide BytesOf;
    CutAt(line, unread);
  }

  /** The message with "a" fails. */
  lemma LeakLost(ans: Answers)
    ensures LeakStep(2, ans) && !SendsWork(Leak(2).d, LeakEvent(2))
  {
    var w, e := Leak(2), EvtData(Data, "a\n", "", false, true);
    LeakInv(2);
    LostTty();
    LineEvent(w, "a\n", false, ans);
    hide Inv, Possible, SendsWork, Fsm, AfterRead, WorldStep, BytesOf, ReadDisplay, Received;
    var d1 := w.d.(log := w.d.log + [Display(0, "a\n", false)]);
    LostIs(d1);
    ReadLost();
    FsmDisplayNotSent(w.d, 0, e, "a\n", d1);
  }

  lemma ReadLost()
    ensures ReadDisplay(Data, "a\n", false) == DisplayRead(ReadError, Some("a\n"))
    ensures ReadDisplay(Data, "b\n", true) == DisplayRead(MoreToCome, Some("b\n"))
  {
  }

  lemma LostTty()
    ensures "a\n" <= Leak(2).ttys[0].unread
    ensures [AfterRead(Leak(2).ttys[0], Done(Data, "a\n", "", []), [Chunk("a\n", false)])] == Leak(3).ttys
  {
    hide Receive, Healthy, BytesOf, AfterRead;
    OneLine("a\n");
    var t := Leak(2).ttys[0];
    assert t.out[|"a\n"|..] == "b\n";
    Assoc("a\n", "b\n", PROMPT);
    assert t.out == "a\n" + "b\n";
    TtyLine(t, "a\n", [Chunk("a\n", false)], "b\n", "b\n" + PROMPT);
  }

  lemma LostIs(d1: Daemon)
    requires d1 == Leak(2).d.(log := Leak(2).d.log + [Display(0, "a\n", false)])
    ensures d1 == Do(Store(Leak(2).d, 0, ""), Display(0, "a\n", false))
    ensures Linked(d1, 0) && Finish(d1, 0, -1) == Leak(3).d
  {
  }

  /** The second client gets "b". */
  lemma LeakGiven(ans: Answers)
    ensures LeakStep(5, ans) && SendsWork(Leak(5).d, LeakEvent(5))
  {
    var w, e := Leak(5), EvtData(Data, "b\n", "", true, true);
    LeakInv(5);
    GivenTty();
    LineEvent(w, "b\n", true, ans);
    hide Inv, Possible, SendsWork, Fsm, AfterRead, WorldStep, BytesOf, ReadDisplay, Received;
    ReadLost();
    FsmDisplayMore(w.d, 0, e);
    GivenIs();
  }

  lemma GivenIs()
    ensures Do(Store(Leak(5).d, 0, ""), Display(1, "b\n", true)) == Leak(6).d
  {
  }

  lemma GivenTty()
    ensures "b\n" <= Leak(5).ttys[0].unread
    ensures [AfterRead(Leak(5).ttys[0], Done(Data, "b\n", "", []), [Chunk("b\n", false)])] == Leak(6).ttys
  {
    hide Receive, Healthy, BytesOf, AfterRead;
    OneLine("b\n");
    Assoc("b\n", PROMPT, NEXT_OUT + PROMPT);
    TtyLine(Leak(5).ttys[0], "b\n", [Chunk("b\n", false)], "", PROMPT + (NEXT_OUT + PROMPT));
  }

  lemma LeakWrong(ans: Answers)
    requires ans(3) == Answer(NEXT_OUT, 0)
    ensures Conversation(LeakLog(6), 1, ans) == Wrong && AllSent(LeakLog(6), 1)
  {
    var log := LeakLog(6);
    assert log[..0] == [] && log[..5] == log;
    LogStep(log, 0, ans);
    LogStep(log, 1, ans);
    LogStep(log, 2, ans);
    assert Conversation(log[..3], 1, ans) == Idle;
    LogStep(log, 3, ans);
    assert Conversation(log[..4], 1, ans) == Running(NEXT_OUT, 0);
    LogStep(log, 4, ans);
    assert "b\n"[0] != NEXT_OUT[0];
  }

  lemma LogStep(log: seq<Act>, k: nat, ans: Answers)
    requires k < |log|
    ensures Conversation(log[..k + 1], 1, ans) == Next(Conversation(log[..k], 1, ans), log[k], 1, ans(k))
  {
    assert log[..k + 1] == log[..k] + [log[k]];
    ConversationStep(log[..k], log[k], 1, ans);
  }

  /**
   Why the condition is needed: a run from the start of the daemon, with answers that are framed, in which one
   message fails in the middle of an output, to a client that has gone; and another client, to which every
   message is sent, gets a line that is not of its command.
   */
  lemma OutputToAnother(ans: Answers) returns (ws: seq<World>, es: seq<Event>)
    requires ans(0) == Answer(LOST_OUT, 0) && ans(3) == Answer(NEXT_OUT, 0)
    ensures |ws| == |es| + 1 == 7 && WorldStart(ws[0])
    ensures forall k :: 0 <= k < |es| ==>
              && Inv(ws[k].d) && |ws[k].ttys| == |ws[k].d.shells|
              && Possible(ws[k], es[k]) && ws[k + 1] == WorldStep(ws[k], es[k], ans)
              && (SendsWork(ws[k].d, es[k]) <==> k != 2)
    ensures AllSent(ws[6].d.log, 1) && Conversation(ws[6].d.log, 1, ans) == Wrong
  {
    ws := [Leak(0), Leak(1), Leak(2), Leak(3), Leak(4), Leak(5), Leak(6)];
    es := [LeakEvent(0), LeakEvent(1), LeakEvent(2), LeakEvent(3), LeakEvent(4), LeakEvent(5)];
    assert (forall k: nat :: k < 7 ==> ws[k] == Leak(k)) && (forall k: nat :: k < 6 ==> es[k] == LeakEvent(k));
    hide Leak, LeakEvent, LeakLog, LeakStep;
    LeakStarts();
    hide Inv, Possible, WorldStep, SendsWork;
    forall k | 0 <= k < 6 ensures Inv(ws[k].d) && |ws[k].ttys| == |ws[k].d.shells| && Possible(ws[k], es[k])
                                  && ws[k + 1] == WorldStep(ws[k], es[k], ans)
                                  && (SendsWork(ws[k].d, es[k]) <==> k != 2) {
      LeakSteps(k, ans);
      LeakStepIs(k, ans);
    }
    LeakWrong(ans);
    LeakLogs();
  }

  lemma LeakStarts()
    ensures WorldStart(Leak(0))
  {
  }

  lemma LeakLogs()
    ensures Leak(6).d.log == LeakLog(6)
  {
  }

  lemma LeakStepIs(k: nat, ans: Answers)
    requires LeakStep(k, ans)
    ensures Inv(Leak(k).d) && |Leak(k).ttys| == |Leak(k).d.shells|
    ensures Possible(Leak(k), LeakEvent(k)) && Leak(k + 1) == WorldStep(Leak(k), LeakEvent(k), ans)
  {
  }

  lemma LeakSteps(k: nat, ans: Answers)
    requires k < 6 && ans(0) == Answer(LOST_OUT, 0) && ans(3) == Answer(NEXT_OUT, 0)
    ensures LeakStep(k, ans) && (SendsWork(Leak(k).d, LeakEvent(k)) <==> k != 2)
  {
    hide LeakStep, Leak;
    if k == 0 || k == 3 {
      LeakAccept(k, ans);
    } else if k == 1 {
      LeakCommand(ans);
    } else if k == 4 {
      LeakNextCommand(ans);
    } else if k == 2 {
      LeakLost(ans);
    } else {
      LeakGiven(ans);
    }
  }
}
