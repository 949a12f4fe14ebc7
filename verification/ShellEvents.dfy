/**
 What becomes of a shell, its client and the messages when the shell has been read: all states, all outcomes
 of the reception, failures included.
 */
module ShellEvents {
  import opened Bytes
  import opened StreamSpec
  import opened Decimal
  import opened DaemonSpec
  import opened Framing
  import opened Coherence

  /** The output that comes before the prompt, or all of it without prompt. */
  function OutputOf(o: Outcome): string
    requires o.Done? && (o.rc == Found ==> |o.data| >= |PROMPT|)
  {
    if o.rc == Found then o.data[..|o.data| - |PROMPT|] else if o.rc == Data then o.data else ""
  }

  /** The number that the output of `echo $?` tells, or what was told before when nothing new has come. */
  function Told(o: Outcome, before: int): int
    requires o.Done? && (o.rc == Found ==> |o.data| >= |PROMPT|)
  {
    var text := OutputOf(o);
    if text == "" then before else Atoi(text[..|text| - 1])
  }

  /** `d'` is `d` where `acts` have been done, the shell `i` is in this state with these data and this client, and
      its client is linked to it or not any more; nothing else has changed. */
  ghost predicate Becomes(d: Daemon, d': Daemon, i: nat, acts: seq<Act>, s: ShellState, linked: bool, status: int, kept: string)
    requires i < |d.shells| && d.shells[i].client.Some?
  {
    var c := d.shells[i].client.value;
    && c in d.clients
    && d'.log == d.log + acts
    && d'.shells == d.shells[i := Shell(s, if linked then Some(c) else None, status, kept)]
    && d'.clients == (if linked then d.clients else d.clients[c := d.clients[c].(shell := None)])
    && d'.list == d.list && d'.next == d.next && d'.crashed == d.crashed
  }

  /** The DISPLAY message, when there is something to show. */
  function Shows(c: nat, text: string, ok: bool): seq<Act> {
    if text == "" then [] else [Display(c, text, ok)]
  }

  /** The output of a command: it is shown; behind the prompt the status is asked; whatever fails, the client is
      told -1 and the shell is free. */
  ghost predicate OutputServed(d: Daemon, d': Daemon, i: nat, o: Outcome, sendOk: bool, submitOk: bool)
    requires i < |d.shells| && d.shells[i].client.Some? && o.Done? && (o.rc == Found ==> |o.data| >= |PROMPT|)
  {
    var c, status, text := d.shells[i].client.value, d.shells[i].status, OutputOf(o);
    var shown := Shows(c, text, sendOk);
    if o.rc == Timeout || o.rc == Error || (text != "" && !sendOk) then
      Becomes(d, d', i, shown + [Eoc(c, -1)], Free, false, status, o.kept)
    else if o.rc == Data then Becomes(d, d', i, shown, WaitEoc, true, status, o.kept)
    else if submitOk then Becomes(d, d', i, shown + [StatusRequest(c, i, true)], WaitStatus, true, status, o.kept)
    else Becomes(d, d', i, shown + [StatusRequest(c, i, false)] + [Eoc(c, -1)], Free, false, status, o.kept)
  }

  /** The status of a command: its number is told to the client behind the prompt, -1 when the reception fails. */
  ghost predicate StatusServed(d: Daemon, d': Daemon, i: nat, o: Outcome)
    requires i < |d.shells| && d.shells[i].client.Some? && o.Done? && (o.rc == Found ==> |o.data| >= |PROMPT|)
  {
    var c, status := d.shells[i].client.value, d.shells[i].status;
    if o.rc == Timeout || o.rc == Error then Becomes(d, d', i, [Eoc(c, -1)], Free, false, status, o.kept)
    else if o.rc == Data then Becomes(d, d', i, [], WaitStatus, true, Told(o, status), o.kept)
    else Becomes(d, d', i, [Eoc(c, Told(o, status))], Free, false, Told(o, status), o.kept)
  }

  /** The rest of the output of a client that has gone: nobody is told anything, and the shell is free as soon as
      the prompt has come or the reception fails. */
  predicate FlushServed(d: Daemon, d': Daemon, i: nat, o: Outcome)
    requires i < |d.shells| && o.Done?
  {
    d' == d.(shells := d.shells[i := d.shells[i].(kept := o.kept, state := if o.rc == Data then Freeing else Free)])
  }

  /**
   A shell has been read, and no assertion fails (which happens under the condition of Coherence.AbortExact
   alone): this is all that is done, whatever the state of the shell and the outcome of the reception.
   */
  lemma ShellServed(d: Daemon, i: nat, evs: seq<ReadEvent>, sendOk: bool, submitOk: bool)
    requires Inv(d) && Legal(d, ShellReady(i, evs, sendOk, submitOk)) && !d.crashed
    requires !Step(d, ShellReady(i, evs, sendOk, submitOk)).crashed
    ensures var o, d' := Received(d, i, evs), Step(d, ShellReady(i, evs, sendOk, submitOk));
            && (o.rc == Found ==> |o.data| >= |PROMPT|)
            && (InUse(d.shells[i].state) ==> d.shells[i].client.Some?)
            && match d.shells[i].state
               case WaitEoc => OutputServed(d, d', i, o, sendOk, submitOk)
               case WaitStatus => StatusServed(d, d', i, o)
               case Freeing => FlushServed(d, d', i, o)
               case _ => d' == d
  {
    hide Receive;
    var o, s := Received(d, i, evs), d.shells[i];
    var e := EvtData(o.rc, o.data, o.kept, sendOk, submitOk);
    assert ShellLinked(d.shells, d.clients, i);
    ReceivedShaped(PROMPT, s.kept, evs);
    hide Inv, Shaped;
    if s.state == WaitEoc {
      DisplayCrash(d, i, o.rc, o.data, o.kept, sendOk, submitOk);
      OutputEvent(d, i, o, sendOk, submitOk);
    } else if s.state == WaitStatus {
      CodeCrash(d, i, o.rc, o.data, o.kept);
      StatusEvent(d, i, o);
    }
    FoundLong(o);
    hide DisplayData, StatusData, OutputServed, StatusServed;
  }

  /** A connection: its client is the last one in and the first of the list, without shell; or its socket is told OOM. */
  lemma ConnectionServed(d: Daemon, sd: nat)
    requires Inv(d)
    ensures Legal(d, Accept(sd)) ==>
              var d' := Step(d, Accept(sd));
              && d.next !in d.clients && d'.clients == d.clients[d.next := Client(true, sd, None)]
              && d'.list == [d.next] + d.list && d'.next > d.next
              && d'.shells == d.shells && d'.log == d.log && d'.crashed == d.crashed
    ensures Step(d, AcceptOom(sd)) == d.(log := d.log + [Oom(sd)])
  {
  }

  lemma FoundLong(o: Outcome)
    requires o.Done? && Shaped(PROMPT, o.rc, o.data)
    ensures o.rc == Found ==> |o.data| >= |PROMPT|
  {
  }

  /** A reception in WAIT_EOC. */
  lemma OutputRead(o: Outcome, sendOk: bool)
    requires o.Done? && o.rc != Abort && Shaped(PROMPT, o.rc, o.data)
    ensures var text := OutputOf(o);
            ReadDisplay(o.rc, o.data, sendOk) ==
            DisplayRead(if o.rc == Timeout || o.rc == Error || (text != "" && !sendOk) then ReadError
                        else if o.rc == Data then MoreToCome else PromptSeen,
                        if text == "" then None else Some(text))
  {
  }

  /** A reception in WAIT_STATUS. */
  lemma StatusReading(o: Outcome, status: int)
    requires o.Done? && o.rc != Abort && Shaped(PROMPT, o.rc, o.data) && ReadStatus(o.rc, o.data, status).code != Crash
    ensures ReadStatus(o.rc, o.data, status) ==
            StatusRead(if o.rc == Timeout || o.rc == Error then ReadError else if o.rc == Data then MoreToCome else PromptSeen,
                       if o.rc == Found || o.rc == Data then Told(o, status) else status)
  {
    var text := OutputOf(o);
    if text != "" {
      assert text[..|text| - 1] == o.data[..|text| - 1];
    }
  }

  /** The shell read, its data kept, some actions done. */
  ghost predicate Doing(d: Daemon, d1: Daemon, i: nat, acts: seq<Act>, status: int, kept: string)
    requires i < |d.shells|
  {
    d1 == d.(log := d.log + acts, shells := d.shells[i := d.shells[i].(kept := kept, status := status)])
  }

  lemma ThenEnds(d: Daemon, d1: Daemon, i: nat, acts: seq<Act>, status: int, kept: string, told: int)
    requires i < |d.shells| && Linked(d, i) && Doing(d, d1, i, acts, status, kept)
    ensures Linked(d1, i)
    ensures Becomes(d, Finish(d1, i, told), i, acts + [Eoc(d.shells[i].client.value, told)], Free, false, status, kept)
  {
    Assoc(d.log, acts, [Eoc(d.shells[i].client.value, told)]);
  }

  lemma ThenGoesOn(d: Daemon, d1: Daemon, i: nat, acts: seq<Act>, s: ShellState, status: int, kept: string)
    requires i < |d.shells| && Linked(d, i) && Doing(d, d1, i, acts, status, kept)
    ensures Becomes(d, SetState(d1, i, s), i, acts, s, true, status, kept)
    ensures s == d.shells[i].state ==> SetState(d1, i, s) == d1
  {
  }

  lemma ThenDoes(d: Daemon, d1: Daemon, i: nat, acts: seq<Act>, status: int, kept: string, a: Act)
    requires i < |d.shells| && Doing(d, d1, i, acts, status, kept)
    ensures Doing(d, Do(d1, a), i, acts + [a], status, kept)
  {
    Assoc(d.log, acts, [a]);
  }

  /** The display has been read: what is done of its code and text. */
  lemma OutputDone(d: Daemon, i: nat, o: Outcome, sendOk: bool, submitOk: bool, d2: Daemon)
    requires i < |d.shells| && Linked(d, i) && o.Done? && ReadDisplay(o.rc, o.data, sendOk).code != Crash
    requires var r, d1 := ReadDisplay(o.rc, o.data, sendOk), d.(shells := d.shells[i := d.shells[i].(kept := o.kept)]);
             d2 == if r.text == None then d1 else Do(d1, Display(d.shells[i].client.value, r.text.value, sendOk))
    ensures var code, d3 := ReadDisplay(o.rc, o.data, sendOk).code, Do(d2, StatusRequest(d.shells[i].client.value, i, submitOk));
            && Linked(d2, i) && Linked(d3, i)
            && DisplayData(d, i, o.rc, o.data, o.kept, sendOk, submitOk) ==
               if code == ReadError then Finish(d2, i, -1)
               else if code == MoreToCome then d2
               else if submitOk then SetState(d3, i, WaitStatus)
               else Finish(d3, i, -1)
  {
    hide ReadDisplay, Finish, SetState;
  }

  /** The output so far has been shown, or it could not be. */
  function Shown(d: Daemon, i: nat, o: Outcome, sendOk: bool): Daemon
    requires i < |d.shells| && d.shells[i].client.Some? && o.Done? && (o.rc == Found ==> |o.data| >= |PROMPT|)
  {
    var d1 := d.(shells := d.shells[i := d.shells[i].(kept := o.kept)]);
    if OutputOf(o) == "" then d1 else Do(d1, Display(d.shells[i].client.value, OutputOf(o), sendOk))
  }

  lemma ShownDone(d: Daemon, i: nat, o: Outcome, sendOk: bool)
    requires i < |d.shells| && d.shells[i].client.Some? && o.Done? && (o.rc == Found ==> |o.data| >= |PROMPT|)
    ensures Doing(d, Shown(d, i, o, sendOk), i, Shows(d.shells[i].client.value, OutputOf(o), sendOk), d.shells[i].status, o.kept)
  {
    hide OutputOf;
    Empty(d.log);
  }

  lemma OutputEvent(d: Daemon, i: nat, o: Outcome, sendOk: bool, submitOk: bool)
    requires i < |d.shells| && Linked(d, i) && d.shells[i].state == WaitEoc && o.Done? && Shaped(PROMPT, o.rc, o.data)
    requires o.rc != Abort
    ensures OutputServed(d, DisplayData(d, i, o.rc, o.data, o.kept, sendOk, submitOk), i, o, sendOk, submitOk)
  {
    OutputRead(o, sendOk);
    FoundLong(o);
    ShownDone(d, i, o, sendOk);
    OutputDone(d, i, o, sendOk, submitOk, Shown(d, i, o, sendOk));
    hide *;
    var code := ReadDisplay(o.rc, o.data, sendOk).code;
    if code == ReadError {
      OutputStops(d, i, o, sendOk, submitOk);
    } else if code == MoreToCome {
      OutputGoesOn(d, i, o, sendOk, submitOk);
    } else {
      OutputOver(d, i, o, sendOk, submitOk);
    }
  }

  lemma OutputStops(d: Daemon, i: nat, o: Outcome, sendOk: bool, submitOk: bool)
    requires i < |d.shells| && Linked(d, i) && o.Done? && (o.rc == Found ==> |o.data| >= |PROMPT|)
    requires o.rc == Timeout || o.rc == Error || (OutputOf(o) != "" && !sendOk)
    ensures var d2 := Shown(d, i, o, sendOk); Linked(d2, i) && OutputServed(d, Finish(d2, i, -1), i, o, sendOk, submitOk)
  {
    hide OutputOf, Doing, Shown, Shows, Becomes, Finish;
    ShownDone(d, i, o, sendOk);
    ThenEnds(d, Shown(d, i, o, sendOk), i, Shows(d.shells[i].client.value, OutputOf(o), sendOk), d.shells[i].status, o.kept, -1);
  }

  lemma OutputGoesOn(d: Daemon, i: nat, o: Outcome, sendOk: bool, submitOk: bool)
    requires i < |d.shells| && Linked(d, i) && d.shells[i].state == WaitEoc && o.Done? && o.rc == Data
    requires OutputOf(o) == "" || sendOk
    ensures OutputServed(d, Shown(d, i, o, sendOk), i, o, sendOk, submitOk)
  {
    hide OutputOf, Doing, Shown, Shows, Becomes, SetState;
    ShownDone(d, i, o, sendOk);
    ThenGoesOn(d, Shown(d, i, o, sendOk), i, Shows(d.shells[i].client.value, OutputOf(o), sendOk), WaitEoc, d.shells[i].status, o.kept);
  }

  lemma OutputOver(d: Daemon, i: nat, o: Outcome, sendOk: bool, submitOk: bool)
    requires i < |d.shells| && Linked(d, i) && o.Done? && o.rc == Found && |o.data| >= |PROMPT|
    requires OutputOf(o) == "" || sendOk
    ensures var d3 := Do(Shown(d, i, o, sendOk), StatusRequest(d.shells[i].client.value, i, submitOk));
            && Linked(d3, i)
            && OutputServed(d, if submitOk then SetState(d3, i, WaitStatus) else Finish(d3, i, -1), i, o, sendOk, submitOk)
  {
    hide OutputOf, Doing, Shown, Shows, Becomes, SetState, Finish, Do;
    var c, status := d.shells[i].client.value, d.shells[i].status;
    var d2, shown, asked := Shown(d, i, o, sendOk), Shows(c, OutputOf(o), sendOk), StatusRequest(c, i, submitOk);
    ShownDone(d, i, o, sendOk);
    ThenDoes(d, d2, i, shown, status, o.kept, asked);
    ThenEnds(d, Do(d2, asked), i, shown + [asked], status, o.kept, -1);
    ThenGoesOn(d, Do(d2, asked), i, shown + [asked], WaitStatus, status, o.kept);
  }

  lemma StatusEvent(d: Daemon, i: nat, o: Outcome)
    requires i < |d.shells| && Linked(d, i) && d.shells[i].state == WaitStatus && o.Done? && Shaped(PROMPT, o.rc, o.data)
    requires o.rc != Abort && ReadStatus(o.rc, o.data, d.shells[i].status).code != Crash
    ensures StatusServed(d, StatusData(d, i, o.rc, o.data, o.kept), i, o)
  {
    StatusReading(o, d.shells[i].status);
    var r := ReadStatus(o.rc, o.data, d.shells[i].status);
    var d1 := d.(shells := d.shells[i := d.shells[i].(kept := o.kept, status := r.status)]);
    Empty(d.log);
    assert Doing(d, d1, i, [], r.status, o.kept);
    var told := if r.code == ReadError then -1 else r.status;
    ThenEnds(d, d1, i, [], r.status, o.kept, told);
    ThenGoesOn(d, d1, i, [], WaitStatus, r.status, o.kept);
    Empty([Eoc(d.shells[i].client.value, told)]);
    hide Doing, Becomes, Linked, Shaped, ReadStatus, Told, Finish, SetState;
  }
}
