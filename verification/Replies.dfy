/**
 What becomes of the commands that the clients send: each one is taken by a shell, told BUSY, or dropped
 without a reply, and which of these happens depends on nothing but the history of the client and the
 shells that are free.
 */
module Replies {
  import opened Bytes
  import opened StreamSpec
  import opened DaemonSpec
  import opened DaemonRuns

  /** Commands of a client taken by a shell. */
  function Commands(log: seq<Act>, c: nat): nat {
    if log == [] then 0
    else
      var a := log[|log| - 1];
      Commands(log[..|log| - 1], c) + if a.Command? && a.client == c then 1 else 0
  }

  /** EOC messages sent to a client. */
  function Eocs(log: seq<Act>, c: nat): nat {
    if log == [] then 0
    else
      var a := log[|log| - 1];
      Eocs(log[..|log| - 1], c) + if a.Eoc? && a.client == c then 1 else 0
  }

  /** BUSY messages sent to a client. */
  function Busies(log: seq<Act>, c: nat): nat {
    if log == [] then 0
    else
      var a := log[|log| - 1];
      Busies(log[..|log| - 1], c) + if a.Busy? && a.client == c then 1 else 0
  }

  lemma {:induction false} BalanceIs(log: seq<Act>, c: nat)
    ensures Balance(log, c) == Commands(log, c) - Eocs(log, c)
  {
    if log != [] {
      BalanceIs(log[..|log| - 1], c);
    }
  }

  lemma CountAct(log: seq<Act>, a: Act, c: nat)
    ensures Commands(log + [a], c) == Commands(log, c) + if a.Command? && a.client == c then 1 else 0
    ensures Busies(log + [a], c) == Busies(log, c) + if a.Busy? && a.client == c then 1 else 0
  {
  }

  // ------------------------------------------------------------------ one command

  /** The client has a command whose end it has not been told: nothing but its own history tells it. */
  predicate Waits(log: seq<Act>, c: nat) {
    Balance(log, c) == 1
  }

  lemma WaitsIs(d: Daemon, c: nat)
    requires c in d.clients && BalanceOk(d, c, Balance(d.log, c))
    ensures Waits(d.log, c) <==> d.clients[c].shell.Some?
    ensures !Waits(d.log, c) <==> Balance(d.log, c) == 0
  {
  }

  /**
   A command is dropped without a reply, and nothing at all changes, if and only if the client has not been
   told the end of the one before; otherwise exactly one thing is said of it: BUSY when no shell is free,
   else that the first free shell has got it. Nothing is said to the other clients.
   */
  lemma CommandMet(d: Daemon, c: nat, ok: bool)
    requires Inv(d) && c in d.clients && BalanceOk(d, c, Balance(d.log, c))
    ensures ServeClient(d, c, true, ok) == d <==> Waits(d.log, c)
    ensures var log', waits, full := ServeClient(d, c, true, ok).log, Waits(d.log, c), FirstFree(d.shells, 0) == None;
            && Busies(log', c) == Busies(d.log, c) + (if !waits && full then 1 else 0)
            && Commands(log', c) == Commands(d.log, c) + (if !waits && !full then 1 else 0)
            && forall x :: x != c ==> Busies(log', x) == Busies(d.log, x) && Commands(log', x) == Commands(d.log, x)
  {
    WaitsIs(d, c);
    hide Inv, Waits, BalanceOk, ServeClient, Commands, Busies;
    if d.clients[c].shell.Some? {
      ServeSecondCommand(d, c, ok);
    } else {
      ServeCommand(d, c, ok);
      match FirstFree(d.shells, 0) {
        case None => SaidBusy(d.log, c);
        case Some(i) => SaidTaken(d.log, c, i, ok);
      }
    }
  }

  /** `log'` says this much more of the commands of the client, and nothing of those of the others. */
  ghost predicate Says(log: seq<Act>, log': seq<Act>, c: nat, busies: nat, commands: nat) {
    && log' != log
    && forall x :: && Busies(log', x) == Busies(log, x) + (if x == c then busies else 0)
                   && Commands(log', x) == Commands(log, x) + (if x == c then commands else 0)
  }

  lemma SaidBusy(log: seq<Act>, c: nat)
    ensures Says(log, log + [Busy(c)], c, 1, 0)
  {
    hide Commands, Busies;
    assert |log + [Busy(c)]| == |log| + 1;
    forall x ensures Busies(log + [Busy(c)], x) == Busies(log, x) + (if x == c then 1 else 0)
                     && Commands(log + [Busy(c)], x) == Commands(log, x) {
      CountAct(log, Busy(c), x);
    }
  }

  lemma SaidTaken(log: seq<Act>, c: nat, i: nat, ok: bool)
    ensures Says(log, if ok then log + [Command(c, i, true)] else log + [Command(c, i, false)] + [Eoc(c, -1)], c, 0, 1)
  {
    hide Commands, Busies;
    var log1 := log + [Command(c, i, ok)];
    assert |log1| == |log| + 1 && |log1 + [Eoc(c, -1)]| == |log| + 2;
    forall x ensures Busies(log1, x) == Busies(log1 + [Eoc(c, -1)], x) == Busies(log, x)
                     && Commands(log1, x) == Commands(log1 + [Eoc(c, -1)], x) == Commands(log, x) + (if x == c then 1 else 0) {
      CountAct(log, Command(c, i, ok), x);
      CountAct(log1, Eoc(c, -1), x);
    }
  }

  // ------------------------------------------------------------------ the other events

  /** `d'` has said nothing more than `d` of commands and of BUSY. */
  ghost predicate Quiet(d: Daemon, d': Daemon) {
    forall c: nat :: Commands(d'.log, c) == Commands(d.log, c) && Busies(d'.log, c) == Busies(d.log, c)
  }

  lemma SayQuiet(d: Daemon, a: Act)
    requires !a.Command? && !a.Busy?
    ensures Quiet(d, Do(d, a))
  {
  }

  lemma SameLog(d: Daemon, d': Daemon)
    requires d'.log == d.log
    ensures Quiet(d, d')
  {
  }

  lemma FinishQuiet(d: Daemon, i: nat, status: int)
    requires i < |d.shells| && Linked(d, i)
    ensures Quiet(d, Finish(d, i, status))
  {
    SayQuiet(d, Eoc(d.shells[i].client.value, status));
  }

  lemma DisplayQuiet(d: Daemon, i: nat, rc: RecvCode, data: string, kept: string, sendOk: bool, submitOk: bool)
    requires i < |d.shells| && Linked(d, i)
    ensures Quiet(d, DisplayData(d, i, rc, data, kept, sendOk, submitOk))
  {
    hide ReadDisplay, Finish, Commands, Busies;
    var c := d.shells[i].client.value;
    var r := ReadDisplay(rc, data, sendOk);
    var d1 := d.(shells := d.shells[i := d.shells[i].(kept := kept)]);
    var d2 := if r.text.Some? then Do(d1, Display(c, r.text.value, sendOk)) else d1;
    var d3 := Do(d2, StatusRequest(c, i, submitOk));
    if r.text.Some? {
      SayQuiet(d1, Display(c, r.text.value, sendOk));
    }
    SayQuiet(d2, StatusRequest(c, i, submitOk));
    if r.code == PromptSeen && !submitOk {
      FinishQuiet(d3, i, -1);
    } else if r.code == ReadError {
      FinishQuiet(d2, i, -1);
    }
  }

  lemma StatusQuiet(d: Daemon, i: nat, rc: RecvCode, data: string, kept: string)
    requires i < |d.shells| && Linked(d, i)
    ensures Quiet(d, StatusData(d, i, rc, data, kept))
  {
    hide ReadStatus, Finish, Commands, Busies;
    var r := ReadStatus(rc, data, d.shells[i].status);
    var d1 := d.(shells := d.shells[i := d.shells[i].(kept := kept, status := r.status)]);
    if r.code == PromptSeen {
      FinishQuiet(d1, i, r.status);
    } else if r.code == ReadError {
      FinishQuiet(d1, i, -1);
    }
  }

  lemma ShellQuiet(d: Daemon, i: nat, evs: seq<ReadEvent>, sendOk: bool, submitOk: bool)
    requires Inv(d) && i < |d.shells| && Received(d, i, evs).Done?
    ensures Quiet(d, ServeShell(d, i, evs, sendOk, submitOk))
  {
    hide Commands, Busies, Received, DisplayData, StatusData;
    var o := Received(d, i, evs);
    assert ShellLinked(d.shells, d.clients, i);
    if d.shells[i].state == WaitEoc {
      DisplayQuiet(d, i, o.rc, o.data, o.kept, sendOk, submitOk);
    } else if d.shells[i].state == WaitStatus {
      StatusQuiet(d, i, o.rc, o.data, o.kept);
    } else {
      SameLog(d, ServeShell(d, i, evs, sendOk, submitOk));
    }
  }

  lemma LeaveQuiet(d: Daemon, c: nat, ok: bool)
    requires Inv(d) && c in d.clients
    ensures Quiet(d, ServeClient(d, c, false, ok))
  {
    hide Commands, Busies, ServeClient;
    match d.clients[c].shell {
      case Some(i) =>
        assert ClientLinked(d.shells, d.clients, c);
        ServeLeaveBusy(d, c, i, ok);
      case None => ServeLeave(d, c, ok);
    }
    SameLog(d, ServeClient(d, c, false, ok));
  }

  /** Nothing but a command makes a command taken or a BUSY said. */
  lemma OtherQuiet(d: Daemon, e: Event)
    requires Inv(d) && Legal(d, e) && !(e.ClientReady? && e.command)
    ensures Quiet(d, Step(d, e))
  {
    hide Inv, Legal, ServeShell, ServeClient, Commands, Busies;
    match e {
      case Accept(sd) => SameLog(d, Step(d, e));
      case AcceptOom(sd) => SayQuiet(d, Oom(sd));
      case ShellReady(i, evs, sendOk, submitOk) =>
        LegalReading(d, e);
        ShellQuiet(d, i, evs, sendOk, submitOk);
      case ClientReady(c, command, submitOk) =>
        LegalReading(d, e);
        LeaveQuiet(d, c, submitOk);
    }
  }

  lemma LegalReading(d: Daemon, e: Event)
    requires Legal(d, e)
    ensures e.ShellReady? ==> e.shell < |d.shells| && Received(d, e.shell, e.evs).Done?
    ensures e.ClientReady? ==> e.client in d.clients
  {
  }

  // ------------------------------------------------------------------ all runs

  predicate IsCommand(e: Event, c: nat) {
    e.ClientReady? && e.command && e.client == c
  }

  /** Commands sent by a client. */
  function SentBy(es: seq<Event>, c: nat): nat {
    if es == [] then 0 else SentBy(es[..|es| - 1], c) + if IsCommand(es[|es| - 1], c) then 1 else 0
  }

  /** Those met while the end of the one before has not been told. */
  ghost function Dropped(d: Daemon, es: seq<Event>, c: nat): nat {
    if es == [] then 0
    else
      var before := es[..|es| - 1];
      Dropped(d, before, c) + if IsCommand(es[|es| - 1], c) && Waits(Steps(d, before).log, c) then 1 else 0
  }

  /** Those of the others met while no shell is free. */
  ghost function Crowded(d: Daemon, es: seq<Event>, c: nat): nat {
    if es == [] then 0
    else
      var before := es[..|es| - 1];
      var d' := Steps(d, before);
      Crowded(d, before, c)
      + if IsCommand(es[|es| - 1], c) && !Waits(d'.log, c) && FirstFree(d'.shells, 0) == None then 1 else 0
  }

  /** One more event, in numbers. */
  ghost predicate Counted(d: Daemon, d': Daemon, e: Event, c: nat) {
    var sent, waits, full := IsCommand(e, c), Waits(d.log, c), FirstFree(d.shells, 0) == None;
    && Busies(d'.log, c) == Busies(d.log, c) + (if sent && !waits && full then 1 else 0)
    && Commands(d'.log, c) == Commands(d.log, c) + (if sent && !waits && !full then 1 else 0)
  }

  lemma StepCounted(d: Daemon, e: Event, c: nat)
    requires Inv(d) && Legal(d, e) && Balanced(d)
    ensures Counted(d, Step(d, e), e, c)
  {
    hide Inv, Legal, Commands, Busies, Waits, FirstFree, ServeClient, ServeShell;
    if e.ClientReady? && e.command {
      LegalReading(d, e);
      assert BalanceOk(d, e.client, Balance(d.log, e.client));
      CommandMet(d, e.client, e.submitOk);
    } else {
      OtherQuiet(d, e);
    }
  }

  lemma BalancedRun(d: Daemon, es: seq<Event>)
    requires Start(d) && LegalRun(d, es)
    ensures Inv(Steps(d, es)) && Balanced(Steps(d, es))
  {
    hide Start, LegalRun, Inv, Steps;
    RepliesConserved(d, es);
  }

  lemma {:induction false} RunCounted(d: Daemon, es: seq<Event>, c: nat)
    requires Start(d) && LegalRun(d, es)
    ensures var log := Steps(d, es).log;
            && SentBy(es, c) == Commands(log, c) + Busies(log, c) + Dropped(d, es, c)
            && Busies(log, c) == Crowded(d, es, c)
  {
    hide Inv, Legal, LegalRun, Commands, Busies, Waits, FirstFree, Step, Start, Balanced, Steps, SentBy, Dropped, Crowded, IsCommand;
    if es == [] {
      NothingCounted(d, c);
    } else {
      var before, e := es[..|es| - 1], es[|es| - 1];
      RunStep(d, es, c);
      RunCounted(d, before, c);
      StepCounted(Steps(d, before), e, c);
    }
  }

  lemma NothingCounted(d: Daemon, c: nat)
    requires Start(d)
    ensures var log := Steps(d, []).log; Commands(log, c) == 0 && Busies(log, c) == 0
    ensures SentBy([], c) == 0 && Dropped(d, [], c) == 0 && Crowded(d, [], c) == 0
  {
  }

  /** The last event of a run. */
  lemma RunStep(d: Daemon, es: seq<Event>, c: nat)
    requires Start(d) && LegalRun(d, es) && es != []
    ensures var before, e := es[..|es| - 1], es[|es| - 1];
            var d' := Steps(d, before);
            && LegalRun(d, before) && Inv(d') && Balanced(d') && Legal(d', e) && Steps(d, es) == Step(d', e)
            && SentBy(es, c) == SentBy(before, c) + (if IsCommand(e, c) then 1 else 0)
            && Dropped(d, es, c) == Dropped(d, before, c) + (if IsCommand(e, c) && Waits(d'.log, c) then 1 else 0)
            && Crowded(d, es, c)
               == Crowded(d, before, c)
                  + (if IsCommand(e, c) && !Waits(d'.log, c) && FirstFree(d'.shells, 0) == None then 1 else 0)
  {
    hide Inv, Legal, Waits, FirstFree, Step, Start, Balanced, IsCommand;
    BalancedRun(d, es[..|es| - 1]);
  }

  /**
   Over every run, failures included, and for every client, all the commands that it has sent are accounted
   for: those dropped without a reply are exactly those sent before the end of the one before, those told
   BUSY exactly those of the others that met no free shell, and each of the rest has been given to a shell
   and has got exactly one EOC, but the one in flight, or the last one of a client that has gone.
   */
  lemma CommandsAccounted(d: Daemon, es: seq<Event>, c: nat)
    requires Start(d) && LegalRun(d, es)
    ensures var d' := Steps(d, es);
            var unanswered := SentBy(es, c) - Dropped(d, es, c) - Busies(d'.log, c) - Eocs(d'.log, c);
            && Busies(d'.log, c) == Crowded(d, es, c)
            && Commands(d'.log, c) == SentBy(es, c) - Dropped(d, es, c) - Crowded(d, es, c)
            && (if c in d'.clients then unanswered == (if d'.clients[c].shell.Some? then 1 else 0)
                else 0 <= unanswered <= 1)
  {
    hide LegalRun, Start, Steps, Commands, Busies, Eocs, SentBy, Dropped, Crowded, Inv;
    RunCounted(d, es, c);
    BalanceIs(Steps(d, es).log, c);
    RepliesConserved(d, es);
    assert BalanceOk(Steps(d, es), c, Balance(Steps(d, es).log, c));
  }

  // ------------------------------------------------------------------ a second command

  /** A client connects and sends two commands at once. */
  function TwoCommands(sd: nat, c: nat): seq<Event> {
    [Accept(sd)] + [ClientReady(c, true, true)] + [ClientReady(c, true, true)]
  }

  /** Whatever the shells, as long as there is one: the first command is taken, and the second one gets no
      reply at all. */
  lemma SecondCommand(d: Daemon, sd: nat)
    requires Start(d) && d.shells != []
    ensures var es, c := TwoCommands(sd, d.next), d.next;
            && LegalRun(d, es) && SentBy(es, c) == 2 && Dropped(d, es, c) == 1
            && Commands(Steps(d, es).log, c) == 1 && Busies(Steps(d, es).log, c) == 0
  {
    var c := d.next;
    var e := ClientReady(c, true, true);
    FirstCommand(d, sd);
    hide Start, Inv, Steps, LegalRun, Legal, Step, Commands, Busies, Dropped, Waits, SentBy, Crowded;
    var es := [Accept(sd)] + [e];
    var d2 := Steps(d, es);
    assert TwoCommands(sd, c) == es + [e];
    StepsAfter(d, es, e);
    RunStep(d, es + [e], c);
    assert (es + [e])[..2] == es;
    StepCounted(d2, e, c);
    OneSent(sd, c);
    RunCounted(d, es, c);
  }

  lemma FirstCommand(d: Daemon, sd: nat)
    requires Start(d) && d.shells != []
    ensures var c, es := d.next, [Accept(sd)] + [ClientReady(d.next, true, true)];
            var d2 := Steps(d, es);
            && LegalRun(d, es) && Inv(d) && Inv(d2) && Balanced(d2) && c in d2.clients && Waits(d2.log, c)
            && Legal(d2, ClientReady(c, true, true)) && Commands(d2.log, c) == 1 && Busies(d2.log, c) == 0
  {
    var c, e1, e2 := d.next, Accept(sd), ClientReady(d.next, true, true);
    StartInv(d);
    StepsAfter(d, [], e1);
    assert [] + [e1] == [e1];
    var d1 := NewClient(d, sd);
    StepsAfter(d, [e1], e2);
    ServeCommand(d1, c, true);
    BalancedRun(d, [e1] + [e2]);
  }

  lemma StartInv(d: Daemon)
    requires Start(d)
    ensures Inv(d)
  {
  }

  lemma OneSent(sd: nat, c: nat)
    ensures SentBy([Accept(sd)] + [ClientReady(c, true, true)], c) == 1
  {
    assert ([Accept(sd)] + [ClientReady(c, true, true)])[..1] == [Accept(sd)];
    assert [Accept(sd)][..0] == [];
    assert SentBy([Accept(sd)], c) == 0;
  }
}
