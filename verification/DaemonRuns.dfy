/** Properties of the daemon over all its runs: links between clients and shells, one reply a command. */
module DaemonRuns {
  import opened Bytes
  import opened StreamSpec
  import opened DaemonSpec

  // ------------------------------------------------------------------ the invariant is kept

  lemma {:induction false} RemoveExact(s: seq<nat>, c: nat)
    requires NoDup(s)
    ensures NoDup(Remove(s, c)) && forall x :: x in Remove(s, c) <==> x in s && x != c
  {
    if s != [] {
      assert forall x :: x in s <==> x == s[0] || x in s[1..];
      assert s[0] !in s[1..];
      RemoveExact(s[1..], c);
    }
  }

  /** Same clients with the same sockets, whatever their links. */
  ghost predicate SameClients(a: map<nat, Client>, b: map<nat, Client>) {
    a.Keys == b.Keys && forall c :: c in a ==> a[c].sd == b[c].sd
  }

  lemma FinishLinks(d: Daemon, i: nat, status: int)
    requires i < |d.shells| && Linked(d, i) && InUse(d.shells[i].state) && Links(d.shells, d.clients)
    ensures var d' := Finish(d, i, status);
            Links(d'.shells, d'.clients) && SameClients(d.clients, d'.clients)
            && (AllLive(d.clients) ==> AllLive(d'.clients))
  {
    var c, d' := d.shells[i].client.value, Finish(d, i, status);
    forall j | 0 <= j < |d'.shells| ensures ShellLinked(d'.shells, d'.clients, j) {
      assert ShellLinked(d.shells, d.clients, j);
    }
    forall x | x in d'.clients ensures ClientLinked(d'.shells, d'.clients, x) {
      assert ClientLinked(d.shells, d.clients, x);
    }
  }

  lemma DeleteLinks(d: Daemon, i: nat, s: ShellState)
    requires i < |d.shells| && Linked(d, i) && InUse(d.shells[i].state) && Links(d.shells, d.clients) && !InUse(s)
    ensures var d' := SetState(DeleteLinked(d, i), i, s);
            Links(d'.shells, d'.clients) && SameClients(d.clients, d'.clients)
  {
    var c, d' := d.shells[i].client.value, SetState(DeleteLinked(d, i), i, s);
    forall j | 0 <= j < |d'.shells| ensures ShellLinked(d'.shells, d'.clients, j) {
      assert ShellLinked(d.shells, d.clients, j);
    }
    forall x | x in d'.clients ensures ClientLinked(d'.shells, d'.clients, x) {
      assert ClientLinked(d.shells, d.clients, x);
    }
  }

  lemma LinkLinks(d: Daemon, i: nat, c: nat)
    requires FsmReady(d, i, EvtLink(c)) && d.shells[i].state == Free && Links(d.shells, d.clients)
    ensures var d' := Fsm(d, i, EvtLink(c));
            Links(d'.shells, d'.clients) && SameClients(d.clients, d'.clients)
  {
    var d' := Fsm(d, i, EvtLink(c));
    forall j | 0 <= j < |d'.shells| ensures ShellLinked(d'.shells, d'.clients, j) {
      assert ShellLinked(d.shells, d.clients, j);
    }
    forall x | x in d'.clients ensures ClientLinked(d'.shells, d'.clients, x) {
      assert ClientLinked(d.shells, d.clients, x);
    }
  }

  /** A change of the shell that keeps its pointer and its being in use or not. */
  lemma TouchLinks(shells: seq<Shell>, clients: map<nat, Client>, i: nat, sh: Shell)
    requires Links(shells, clients) && i < |shells|
    requires sh.client == shells[i].client && InUse(sh.state) == InUse(shells[i].state)
    ensures Links(shells[i := sh], clients)
  {
    var shells' := shells[i := sh];
    forall j | 0 <= j < |shells'| ensures ShellLinked(shells', clients, j) {
      assert ShellLinked(shells, clients, j);
    }
    forall x | x in clients ensures ClientLinked(shells', clients, x) {
      assert ClientLinked(shells, clients, x);
    }
  }

  /** The state machine keeps the links, and leaves a shell ALLOCATED only when it links it. */
  lemma FsmLinks(d: Daemon, i: nat, e: FsmEvent)
    requires FsmReady(d, i, e) && Links(d.shells, d.clients)
    ensures var d' := Fsm(d, i, e); Links(d'.shells, d'.clients) && SameClients(d.clients, d'.clients)
  {
    var sh := d.shells[i];
    match e {
      case EvtLink(c) =>
        if sh.state == Free {
          LinkLinks(d, i, c);
        }
      case EvtCmd(ok) =>
        if sh.state == Allocated {
          var d' := Do(d, Command(sh.client.value, i, ok));
          if ok {
            TouchLinks(d.shells, d.clients, i, sh.(state := WaitEoc));
          } else {
            FinishLinks(d', i, -1);
          }
        }
      case EvtDcnx =>
        if sh.state == Allocated {
          DeleteLinks(d, i, Free);
        } else if InUse(sh.state) {
          DeleteLinks(d, i, Freeing);
        }
      case EvtData(rc, data, kept, sendOk, submitOk) => DataLinks(d, i, rc, data, kept, sendOk, submitOk);
    }
  }

  lemma DataLinks(d: Daemon, i: nat, rc: RecvCode, data: string, kept: string, sendOk: bool, submitOk: bool)
    requires FsmReady(d, i, EvtDcnx) && Links(d.shells, d.clients)
    ensures var d' := Fsm(d, i, EvtData(rc, data, kept, sendOk, submitOk)); LinksAfter(d, d')
  {
    match d.shells[i].state {
      case WaitEoc => DisplayLinks(d, i, rc, data, kept, sendOk, submitOk);
      case WaitStatus => StatusLinks(d, i, rc, data, kept);
      case Freeing =>
        var sh := d.shells[i].(kept := kept);
        TouchLinks(d.shells, d.clients, i, sh);
        TouchLinks(d.shells[i := sh], d.clients, i, sh.(state := Free));
      case _ =>
    }
  }

  ghost predicate LinksAfter(d: Daemon, d': Daemon) {
    && Links(d'.shells, d'.clients) && SameClients(d.clients, d'.clients)
    && (AllLive(d.clients) ==> AllLive(d'.clients))
  }

  lemma DisplayLinks(d: Daemon, i: nat, rc: RecvCode, data: string, kept: string, sendOk: bool, submitOk: bool)
    requires i < |d.shells| && Linked(d, i) && d.shells[i].state == WaitEoc && Links(d.shells, d.clients)
    ensures LinksAfter(d, DisplayData(d, i, rc, data, kept, sendOk, submitOk))
  {
    var c, sh := d.shells[i].client.value, d.shells[i].(kept := kept);
    var r := ReadDisplay(rc, data, sendOk);
    var d1 := d.(shells := d.shells[i := sh]);
    TouchLinks(d.shells, d.clients, i, sh);
    var d2 := if r.text.Some? then Do(d1, Display(c, r.text.value, sendOk)) else d1;
    if r.code == PromptSeen && submitOk {
      TouchLinks(d1.shells, d.clients, i, sh.(state := WaitStatus));
    } else if r.code == PromptSeen {
      FinishLinks(Do(d2, StatusRequest(c, i, submitOk)), i, -1);
    } else if r.code == ReadError {
      FinishLinks(d2, i, -1);
    }
  }

  lemma StatusLinks(d: Daemon, i: nat, rc: RecvCode, data: string, kept: string)
    requires i < |d.shells| && Linked(d, i) && d.shells[i].state == WaitStatus && Links(d.shells, d.clients)
    ensures LinksAfter(d, StatusData(d, i, rc, data, kept))
  {
    var r := ReadStatus(rc, data, d.shells[i].status);
    var sh := d.shells[i].(kept := kept, status := r.status);
    var d1 := d.(shells := d.shells[i := sh]);
    TouchLinks(d.shells, d.clients, i, sh);
    if r.code == PromptSeen || r.code == ReadError {
      FinishLinks(d1, i, if r.code == PromptSeen then r.status else -1);
    }
  }

  /** Only the shell `i` changes, neither the list nor the numbering of the clients. */
  ghost predicate OnlyShell(d: Daemon, d': Daemon, i: nat)
    requires i < |d.shells|
  {
    && |d'.shells| == |d.shells| && d'.list == d.list && d'.next == d.next
    && (forall j :: 0 <= j < |d.shells| && j != i ==> d'.shells[j] == d.shells[j])
  }

  /** Only a shell in use has a client. */
  predicate Settled(sh: Shell) {
    InUse(sh.state) || sh.client == None
  }

  /** What an event makes of the shell: ALLOCATED only by a link, and no client left behind. */
  ghost predicate StateOk(sh: Shell, sh': Shell, e: FsmEvent) {
    && (sh'.state == Allocated ==> e.EvtLink? || (sh.state == Allocated && e.EvtData?))
    && (Settled(sh) ==> Settled(sh'))
  }

  lemma FsmStates(d: Daemon, i: nat, e: FsmEvent)
    requires FsmReady(d, i, e)
    ensures var d' := Fsm(d, i, e); OnlyShell(d, d', i) && StateOk(d.shells[i], d'.shells[i], e)
  {
    var d' := Fsm(d, i, e);
    match d.shells[i].state {
      case WaitEoc =>
        if e.EvtData? {
          DisplayStates(d, i, e.rc, e.data, e.kept, e.sendOk, e.submitOk);
        }
      case WaitStatus =>
        if e.EvtData? {
          StatusStates(d, i, e.rc, e.data, e.kept);
        }
      case _ =>
    }
  }

  lemma FinishStates(d: Daemon, i: nat, status: int)
    requires i < |d.shells| && Linked(d, i)
    ensures var d' := Finish(d, i, status);
            OnlyShell(d, d', i) && d'.shells[i].state == Free && d'.shells[i].client == None
  {
  }

  lemma DisplayStates(d: Daemon, i: nat, rc: RecvCode, data: string, kept: string, sendOk: bool, submitOk: bool)
    requires i < |d.shells| && Linked(d, i) && d.shells[i].state == WaitEoc
    ensures var d' := DisplayData(d, i, rc, data, kept, sendOk, submitOk);
            OnlyShell(d, d', i) && d'.shells[i].state != Allocated && Settled(d'.shells[i])
  {
    hide ReadDisplay, Finish;
    var c := d.shells[i].client.value;
    var r := ReadDisplay(rc, data, sendOk);
    var d1 := d.(shells := d.shells[i := d.shells[i].(kept := kept)]);
    var d2 := if r.text.Some? then Do(d1, Display(c, r.text.value, sendOk)) else d1;
    if r.code == PromptSeen && !submitOk {
      FinishStates(Do(d2, StatusRequest(c, i, submitOk)), i, -1);
    } else if r.code == ReadError {
      FinishStates(d2, i, -1);
    }
  }

  lemma StatusStates(d: Daemon, i: nat, rc: RecvCode, data: string, kept: string)
    requires i < |d.shells| && Linked(d, i) && d.shells[i].state == WaitStatus
    ensures var d' := StatusData(d, i, rc, data, kept);
            OnlyShell(d, d', i) && d'.shells[i].state != Allocated && Settled(d'.shells[i])
  {
  }

  // ------------------------------------------------------------------ the invariant over the steps

  lemma SameRegistered(a: map<nat, Client>, b: map<nat, Client>, list: seq<nat>, next: nat)
    requires Registered(a, list, next) && SameClients(a, b)
    ensures Registered(b, list, next)
  {
  }

  lemma DataKeepsInv(d: Daemon, i: nat, e: FsmEvent)
    requires Inv(d) && FsmReady(d, i, e) && e.EvtData?
    ensures Inv(Fsm(d, i, e))
  {
    DataLinks(d, i, e.rc, e.data, e.kept, e.sendOk, e.submitOk);
    FsmStates(d, i, e);
    SameRegistered(d.clients, Fsm(d, i, e).clients, d.list, d.next);
  }

  lemma ServeShellKeepsInv(d: Daemon, i: nat, evs: seq<ReadEvent>, sendOk: bool, submitOk: bool)
    requires Inv(d) && i < |d.shells| && Received(d, i, evs).Done?
    ensures Inv(ServeShell(d, i, evs, sendOk, submitOk))
  {
    var o := Received(d, i, evs);
    assert ShellLinked(d.shells, d.clients, i);
    DataKeepsInv(d, i, EvtData(o.rc, o.data, o.kept, sendOk, submitOk));
  }

  /** A client that points at no shell can leave. */
  lemma FreeKeepsInv(d: Daemon, c: nat)
    requires Links(d.shells, d.clients) && Registered(d.clients, d.list, d.next) && NoneAllocated(d.shells)
    requires c in d.clients && !d.clients[c].live
    requires forall x :: x in d.clients && x != c ==> d.clients[x].live
    ensures Inv(FreeClient(d, c))
  {
    RemoveExact(d.list, c);
    var clients' := d.clients - {c};
    forall i | 0 <= i < |d.shells| ensures ShellLinked(d.shells, clients', i) {
      assert ShellLinked(d.shells, d.clients, i);
    }
    forall x | x in clients' ensures ClientLinked(d.shells, clients', x) {
      assert ClientLinked(d.shells, d.clients, x);
    }
  }

  /** The client is linked to a shell just now when it can be; then only this shell may be ALLOCATED. */
  lemma TryLinkLinks(d: Daemon, c: nat)
    requires Inv(d) && c in d.clients
    ensures var d' := TryLink(d, c);
            && Links(d'.shells, d'.clients) && SameClients(d.clients, d'.clients) && AllLive(d'.clients)
            && |d'.shells| == |d.shells| && d'.list == d.list && d'.next == d.next && d'.log == d.log
            && (forall i :: 0 <= i < |d'.shells| && d'.shells[i].state == Allocated ==> d'.clients[c].shell == Some(i))
  {
    var s := FirstFree(d.shells, 0);
    if d.clients[c].shell == None && s.Some? {
      FsmLinks(d, s.value, EvtLink(c));
    }
  }

  lemma ServeClientKeepsInv(d: Daemon, c: nat, command: bool, submitOk: bool)
    requires Inv(d) && c in d.clients
    ensures Inv(ServeClient(d, c, command, submitOk))
  {
    LinkKeepsReady(d, c);
    TryLinkLinks(d, c);
    var d1 := TryLink(d, c);
    var d2 := ClientMessage(d1, c, command, submitOk);
    MessageLinks(d1, c, command, submitOk);
    SameRegistered(d.clients, d2.clients, d.list, d.next);
    if !d2.clients[c].live {
      FreeKeepsInv(d2, c);
    }
  }

  lemma MessageLinks(d: Daemon, c: nat, command: bool, submitOk: bool)
    requires Links(d.shells, d.clients) && AllLive(d.clients) && c in d.clients
    requires d.clients[c].shell.Some? ==> FsmReady(d, d.clients[c].shell.value, EvtDcnx)
    requires forall i :: 0 <= i < |d.shells| && d.shells[i].state == Allocated ==> d.clients[c].shell == Some(i)
    ensures var d' := ClientMessage(d, c, command, submitOk);
            && Links(d'.shells, d'.clients) && SameClients(d.clients, d'.clients) && NoneAllocated(d'.shells)
            && d'.list == d.list && d'.next == d.next && |d'.shells| == |d.shells|
            && forall x :: x in d'.clients && x != c ==> d'.clients[x].live
  {
    var d' := ClientMessage(d, c, command, submitOk);
    match d.clients[c].shell {
      case Some(i) =>
        assert ClientLinked(d.shells, d.clients, c);
        FsmLinks(d, i, if command then EvtCmd(submitOk) else EvtDcnx);
        FsmStates(d, i, if command then EvtCmd(submitOk) else EvtDcnx);
      case None =>
        forall j | 0 <= j < |d'.shells| ensures ShellLinked(d'.shells, d'.clients, j) {
          assert ShellLinked(d.shells, d.clients, j);
        }
        forall x | x in d'.clients ensures ClientLinked(d'.shells, d'.clients, x) {
          assert ClientLinked(d.shells, d.clients, x);
        }
    }
  }

  lemma ConsNoDup(x: nat, s: seq<nat>)
    requires NoDup(s) && x !in s
    ensures NoDup([x] + s)
  {
  }

  lemma AcceptKeepsInv(d: Daemon, sd: nat)
    requires Inv(d) && forall c :: c in d.clients ==> d.clients[c].sd != sd
    ensures Inv(NewClient(d, sd))
  {
    var d' := NewClient(d, sd);
    assert forall c :: c in d.list ==> c in d.clients && c < d.next;
    ConsNoDup(d.next, d.list);
    forall j | 0 <= j < |d'.shells| ensures ShellLinked(d'.shells, d'.clients, j) {
      assert ShellLinked(d.shells, d.clients, j);
    }
    forall x | x in d'.clients ensures ClientLinked(d'.shells, d'.clients, x) {
      assert x in d.clients ==> ClientLinked(d.shells, d.clients, x);
    }
    assert forall x :: x in d'.list <==> x == d.next || x in d.list;
  }

  /** The global link invariant is kept by every step of the select loop. */
  lemma StepKeepsInv(d: Daemon, e: Event)
    requires Inv(d) && Legal(d, e)
    ensures Inv(Step(d, e))
  {
    match e {
      case Accept(sd) => AcceptKeepsInv(d, sd);
      case AcceptOom(sd) =>
      case ShellReady(i, evs, sendOk, submitOk) => ServeShellKeepsInv(d, i, evs, sendOk, submitOk);
      case ClientReady(c, command, submitOk) => ServeClientKeepsInv(d, c, command, submitOk);
    }
  }

  /** The daemon when it enters the loop. */
  ghost predicate Start(d: Daemon) {
    && (forall i :: 0 <= i < |d.shells| ==> d.shells[i].state == Free)
    && d.clients == map[] && d.list == [] && d.log == [] && !d.crashed
  }

  /** The state behind a run of events; an event that cannot happen is skipped. */
  ghost function Steps(d: Daemon, es: seq<Event>): Daemon {
    if es == [] then d
    else
      var d', e := Steps(d, es[..|es| - 1]), es[|es| - 1];
      if Inv(d') && Legal(d', e) then Step(d', e) else d'
  }

  /** Every event of the run can happen when it comes. */
  ghost predicate LegalRun(d: Daemon, es: seq<Event>) {
    es == [] || (LegalRun(d, es[..|es| - 1]) && Legal(Steps(d, es[..|es| - 1]), es[|es| - 1]))
  }

  /** Over every run, the links are right at every head of the select loop and between the steps. */
  lemma {:induction false} RunKeepsInv(d: Daemon, es: seq<Event>)
    requires Inv(d) && LegalRun(d, es)
    ensures Inv(Steps(d, es))
  {
    if es != [] {
      RunKeepsInv(d, es[..|es| - 1]);
      StepKeepsInv(Steps(d, es[..|es| - 1]), es[|es| - 1]);
    }
  }

  /** One more event. */
  lemma StepsAfter(d: Daemon, es: seq<Event>, e: Event)
    requires Inv(d) && LegalRun(d, es) && Legal(Steps(d, es), e)
    ensures Inv(Steps(d, es)) && LegalRun(d, es + [e]) && Steps(d, es + [e]) == Step(Steps(d, es), e)
  {
    RunKeepsInv(d, es);
    assert (es + [e])[..|es|] == es;
  }

  // ------------------------------------------------------------------ what serving a client comes to

  /** A command of a client without shell: the first free shell runs it, or else the client is told BUSY. */
  lemma ServeCommand(d: Daemon, c: nat, ok: bool)
    requires Inv(d) && c in d.clients && d.clients[c].shell == None
    ensures match FirstFree(d.shells, 0)
            case None => ServeClient(d, c, true, ok) == Do(d, Busy(c))
            case Some(i) =>
              ServeClient(d, c, true, ok) ==
              if ok then
                d.(shells := d.shells[i := d.shells[i].(state := WaitEoc, client := Some(c))],
                   clients := d.clients[c := d.clients[c].(shell := Some(i))],
                   log := d.log + [Command(c, i, true)])
              else
                d.(shells := d.shells[i := d.shells[i].(client := None)],
                   log := d.log + [Command(c, i, false)] + [Eoc(c, -1)])
  {
  }

  /** A second command before the end of the first one is dropped without a reply. */
  lemma ServeSecondCommand(d: Daemon, c: nat, ok: bool)
    requires Inv(d) && c in d.clients && d.clients[c].shell.Some?
    ensures ServeClient(d, c, true, ok) == d
  {
  }

  /** A client without shell goes away. */
  lemma ServeLeave(d: Daemon, c: nat, ok: bool)
    requires Inv(d) && c in d.clients && d.clients[c].shell == None
    ensures ServeClient(d, c, false, ok) ==
            match FirstFree(d.shells, 0)
            case None => FreeClient(d, c)
            case Some(i) => FreeClient(d, c).(shells := d.shells[i := d.shells[i].(client := None)])
  {
  }

  /** A client goes away in the middle of its command: the shell is to be emptied. */
  lemma ServeLeaveBusy(d: Daemon, c: nat, i: nat, ok: bool)
    requires Inv(d) && c in d.clients && d.clients[c].shell == Some(i) && i < |d.shells|
    ensures ServeClient(d, c, false, ok) ==
            FreeClient(d, c).(shells := d.shells[i := d.shells[i].(state := Freeing, client := None)])
  {
  }

  // ------------------------------------------------------------------ one reply a command

  /** Commands of a client taken by a shell, less the EOC messages sent to it. */
  function Balance(log: seq<Act>, c: nat): int {
    if log == [] then 0
    else
      Balance(log[..|log| - 1], c) + match log[|log| - 1]
        case Command(x, _, _) => if x == c then 1 else 0
        case Eoc(x, _) => if x == c then -1 else 0
        case _ => 0
  }

  lemma BalanceAct(log: seq<Act>, a: Act, c: nat)
    ensures Balance(log + [a], c) == Balance(log, c) + match a
              case Command(x, _, _) => if x == c then 1 else 0
              case Eoc(x, _) => if x == c then -1 else 0
              case _ => 0
  {
  }

  ghost predicate BalanceOk(d: Daemon, c: nat, b: int) {
    if c in d.clients then b == (if d.clients[c].shell.Some? then 1 else 0)
    else 0 <= b <= 1 && (c >= d.next ==> b == 0)
  }

  /** A command in flight for each client that points at a shell, none for the others; a client that has
      gone has lost one reply at most. */
  ghost predicate Balanced(d: Daemon) {
    forall c: nat :: BalanceOk(d, c, Balance(d.log, c))
  }

  /** `d'` has nothing more than `d` to say about commands and their ends. */
  ghost predicate SameBalance(d: Daemon, d': Daemon) {
    d'.next == d.next && forall c: nat :: Balance(d'.log, c) == Balance(d.log, c)
  }

  lemma SayBalance(d: Daemon, a: Act)
    requires !a.Command? && !a.Eoc?
    ensures SameBalance(d, Do(d, a))
  {
  }

  lemma FinishBalance(d: Daemon, d1: Daemon, i: nat, status: int)
    requires Balanced(d) && SameBalance(d, d1) && d1.clients == d.clients && i < |d1.shells| && Linked(d1, i)
    ensures Balanced(Finish(d1, i, status))
  {
  }

  lemma DisplayBalance(d: Daemon, i: nat, rc: RecvCode, data: string, kept: string, sendOk: bool, submitOk: bool)
    requires Balanced(d) && i < |d.shells| && Linked(d, i) && d.shells[i].state == WaitEoc
    ensures Balanced(DisplayData(d, i, rc, data, kept, sendOk, submitOk))
  {
    var c := d.shells[i].client.value;
    var r := ReadDisplay(rc, data, sendOk);
    var d1 := d.(shells := d.shells[i := d.shells[i].(kept := kept)]);
    var d2 := if r.text.Some? then Do(d1, Display(c, r.text.value, sendOk)) else d1;
    if r.text.Some? {
      SayBalance(d1, Display(c, r.text.value, sendOk));
    }
    match r.code {
      case PromptSeen =>
        var d3 := Do(d2, StatusRequest(c, i, submitOk));
        SayBalance(d2, StatusRequest(c, i, submitOk));
        if submitOk {
          SameBalanced(d, SetState(d3, i, WaitStatus));
        } else {
          FinishBalance(d, d3, i, -1);
        }
      case MoreToCome => SameBalanced(d, d2);
      case ReadError => FinishBalance(d, d2, i, -1);
      case Crash => SameBalanced(d, d2.(crashed := true));
    }
  }

  lemma SameBalanced(d: Daemon, d': Daemon)
    requires Balanced(d) && SameBalance(d, d') && d'.clients == d.clients
    ensures Balanced(d')
  {
  }

  lemma StatusBalance(d: Daemon, i: nat, rc: RecvCode, data: string, kept: string)
    requires Balanced(d) && i < |d.shells| && Linked(d, i) && d.shells[i].state == WaitStatus
    ensures Balanced(StatusData(d, i, rc, data, kept))
  {
    var r := ReadStatus(rc, data, d.shells[i].status);
    var d1 := d.(shells := d.shells[i := d.shells[i].(kept := kept, status := r.status)]);
    match r.code {
      case PromptSeen => FinishBalance(d, d1, i, r.status);
      case MoreToCome => SameBalanced(d, d1);
      case ReadError => FinishBalance(d, d1, i, -1);
      case Crash => SameBalanced(d, d1.(crashed := true));
    }
  }

  lemma DataBalance(d: Daemon, i: nat, e: FsmEvent)
    requires Balanced(d) && FsmReady(d, i, e) && e.EvtData?
    ensures Balanced(Fsm(d, i, e))
  {
    match d.shells[i].state {
      case WaitEoc => DisplayBalance(d, i, e.rc, e.data, e.kept, e.sendOk, e.submitOk);
      case WaitStatus => StatusBalance(d, i, e.rc, e.data, e.kept);
      case _ => SameBalanced(d, Fsm(d, i, e));
    }
  }

  lemma CommandBalance(d: Daemon, d': Daemon, c: nat, i: nat, ok: bool)
    requires Balanced(d) && c in d.clients && d.clients[c].shell == None && d'.next == d.next
    requires ok ==> d'.clients == d.clients[c := d.clients[c].(shell := Some(i))] && d'.log == d.log + [Command(c, i, true)]
    requires !ok ==> d'.clients == d.clients && d'.log == d.log + [Command(c, i, false)] + [Eoc(c, -1)]
    ensures Balanced(d')
  {
    forall x: nat ensures BalanceOk(d', x, Balance(d'.log, x)) {
      assert BalanceOk(d, x, Balance(d.log, x));
      BalanceAct(d.log, Command(c, i, ok), x);
      BalanceAct(d.log + [Command(c, i, false)], Eoc(c, -1), x);
    }
  }

  lemma LeaveBalance(d: Daemon, d': Daemon, c: nat)
    requires Balanced(d) && Inv(d) && c in d.clients && d'.clients == d.clients - {c} && d'.log == d.log && d'.next == d.next
    ensures Balanced(d')
  {
  }

  lemma ClientBalance(d: Daemon, c: nat, command: bool, ok: bool)
    requires Inv(d) && Balanced(d) && c in d.clients
    ensures Balanced(ServeClient(d, c, command, ok))
  {
    var d' := ServeClient(d, c, command, ok);
    match d.clients[c].shell {
      case Some(i) =>
        if command {
          ServeSecondCommand(d, c, ok);
        } else {
          assert ClientLinked(d.shells, d.clients, c);
          ServeLeaveBusy(d, c, i, ok);
          LeaveBalance(d, d', c);
        }
      case None =>
        if !command {
          ServeLeave(d, c, ok);
          LeaveBalance(d, d', c);
        } else {
          ServeCommand(d, c, ok);
          match FirstFree(d.shells, 0) {
            case None =>
              SayBalance(d, Busy(c));
              SameBalanced(d, d');
            case Some(i) => CommandBalance(d, d', c, i, ok);
          }
        }
    }
  }

  lemma StepBalance(d: Daemon, e: Event)
    requires Inv(d) && Balanced(d) && Legal(d, e)
    ensures Balanced(Step(d, e))
  {
    match e {
      case Accept(sd) =>
        forall x: nat ensures BalanceOk(Step(d, e), x, Balance(d.log, x)) { assert BalanceOk(d, x, Balance(d.log, x)); }
      case AcceptOom(sd) =>
        SayBalance(d, Oom(sd));
        SameBalanced(d, Step(d, e));
      case ShellReady(i, evs, sendOk, submitOk) =>
        var o := Received(d, i, evs);
        assert ShellLinked(d.shells, d.clients, i);
        DataBalance(d, i, EvtData(o.rc, o.data, o.kept, sendOk, submitOk));
      case ClientReady(c, command, submitOk) => ClientBalance(d, c, command, submitOk);
    }
  }

  /**
   Reply conservation over every run, failures included: each command that a shell has taken from a
   client has given exactly one EOC to this client, unless it is in flight or the client has gone.
   */
  lemma {:induction false} RepliesConserved(d: Daemon, es: seq<Event>)
    requires Start(d) && LegalRun(d, es)
    ensures Inv(Steps(d, es))
    ensures forall c: nat :: BalanceOk(Steps(d, es), c, Balance(Steps(d, es).log, c))
  {
    RunKeepsInv(d, es);
    if es != [] {
      var before := es[..|es| - 1];
      RunKeepsInv(d, before);
      RepliesConserved(d, before);
      StepBalance(Steps(d, before), es[|es| - 1]);
    }
  }

  // ------------------------------------------------------------------ one iteration of the loop

  datatype ShellInput = ShellInput(evs: seq<ReadEvent>, sendOk: bool, submitOk: bool)
  datatype ClientInput = ClientInput(command: bool, submitOk: bool)

  /** The event of the listening socket, when it is ready. */
  function AcceptEvents(ready: bool, sd: nat, memory: bool): seq<Event> {
    if !ready then [] else if memory then [Accept(sd)] else [AcceptOom(sd)]
  }

  /** The events of the ready ones among the first `n` shells, in their order. */
  function ShellEvents(fds: seq<nat>, n: nat, ready: set<int>, ins: nat -> ShellInput): seq<Event>
    requires n <= |fds|
  {
    if n == 0 then []
    else
      var x := ins(n - 1);
      ShellEvents(fds, n - 1, ready, ins)
      + if fds[n - 1] in ready then [ShellReady(n - 1, x.evs, x.sendOk, x.submitOk)] else []
  }

  /** The events of the ready clients, in the order of the list. */
  function ClientEvents(ids: seq<nat>, clients: map<nat, Client>, ready: set<int>, ins: nat -> ClientInput): seq<Event> {
    if ids == [] then []
    else
      var c := ids[|ids| - 1];
      ClientEvents(ids[..|ids| - 1], clients, ready, ins)
      + if c in clients && clients[c].sd in ready then [ClientReady(c, ins(c).command, ins(c).submitOk)] else []
  }

  lemma {:induction false} NoMoreShells(fds: seq<nat>, n: nat, m: nat, ready: set<int>, ins: nat -> ShellInput)
    requires n <= m <= |fds| && forall j :: n <= j < m ==> fds[j] !in ready
    ensures ShellEvents(fds, m, ready, ins) == ShellEvents(fds, n, ready, ins)
  {
    if n < m {
      NoMoreShells(fds, n, m - 1, ready, ins);
    }
  }

  lemma {:induction false} NoMoreClients(
    ids: seq<nat>, n: nat, m: nat, clients: map<nat, Client>, ready: set<int>, ins: nat -> ClientInput)
    requires n <= m <= |ids| && forall j :: n <= j < m ==> ids[j] in clients && clients[ids[j]].sd !in ready
    ensures ClientEvents(ids[..m], clients, ready, ins) == ClientEvents(ids[..n], clients, ready, ins)
  {
    if n < m {
      assert ids[..m][..m - 1] == ids[..m - 1];
      NoMoreClients(ids, n, m - 1, clients, ready, ins);
    }
  }

  /** Only the sockets of the clients matter. */
  lemma {:induction false} SameSockets(
    ids: seq<nat>, a: map<nat, Client>, b: map<nat, Client>, ready: set<int>, ins: nat -> ClientInput)
    requires forall c :: c in ids ==> c in a && c in b && a[c].sd == b[c].sd
    ensures ClientEvents(ids, b, ready, ins) == ClientEvents(ids, a, ready, ins)
  {
    if ids != [] {
      SameSockets(ids[..|ids| - 1], a, b, ready, ins);
    }
  }

  /** A client accepted in this iteration is not among the ready ones. */
  lemma {:induction false} NewcomerNotMet(
    n: nat, ids: seq<nat>, a: map<nat, Client>, b: map<nat, Client>, ready: set<int>, ins: nat -> ClientInput)
    requires n in b && b[n].sd !in ready
    requires forall c :: c in ids ==> c in a && c in b && a[c].sd == b[c].sd
    ensures ClientEvents([n] + ids, b, ready, ins) == ClientEvents(ids, a, ready, ins)
  {
    var m := |ids|;
    assert ([n] + ids)[|[n] + ids| - 1] == if m == 0 then n else ids[m - 1];
    if m == 0 {
      assert ([n] + ids)[..0] == ids;
    } else {
      NewcomerNotMet(n, ids[..m - 1], a, b, ready, ins);
      assert ([n] + ids)[..m] == [n] + ids[..m - 1];
    }
  }

  /** A run behind a run. */
  lemma {:induction false} RunsJoin(d: Daemon, es: seq<Event>, fs: seq<Event>)
    requires Inv(d) && LegalRun(d, es) && LegalRun(Steps(d, es), fs)
    ensures LegalRun(d, es + fs) && Steps(d, es + fs) == Steps(Steps(d, es), fs)
  {
    hide Inv, Legal, Step;
    RunKeepsInv(d, es);
    if fs == [] {
      Empty(es);
    } else {
      var n := |fs| - 1;
      RunsJoin(d, es, fs[..n]);
      StepsAfter(d, es + fs[..n], fs[n]);
      RunKeepsInv(Steps(d, es), fs[..n]);
      assert fs == fs[..n] + [fs[n]];
      assert es + fs == (es + fs[..n]) + [fs[n]];
    }
  }

  /** The treatment of a client leaves the sockets of the others, and at most takes it out of the list. */
  lemma ServeClientFrame(d: Daemon, c: nat, command: bool, submitOk: bool)
    requires Inv(d) && c in d.clients
    ensures var d' := ServeClient(d, c, command, submitOk);
            && d'.list == (if c in d'.clients then d.list else Remove(d.list, c))
            && forall x :: x in d.clients && x != c ==> x in d'.clients && d'.clients[x].sd == d.clients[x].sd
  {
    LinkKeepsReady(d, c);
    TryLinkLinks(d, c);
    MessageLinks(TryLink(d, c), c, command, submitOk);
    hide Inv, Links, Registered, TryLink, ClientMessage, FsmReady;
  }
}
