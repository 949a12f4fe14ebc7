/**
 The remote shell daemon as a function on values: shells, clients, the five-state machine of a shell
 and the steps of the select loop. Module Server proves that the code over its linked records
 computes these functions.
 */
module DaemonSpec {
  import opened Bytes
  import opened StreamSpec
  import opened Framing
  import opened Decimal

  /** The prompt given to the shells through PS1. */
  const PROMPT: string := "RSYSD_PDIP> "

  // ------------------------------------------------------------------ reading from a shell

  /** PDIP_RECV_FOUND, PDIP_RECV_DATA, -1; Crash is a failed assert() or a read outside of the display. */
  datatype ReadCode = PromptSeen | MoreToCome | ReadError | Crash

  /** Result of rsysd_read_shell_display(): its return code and the text put in a DISPLAY message. */
  datatype DisplayRead = DisplayRead(code: ReadCode, text: Option<string>)

  function ReadDisplay(rc: RecvCode, data: string, sendOk: bool): DisplayRead {
    match rc
    case Found =>
      if |data| < |PROMPT| then DisplayRead(ReadError, None)
      else
        var n := |data| - |PROMPT|;
        if n == 0 then DisplayRead(PromptSeen, None)
        else if data[n - 1] != '\n' then DisplayRead(ReadError, None)
        else DisplayRead(if sendOk then PromptSeen else ReadError, Some(data[..n]))
    case Data =>
      if data == "" then DisplayRead(MoreToCome, None)
      else DisplayRead(if sendOk then MoreToCome else ReadError, Some(data))
    case Abort => DisplayRead(Crash, None)
    case _ => DisplayRead(ReadError, None)
  }

  /** Result of rsysd_read_shell_status(): its return code and the status of the shell context. */
  datatype StatusRead = StatusRead(code: ReadCode, status: int)

  function ReadStatus(rc: RecvCode, data: string, status: int): StatusRead {
    match rc
    case Found =>
      if |data| > |PROMPT| + 1 then
        var n := |data| - (|PROMPT| + 1);
        if data[n] != '\n' then StatusRead(ReadError, status) else StatusRead(PromptSeen, Atoi(data[..n]))
      else if |data| == |PROMPT| then StatusRead(PromptSeen, status)
      else StatusRead(Crash, status)
    case Data =>
      if data == "" then StatusRead(Crash, status)
      else if data[|data| - 1] != '\n' then StatusRead(ReadError, status)
      else StatusRead(MoreToCome, Atoi(data[..|data| - 1]))
    case Abort => StatusRead(Crash, status)
    case _ => StatusRead(ReadError, status)
  }

  /** Return code of rsysd_flush_shell_display(). */
  function ReadFlush(rc: RecvCode): ReadCode {
    match rc
    case Found => PromptSeen
    case Data => MoreToCome
    case Abort => Crash
    case _ => ReadError
  }

  // ------------------------------------------------------------------ state of the daemon

  datatype ShellState = Free | Allocated | WaitEoc | WaitStatus | Freeing

  /** A shell context: `client` is the pointer to the client (a client number), `kept` the outstanding
      data of its PDIP object. */
  datatype Shell = Shell(state: ShellState, client: Option<nat>, status: int, kept: string)

  /** A client context: `shell` is the pointer to the shell (its index). */
  datatype Client = Client(live: bool, sd: nat, shell: Option<nat>)

  /** What the daemon does to the outside: messages to clients, lines submitted to shells. */
  datatype Act =
    | Display(client: nat, text: string, sent: bool)
    | Eoc(client: nat, status: int)
    | Busy(client: nat)
    | Oom(sd: nat)
    | Command(client: nat, shell: nat, ok: bool)
    | StatusRequest(client: nat, shell: nat, ok: bool)

  /** Clients are numbered in their order of arrival; `list` is the linked list, from its head. */
  datatype Daemon = Daemon(
    shells: seq<Shell>, clients: map<nat, Client>, list: seq<nat>, next: nat, log: seq<Act>, crashed: bool)

  /** A shell is running something for a client. */
  predicate InUse(s: ShellState) {
    s == Allocated || s == WaitEoc || s == WaitStatus
  }

  /** The pointers that the code follows when the shell is in a busy state. */
  predicate Linked(d: Daemon, i: nat)
    requires i < |d.shells|
  {
    var c := d.shells[i].client;
    c.Some? && c.value in d.clients && d.clients[c.value].live && d.clients[c.value].shell == Some(i)
  }

  function Do(d: Daemon, a: Act): Daemon {
    d.(log := d.log + [a])
  }

  function SetState(d: Daemon, i: nat, s: ShellState): Daemon
    requires i < |d.shells|
  {
    d.(shells := d.shells[i := d.shells[i].(state := s)])
  }

  /** rsysd_delete_client() on the client of the shell, whose pointer is then reset. */
  function DeleteLinked(d: Daemon, i: nat): Daemon
    requires i < |d.shells| && Linked(d, i)
  {
    var c := d.shells[i].client.value;
    d.(clients := d.clients[c := d.clients[c].(live := false, shell := None)],
       shells := d.shells[i := d.shells[i].(client := None)])
  }

  /** rsysd_unlink_client() */
  function Unlink(d: Daemon, i: nat): Daemon
    requires i < |d.shells| && Linked(d, i)
  {
    var c := d.shells[i].client.value;
    d.(clients := d.clients[c := d.clients[c].(shell := None)],
       shells := d.shells[i := d.shells[i].(client := None)])
  }

  /** The end of a command: EOC to the client, then the client and the shell part. */
  function Finish(d: Daemon, i: nat, status: int): Daemon
    requires i < |d.shells| && Linked(d, i)
  {
    SetState(Unlink(Do(d, Eoc(d.shells[i].client.value, status)), i), i, Free)
  }

  // ------------------------------------------------------------------ the state machine

  datatype FsmEvent =
    | EvtLink(client: nat)
    | EvtCmd(submitOk: bool)
    | EvtData(rc: RecvCode, data: string, kept: string, sendOk: bool, submitOk: bool)
    | EvtDcnx

  predicate FsmReady(d: Daemon, i: nat, e: FsmEvent) {
    && i < |d.shells|
    && (InUse(d.shells[i].state) ==> Linked(d, i))
    && (e.EvtLink? ==> e.client in d.clients && d.clients[e.client].live && d.clients[e.client].shell == None)
  }

  /** RSYSD_EVT_LINK: the shell and the client are linked. */
  function LinkEvent(d: Daemon, i: nat, c: nat): Daemon
    requires FsmReady(d, i, EvtLink(c))
  {
    match d.shells[i].state
    case Free =>
      d.(shells := d.shells[i := d.shells[i].(state := Allocated, client := Some(c))],
         clients := d.clients[c := d.clients[c].(shell := Some(i))])
    case _ => d
  }

  /** RSYSD_EVT_CMD: the command is submitted to the shell. */
  function CommandEvent(d: Daemon, i: nat, ok: bool): Daemon
    requires FsmReady(d, i, EvtCmd(ok))
  {
    match d.shells[i].state
    case Allocated =>
      var d' := Do(d, Command(d.shells[i].client.value, i, ok));
      if ok then SetState(d', i, WaitEoc) else Finish(d', i, -1)
    case _ => d
  }

  /** RSYSD_EVT_CLIENT_DCNX: the client has gone. */
  function LeaveEvent(d: Daemon, i: nat): Daemon
    requires FsmReady(d, i, EvtDcnx)
  {
    match d.shells[i].state
    case Allocated => SetState(DeleteLinked(d, i), i, Free)
    case WaitEoc => SetState(DeleteLinked(d, i), i, Freeing)
    case WaitStatus => SetState(DeleteLinked(d, i), i, Freeing)
    case _ => d
  }

  /** RSYSD_EVT_DATA: the shell has been read. */
  function DataEvent(d: Daemon, i: nat, rc: RecvCode, data: string, kept: string, sendOk: bool, submitOk: bool): Daemon
    requires FsmReady(d, i, EvtDcnx)
  {
    match d.shells[i].state
    case WaitEoc => DisplayData(d, i, rc, data, kept, sendOk, submitOk)
    case WaitStatus => StatusData(d, i, rc, data, kept)
    case Freeing =>
      var d' := d.(shells := d.shells[i := d.shells[i].(kept := kept)]);
      (match ReadFlush(rc)
       case PromptSeen => SetState(d', i, Free)
       case MoreToCome => d'
       case ReadError => SetState(d', i, Free)
       case Crash => d'.(crashed := true))
    case _ => d
  }

  /** rsysd_shell_fsm(), event by event; an event unexpected in the state of the shell changes nothing. */
  function Fsm(d: Daemon, i: nat, e: FsmEvent): Daemon
    requires FsmReady(d, i, e)
  {
    match e
    case EvtLink(c) => LinkEvent(d, i, c)
    case EvtCmd(ok) => CommandEvent(d, i, ok)
    case EvtData(rc, data, kept, sendOk, submitOk) => DataEvent(d, i, rc, data, kept, sendOk, submitOk)
    case EvtDcnx => LeaveEvent(d, i)
  }

  /** Data from the shell in state WAIT_EOC. */
  function DisplayData(d: Daemon, i: nat, rc: RecvCode, data: string, kept: string, sendOk: bool, submitOk: bool): Daemon
    requires i < |d.shells| && Linked(d, i)
  {
    var c := d.shells[i].client.value;
    var r := ReadDisplay(rc, data, sendOk);
    var d1 := d.(shells := d.shells[i := d.shells[i].(kept := kept)]);
    var d2 := if r.text.Some? then Do(d1, Display(c, r.text.value, sendOk)) else d1;
    match r.code
    case PromptSeen =>
      var d3 := Do(d2, StatusRequest(c, i, submitOk));
      if submitOk then SetState(d3, i, WaitStatus) else Finish(d3, i, -1)
    case MoreToCome => d2
    case ReadError => Finish(d2, i, -1)
    case Crash => d2.(crashed := true)
  }

  /** Data from the shell in state WAIT_STATUS. */
  function StatusData(d: Daemon, i: nat, rc: RecvCode, data: string, kept: string): Daemon
    requires i < |d.shells| && Linked(d, i)
  {
    var r := ReadStatus(rc, data, d.shells[i].status);
    var d1 := d.(shells := d.shells[i := d.shells[i].(kept := kept, status := r.status)]);
    match r.code
    case PromptSeen => Finish(d1, i, r.status)
    case MoreToCome => d1
    case ReadError => Finish(d1, i, -1)
    case Crash => d1.(crashed := true)
  }

  function Store(d: Daemon, i: nat, kept: string): Daemon
    requires i < |d.shells|
  {
    d.(shells := d.shells[i := d.shells[i].(kept := kept)])
  }

  // What a data event does, by state and result of the reception.

  lemma FsmDisplayMore(d: Daemon, i: nat, e: FsmEvent)
    requires FsmReady(d, i, e) && e.EvtData? && d.shells[i].state == WaitEoc
    requires ReadDisplay(e.rc, e.data, e.sendOk) == DisplayRead(MoreToCome, Some(e.data))
    ensures Fsm(d, i, e) == Do(Store(d, i, e.kept), Display(d.shells[i].client.value, e.data, e.sendOk))
  {
  }

  /** When the message to the client fails the shell is free, even if its command goes on. */
  lemma FsmDisplayLost(d: Daemon, i: nat, e: FsmEvent)
    requires FsmReady(d, i, e) && e.EvtData? && d.shells[i].state == WaitEoc
    requires ReadDisplay(e.rc, e.data, e.sendOk).code != Crash
    ensures var d' := Fsm(d, i, e);
            && |d'.shells| == |d.shells| && d'.shells[i].kept == e.kept
            && (ReadDisplay(e.rc, e.data, e.sendOk).code == ReadError ==> d'.shells[i].state == Free)
  {
    hide ReadDisplay;
  }

  /** When the message with the end of the output fails the client is told -1. */
  lemma FsmDisplayNotSent(d: Daemon, i: nat, e: FsmEvent, text: string, d1: Daemon)
    requires FsmReady(d, i, e) && e.EvtData? && d.shells[i].state == WaitEoc
    requires ReadDisplay(e.rc, e.data, e.sendOk) == DisplayRead(ReadError, Some(text))
    requires d1 == Do(Store(d, i, e.kept), Display(d.shells[i].client.value, text, e.sendOk))
    ensures Linked(d1, i) && Fsm(d, i, e) == Finish(d1, i, -1)
  {
  }

  lemma FsmDisplayEnd(d: Daemon, i: nat, e: FsmEvent, text: Option<string>, d1: Daemon)
    requires FsmReady(d, i, e) && e.EvtData? && d.shells[i].state == WaitEoc
    requires ReadDisplay(e.rc, e.data, e.sendOk) == DisplayRead(PromptSeen, text)
    requires var c := d.shells[i].client.value;
             d1 == Do(if text.Some? then Do(Store(d, i, e.kept), Display(c, text.value, e.sendOk)) else Store(d, i, e.kept),
                      StatusRequest(c, i, e.submitOk))
    ensures Linked(d1, i) && Fsm(d, i, e) == if e.submitOk then SetState(d1, i, WaitStatus) else Finish(d1, i, -1)
  {
  }

  lemma FsmAsked(d: Daemon, i: nat, e: FsmEvent)
    requires FsmReady(d, i, e) && e.EvtData? && d.shells[i].state == WaitEoc && e.submitOk
    requires ReadDisplay(e.rc, e.data, e.sendOk).code == PromptSeen
    ensures |Fsm(d, i, e).shells| == |d.shells| && Fsm(d, i, e).shells[i].state == WaitStatus
  {
  }

  lemma FsmStatus(d: Daemon, i: nat, e: FsmEvent, code: int, d1: Daemon)
    requires FsmReady(d, i, e) && e.EvtData? && d.shells[i].state == WaitStatus
    requires ReadStatus(e.rc, e.data, d.shells[i].status) == StatusRead(if e.rc == Found then PromptSeen else MoreToCome, code)
    requires d1 == d.(shells := d.shells[i := d.shells[i].(kept := e.kept, status := code)])
    ensures Linked(d1, i) && Fsm(d, i, e) == if e.rc == Found then Finish(d1, i, code) else d1
  {
  }

  lemma FsmFlush(d: Daemon, i: nat, e: FsmEvent)
    requires FsmReady(d, i, e) && e.EvtData? && d.shells[i].state == Freeing && (e.rc == Found || e.rc == Data)
    ensures Fsm(d, i, e) ==
            d.(shells := d.shells[i := d.shells[i].(kept := e.kept, state := if e.rc == Found then Free else Freeing)])
  {
  }

  // ------------------------------------------------------------------ steps of the select loop

  /** Index of the first FREE shell (rsysd_get_shell()). */
  function FirstFree(shells: seq<Shell>, from: nat): (r: Option<nat>)
    requires from <= |shells|
    ensures r.Some? ==> from <= r.value < |shells| && shells[r.value].state == Free
    ensures forall j :: from <= j < |shells| && (r.Some? ==> j < r.value) ==> shells[j].state != Free
    decreases |shells| - from
  {
    if from == |shells| then None
    else if shells[from].state == Free then Some(from)
    else FirstFree(shells, from + 1)
  }

  datatype Event =
    | Accept(sd: nat)                 // a connection, a context is allocated
    | AcceptOom(sd: nat)              // a connection, no memory for a context
    | ShellReady(shell: nat, evs: seq<ReadEvent>, sendOk: bool, submitOk: bool)
    | ClientReady(client: nat, command: bool, submitOk: bool)   // a command, or else an error or the end

  /** rsysd_new_client(): the new context is put at the head of the list. */
  function NewClient(d: Daemon, sd: nat): Daemon {
    d.(clients := d.clients[d.next := Client(true, sd, None)], list := [d.next] + d.list, next := d.next + 1)
  }

  function Remove(s: seq<nat>, c: nat): seq<nat> {
    if s == [] then [] else if s[0] == c then s[1..] else [s[0]] + Remove(s[1..], c)
  }

  /** rsysd_free_client() */
  function FreeClient(d: Daemon, c: nat): Daemon {
    d.(clients := d.clients - {c}, list := Remove(d.list, c))
  }

  /** A client without shell gets the first free one. */
  function TryLink(d: Daemon, c: nat): Daemon
    requires c in d.clients && d.clients[c].live
  {
    var s := FirstFree(d.shells, 0);
    if d.clients[c].shell == None && s.Some? then LinkEvent(d, s.value, c) else d
  }

  /** The message of a client, once linked if it can be. */
  function ClientMessage(d: Daemon, c: nat, command: bool, submitOk: bool): Daemon
    requires c in d.clients && d.clients[c].live
    requires d.clients[c].shell.Some? ==> FsmReady(d, d.clients[c].shell.value, EvtDcnx)
  {
    match d.clients[c].shell
    case Some(i) => if command then CommandEvent(d, i, submitOk) else LeaveEvent(d, i)
    case None =>
      if command then Do(d, Busy(c)) else d.(clients := d.clients[c := d.clients[c].(live := false, shell := None)])
  }

  /** The whole treatment of a ready client by the select loop. */
  function ServeClient(d: Daemon, c: nat, command: bool, submitOk: bool): Daemon
    requires Inv(d) && c in d.clients
  {
    LinkKeepsReady(d, c);
    var d' := ClientMessage(TryLink(d, c), c, command, submitOk);
    if c in d'.clients && !d'.clients[c].live then FreeClient(d', c) else d'
  }

  /** A reception that has returned. */
  function Received(d: Daemon, i: nat, evs: seq<ReadEvent>): Outcome
    requires i < |d.shells|
  {
    Receive(PROMPT, d.shells[i].kept, evs)
  }

  /** The data event of a shell; a FREE shell is not read. */
  function ServeShell(d: Daemon, i: nat, evs: seq<ReadEvent>, sendOk: bool, submitOk: bool): Daemon
    requires Inv(d) && i < |d.shells| && Received(d, i, evs).Done?
  {
    var o := Received(d, i, evs);
    assert ShellLinked(d.shells, d.clients, i);
    Fsm(d, i, EvtData(o.rc, o.data, o.kept, sendOk, submitOk))
  }

  /** What the outside can do: sockets of new connections are new, a reception uses all its reads. */
  ghost predicate Legal(d: Daemon, e: Event) {
    match e
    case Accept(sd) => forall c :: c in d.clients ==> d.clients[c].sd != sd
    case AcceptOom(_) => true
    case ShellReady(i, evs, _, _) =>
      i < |d.shells| && Received(d, i, evs).Done? && Received(d, i, evs).rest == []
    case ClientReady(c, _, _) => c in d.clients
  }

  function Step(d: Daemon, e: Event): Daemon
    requires Inv(d) && Legal(d, e)
  {
    match e
    case Accept(sd) => NewClient(d, sd)
    case AcceptOom(sd) => Do(d, Oom(sd))
    case ShellReady(i, evs, sendOk, submitOk) => ServeShell(d, i, evs, sendOk, submitOk)
    case ClientReady(c, command, submitOk) => ServeClient(d, c, command, submitOk)
  }

  // ------------------------------------------------------------------ the global link invariant

  /** A shell in use and its client point at each other, and the client is allocated. */
  ghost predicate ShellLinked(shells: seq<Shell>, clients: map<nat, Client>, i: nat)
    requires i < |shells|
  {
    InUse(shells[i].state) ==>
      var c := shells[i].client;
      c.Some? && c.value in clients && clients[c.value].live && clients[c.value].shell == Some(i)
  }

  /** A client that points at a shell is the one that this shell in use points at. */
  ghost predicate ClientLinked(shells: seq<Shell>, clients: map<nat, Client>, c: nat)
    requires c in clients
  {
    match clients[c].shell
    case None => true
    case Some(i) => i < |shells| && InUse(shells[i].state) && shells[i].client == Some(c)
  }

  ghost predicate Links(shells: seq<Shell>, clients: map<nat, Client>) {
    && (forall i :: 0 <= i < |shells| ==> ShellLinked(shells, clients, i))
    && (forall c :: c in clients ==> ClientLinked(shells, clients, c))
  }

  predicate NoDup(s: seq<nat>) {
    forall i, j :: 0 <= i < j < |s| ==> s[i] != s[j]
  }

  /** The list holds each client once; clients have different sockets. */
  ghost predicate Registered(clients: map<nat, Client>, list: seq<nat>, next: nat) {
    && NoDup(list) && (forall c :: c in list <==> c in clients)
    && (forall c :: c in clients ==> c < next)
    && (forall a, b :: a in clients && b in clients && a != b ==> clients[a].sd != clients[b].sd)
  }

  predicate NoneAllocated(shells: seq<Shell>) {
    forall i :: 0 <= i < |shells| ==> shells[i].state != Allocated
  }

  predicate AllLive(clients: map<nat, Client>) {
    forall c :: c in clients ==> clients[c].live
  }

  /** At every head of the select loop, and between two steps of an iteration. */
  ghost predicate Inv(d: Daemon) {
    Links(d.shells, d.clients) && Registered(d.clients, d.list, d.next) && NoneAllocated(d.shells) && AllLive(d.clients)
  }

  lemma LinkKeepsReady(d: Daemon, c: nat)
    requires Inv(d) && c in d.clients
    ensures var d' := TryLink(d, c);
            c in d'.clients && d'.clients[c].live
            && (d'.clients[c].shell.Some? ==> FsmReady(d', d'.clients[c].shell.value, EvtDcnx))
  {
  }
}
