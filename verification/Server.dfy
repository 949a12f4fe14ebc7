/**
 The daemon over its records: shell and client contexts that point at each other, the doubly linked
 list of the clients, the set of file descriptors. The ghost field `model` is the state of
 DaemonSpec; every method is proved to make it follow the functions of that module.
 */
module Server {
  import opened Bytes
  import opened StreamSpec
  import opened Framing
  import opened DaemonSpec
  import opened DaemonRuns
  import opened FdSets
  import opened Lists

  /** rsysd_shell_t */
  class ShellCtx {
    const fd: nat
    var state: ShellState
    var status: int
    var kept: string
    var client: ClientCtx?

    constructor (fd: nat)
      ensures this.fd == fd && state == Free && status == -1 && kept == "" && client == null
    {
      this.fd := fd;
      state, status, kept, client := Free, -1, "", null;
    }
  }

  /** rsysd_client_t, with the number of the client in the order of arrival. */
  class ClientCtx {
    const id: nat
    var live: bool
    var sd: int
    var shell: ShellCtx?
    var prev: ClientCtx?
    var next: ClientCtx?

    constructor (id: nat, sd: int)
      ensures this.id == id && this.sd == sd && live && shell == null && prev == null && next == null
    {
      this.id, this.sd := id, sd;
      live, shell, prev, next := true, null, null, null;
    }
  }

  class Server {
    const listenFd: nat
    const shells: seq<ShellCtx>
    var clients: ClientCtx?
    var nbClients: nat
    const main: FdSet        // rsysd_fdset and rsysd_fd_max
    var accepted: nat        // number of connections so far, which numbers the clients
    ghost var list: seq<ClientCtx>
    ghost var model: Daemon

    /** The daemon before its loop: the listening socket and the shells are in the set. */
    constructor (listenFd: nat, shells: seq<ShellCtx>)
      requires forall i, j :: 0 <= i < j < |shells| ==> shells[i].fd != shells[j].fd
      requires forall s :: s in shells ==>
                 s.state == Free && s.client == null && s.kept == "" && s.fd != listenFd
      ensures this.listenFd == listenFd && this.shells == shells && list == []
      ensures fresh(main) && Valid() && Start(model)
    {
      this.listenFd, this.shells := listenFd, shells;
      clients, nbClients, accepted := null, 0, 0;
      main := new FdSet();
      list := [];
      model := Daemon(seq(|shells|, i requires 0 <= i < |shells| reads shells =>
                        Shell(shells[i].state, None, shells[i].status, shells[i].kept)), map[], [], 0, [], false);
      new;
      StartIsRight(model);
      hide Inv, NoStale, Start;
      main.Add(listenFd);
      AddShells();
    }

    /** The file descriptors of the shells join the listening socket in the set. */
    method AddShells()
      requires main.fds == {listenFd as int} && main.max == listenFd
      modifies main
      ensures main.fds == {listenFd as int} + ShellFds() && IsMaximum(main.fds, main.max)
    {
      var i := 0;
      while i < |shells|
        invariant i <= |shells|
        invariant main.fds == {listenFd as int} + (set s | s in shells[..i] :: s.fd as int)
        invariant IsMaximum(main.fds, main.max)
      {
        assert shells[..i + 1] == shells[..i] + [shells[i]];
        main.Add(shells[i].fd);
        i := i + 1;
      }
      assert shells[..|shells|] == shells;
    }

    // ---------------------------------------------------------------- representation

    ghost function ShellFds(): set<int> {
      set s | s in shells :: s.fd as int
    }

    ghost function ClientFds(): set<int>
      reads this`list, list`sd
    {
      set c | c in list :: c.sd
    }

    /** The main set is the disjoint union of the listening socket, the shells and the sockets of the
        listed clients; its maximum is exact. */
    ghost predicate FdsOk()
      reads this`list, list`sd, main
    {
      FdsFor(ClientFds())
    }

    ghost predicate FdsFor(sockets: set<int>)
      reads main
    {
      && main.fds == {listenFd as int} + ShellFds() + sockets
      && listenFd !in ShellFds() && listenFd !in sockets && ShellFds() !! sockets
      && (forall i, j :: 0 <= i < j < |shells| ==> shells[i].fd != shells[j].fd)
      && (forall x :: x in main.fds ==> 0 <= x)
      && IsMaximum(main.fds, main.max)
    }

    /** The shell context is the one of the model. */
    ghost predicate ShellTied(i: nat)
      requires i < |shells| == |model.shells|
      reads this`model, this`list, shells
    {
      var s, m := shells[i], model.shells[i];
      && s.state == m.state && s.status == m.status && s.kept == m.kept
      && (s.client == null <==> m.client == None)
      && (s.client != null ==> s.client in list && m.client == Some(s.client.id))
    }

    /** The client context is the one of the model. */
    ghost predicate ClientTied(c: ClientCtx)
      reads this`model, c`live, c`sd, c`shell
    {
      c.id in model.clients &&
      var m := model.clients[c.id];
      && c.live == m.live && c.sd == m.sd as int
      && (c.shell == null <==> m.shell == None)
      && (m.shell.Some? ==> m.shell.value < |shells| && c.shell == shells[m.shell.value])
    }

    ghost predicate Tied()
      reads this`model, this`list, shells, list`live, list`sd, list`shell
    {
      && |model.shells| == |shells|
      && (forall i, j :: 0 <= i < j < |shells| ==> shells[i] != shells[j])
      && (forall k, l :: 0 <= k < l < |list| ==> list[k].id != list[l].id)
      && (forall i :: 0 <= i < |shells| ==> ShellTied(i))
      && (forall c :: c in list ==> ClientTied(c))
    }

    lemma TiedClient(c: ClientCtx)
      requires Tied() && c in list
      ensures ClientTied(c)
    {
    }

    lemma TiedShell(i: nat)
      requires Tied() && i < |shells|
      ensures |shells| == |model.shells| && ShellTied(i)
    {
    }

    // ---------------------------------------------------------------- elementary steps

    /** The effect of an action on the outside is kept in the log of the model. */
    ghost method Say(a: Act)
      requires Tied()
      modifies this`model
      ensures Tied() && model == Do(old(model), a)
    {
      model := Do(model, a);
      forall j | 0 <= j < |shells| ensures ShellTied(j) { assert old(ShellTied(j)); }
      forall x | x in list ensures ClientTied(x) { assert old(ClientTied(x)); }
    }

    method SetShellState(s: ShellCtx, ghost i: nat, state: ShellState)
      requires Tied() && i < |shells| && shells[i] == s
      modifies this`model, s`state
      ensures Tied() && model == SetState(old(model), i, state)
    {
      s.state := state;
      model := SetState(model, i, state);
      forall j | 0 <= j < |shells| ensures ShellTied(j) { assert old(ShellTied(j)); }
      forall x | x in list ensures ClientTied(x) { assert old(ClientTied(x)); }
    }

    method StoreRead(s: ShellCtx, ghost i: nat, kept: string, status: int)
      requires Tied() && i < |shells| && shells[i] == s
      modifies this`model, s`kept, s`status
      ensures Tied()
      ensures model == old(model).(shells := old(model).shells[i := old(model).shells[i].(kept := kept, status := status)])
    {
      s.kept, s.status := kept, status;
      model := model.(shells := model.shells[i := model.shells[i].(kept := kept, status := status)]);
      forall j | 0 <= j < |shells| ensures ShellTied(j) { assert old(ShellTied(j)); }
      forall x | x in list ensures ClientTied(x) { assert old(ClientTied(x)); }
    }

    /** rsysd_unlink_client() */
    method UnlinkClient(s: ShellCtx, ghost i: nat)
      requires Tied() && i < |shells| && shells[i] == s && Linked(model, i)
      modifies this`model, s`client, list`shell
      ensures Tied() && model == Unlink(old(model), i)
    {
      assert ShellTied(i) && ClientTied(s.client);
      assert s.client != null && s.client.shell != null;
      s.client.shell := null;
      s.client := null;
      model := Unlink(model, i);
      forall j | 0 <= j < |shells| ensures ShellTied(j) { assert old(ShellTied(j)); }
      forall x | x in list ensures ClientTied(x) { assert old(ClientTied(x)); }
    }

    /** rsysd_delete_client() on the client of a shell, and the reset of the pointer of the shell. */
    method DeleteLinkedClient(s: ShellCtx, ghost i: nat)
      requires Tied() && i < |shells| && shells[i] == s && Linked(model, i)
      modifies this`model, s`client, list`shell, list`live
      ensures Tied() && model == DeleteLinked(old(model), i)
    {
      assert ShellTied(i) && ClientTied(s.client);
      assert s.client != null && s.client.live;
      s.client.live := false;
      s.client.shell := null;
      s.client := null;
      model := DeleteLinked(model, i);
      forall j | 0 <= j < |shells| ensures ShellTied(j) { assert old(ShellTied(j)); }
      forall x | x in list ensures ClientTied(x) { assert old(ClientTied(x)); }
    }

    /** The shell and the client point at each other. */
    method LinkClient(s: ShellCtx, ghost i: nat, c: ClientCtx)
      requires Tied() && i < |shells| && shells[i] == s && c in list && c.live && c.shell == null
      modifies this`model, s`state, s`client, c`shell
      ensures Tied()
      ensures model == old(model).(shells := old(model).shells[i := old(model).shells[i].(state := Allocated, client := Some(c.id))],
                                   clients := old(model).clients[c.id := old(model).clients[c.id].(shell := Some(i))])
    {
      assert ClientTied(c);
      s.client := c;
      c.shell := s;
      s.state := Allocated;
      model := model.(shells := model.shells[i := model.shells[i].(state := Allocated, client := Some(c.id))],
                      clients := model.clients[c.id := model.clients[c.id].(shell := Some(i))]);
      forall j | 0 <= j < |shells| ensures ShellTied(j) { assert old(ShellTied(j)); }
      forall x | x in list ensures ClientTied(x) { assert old(ClientTied(x)); }
    }

    // ---------------------------------------------------------------- the state machine

    /** The end of a command: EOC, unlink, FREE. */
    method Finish(s: ShellCtx, ghost i: nat, status: int)
      requires Tied() && i < |shells| && shells[i] == s && Linked(model, i)
      modifies this`model, s, list`shell
      ensures Tied() && model == DaemonSpec.Finish(old(model), i, status)
    {
      assert ShellTied(i);
      Say(Eoc(s.client.id, status));
      UnlinkClient(s, i);
      SetShellState(s, i, Free);
    }

    method OnCommand(s: ShellCtx, ghost i: nat, ok: bool)
      requires Tied() && i < |shells| && shells[i] == s && Linked(model, i) && s.state == Allocated
      modifies this`model, s, list`shell
      ensures Tied() && model == DaemonSpec.Fsm(old(model), i, EvtCmd(ok))
    {
      assert ShellTied(i);
      Say(Command(s.client.id, i, ok));
      if ok {
        SetShellState(s, i, WaitEoc);
      } else {
        Finish(s, i, -1);
      }
    }

    method OnLeave(s: ShellCtx, ghost i: nat, state: ShellState)
      requires Tied() && i < |shells| && shells[i] == s && Linked(model, i)
      modifies this`model, s, list`shell, list`live
      ensures Tied() && model == SetState(DeleteLinked(old(model), i), i, state)
    {
      DeleteLinkedClient(s, i);
      SetShellState(s, i, state);
    }

    method OnDisplay(s: ShellCtx, ghost i: nat, rc: RecvCode, data: string, kept: string, sendOk: bool, submitOk: bool)
      requires Tied() && i < |shells| && shells[i] == s && Linked(model, i) && s.state == WaitEoc
      modifies this`model, s, list`shell
      ensures Tied() && model == DisplayData(old(model), i, rc, data, kept, sendOk, submitOk)
    {
      TiedShell(i);
      DisplayDataIs(model, i, rc, data, kept, sendOk, submitOk);
      hide Tied, ReadDisplay, DisplayData, AfterDisplay, Linked;
      var r := ReadDisplay(rc, data, sendOk);
      Show(s, i, kept, r.text, sendOk);
      Conclude(s, i, r.code, submitOk);
    }

    /** The outstanding data are kept and the text is sent. */
    method Show(s: ShellCtx, ghost i: nat, kept: string, text: Option<string>, sent: bool)
      requires Tied() && i < |shells| && shells[i] == s && Linked(model, i)
      modifies this`model, s
      ensures Tied() && model == Shown(old(model), i, kept, text, sent)
    {
      TiedShell(i);
      hide Tied;
      ghost var c := s.client.id;
      StoreRead(s, i, kept, s.status);
      if text.Some? {
        Say(Display(c, text.value, sent));
      }
    }

    /** What follows the reading of the display. */
    method Conclude(s: ShellCtx, ghost i: nat, code: ReadCode, submitOk: bool)
      requires Tied() && i < |shells| && shells[i] == s && Linked(model, i)
      modifies this`model, s, list`shell
      ensures Tied() && model == AfterDisplay(old(model), i, code, submitOk)
    {
      TiedShell(i);
      hide Tied;
      match code {
        case PromptSeen =>
          Say(StatusRequest(s.client.id, i, submitOk));
          if submitOk {
            SetShellState(s, i, WaitStatus);
          } else {
            Finish(s, i, -1);
          }
        case MoreToCome =>
        case ReadError => Finish(s, i, -1);
        case Crash => CrashNow();
      }
    }

    ghost method CrashNow()
      requires Tied()
      modifies this`model
      ensures Tied() && model == old(model).(crashed := true)
    {
      model := model.(crashed := true);
      forall j | 0 <= j < |shells| ensures ShellTied(j) { assert old(ShellTied(j)); }
      forall x | x in list ensures ClientTied(x) { assert old(ClientTied(x)); }
    }

    method OnStatus(s: ShellCtx, ghost i: nat, rc: RecvCode, data: string, kept: string)
      requires Tied() && i < |shells| && shells[i] == s && Linked(model, i) && s.state == WaitStatus
      modifies this`model, s, list`shell
      ensures Tied() && model == StatusData(old(model), i, rc, data, kept)
    {
      assert ShellTied(i);
      var r := ReadStatus(rc, data, s.status);
      StoreRead(s, i, kept, r.status);
      match r.code {
        case PromptSeen => Finish(s, i, r.status);
        case MoreToCome =>
        case ReadError => Finish(s, i, -1);
        case Crash => CrashNow();
      }
    }

    method OnFlush(s: ShellCtx, ghost i: nat, e: FsmEvent)
      requires Tied() && i < |shells| && shells[i] == s && s.state == Freeing
      requires e.EvtData? && FsmReady(model, i, e)
      modifies this`model, s
      ensures Tied() && model == DaemonSpec.Fsm(old(model), i, e)
    {
      assert ShellTied(i);
      StoreRead(s, i, e.kept, s.status);
      match ReadFlush(e.rc) {
        case PromptSeen => SetShellState(s, i, Free);
        case MoreToCome =>
        case ReadError => SetShellState(s, i, Free);
        case Crash => CrashNow();
      }
    }

    /** rsysd_shell_fsm(): `data` is the client to link. Unexpected events change nothing. */
    method Fsm(s: ShellCtx, ghost i: nat, e: FsmEvent, data: ClientCtx?)
      requires Tied() && i < |shells| && shells[i] == s && FsmReady(model, i, e)
      requires e.EvtLink? ==> data != null && data in list && data.id == e.client
      modifies this`model, s, list`shell, list`live
      ensures Tied() && model == DaemonSpec.Fsm(old(model), i, e)
    {
      assert ShellTied(i);
      match s.state {
        case Free =>
          if e.EvtLink? {
            assert ClientTied(data);
            LinkClient(s, i, data);
          }
        case Allocated =>
          if e.EvtCmd? {
            OnCommand(s, i, e.submitOk);
          } else if e.EvtDcnx? {
            OnLeave(s, i, Free);
          }
        case WaitEoc =>
          if e.EvtData? {
            OnDisplay(s, i, e.rc, e.data, e.kept, e.sendOk, e.submitOk);
          } else if e.EvtDcnx? {
            OnLeave(s, i, Freeing);
          }
        case WaitStatus =>
          if e.EvtData? {
            OnStatus(s, i, e.rc, e.data, e.kept);
          } else if e.EvtDcnx? {
            OnLeave(s, i, Freeing);
          }
        case Freeing =>
          if e.EvtData? {
            OnFlush(s, i, e);
          }
      }
    }

    // ---------------------------------------------------------------- the list of the clients

    /** The linked list, from its head, is `list`; the links are mutually inverse. */
    ghost predicate Listed()
      reads this`list, this`clients, this`nbClients, list`prev, list`next
    {
      && nbClients == |list| && clients == At(list, 0)
      && (forall k, l :: 0 <= k < l < |list| ==> list[k] != list[l])
      && (forall k :: 0 <= k < |list| ==> NodeLinked(k))
    }

    ghost predicate NodeLinked(k: nat)
      requires k < |list|
      reads this`list, list`prev, list`next
    {
      Chained(list, k, list[k].prev, list[k].next)
    }

    /** The list of the model gives the numbers of the clients. */
    ghost predicate Numbered()
      reads this`list, this`accepted, this`model
    {
      |list| == |model.list| && accepted == model.next && forall k :: 0 <= k < |list| ==> list[k].id == model.list[k]
    }

    lemma NumbersBelow()
      requires Numbered() && Registered(model.clients, model.list, model.next)
      ensures forall k :: 0 <= k < |list| ==> list[k].id < accepted
    {
      forall k | 0 <= k < |list| ensures list[k].id < accepted {
        assert model.list[k] in model.list;
      }
    }

    /** The links of a new context at the head of the list. */
    method LinkFirst(c: ClientCtx)
      requires Listed() && Numbered() && c !in list && c.id == accepted && c.sd >= 0
      modifies this`list, this`clients, this`nbClients, this`accepted, this`model, list`prev, c`prev, c`next
      ensures Listed() && Numbered() && list == [c] + old(list)
      ensures model == DaemonSpec.NewClient(old(model), old(c.sd as nat))
    {
      c.next, c.prev := clients, null;
      if c.next != null {
        assert NodeLinked(0);
        assert c.next.prev == null;
        c.next.prev := c;
      }
      clients := c;
      nbClients := nbClients + 1;
      accepted := accepted + 1;
      list := [c] + list;
      model := DaemonSpec.NewClient(model, c.sd);
      forall k | 0 <= k < |list| ensures NodeLinked(k) {
        if k > 0 {
          assert old(NodeLinked(k - 1)) && list[k] == old(list)[k - 1];
        }
      }
    }

    /** rsysd_new_client(): the new context becomes the head of the list. */
    method NewClient(sd: nat) returns (c: ClientCtx)
      requires Tied() && Listed() && Numbered() && Registered(model.clients, model.list, model.next)
      modifies this`model, this`list, this`clients, this`nbClients, this`accepted, list`prev
      ensures Tied() && Listed() && Numbered() && fresh(c) && c.sd == sd
      ensures model == DaemonSpec.NewClient(old(model), sd) && list == [c] + old(list)
    {
      NumbersBelow();
      c := new ClientCtx(accepted, sd);
      LinkFirst(c);
      forall j | 0 <= j < |shells| ensures ShellTied(j) { assert old(ShellTied(j)); }
      forall x | x in list ensures ClientTied(x) { assert x != c ==> old(ClientTied(x)); }
    }

    ghost predicate NodeBypassing(j: nat, k: nat)
      requires j < |list|
      reads this`list, list`prev, list`next
    {
      Bypassing(list, j, k, list[j].prev, list[j].next)
    }

    /** The neighbours of the context at index `k` are linked to each other. */
    method Bypass(c: ClientCtx, ghost k: nat)
      requires Listed() && k < |list| && list[k] == c
      modifies this`clients, list`prev, list`next
      ensures clients == At(list, if k == 0 then 1 else 0) && c.next == old(c.next)
      ensures forall j :: 0 <= j < |list| && j != k ==> NodeBypassing(j, k)
    {
      assert NodeLinked(k);
      assert k > 0 ==> NodeLinked(k - 1);
      assert k + 1 < |list| ==> NodeLinked(k + 1);
      if c.prev != null {
        c.prev.next := c.next;
      } else {
        assert clients == c;
        clients := c.next;
      }
      if c.next != null {
        c.next.prev := c.prev;
      }
      forall j | 0 <= j < |list| && j != k ensures NodeBypassing(j, k) { assert old(NodeLinked(j)); }
    }

    /** The list of the model follows the links. */
    ghost method Forget(c: ClientCtx, k: nat)
      requires k < |list| && list[k] == c && nbClients == |list| - 1 && Numbered()
      requires NoDup(model.list) && forall i, j :: 0 <= i < j < |list| ==> list[i] != list[j]
      requires clients == At(list, if k == 0 then 1 else 0)
      requires forall j :: 0 <= j < |list| && j != k ==> NodeBypassing(j, k)
      modifies this`list, this`model
      ensures Listed() && Numbered() && list == Without(old(list), k) && model == DaemonSpec.FreeClient(old(model), c.id)
    {
      RemoveAt(model.list, k);
      list := Without(list, k);
      model := DaemonSpec.FreeClient(model, c.id);
      forall j | 0 <= j < |list| ensures NodeLinked(j) && list[j].id == model.list[j] {
        assert old(NodeBypassing(Origin(k, j), k));
        Relinked(old(list), k, j, list[j].prev, list[j].next);
        WithoutAt(old(model.list), k, j);
      }
      WithoutDiffer(old(list), k);
      Neighbours(old(list), k, -1);
    }

    /** The context leaves the list, wherever it stands. */
    method UnlinkNode(c: ClientCtx, ghost k: nat)
      requires Listed() && Numbered() && NoDup(model.list) && k < |list| && list[k] == c
      modifies this`list, this`clients, this`nbClients, this`model, list`prev, list`next
      ensures Listed() && Numbered() && list == Without(old(list), k) && model == DaemonSpec.FreeClient(old(model), c.id)
      ensures c.next == old(c.next)
    {
      Bypass(c, k);
      nbClients := nbClients - 1;
      Forget(c, k);
    }

    /** The socket of a context leaves the set. */
    method DropSocket(c: ClientCtx, ghost before: seq<ClientCtx>)
      requires c in before && (forall x :: x in before <==> x in list || x == c) && c !in list
      requires main.fds == {listenFd as int} + ShellFds() + (set x | x in before :: x.sd)
      requires listenFd !in ShellFds() && (forall x :: x in before ==> x.sd != listenFd)
      requires forall i, j :: 0 <= i < j < |shells| ==> shells[i].fd != shells[j].fd
      requires ShellFds() !! (set x | x in before :: x.sd)
      requires (forall x :: x in main.fds ==> 0 <= x) && IsMaximum(main.fds, main.max)
      requires forall x :: x in list ==> x.sd != c.sd
      modifies main, c`sd
      ensures FdsOk() && main.fds == old(main.fds) - {old(c.sd)} && c.sd == -1
    {
      main.Remove(c.sd);
      ghost var sd := c.sd;
      c.sd := -1;
      assert ClientFds() == old(set x | x in before :: x.sd) - {sd};
    }

    /** The context of a deleted client, that no shell points at, leaves the list. */
    method Delist(c: ClientCtx, ghost k: nat)
      requires Tied() && Listed() && Numbered() && NoDup(model.list) && k < |list| && list[k] == c
      requires forall s :: s in shells ==> s.client != c
      modifies this`list, this`clients, this`nbClients, this`model, list`prev, list`next
      ensures Tied() && Listed() && Numbered() && c.next == old(c.next) && c !in list
      ensures list == Without(old(list), k) && model == DaemonSpec.FreeClient(old(model), c.id)
      ensures forall x :: x in old(list) <==> x in list || x == c
    {
      hide Listed, Numbered, NoDup;
      ListedOnce();
      ghost var before := list;
      UnlinkNode(c, k);
      WithoutMembers(before, k);
      IdsDiffer(before, k);
      hide Without;
      forall j | 0 <= j < |shells| ensures ShellTied(j) { assert old(ShellTied(j)); }
      forall x | x in list ensures ClientTied(x) { assert old(ClientTied(x)); }
    }

    lemma ListedOnce()
      requires Listed()
      ensures forall k, l :: 0 <= k < l < |list| ==> list[k] != list[l]
    {
    }

    lemma IdsDiffer(s: seq<ClientCtx>, k: nat)
      requires k < |s| && forall i, j :: 0 <= i < j < |s| ==> s[i].id != s[j].id
      ensures var t := Without(s, k); forall i, j :: 0 <= i < j < |t| ==> t[i].id != t[j].id
      ensures forall x :: x in Without(s, k) ==> x.id != s[k].id
    {
    }

    /** rsysd_free_client(): the context of a deleted client, that no shell points at, leaves the list and
        its socket leaves the set. */
    method FreeClient(c: ClientCtx, ghost k: nat)
      requires Tied() && Listed() && Numbered() && FdsOk() && NoDup(model.list) && k < |list| && list[k] == c
      requires !c.live && c.shell == null && forall s :: s in shells ==> s.client != c
      requires forall x :: x in list && x.sd == c.sd ==> x == c
      modifies this`list, this`clients, this`nbClients, this`model, list`prev, list`next, c`sd, main
      ensures Tied() && Listed() && Numbered() && FdsOk()
      ensures list == Without(old(list), k) && model == DaemonSpec.FreeClient(old(model), c.id)
      ensures main.fds == old(main.fds) - {old(c.sd)} && c.next == old(c.next)
    {
      hide Tied, Listed, Numbered, NoDup, Without, DaemonSpec.FreeClient;
      ghost var before := list;
      Delist(c, k);
      DropSocket(c, before);
    }

    // ---------------------------------------------------------------- serving shells and clients

    ghost predicate Valid()
      reads this, main, shells, list
    {
      Tied() && Listed() && Numbered() && FdsOk() && Inv(model) && NoStale(model.shells)
    }

    /** rsysd_get_shell() */
    method GetShell() returns (s: ShellCtx?, ghost i: nat)
      requires Tied()
      ensures match FirstFree(model.shells, 0)
              case None => s == null
              case Some(j) => i == j < |shells| && s == shells[j]
    {
      var n := 0;
      while n < |shells|
        invariant n <= |shells| && FirstFree(model.shells, 0) == FirstFree(model.shells, n)
      {
        assert ShellTied(n);
        if shells[n].state == Free {
          return shells[n], n;
        }
        n := n + 1;
      }
      return null, 0;
    }

    /** The state machine on a data event. */
    method OnData(s: ShellCtx, ghost i: nat, e: FsmEvent)
      requires Valid() && i < |shells| && shells[i] == s && e.EvtData? && FsmReady(model, i, e)
      modifies this`model, s, list`shell, list`live
      ensures Valid() && model == DaemonSpec.Fsm(old(model), i, e)
    {
      DataKeepsInv(model, i, e);
      FsmNoStale(model, i, e);
      FsmStates(model, i, e);
      hide Tied, Listed, FdsOk, Inv, NoStale, DaemonSpec.Fsm;
      Fsm(s, i, e, null);
    }

    /** The shell is read, and the state machine gets what has come. */
    method ServeShell(s: ShellCtx, ghost i: nat, evs: seq<ReadEvent>, sendOk: bool, submitOk: bool)
      requires Valid() && i < |shells| && shells[i] == s && Received(model, i, evs).Done?
      modifies this`model, s, list`shell, list`live
      ensures Valid() && model == DaemonSpec.ServeShell(old(model), i, evs, sendOk, submitOk)
    {
      TiedShell(i);
      assert ShellLinked(model.shells, model.clients, i);
      hide Valid, DaemonSpec.Fsm, Receive;
      var o := Receive(PROMPT, s.kept, evs);
      OnData(s, i, EvtData(o.rc, o.data, o.kept, sendOk, submitOk));
    }

    /** rsysd_delete_client() on a client without shell. */
    method DeleteClient(c: ClientCtx)
      requires Tied() && c in list && c.live && c.shell == null
      modifies this`model, c`live, c`shell
      ensures Tied() && !c.live && c.shell == null
      ensures model == old(model).(clients := old(model).clients[c.id := old(model).clients[c.id].(live := false, shell := None)])
    {
      assert ClientTied(c);
      c.live := false;
      c.shell := null;
      model := model.(clients := model.clients[c.id := model.clients[c.id].(live := false, shell := None)]);
      forall j | 0 <= j < |shells| ensures ShellTied(j) { assert old(ShellTied(j)); }
      forall x | x in list ensures ClientTied(x) { assert old(ClientTied(x)); }
    }

    /** A client without shell is given the first free one. */
    method LinkIfPossible(c: ClientCtx)
      requires Valid() && c in list
      modifies this`model, shells, list`shell, list`live
      ensures Tied() && Listed() && FdsOk() && NoStale(model.shells)
      ensures c.id in old(model).clients && old(model).clients[c.id].live && model == TryLink(old(model), c.id)
    {
      LinkFacts(c);
      hide Valid, Tied, Listed, FdsOk, NoStale, Inv, TryLink, DaemonSpec.Fsm, FsmReady, FirstFree, ClientTied;
      if c.live && c.shell == null {
        var s, i := GetShell();
        if s != null {
          LinkTo(s, i, c);
        }
      }
    }

    lemma LinkFacts(c: ClientCtx)
      requires Valid() && c in list
      ensures Tied() && Listed() && FdsOk() && NoStale(model.shells)
      ensures c.live && c.id in model.clients && model.clients[c.id].live
      ensures c.shell == null <==> model.clients[c.id].shell == None
      ensures match FirstFree(model.shells, 0)
              case None => TryLink(model, c.id) == model
              case Some(i) =>
                if model.clients[c.id].shell == None then
                  FsmReady(model, i, EvtLink(c.id)) && TryLink(model, c.id) == DaemonSpec.Fsm(model, i, EvtLink(c.id))
                else TryLink(model, c.id) == model
    {
      TiedClient(c);
      TryLinkIs(model, c.id);
    }

    method LinkTo(s: ShellCtx, ghost i: nat, c: ClientCtx)
      requires Tied() && Listed() && FdsOk() && NoStale(model.shells) && c in list
      requires i < |shells| && shells[i] == s && FsmReady(model, i, EvtLink(c.id))
      modifies this`model, shells, list`shell, list`live
      ensures Tied() && Listed() && FdsOk() && NoStale(model.shells) && model == DaemonSpec.Fsm(old(model), i, EvtLink(c.id))
    {
      FsmNoStale(model, i, EvtLink(c.id));
      hide Tied, Listed, FdsOk, NoStale, DaemonSpec.Fsm, FsmReady;
      Fsm(s, i, EvtLink(c.id), c);
    }

    /** The message of the client: a command, or else an error or the end of the connection. */
    method ClientMessage(c: ClientCtx, command: bool, submitOk: bool)
      requires Tied() && Listed() && FdsOk() && NoStale(model.shells)
      requires c in list && c.id in model.clients && model.clients[c.id].live
      requires model.clients[c.id].shell.Some? ==> FsmReady(model, model.clients[c.id].shell.value, EvtDcnx)
      modifies this`model, shells, list`shell, list`live
      ensures Tied() && Listed() && FdsOk() && NoStale(model.shells)
      ensures model == DaemonSpec.ClientMessage(old(model), c.id, command, submitOk)
    {
      TiedClient(c);
      hide Tied, Listed, FdsOk, NoStale;
      if c.shell != null {
        ghost var i := model.clients[c.id].shell.value;
        var e := if command then EvtCmd(submitOk) else EvtDcnx;
        FsmNoStale(model, i, e);
        Fsm(c.shell, i, e, null);
      } else if command {
        Say(Busy(c.id));
      } else {
        DeleteClient(c);
      }
    }

    /** A client that the state machine or the loop has deleted: nothing points at it any more. */
    lemma DeletedIsLoose(d: Daemon, c: ClientCtx)
      requires Tied() && NoStale(model.shells) && Links(model.shells, model.clients) && c in list && !c.live
      ensures c.shell == null && forall s :: s in shells ==> s.client != c
    {
      assert ClientTied(c) && ClientLinked(model.shells, model.clients, c.id);
      assert model.clients[c.id].shell.Some? ==> ShellLinked(model.shells, model.clients, model.clients[c.id].shell.value);
      forall i | 0 <= i < |shells| ensures shells[i].client != c {
        assert ShellTied(i) && ShellLinked(model.shells, model.clients, i) && Settled(model.shells[i]);
      }
    }

    lemma SocketsOfList()
      requires Tied() && Listed() && Numbered() && Registered(model.clients, model.list, model.next)
      ensures forall x, y :: x in list && y in list && x.sd == y.sd ==> x == y
    {
    }

    /** The client is linked if it can be, then its message is treated. */
    method Talk(c: ClientCtx, command: bool, submitOk: bool)
      requires Valid() && c in list && c.id in model.clients
      modifies this`model, shells, list`shell, list`live
      ensures Tied() && Listed() && FdsOk() && NoStale(model.shells)
      ensures model == Talked(old(model), c.id, command, submitOk)
    {
      TalkedFacts(model, c.id, command, submitOk);
      hide Valid, Tied, Listed, FdsOk, NoStale, Inv, TryLink, DaemonSpec.ClientMessage, FsmReady, Talked;
      LinkIfPossible(c);
      ClientMessage(c, command, submitOk);
    }

    /** The whole treatment of a ready client; the next one is read before the context is freed. */
    method ServeClient(c: ClientCtx, ghost k: nat, command: bool, submitOk: bool) returns (next: ClientCtx?)
      requires Valid() && k < |list| && list[k] == c
      modifies this`model, this`list, this`clients, this`nbClients, main, shells, list
      ensures Valid() && c.id in old(model).clients
      ensures model == DaemonSpec.ServeClient(old(model), c.id, command, submitOk)
      ensures next == At(old(list), k + 1)
      ensures list == old(list) || list == Without(old(list), k)
    {
      TiedClient(c);
      ServeClientKeepsInv(model, c.id, command, submitOk);
      MessageFacts(model, c.id, command, submitOk);
      hide Inv, Tied, Listed, FdsOk, Numbered, Talked, DaemonSpec.ServeClient, NoStale, Links, Registered;
      next := TalkTo(c, k, command, submitOk);
      Settle(c, k);
    }

    /** The message is treated, and the next context read. */
    method TalkTo(c: ClientCtx, ghost k: nat, command: bool, submitOk: bool) returns (next: ClientCtx?)
      requires Valid() && k < |list| && list[k] == c && c.id in model.clients
      modifies this`model, shells, list`shell, list`live
      ensures Tied() && Listed() && Numbered() && FdsOk() && NoStale(model.shells)
      ensures model == Talked(old(model), c.id, command, submitOk) && next == At(list, k + 1)
    {
      TalkedFacts(model, c.id, command, submitOk);
      hide Inv, Tied, Listed, FdsOk, Numbered, Talked, DaemonSpec.ClientMessage, TryLink, FsmReady, NoStale;
      Talk(c, command, submitOk);
      SameNumbers();
      NextOf(c, k);
      next := c.next;
    }

    /** The numbers of the clients do not depend on the shells. */
    twostate lemma SameNumbers()
      requires old(Numbered()) && list == old(list) && accepted == old(accepted)
      requires model.list == old(model).list && model.next == old(model).next
      ensures Numbered()
    {
    }

    lemma NextOf(c: ClientCtx, k: nat)
      requires Listed() && k < |list| && list[k] == c
      ensures c.next == At(list, k + 1)
    {
      assert NodeLinked(k);
    }

    /** The end of the treatment: a deleted client is freed. */
    method Settle(c: ClientCtx, ghost k: nat)
      requires Tied() && FdsOk() && NoStale(model.shells) && Links(model.shells, model.clients)
      requires Registered(model.clients, model.list, model.next)
      requires Listed() && Numbered() && k < |list| && list[k] == c
      modifies this`list, this`clients, this`nbClients, this`model, list`prev, list`next, c`sd, main
      ensures Tied() && Listed() && Numbered() && FdsOk() && NoStale(model.shells)
      ensures c.id in old(model).clients
      ensures model == if old(model).clients[c.id].live then old(model) else DaemonSpec.FreeClient(old(model), c.id)
      ensures list == (if old(model).clients[c.id].live then old(list) else Without(old(list), k))
    {
      assert ClientTied(c);
      if !c.live {
        DeletedIsLoose(model, c);
        SocketsOfList();
        assert ClientLinked(model.shells, model.clients, c.id);
        FreeClient(c, k);
      }
    }

    // ---------------------------------------------------------------- one iteration of the select loop

    ghost function Fds(): (fds: seq<nat>)
      ensures |fds| == |shells| && forall i :: 0 <= i < |shells| ==> fds[i] == shells[i].fd
    {
      seq(|shells|, i requires 0 <= i < |shells| => shells[i].fd)
    }

    /** The state has followed legal events since `d`. */
    ghost predicate Follows(d: Daemon, es: seq<Event>)
      reads this`model
    {
      FollowsTo(d, es, model)
    }

    /** One ready shell. */
    method OneShell(i: nat, x: ShellInput, ghost d: Daemon, ghost es: seq<Event>)
      requires Valid() && Follows(d, es) && i < |shells|
      requires Readable(model.shells[i], x)
      modifies this`model, shells, list`shell, list`live
      ensures Valid() && Follows(d, es + [ShellReady(i, x.evs, x.sendOk, x.submitOk)])
      ensures OnlyShell(old(model), model, i) && SameClients(old(model).clients, model.clients)
    {
      ShellStepFrame(model, i, x);
      StepsAfter(d, es, ShellReady(i, x.evs, x.sendOk, x.submitOk));
      ServeShell(shells[i], i, x.evs, x.sendOk, x.submitOk);
    }

    /** What is left of the ready descriptors behind the first `i` shells. */
    ghost predicate LeftBehind(left0: set<int>, left: set<int>, i: nat, ready: set<int>)
      requires i <= |shells|
    {
      && left <= left0 && (forall x :: x in left0 && x !in ShellFds() ==> x in left)
      && (forall j :: 0 <= j < i ==> shells[j].fd !in left)
      && (forall j :: i <= j < |shells| && shells[j].fd in ready ==> shells[j].fd in left)
    }

    lemma LeftNext(left0: set<int>, left: set<int>, i: nat, ready: set<int>)
      requires i < |shells| && LeftBehind(left0, left, i, ready) && left0 <= ready
      requires forall i, j :: 0 <= i < j < |shells| ==> shells[i].fd != shells[j].fd
      ensures LeftBehind(left0, left - {shells[i].fd as int}, i + 1, ready)
    {
    }

    lemma LeftEnd(left0: set<int>, left: set<int>, i: nat, ready: set<int>)
      requires i <= |shells| && LeftBehind(left0, left, i, ready) && (i == |shells| || left == {})
      ensures left == left0 - ShellFds() && forall j :: i <= j < |shells| ==> shells[j].fd !in ready
    {
      forall s | s in shells ensures s.fd !in left {
        var j :| 0 <= j < |shells| && shells[j] == s;
      }
      assert left !! ShellFds();
      assert forall x :: x in left0 - ShellFds() ==> x in left;
    }

    /** The events of the first `i` shells have been followed since `d`; the other shells are as they were. */
    ghost predicate Served(d: Daemon, i: nat, ready: set<int>, ins: nat -> ShellInput)
      requires i <= |shells|
      reads this`model
    {
      && Follows(d, ShellEvents(Fds(), i, ready, ins))
      && model.list == d.list && SameClients(d.clients, model.clients) && |model.shells| == |d.shells| == |shells|
      && forall j :: i <= j < |shells| ==> model.shells[j] == d.shells[j]
    }

    /** One shell of the walk: a ready one is served. */
    method ShellTurn(i: nat, ready: set<int>, ins: nat -> ShellInput, ghost d: Daemon)
      requires Valid() && i < |shells| && Served(d, i, ready, ins)
      requires shells[i].fd in ready ==> Readable(d.shells[i], ins(i))
      modifies this`model, shells, list`shell, list`live
      ensures Valid() && Served(d, i + 1, ready, ins)
    {
      ghost var es := ShellEvents(Fds(), i, ready, ins);
      if shells[i].fd in ready {
        OneShell(i, ins(i), d, es);
      } else {
        Empty(es);
      }
    }

    /** The ready counter behind the shell `i`. */
    method CountShell(i: nat, ready: set<int>, nb: nat, ghost left0: set<int>, ghost left: set<int>)
      returns (nb': nat, ghost left': set<int>)
      requires Valid() && i < |shells| && nb == |left| && nb > 0
      requires LeftBehind(left0, left, i, ready) && left0 <= ready
      ensures nb' == |left'| && LeftBehind(left0, left', i + 1, ready)
    {
      LeftNext(left0, left, i, ready);
      left' := left - {shells[i].fd as int};
      nb' := if shells[i].fd in ready then nb - 1 else nb;
    }

    /** Shell by shell, as long as ready descriptors are left. */
    method ShellLoop(ready: set<int>, nb: nat, ghost left: set<int>, ins: nat -> ShellInput)
      returns (i: nat, nb': nat, ghost left': set<int>)
      requires Valid() && nb == |left| && left <= ready && ShellFds() * ready <= left
      requires Served(model, 0, ready, ins) && LeftBehind(left, left, 0, ready)
      requires forall i :: 0 <= i < |shells| && shells[i].fd in ready ==> Readable(model.shells[i], ins(i))
      modifies this`model, shells, list`shell, list`live
      ensures Valid() && i <= |shells| && Served(old(model), i, ready, ins)
      ensures nb' == |left'| && LeftBehind(left, left', i, ready) && (i == |shells| || left' == {})
    {
      hide *;
      i, nb', left' := 0, nb, left;
      while i < |shells| && nb' > 0
        invariant i <= |shells| && Valid() && nb' == |left'| && LeftBehind(left, left', i, ready)
        invariant Served(old(model), i, ready, ins)
      {
        nb', left' := CountShell(i, ready, nb', left, left');
        ShellTurn(i, ready, ins, old(model));
        i := i + 1;
      }
    }

    /** The shells among the ready descriptors, in their order; `left` are the ready descriptors not met yet. */
    method ShellPhase(ready: set<int>, nb: nat, ghost left: set<int>, ins: nat -> ShellInput)
      returns (nb': nat, ghost left': set<int>)
      requires Valid() && nb == |left| && left <= ready && ShellFds() * ready <= left
      requires forall i :: 0 <= i < |shells| && shells[i].fd in ready ==> Readable(model.shells[i], ins(i))
      modifies this`model, shells, list`shell, list`live
      ensures Valid() && nb' == |left'| && left' == left - ShellFds()
      ensures FollowsTo(old(model), ShellEvents(Fds(), |shells|, ready, ins), model)
      ensures model.list == old(model).list && SameClients(old(model).clients, model.clients)
    {
      var i;
      i, nb', left' := ShellLoop(ready, nb, left, ins);
      LeftEnd(left, left', i, ready);
      NoMoreShells(Fds(), i, |shells|, ready, ins);
    }

    // The walk of the clients: `k` nodes of the list of the state `d` are behind, `kept` of them still in the list.

    ghost predicate Walked(d: Daemon, k: nat, kept: nat, ready: set<int>, ins: nat -> ClientInput)
      reads this`model
    {
      && k <= |d.list| && Ahead(d, model, k, kept)
      && Follows(d, ClientEvents(d.list[..k], d.clients, ready, ins))
    }

    /** A ready client of the walk is served. */
    method ServeMet(c: ClientCtx, x: ClientInput, ghost d: Daemon, ghost k: nat, ghost kept: nat,
                    ghost ready: set<int>, ghost ins: nat -> ClientInput)
      returns (next: ClientCtx?, ghost kept': nat)
      requires Valid() && Walked(d, k, kept, ready, ins) && kept < |list| && list[kept] == c
      requires k < |d.list| && d.list[k] in d.clients && d.clients[d.list[k]].sd in ready && x == ins(c.id)
      modifies this`model, this`list, this`clients, this`nbClients, main, shells, list
      ensures Valid() && Walked(d, k + 1, kept', ready, ins) && next == At(list, kept')
      ensures forall x :: x in list ==> x in old(list)
    {
      hide Inv, NoStale, FdsOk, Listed, LegalRun, Steps, DaemonSpec.ServeClient;
      ghost var es := ClientEvents(d.list[..k], d.clients, ready, ins);
      ghost var id, l := c.id, list;
      assert ClientTied(c);
      assert model.list[kept] == id && model.list[kept..][0] == id == d.list[k];
      AheadServed(d, model, k, kept, x.command, x.submitOk);
      StepsAfter(d, es, ClientReady(id, x.command, x.submitOk));
      assert d.list[..k + 1][..k] == d.list[..k];
      next := ServeClient(c, kept, x.command, x.submitOk);
      kept' := if id in model.clients then kept + 1 else kept;
      Neighbours(l, kept, kept - 1);
    }

    /** One client of the walk; the next one is read before it can be freed. */
    method ClientTurn(c: ClientCtx, ready: set<int>, ins: nat -> ClientInput, ghost d: Daemon, ghost k: nat, ghost kept: nat)
      returns (met: bool, next: ClientCtx?, ghost kept': nat)
      requires Valid() && Walked(d, k, kept, ready, ins) && At(list, kept) == c
      modifies this`model, this`list, this`clients, this`nbClients, main, shells, list
      ensures Valid() && Inv(d) && k < |d.list| && Walked(d, k + 1, kept', ready, ins) && next == At(list, kept')
      ensures d.list[k] in d.clients && (met <==> d.clients[d.list[k]].sd in ready)
      ensures forall x :: x in list ==> x in old(list)
    {
      hide Inv, NoStale, FdsOk, LegalRun, Steps;
      assert ClientTied(c);
      assert model.list[kept..][0] == c.id == d.list[k];
      met := c.sd in ready;
      if met {
        next, kept' := ServeMet(c, ins(c.id), d, k, kept, ready, ins);
      } else {
        assert NodeLinked(kept);
        next, kept' := c.next, kept + 1;
        AheadSkipped(d, model, k, kept);
        assert d.list[..k + 1][..k] == d.list[..k];
        Empty(ClientEvents(d.list[..k], d.clients, ready, ins));
      }
    }

    /** The walk over the list, as long as ready descriptors are left. */
    method ClientLoop(ready: set<int>, nb: nat, ins: nat -> ClientInput, ghost d: Daemon)
      returns (nb': nat, ghost k: nat, ghost kept: nat)
      requires Valid() && Walked(d, 0, 0, ready, ins) && nb == |ReadyFrom(d, 0, ready)|
      modifies this`model, this`list, this`clients, this`nbClients, main, shells, list
      ensures Valid() && Walked(d, k, kept, ready, ins) && nb' == |ReadyFrom(d, k, ready)|
      ensures nb' == 0 || kept == |list|
    {
      hide Valid, Walked, ReadyFrom, At, Inv;
      HeadOfList();
      var c := clients;
      nb', k, kept := nb, 0, 0;
      while c != null && nb' > 0
        invariant k <= |d.list| && Valid() && Walked(d, k, kept, ready, ins) && nb' == |ReadyFrom(d, k, ready)|
        invariant c == At(list, kept) && forall x :: x in list ==> x in old(list)
        decreases |d.list| - k
      {
        var met;
        ghost var j := k;
        assert forall i :: 0 <= i < |list| ==> list[i] in old(list);
        met, c, kept := ClientTurn(c, ready, ins, d, k, kept);
        ReadyNext(d, j, ready);
        nb' := if met then nb' - 1 else nb';
        k := k + 1;
      }
      EndOfList(d, k, kept, ready, ins);
    }

    lemma EndOfList(d: Daemon, k: nat, kept: nat, ready: set<int>, ins: nat -> ClientInput)
      requires Valid() && Walked(d, k, kept, ready, ins)
      ensures At(list, kept) == null ==> kept == |list|
    {
    }

    lemma HeadOfList()
      requires Valid()
      ensures clients == At(list, 0)
    {
    }

    /** Every ready client of the list is met once; the counter of ready descriptors ends at 0. */
    method ClientPhase(ready: set<int>, nb: nat, ins: nat -> ClientInput)
      returns (nb': nat)
      requires Valid() && nb == |ready * ClientFds()|
      modifies this`model, this`list, this`clients, this`nbClients, main, shells, list
      ensures Valid() && nb' == 0
      ensures FollowsTo(old(model), ClientEvents(old(model).list, old(model).clients, ready, ins), model)
    {
      ghost var d := model;
      AllAhead(ready);
      ghost var k, kept;
      nb', k, kept := ClientLoop(ready, nb, ins, model);
      WalkOver(d, k, kept, ready, ins, nb');
    }

    lemma AllAhead(ready: set<int>)
      requires Valid()
      ensures forall ins :: Walked(model, 0, 0, ready, ins)
      ensures ReadyFrom(model, 0, ready) == ready * ClientFds()
    {
      forall j | 0 <= j < |list| ensures list[j].id == model.list[j] && ClientTied(list[j]) {
      }
      forall x | x in ready * ClientFds() ensures x in ReadyFrom(model, 0, ready) {
        var c :| c in list && c.sd == x;
        var j :| 0 <= j < |list| && list[j] == c;
      }
    }

    lemma WalkOver(d: Daemon, k: nat, kept: nat, ready: set<int>, ins: nat -> ClientInput, nb: nat)
      requires Valid() && Walked(d, k, kept, ready, ins) && nb == |ReadyFrom(d, k, ready)| && (nb == 0 || kept == |list|)
      ensures nb == 0 && Follows(d, ClientEvents(d.list, d.clients, ready, ins))
    {
      hide Inv, LegalRun, Steps, NoStale, FdsOk, Listed;
      assert nb == 0 by {
        if kept == |list| {
          assert |d.list[k..]| == |model.list[kept..]| == 0;
          assert ReadyFrom(d, k, ready) == {};
        }
      }
      var left := ReadyFrom(d, k, ready);
      forall j | k <= j < |d.list| ensures d.list[j] in d.clients && d.clients[d.list[j]].sd !in ready {
        assert d.list[j] in d.clients && d.clients[d.list[j]].sd as int !in left;
      }
      NoMoreClients(d.list, k, |d.list|, d.clients, ready, ins);
      assert d.list[..|d.list|] == d.list;
    }

    /** A connection gets a context, or is refused for want of memory. */
    method Connection(sd: nat, memory: bool)
      requires Valid() && sd !in main.fds
      modifies this`model, this`list, this`clients, this`nbClients, this`accepted, list`prev, main
      ensures Valid() && model == Entered(old(model), true, sd, memory)
      ensures ClientFds() == old(ClientFds()) + if memory then {sd as int} else {}
      ensures forall c :: c in list ==> c in old(list) || fresh(c)
    {
      hide Valid, ClientFds;
      if memory {
        Admit(sd);
      } else {
        Refuse(sd);
      }
    }

    /** The listening socket. */
    method AcceptPhase(ready: set<int>, nb: nat, sd: nat, memory: bool) returns (nb': nat)
      requires Valid() && ready <= main.fds && nb == |ready| && sd !in main.fds
      modifies this`model, this`list, this`clients, this`nbClients, this`accepted, list`prev, main
      ensures Valid() && nb' == |ready - {listenFd as int}|
      ensures FollowsTo(old(model), AcceptEvents(listenFd in ready, sd, memory), model)
      ensures ready * ClientFds() == old(ready * ClientFds())
      ensures model == Entered(old(model), listenFd in ready, sd, memory)
      ensures forall c :: c in list ==> c in old(list) || fresh(c)
    {
      hide *;
      AcceptFollows(listenFd in ready, sd, memory);
      nb' := nb;
      if listenFd in ready {
        nb' := nb - 1;
        Connection(sd, memory);
      }
      SocketsApart(ready, sd, old(ClientFds()), ClientFds());
    }

    /** A new client: its context is at the head of the list, its socket in the set. */
    method Admit(sd: nat)
      requires Valid() && sd !in main.fds
      modifies this`model, this`list, this`clients, this`nbClients, this`accepted, list`prev, main
      ensures Valid() && model == DaemonSpec.NewClient(old(model), sd)
      ensures ClientFds() == old(ClientFds()) + {sd as int}
      ensures forall c :: c in list ==> c in old(list) || fresh(c)
    {
      hide *;
      ghost var before := ClientFds();
      AcceptFacts(sd);
      Enlist(sd);
      AddSocket(sd, before);
      IsValid();
    }

    lemma AcceptFacts(sd: nat)
      requires Valid() && sd !in main.fds
      ensures FdsFor(ClientFds()) && Inv(DaemonSpec.NewClient(model, sd))
    {
      AcceptLegal(sd);
      AcceptKeepsInv(model, sd);
    }

    lemma IsValid()
      requires Tied() && Listed() && Numbered() && FdsOk() && Inv(model) && NoStale(model.shells)
      ensures Valid()
    {
    }

    /** The socket of a new client joins the set. */
    method AddSocket(sd: nat, ghost before: set<int>)
      requires FdsFor(before) && ClientFds() == before + {sd as int} && sd !in main.fds
      modifies main
      ensures FdsOk()
    {
      main.Add(sd);
    }

    method Enlist(sd: nat)
      requires Valid()
      modifies this`model, this`list, this`clients, this`nbClients, this`accepted, list`prev
      ensures Tied() && Listed() && Numbered() && NoStale(model.shells) && model == DaemonSpec.NewClient(old(model), sd)
      ensures ClientFds() == old(ClientFds()) + {sd as int}
      ensures forall c :: c in list ==> c in old(list) || fresh(c)
    {
      InvRegistered(model);
      hide Inv, Registered, Tied, Listed, Numbered, FdsOk;
      var c := NewClient(sd);
      assert c in list;
      forall x | x in old(ClientFds()) ensures x in ClientFds() {
        var y :| y in old(list) && old(y.sd) == x;
        assert y in list && y.sd == x;
      }
    }

    /** No memory for the context of a new client. */
    method Refuse(sd: nat)
      requires Valid()
      modifies this`model
      ensures Valid() && model == Do(old(model), Oom(sd))
    {
      hide Tied, Listed, FdsOk;
      Say(Oom(sd));
    }

    lemma AcceptFollows(ready: bool, sd: nat, memory: bool)
      requires Valid() && sd !in main.fds
      ensures FollowsTo(model, AcceptEvents(ready, sd, memory), Entered(model, ready, sd, memory))
      ensures Entered(model, ready, sd, memory)
           == if !ready then model else if memory then DaemonSpec.NewClient(model, sd) else Do(model, DaemonSpec.Oom(sd))
    {
      AcceptLegal(sd);
      EnteredFollows(model, ready, sd, memory);
    }

    lemma AcceptLegal(sd: nat)
      requires Valid() && sd !in main.fds
      ensures Legal(model, Accept(sd))
    {
      forall x | x in model.clients ensures model.clients[x].sd != sd {
        assert x in model.list;
        var k :| 0 <= k < |model.list| && model.list[k] == x;
        assert ClientTied(list[k]) && list[k].sd in ClientFds();
      }
    }

    /** The ready descriptors are the listening socket, shells and clients. */
    lemma ReadyParts(ready: set<int>)
      requires Valid() && ready <= main.fds
      ensures Inv(model) && ready - {listenFd as int} - ShellFds() == ready * ClientFds()
      ensures ShellFds() * ready <= ready - {listenFd as int}
    {
    }

    /** One iteration: a connection, then the ready shells, then the ready clients, each of them once,
        whoever comes or leaves meanwhile; the counter of ready descriptors ends at 0. */
    method Iterate(ready: set<int>, nb: nat, sd: nat, memory: bool, shellIns: nat -> ShellInput, clientIns: nat -> ClientInput)
      returns (nb': nat)
      requires Valid() && ready <= main.fds && nb == |ready| && sd !in main.fds
      requires forall i :: 0 <= i < |shells| && shells[i].fd in ready ==> Readable(model.shells[i], shellIns(i))
      modifies this`model, this`list, this`clients, this`nbClients, this`accepted, main, shells, list
      ensures Valid() && nb' == 0
      ensures FollowsTo(old(model),
                        AcceptEvents(listenFd in ready, sd, memory)
                        + ShellEvents(Fds(), |shells|, ready, shellIns)
                        + ClientEvents(old(model).list, old(model).clients, ready, clientIns),
                        model)
    {
      hide *;
      ghost var d0 := model;
      ReadyParts(ready);
      nb' := AcceptPhase(ready, nb, sd, memory);
      ghost var d1, left := model, ready - {listenFd as int};
      EnteredShells(d0, listenFd in ready, sd, memory);
      assert forall i :: 0 <= i < |list| ==> list[i] in old(list) || fresh(list[i]);
      nb', left := ShellPhase(ready, nb', left, shellIns);
      ghost var d2 := model;
      nb' := ClientPhase(ready, nb', clientIns);
      SameWalk(d0, d1, d2, listenFd in ready, sd, memory, ready, clientIns);
      FollowsJoin(d0, AcceptEvents(listenFd in ready, sd, memory), d1, ShellEvents(Fds(), |shells|, ready, shellIns), d2);
      FollowsJoin(d0, AcceptEvents(listenFd in ready, sd, memory) + ShellEvents(Fds(), |shells|, ready, shellIns), d2,
                  ClientEvents(d2.list, d2.clients, ready, clientIns), model);
    }
  }

  ghost predicate FollowsTo(d: Daemon, es: seq<Event>, d': Daemon) {
    Inv(d) && LegalRun(d, es) && d' == Steps(d, es)
  }

  /** The effect of the listening socket on the state. */
  ghost function Entered(d: Daemon, ready: bool, sd: nat, memory: bool): Daemon {
    if !ready then d else if memory then DaemonSpec.NewClient(d, sd) else Do(d, Oom(sd))
  }

  lemma EnteredFollows(d: Daemon, ready: bool, sd: nat, memory: bool)
    requires Inv(d) && (ready ==> Legal(d, Accept(sd)))
    ensures LegalRun(d, AcceptEvents(ready, sd, memory)) && Steps(d, AcceptEvents(ready, sd, memory)) == Entered(d, ready, sd, memory)
  {
    if ready {
      StepsAfter(d, [], if memory then Accept(sd) else AcceptOom(sd));
    }
  }

  lemma SocketsApart(ready: set<int>, sd: int, before: set<int>, after: set<int>)
    requires sd !in ready && (after == before || after == before + {sd})
    ensures ready * after == ready * before
  {
  }

  lemma InvRegistered(d: Daemon)
    requires Inv(d)
    ensures Registered(d.clients, d.list, d.next)
  {
  }

  lemma EnteredShells(d: Daemon, ready: bool, sd: nat, memory: bool)
    ensures Entered(d, ready, sd, memory).shells == d.shells
  {
  }

  lemma FollowsJoin(d: Daemon, es: seq<Event>, d': Daemon, fs: seq<Event>, d'': Daemon)
    requires FollowsTo(d, es, d') && FollowsTo(d', fs, d'')
    ensures FollowsTo(d, es + fs, d'')
  {
    hide Inv, LegalRun, Steps;
    RunsJoin(d, es, fs);
  }

  /** The clients of the iteration are those of its beginning. */
  lemma SameWalk(d0: Daemon, d1: Daemon, d2: Daemon, ready: bool, sd: nat, memory: bool, fds: set<int>, ins: nat -> ClientInput)
    requires Inv(d0) && d1 == Entered(d0, ready, sd, memory) && d2.list == d1.list && SameClients(d1.clients, d2.clients)
    requires sd !in fds
    ensures ClientEvents(d2.list, d2.clients, fds, ins) == ClientEvents(d0.list, d0.clients, fds, ins)
  {
    if ready && memory {
      NewcomerNotMet(d0.next, d0.list, d0.clients, d2.clients, fds, ins);
    } else {
      SameSockets(d0.list, d0.clients, d2.clients, fds, ins);
    }
  }

  /** The ready sockets of the clients from the node `k` on. */
  ghost function ReadyFrom(d: Daemon, k: nat, ready: set<int>): set<int>
    requires k <= |d.list|
  {
    set j | k <= j < |d.list| && d.list[j] in d.clients && d.clients[d.list[j]].sd in ready :: d.clients[d.list[j]].sd as int
  }

  lemma ReadyNext(d: Daemon, k: nat, ready: set<int>)
    requires Inv(d) && k < |d.list| && d.list[k] in d.clients
    ensures |ReadyFrom(d, k, ready)|
            == |ReadyFrom(d, k + 1, ready)| + if d.clients[d.list[k]].sd in ready then 1 else 0
  {
    ReadyGrows(d, k, ready);
    SocketNotBehind(d, k, ready);
    hide Inv, ReadyFrom;
    OneMore(ReadyFrom(d, k + 1, ready), d.clients[d.list[k]].sd as int);
  }

  lemma ReadyGrows(d: Daemon, k: nat, ready: set<int>)
    requires k < |d.list| && d.list[k] in d.clients
    ensures ReadyFrom(d, k, ready)
            == ReadyFrom(d, k + 1, ready) + if d.clients[d.list[k]].sd in ready then {d.clients[d.list[k]].sd as int} else {}
  {
    var sd := d.clients[d.list[k]].sd as int;
    forall x | x in ReadyFrom(d, k, ready) ensures x in ReadyFrom(d, k + 1, ready) || (x == sd && sd in ready) {
      var j :| k <= j < |d.list| && d.list[j] in d.clients && d.clients[d.list[j]].sd in ready && x == d.clients[d.list[j]].sd;
      assert j == k || k + 1 <= j;
    }
  }

  lemma SocketNotBehind(d: Daemon, k: nat, ready: set<int>)
    requires Inv(d) && k < |d.list| && d.list[k] in d.clients
    ensures d.clients[d.list[k]].sd as int !in ReadyFrom(d, k + 1, ready)
  {
    SocketsDiffer(d, k);
    hide Inv;
  }

  lemma SocketsDiffer(d: Daemon, k: nat)
    requires Inv(d) && k < |d.list| && d.list[k] in d.clients
    ensures forall j :: k < j < |d.list| && d.list[j] in d.clients ==> d.clients[d.list[j]].sd != d.clients[d.list[k]].sd
  {
  }

  lemma OneMore(s: set<int>, x: int)
    requires x !in s
    ensures |s + {x}| == |s| + 1
  {
  }

  /** From the node `k` on, the list of `d` is the one of `m` from the node `kept` on, with the same sockets. */
  ghost predicate Ahead(d: Daemon, m: Daemon, k: nat, kept: nat)
    requires k <= |d.list|
  {
    && kept <= |m.list| && m.list[kept..] == d.list[k..]
    && forall j :: k <= j < |d.list| ==>
         d.list[j] in d.clients && d.list[j] in m.clients && m.clients[d.list[j]].sd == d.clients[d.list[j]].sd
  }

  lemma AheadSkipped(d: Daemon, m: Daemon, k: nat, kept: nat)
    requires k < |d.list| && Ahead(d, m, k, kept)
    ensures Ahead(d, m, k + 1, kept + 1)
  {
  }

  lemma AheadServed(d: Daemon, m: Daemon, k: nat, kept: nat, command: bool, submitOk: bool)
    requires k < |d.list| && Ahead(d, m, k, kept) && Inv(m) && Inv(d)
    ensures d.list[k] in m.clients
    ensures var m' := DaemonSpec.ServeClient(m, d.list[k], command, submitOk);
            && Ahead(d, m', k + 1, if d.list[k] in m'.clients then kept + 1 else kept)
            && |m'.list| == if d.list[k] in m'.clients then |m.list| else |m.list| - 1
  {
    var c := d.list[k];
    var m' := DaemonSpec.ServeClient(m, c, command, submitOk);
    ServeClientFrame(m, c, command, submitOk);
    assert m.list[kept] == m.list[kept..][0] == c;
    assert m.list[kept + 1..] == m.list[kept..][1..] == d.list[k..][1..] == d.list[k + 1..];
    RemoveAt(m.list, kept);
    assert Without(m.list, kept)[kept..] == m.list[kept + 1..];
  }

  /** The reads make a reception from the shell return, and are all used by it. */
  ghost predicate Readable(sh: Shell, x: ShellInput) {
    var o := Receive(PROMPT, sh.kept, x.evs);
    o.Done? && o.rest == []
  }

  lemma ShellStepFrame(d: Daemon, i: nat, x: ShellInput)
    requires Inv(d) && i < |d.shells| && Received(d, i, x.evs).Done?
    ensures var d' := DaemonSpec.ServeShell(d, i, x.evs, x.sendOk, x.submitOk);
            OnlyShell(d, d', i) && SameClients(d.clients, d'.clients)
  {
    var o := Received(d, i, x.evs);
    assert ShellLinked(d.shells, d.clients, i);
    FsmStates(d, i, EvtData(o.rc, o.data, o.kept, x.sendOk, x.submitOk));
    FsmLinks(d, i, EvtData(o.rc, o.data, o.kept, x.sendOk, x.submitOk));
  }

  ghost predicate NoStale(shells: seq<Shell>) {
    forall i :: 0 <= i < |shells| ==> Settled(shells[i])
  }

  lemma StartIsRight(d: Daemon)
    requires Start(d) && forall i :: 0 <= i < |d.shells| ==> d.shells[i].client == None
    ensures Inv(d) && NoStale(d.shells)
  {
  }

  lemma FsmNoStale(d: Daemon, i: nat, e: FsmEvent)
    requires FsmReady(d, i, e) && NoStale(d.shells)
    ensures NoStale(DaemonSpec.Fsm(d, i, e).shells)
  {
    FsmStates(d, i, e);
  }

  lemma TryLinkIs(d: Daemon, c: nat)
    requires c in d.clients && d.clients[c].live
    ensures match FirstFree(d.shells, 0)
            case None => TryLink(d, c) == d
            case Some(i) =>
              if d.clients[c].shell == None then
                FsmReady(d, i, EvtLink(c)) && TryLink(d, c) == DaemonSpec.Fsm(d, i, EvtLink(c))
              else TryLink(d, c) == d
  {
  }

  /** Behind the message of a client, before its end. */
  ghost function Talked(d: Daemon, c: nat, command: bool, submitOk: bool): Daemon
    requires Inv(d) && c in d.clients
  {
    LinkKeepsReady(d, c);
    DaemonSpec.ClientMessage(TryLink(d, c), c, command, submitOk)
  }

  lemma TalkedFacts(d: Daemon, c: nat, command: bool, submitOk: bool)
    requires Inv(d) && c in d.clients
    ensures d.clients[c].live
    ensures var d1 := TryLink(d, c);
            && c in d1.clients && d1.clients[c].live
            && (d1.clients[c].shell.Some? ==> FsmReady(d1, d1.clients[c].shell.value, EvtDcnx))
            && Talked(d, c, command, submitOk) == DaemonSpec.ClientMessage(d1, c, command, submitOk)
    ensures Talked(d, c, command, submitOk).list == d.list && Talked(d, c, command, submitOk).next == d.next
  {
    LinkKeepsReady(d, c);
    TryLinkLinks(d, c);
    MessageLinks(TryLink(d, c), c, command, submitOk);
  }

  /** What holds between the message of a client and the end of its treatment. */
  lemma MessageFacts(d: Daemon, c: nat, command: bool, submitOk: bool)
    requires Inv(d) && c in d.clients
    ensures var d' := Talked(d, c, command, submitOk);
            && Links(d'.shells, d'.clients) && Registered(d'.clients, d'.list, d'.next) && c in d'.clients
            && DaemonSpec.ServeClient(d, c, command, submitOk) == if d'.clients[c].live then d' else DaemonSpec.FreeClient(d', c)
  {
    LinkKeepsReady(d, c);
    TryLinkLinks(d, c);
    MessageLinks(TryLink(d, c), c, command, submitOk);
    SameRegistered(d.clients, DaemonSpec.ClientMessage(TryLink(d, c), c, command, submitOk).clients, d.list, d.next);
  }

  /** What follows the reading of the display. */
  ghost function AfterDisplay(d: Daemon, i: nat, code: ReadCode, submitOk: bool): Daemon
    requires i < |d.shells| && Linked(d, i)
  {
    match code
    case PromptSeen =>
      var d' := Do(d, StatusRequest(d.shells[i].client.value, i, submitOk));
      if submitOk then SetState(d', i, WaitStatus) else DaemonSpec.Finish(d', i, -1)
    case MoreToCome => d
    case ReadError => DaemonSpec.Finish(d, i, -1)
    case Crash => d.(crashed := true)
  }

  ghost function Shown(d: Daemon, i: nat, kept: string, text: Option<string>, sent: bool): Daemon
    requires i < |d.shells| && Linked(d, i)
  {
    var d1 := d.(shells := d.shells[i := d.shells[i].(kept := kept)]);
    if text.Some? then Do(d1, Display(d.shells[i].client.value, text.value, sent)) else d1
  }

  lemma DisplayDataIs(d: Daemon, i: nat, rc: RecvCode, data: string, kept: string, sendOk: bool, submitOk: bool)
    requires i < |d.shells| && Linked(d, i)
    ensures var r := ReadDisplay(rc, data, sendOk);
            var d' := Shown(d, i, kept, r.text, sendOk);
            && i < |d'.shells| && Linked(d', i)
            && DisplayData(d, i, rc, data, kept, sendOk, submitOk) == AfterDisplay(d', i, r.code, submitOk)
  {
    hide ReadDisplay, DaemonSpec.Finish;
  }

  /** Removing the k-th element of a list without repetition. */
  lemma {:induction false} RemoveAt(s: seq<nat>, k: nat)
    requires NoDup(s) && k < |s|
    ensures Remove(s, s[k]) == Without(s, k)
  {
    if k > 0 {
      var t := s[1..];
      assert s[0] != s[k] == t[k - 1];
      assert NoDup(t);
      RemoveAt(t, k - 1);
      hide NoDup;
      assert [s[0]] + t[..k - 1] == s[..k] && t[k..] == s[k + 1..];
      Assoc([s[0]], t[..k - 1], t[k..]);
    }
  }
}
