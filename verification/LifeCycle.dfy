/**
 The life cycle of the PDIP objects against the asynchronous SIGCHLD handler: a single thread calls the
 library, step by step, while the controlled programs die and their signals come, or get lost, at any
 time. Sections between PDIP_MASK_SIG() and PDIP_UNMASK_SIG() keep the handler out, nothing else does.
 */
module LifeCycle {
  import opened Bytes

  /** A child process: dead children are kept by the system until they are reaped by waitpid(). */
  datatype Process =
    | Running(owner: nat)
    | Dead(owner: nat, status: int)
    | Reaped(owner: nat, status: int)

  datatype State = INIT | ALIVE | ZOMBIE | DEAD

  /** The fields of pdip_ctx_t at stake, and the last program executed in the object. */
  datatype Object = Object(state: State, pid: int, status: int, linked: bool, child: Option<nat>)

  datatype Call = ExecCall | StatusCall(blocking: bool) | DeleteCall

  /** Who asks pdip_check_child() or pdip_wait_child(): pdip_status(), pdip_delete() on a zombie, or the two
      checks and the last wait of pdip_terminate_child(). */
  datatype Why = AskStatus | DeleteZombie | FirstCheck | SecondCheck | LastWait

  /** What is done with SIGCHLD masked. */
  datatype Section =
    | ExecRead
    | ExecStore(pid: int)
    | ExecCheck
    | ExecPid
    | WaitRead(why: Why)
    | CheckRead(why: Why)
    | Update(status: int, why: Why)
    | Kill(last: bool)
    | DeleteRead
    | Unlink(status: int)

  /** What is done with SIGCHLD unmasked. */
  datatype Action = Recycle | Fork | WaitPid(pid: int, blocking: bool, why: Why) | Nap | Release(status: int)

  /** Where the thread is. */
  datatype Place = Idle | Enter(section: Section) | Inside(section: Section) | Leave(next: Place) | Doing(action: Action)

  /** What the calls return: the pid of a program, a status, no status yet, an error, the status at the deletion. */
  datatype Return =
    | Started(obj: nat, pid: int)
    | Reported(obj: nat, child: Option<nat>, status: int)
    | NotYet(obj: nat)
    | Error(obj: nat)
    | Deleted(obj: nat, child: Option<nat>, status: int)

  /**
   The whole: the objects by number, the processes by pid, the pids of the SIGCHLD not delivered yet, the
   mask, the thread and the object it works on, the results of the calls, the pids reaped, those that
   SIGTERM and SIGKILL have been sent to.
   `broken` records a failed assert(), a waitpid() on no child, a signal sent to a process that is not an
   unreaped child.
   */
  datatype World = World(
    objs: map<nat, Object>, procs: map<nat, Process>, pending: set<nat>,
    masked: bool, at: Place, cur: nat, results: seq<Return>, reaps: multiset<nat>, termed: set<nat>, killed: set<nat>,
    next: nat, broken: bool)

  datatype Event =
    | New
    | Begin(obj: nat, call: Call)
    | Go
    | Forked(child: Option<nat>)
    | Die(pid: nat, status: int, heard: bool)
    | Signal(pid: nat)

  // ------------------------------------------------------------------ the steps

  function Cur(w: World): Object
    requires w.cur in w.objs
  {
    w.objs[w.cur]
  }

  function SetCur(w: World, x: Object): World {
    w.(objs := w.objs[w.cur := x])
  }

  /** Leaves the section for the place `p`. */
  function Then(w: World, p: Place): World {
    w.(at := Leave(p))
  }

  function Back(w: World, r: Return): World {
    w.(at := Leave(Idle), results := w.results + [r])
  }

  /** The child is known to be dead with that status. */
  function Known(w: World, status: int, why: Why): World
    requires w.cur in w.objs
  {
    if why == AskStatus then Back(w, Reported(w.cur, Cur(w).child, status)) else Then(w, Enter(Unlink(status)))
  }

  function SectionStep(w: World, s: Section): World
    requires w.cur in w.objs
  {
    var x := Cur(w);
    match s
    case ExecRead =>
      (match x.state
       case INIT => Then(w, Doing(Fork))
       case DEAD => Then(w, Doing(Recycle))
       case _ => Back(w, Error(w.cur)))
    case ExecStore(pid) =>
      var w' := SetCur(w, x.(pid := pid, child := if pid > 0 then Some(pid) else x.child));
      if pid == -1 then Back(w', Error(w.cur)) else Then(w', Enter(ExecCheck))
    case ExecCheck =>
      if x.state == INIT then Then(SetCur(w, x.(state := ALIVE)), Enter(ExecPid))
      else Then(w.(broken := w.broken || x.state != ZOMBIE), Enter(ExecPid))
    case ExecPid => Back(w, Started(w.cur, x.pid))
    case WaitRead(why) =>
      if x.state == DEAD then Known(w, x.status, why) else Then(w, Doing(WaitPid(x.pid, true, why)))
    case CheckRead(why) =>
      if x.state == DEAD then Known(w, x.status, why)
      else if x.state == INIT then
        (match why
         case FirstCheck => Then(w, Doing(Nap))
         case SecondCheck => Then(w, Enter(Kill(true)))
         case _ => Back(w, Error(w.cur)))
      else Then(w, Doing(WaitPid(x.pid, false, why)))
    case Update(status, why) =>
      var w' := SetCur(w, x.(state := DEAD, status := status, pid := -1));
      Known(w', status, why)
    case Kill(last) =>
      var stray := x.pid > 0 && (x.pid !in w.procs || w.procs[x.pid].Reaped?);
      var sent: set<nat> := if x.pid > 0 then {x.pid} else {};
      var w' := w.(broken := w.broken || stray);
      if last then Then(w'.(killed := w.killed + sent), Enter(WaitRead(LastWait)))
      else Then(w'.(termed := w.termed + sent), Enter(CheckRead(FirstCheck)))
    case DeleteRead =>
      (match x.state
       case ALIVE => Then(w, Enter(Kill(false)))
       case ZOMBIE => Then(w, Enter(WaitRead(DeleteZombie)))
       case _ => Then(w, Enter(Unlink(x.status))))
    case Unlink(status) => Then(SetCur(w, x.(linked := false)), Doing(Release(status)))
  }

  /** waitpid() on a dead child: it is reaped. */
  function Reap(w: World, pid: nat, why: Why): World
    requires pid in w.procs && w.procs[pid].Dead?
  {
    var p := w.procs[pid];
    w.(procs := w.procs[pid := Reaped(p.owner, p.status)], reaps := w.reaps + multiset{pid}, at := Enter(Update(p.status, why)))
  }

  /** The child is not dead, or waitpid() fails. */
  function NotDead(w: World, why: Why, failed: bool): World {
    var w' := w.(broken := w.broken || failed);
    match why
    case AskStatus => w'.(at := Idle, results := w.results + [if failed then Error(w.cur) else NotYet(w.cur)])
    case DeleteZombie => w'.(at := Idle, results := w.results + [Error(w.cur)])
    case FirstCheck => w'.(at := Doing(Nap))
    case SecondCheck => w'.(at := Enter(Kill(true)))
    case LastWait => w'.(at := Enter(Unlink(0)))
  }

  function ActionStep(w: World, a: Action): World
    requires w.cur in w.objs
  {
    var x := Cur(w);
    match a
    case Recycle => SetCur(w, Object(INIT, -1, 0, x.linked, None)).(at := Doing(Fork))
    case Fork => w
    case WaitPid(pid, blocking, why) =>
      if pid in w.procs && w.procs[pid].Dead? then Reap(w, pid, why)
      else NotDead(w, why, !(pid in w.procs && w.procs[pid].Running? && !blocking))
    case Nap => w.(at := Enter(CheckRead(SecondCheck)))
    case Release(status) =>
      w.(objs := w.objs - {w.cur}, at := Idle, results := w.results + [Deleted(w.cur, x.child, status)])
  }

  /** The object that the handler finds for a pid. */
  ghost predicate Found(w: World, pid: nat, o: nat) {
    o in w.objs && w.objs[o].linked && w.objs[o].pid == pid
  }

  /** pdip_signal_handler() */
  ghost function Handle(w: World, pid: nat): World {
    var w' := w.(pending := w.pending - {pid});
    if exists o :: Found(w, pid, o) then
      var o :| Found(w, pid, o);
      var x := w.objs[o];
      w'.(objs := w.objs[o := x.(state := ZOMBIE)], broken := w.broken || (x.state != ALIVE && x.state != INIT))
    else w'
  }

  /**
   What can happen. A pid is never used twice, a blocking waitpid() waits, the handler runs when SIGCHLD is
   not masked, and pdip_status() does not block on an object that has executed nothing.
   */
  ghost predicate Enabled(w: World, e: Event) {
    match e
    case New => w.at == Idle
    case Begin(o, call) =>
      w.at == Idle && o in w.objs && (call == StatusCall(true) ==> w.objs[o].state != INIT)
    case Go =>
      && w.at != Idle && w.at != Doing(Fork) && w.cur in w.objs
      && (w.at.Doing? && w.at.action.WaitPid? && w.at.action.blocking ==>
            !(w.at.action.pid in w.procs && w.procs[w.at.action.pid].Running?))
    case Forked(pid) => w.at == Doing(Fork) && (pid.Some? ==> pid.value > 0 && pid.value !in w.procs)
    case Die(pid, _, _) => pid in w.procs && w.procs[pid].Running?
    case Signal(pid) => pid in w.pending && !w.masked
  }

  ghost function Step(w: World, e: Event): World
    requires Enabled(w, e)
  {
    match e
    case New => w.(objs := w.objs[w.next := Object(INIT, -1, 0, true, None)], next := w.next + 1)
    case Begin(o, ExecCall) => w.(cur := o, at := Enter(ExecRead))
    case Begin(o, StatusCall(blocking)) => w.(cur := o, at := Enter(if blocking then WaitRead(AskStatus) else CheckRead(AskStatus)))
    case Begin(o, DeleteCall) => w.(cur := o, at := Enter(DeleteRead))
    case Go =>
      (match w.at
       case Enter(s) => w.(masked := true, at := Inside(s))
       case Inside(s) => SectionStep(w, s)
       case Leave(p) => w.(masked := false, at := p)
       case Doing(a) => ActionStep(w, a))
    case Forked(None) => w.(at := Enter(ExecStore(-1)))
    case Forked(Some(pid)) => w.(procs := w.procs[pid := Running(w.cur)], at := Enter(ExecStore(pid)))
    case Die(pid, status, heard) =>
      w.(procs := w.procs[pid := Dead(w.procs[pid].owner, status)], pending := if heard then w.pending + {pid} else w.pending)
    case Signal(pid) => Handle(w, pid)
  }

  // ------------------------------------------------------------------ the invariant

  predicate Held(w: World, pid: int) {
    pid > 0 && pid in w.procs && !w.procs[pid].Reaped?
  }

  /** The thread has reaped the child of the object and is about to say it in the object. */
  function Updating(p: Place): Option<int> {
    match p
    case Enter(Update(s, _)) => Some(s)
    case Inside(Update(s, _)) => Some(s)
    case _ => None
  }

  /** pdip_exec() has stored the pid, and not set the state yet. */
  predicate Checking(p: Place) {
    match p
    case Enter(s) => s.ExecCheck?
    case Inside(s) => s.ExecCheck?
    case Leave(q) => Checking(q)
    case _ => false
  }

  /** The fields of an object say the truth about its child. */
  ghost predicate ObjectOk(w: World, o: nat)
    requires o in w.objs
  {
    var x := w.objs[o];
    && (x.pid == -1 || x.pid > 0)
    && (x.pid > 0 ==>
          && x.child == Some(x.pid) && x.linked && x.pid in w.procs && w.procs[x.pid].owner == o
          && if o == w.cur && Updating(w.at).Some? then w.procs[x.pid] == Reaped(o, Updating(w.at).value)
             else !w.procs[x.pid].Reaped?)
    && (x.state == ALIVE || x.state == ZOMBIE ==> x.pid > 0)
    && (x.state == ZOMBIE ==> x.pid !in w.pending && x.pid in w.procs && !w.procs[x.pid].Running?)
    && (x.state == INIT ==> x.status == 0)
    && (x.state == INIT ==> (x.pid == -1 && x.child == None) || (o == w.cur && Checking(w.at)))
    && (x.state == DEAD ==> x.pid == -1 && x.child.Some? && x.child.value in w.procs
                            && w.procs[x.child.value] == Reaped(o, x.status))
    && (o != w.cur || w.at == Idle ==> x.linked)
  }

  predicate Busy(x: Object) {
    (x.state == ALIVE || x.state == ZOMBIE) && x.pid > 0
  }

  /** The program is over with this status, or there has been none. */
  predicate Over(x: Object, status: int) {
    (x.state == DEAD && x.status == status) || (x.state == INIT && x.pid == -1 && x.child == None && status == 0)
  }

  ghost predicate SectionOk(w: World, x: Object, s: Section) {
    match s
    case ExecRead => x.linked
    case ExecStore(pid) =>
      x.linked && x.state == INIT && x.pid == -1 && (pid == -1 || (Held(w, pid) && w.procs[pid].owner == w.cur))
    case ExecCheck => Held(w, x.pid) && (x.state == INIT || x.state == ZOMBIE)
    case ExecPid => Busy(x)
    case WaitRead(why) => x.linked && if why == AskStatus then x.state != INIT else Busy(x)
    case CheckRead(why) => x.linked && why != DeleteZombie && why != LastWait && (why == AskStatus || Busy(x))
    case Update(status, _) => Busy(x)
    case Kill(_) => Busy(x)
    case DeleteRead => x.linked
    case Unlink(status) => x.linked && Over(x, status)
  }

  ghost predicate ActionOk(w: World, x: Object, a: Action) {
    match a
    case Recycle => x.linked && x.state == DEAD
    case Fork => x.linked && x.state == INIT && x.pid == -1 && x.child == None
    case WaitPid(pid, blocking, why) => Busy(x) && pid == x.pid && (blocking || (why != LastWait && why != DeleteZombie))
    case Nap => Busy(x)
    case Release(status) => !x.linked && Over(x, status)
  }

  ghost predicate PlaceOk(w: World, p: Place)
    decreases p
  {
    match p
    case Idle => true
    case Enter(s) => w.cur in w.objs && SectionOk(w, Cur(w), s)
    case Inside(s) => w.cur in w.objs && SectionOk(w, Cur(w), s)
    case Leave(q) =>
      && !q.Leave? && !q.Inside? && Updating(q) == None && PlaceOk(w, q)
      && w.cur in w.objs && (q == Idle ==> Cur(w).linked)
    case Doing(a) => w.cur in w.objs && ActionOk(w, Cur(w), a)
  }

  /** A child that is not reaped belongs to the object it was started for, or is about to. */
  ghost predicate Owned(w: World, pid: nat)
    requires pid in w.procs
  {
    !w.procs[pid].Reaped? ==>
      var o := w.procs[pid].owner;
      o in w.objs && (w.objs[o].pid == pid || (o == w.cur && (w.at == Enter(ExecStore(pid)) || w.at == Inside(ExecStore(pid)))))
  }

  /** A status reported is the one that the child died with. */
  ghost predicate ReturnOk(w: World, r: Return) {
    match r
    case Reported(o, child, status) => child.Some? && child.value in w.procs && w.procs[child.value] == Reaped(o, status)
    case Deleted(o, child, status) =>
      o < w.next && o !in w.objs
      && (child.Some? ==> child.value in w.procs && w.procs[child.value] == Reaped(o, status))
      && (child == None ==> status == 0)
    case Started(o, pid) => pid in w.procs && w.procs[pid].owner == o
    case _ => true
  }

  ghost predicate ObjectsOk(w: World) {
    forall o :: o in w.objs ==> o < w.next && ObjectOk(w, o)
  }

  ghost predicate ProcessesOk(w: World) {
    forall p :: p in w.procs ==> w.procs[p].owner < w.next && Owned(w, p)
  }

  predicate PendingOk(w: World) {
    forall p :: p in w.pending ==> p in w.procs && !w.procs[p].Running?
  }

  /** Each child is reaped once at most. */
  ghost predicate ReapsOk(w: World) {
    && (forall p :: p in w.procs ==> w.reaps[p] == if w.procs[p].Reaped? then 1 else 0)
    && (forall p :: p !in w.procs ==> w.reaps[p] == 0)
  }

  ghost predicate ReturnsOk(w: World) {
    forall r :: r in w.results ==> ReturnOk(w, r)
  }

  ghost predicate Inv(w: World) {
    && !w.broken && ObjectsOk(w) && ProcessesOk(w) && PendingOk(w) && ReapsOk(w) && ReturnsOk(w)
    && PlaceOk(w, w.at) && (w.masked <==> w.at.Inside? || w.at.Leave?)
  }

  // ------------------------------------------------------------------ every step keeps it

  /** What has been returned stays true: a child reaped stays so, an object deleted does not come back. */
  lemma ReturnsStay(w: World, w': World)
    requires ReturnsOk(w) && w'.results == w.results
    requires forall p :: p in w.procs ==>
               p in w'.procs && w'.procs[p].owner == w.procs[p].owner && (w.procs[p].Reaped? ==> w'.procs[p] == w.procs[p])
    requires w.next <= w'.next && forall o :: o in w'.objs && o < w.next ==> o in w.objs
    ensures ReturnsOk(w')
  {
    forall r | r in w.results ensures ReturnOk(w', r) { assert ReturnOk(w, r); }
  }

  /** The parts that depend neither on the objects nor on the place. */
  lemma Untouched(w: World, w': World)
    requires Inv(w) && w'.procs == w.procs && w'.reaps == w.reaps && w'.pending <= w.pending
    ensures PendingOk(w') && ReapsOk(w')
  {
    hide ObjectsOk, ProcessesOk, ReturnsOk, PlaceOk;
  }

  lemma NewKeeps(w: World)
    requires Inv(w) && Enabled(w, New)
    ensures Inv(Step(w, New))
  {
    var w' := Step(w, New);
    Untouched(w, w');
    ReturnsStay(w, w');
    hide ReturnsOk, PendingOk, ReapsOk;
    forall o | o in w'.objs ensures o < w'.next && ObjectOk(w', o) { assert o in w.objs ==> ObjectOk(w, o); }
    forall p | p in w'.procs ensures Owned(w', p) { assert Owned(w, p); }
  }

  lemma BeginKeeps(w: World, o: nat, call: Call)
    requires Inv(w) && Enabled(w, Begin(o, call))
    ensures Inv(Step(w, Begin(o, call)))
  {
    var w' := Step(w, Begin(o, call));
    Untouched(w, w');
    ReturnsStay(w, w');
    hide ReturnsOk, PendingOk, ReapsOk;
    BeginObjects(w, o, call);
    BeginPlace(w, o, call);
    hide ObjectsOk, ObjectOk, PlaceOk;
    forall p | p in w'.procs ensures Owned(w', p) { assert Owned(w, p); }
  }

  lemma BeginObjects(w: World, o: nat, call: Call)
    requires Inv(w) && Enabled(w, Begin(o, call))
    ensures ObjectsOk(Step(w, Begin(o, call)))
  {
    hide ReturnsOk, PendingOk, ReapsOk, ProcessesOk;
    var w' := Step(w, Begin(o, call));
    forall x | x in w'.objs ensures x < w'.next && ObjectOk(w', x) { assert ObjectOk(w, x); }
  }

  lemma BeginPlace(w: World, o: nat, call: Call)
    requires Inv(w) && Enabled(w, Begin(o, call))
    ensures var w' := Step(w, Begin(o, call)); PlaceOk(w', w'.at)
  {
    hide ReturnsOk, PendingOk, ReapsOk, ProcessesOk;
    assert ObjectOk(w, o);
  }

  lemma DieKeeps(w: World, pid: nat, status: int, heard: bool)
    requires Inv(w) && Enabled(w, Die(pid, status, heard))
    ensures Inv(Step(w, Die(pid, status, heard)))
  {
    var w' := Step(w, Die(pid, status, heard));
    ReturnsStay(w, w');
    DiePlace(w, pid, status, heard, w.at);
    DieObjects(w, pid, status, heard);
    DieCounted(w, pid, status, heard);
    hide ObjectsOk, ObjectOk, ReturnsOk, PlaceOk, PendingOk, ReapsOk;
    forall p | p in w'.procs ensures w'.procs[p].owner < w'.next && Owned(w', p) { assert Owned(w, p); }
  }

  lemma DieCounted(w: World, pid: nat, status: int, heard: bool)
    requires Inv(w) && Enabled(w, Die(pid, status, heard))
    ensures PendingOk(Step(w, Die(pid, status, heard))) && ReapsOk(Step(w, Die(pid, status, heard)))
  {
    hide ReturnsOk, ObjectsOk, ProcessesOk, PlaceOk;
  }

  lemma DieObjects(w: World, pid: nat, status: int, heard: bool)
    requires Inv(w) && Enabled(w, Die(pid, status, heard))
    ensures ObjectsOk(Step(w, Die(pid, status, heard)))
  {
    hide ReturnsOk, PendingOk, ReapsOk, ProcessesOk, PlaceOk;
    var w' := Step(w, Die(pid, status, heard));
    forall o | o in w'.objs ensures o < w'.next && ObjectOk(w', o) { assert ObjectOk(w, o); }
  }

  lemma DiePlace(w: World, pid: nat, status: int, heard: bool, p: Place)
    requires Enabled(w, Die(pid, status, heard)) && PlaceOk(w, p)
    ensures PlaceOk(Step(w, Die(pid, status, heard)), p)
    decreases p
  {
  }

  /** The handler finds an object whose program is not known to be dead: its assert() holds. */
  lemma HandlerAssert(w: World, pid: nat, o: nat)
    requires Inv(w) && pid in w.pending && Found(w, pid, o)
    ensures w.objs[o].state == ALIVE || (w.objs[o].state == INIT && o == w.cur && Checking(w.at))
  {
  }

  function Zombie(w: World, pid: nat, o: nat): World
    requires o in w.objs
  {
    w.(pending := w.pending - {pid}, objs := w.objs[o := w.objs[o].(state := ZOMBIE)])
  }

  lemma ZombieKeeps(w: World, pid: nat, o: nat)
    requires Inv(w) && pid in w.pending && !w.masked && Found(w, pid, o)
    ensures Inv(Zombie(w, pid, o))
  {
    var w' := Zombie(w, pid, o);
    Untouched(w, w');
    ReturnsStay(w, w');
    hide ReturnsOk, PendingOk, ReapsOk;
    HandlerAssert(w, pid, o);
    ZombieObjects(w, pid, o);
    ZombiePlace(w, pid, o);
    hide ObjectsOk, ObjectOk, PlaceOk;
    forall p | p in w'.procs ensures Owned(w', p) { assert Owned(w, p); }
  }

  lemma ZombieObjects(w: World, pid: nat, o: nat)
    requires Inv(w) && pid in w.pending && !w.masked && Found(w, pid, o)
    ensures ObjectsOk(Zombie(w, pid, o))
  {
    hide ReturnsOk, ReapsOk, PlaceOk;
    var w' := Zombie(w, pid, o);
    assert ObjectOk(w, o) && Owned(w, pid);
    forall x | x in w'.objs ensures ObjectOk(w', x) { assert ObjectOk(w, x); }
  }

  lemma ZombiePlace(w: World, pid: nat, o: nat)
    requires Inv(w) && pid in w.pending && !w.masked && Found(w, pid, o)
    ensures PlaceOk(Zombie(w, pid, o), w.at)
  {
    hide ReturnsOk, ReapsOk;
    assert ObjectOk(w, o);
  }

  lemma SignalKeeps(w: World, pid: nat)
    requires Inv(w) && Enabled(w, Signal(pid))
    ensures Inv(Step(w, Signal(pid)))
  {
    var w' := Step(w, Signal(pid));
    if exists o :: Found(w, pid, o) {
      var o :| Found(w, pid, o) && w' == (var x := w.objs[o];
        w.(pending := w.pending - {pid}, objs := w.objs[o := x.(state := ZOMBIE)],
           broken := w.broken || (x.state != ALIVE && x.state != INIT)));
      HandlerAssert(w, pid, o);
      ZombieKeeps(w, pid, o);
    } else {
      Unheard(w, pid);
    }
  }

  /** A signal for no object: its program has been reaped, or is not known yet. */
  lemma Unheard(w: World, pid: nat)
    requires Inv(w)
    ensures Inv(w.(pending := w.pending - {pid}))
  {
    var w' := w.(pending := w.pending - {pid});
    SamePlace(w, w', w.at);
    Untouched(w, w');
    ReturnsStay(w, w');
    hide ReturnsOk, PendingOk, ReapsOk, PlaceOk;
    forall x | x in w'.objs ensures ObjectOk(w', x) { assert ObjectOk(w, x); }
    forall p | p in w'.procs ensures Owned(w', p) { assert Owned(w, p); }
  }

  lemma SamePlace(w: World, w': World, p: Place)
    requires w'.objs == w.objs && w'.procs == w.procs && w'.cur == w.cur && PlaceOk(w, p)
    ensures PlaceOk(w', p)
    decreases p
  {
  }

  lemma ForkedKeeps(w: World, pid: Option<nat>)
    requires Inv(w) && Enabled(w, Forked(pid))
    ensures Inv(Step(w, Forked(pid)))
  {
    var w' := Step(w, Forked(pid));
    ReturnsStay(w, w');
    ForkedObjects(w, pid);
    ForkedProcesses(w, pid);
    ForkedCounted(w, pid);
    hide ObjectsOk, ProcessesOk, ReturnsOk, PendingOk, ReapsOk;
  }

  lemma ForkedCounted(w: World, pid: Option<nat>)
    requires Inv(w) && Enabled(w, Forked(pid))
    ensures PendingOk(Step(w, Forked(pid))) && ReapsOk(Step(w, Forked(pid)))
  {
    hide ReturnsOk, ObjectsOk, ProcessesOk, PlaceOk;
  }

  lemma ForkedObjects(w: World, pid: Option<nat>)
    requires Inv(w) && Enabled(w, Forked(pid))
    ensures ObjectsOk(Step(w, Forked(pid)))
  {
    hide ReturnsOk, ReapsOk, ProcessesOk;
    var w' := Step(w, Forked(pid));
    forall o | o in w'.objs ensures o < w'.next && ObjectOk(w', o) { assert ObjectOk(w, o); }
  }

  lemma ForkedProcesses(w: World, pid: Option<nat>)
    requires Inv(w) && Enabled(w, Forked(pid))
    ensures ProcessesOk(Step(w, Forked(pid)))
  {
    hide ReturnsOk, ReapsOk, PendingOk;
    var w' := Step(w, Forked(pid));
    forall p | p in w'.procs ensures w'.procs[p].owner < w'.next && Owned(w', p) { assert p in w.procs ==> Owned(w, p); }
  }

  // The thread itself.

  lemma EnterKeeps(w: World, s: Section)
    requires Inv(w) && w.at == Enter(s)
    ensures Inv(w.(masked := true, at := Inside(s)))
  {
    var w' := w.(masked := true, at := Inside(s));
    Untouched(w, w');
    ReturnsStay(w, w');
    hide ReturnsOk, PendingOk, ReapsOk, SectionOk;
    forall x | x in w'.objs ensures ObjectOk(w', x) { assert ObjectOk(w, x); }
    forall p | p in w'.procs ensures Owned(w', p) { assert Owned(w, p); }
    SameSection(w, w', s);
  }

  lemma SameSection(w: World, w': World, s: Section)
    requires w'.objs == w.objs && w'.procs == w.procs && w'.cur == w.cur && w.cur in w.objs && SectionOk(w, Cur(w), s)
    ensures SectionOk(w', Cur(w'), s)
  {
  }

  lemma LeaveKeeps(w: World, p: Place)
    requires Inv(w) && w.at == Leave(p)
    ensures Inv(w.(masked := false, at := p))
  {
    var w' := w.(masked := false, at := p);
    Untouched(w, w');
    ReturnsStay(w, w');
    SamePlace(w, w', p);
    hide ReturnsOk, PendingOk, ReapsOk, SectionOk, ActionOk;
    forall x | x in w'.objs ensures ObjectOk(w', x) { assert ObjectOk(w, x); }
    forall p | p in w'.procs ensures Owned(w', p) { assert Owned(w, p); }
  }

  /** A step of the thread that changes at most the object it works on and its own place. */
  ghost predicate Local(w: World, w': World) {
    && w'.procs == w.procs && w'.pending == w.pending && w'.reaps == w.reaps && w'.next == w.next && w'.cur == w.cur
    && w.cur in w.objs && w'.objs.Keys == w.objs.Keys
    && (forall o :: o in w.objs && o != w.cur ==> w'.objs[o] == w.objs[o])
  }

  lemma LocalKeeps(w: World, w': World)
    requires Inv(w) && Local(w, w') && !w'.broken && w.at != Idle
    requires ObjectOk(w', w.cur) && PlaceOk(w', w'.at) && (w'.masked <==> w'.at.Inside? || w'.at.Leave?)
    requires forall p :: p in w.procs && w.procs[p].owner == w.cur ==> Owned(w', p)
    requires w'.at == Idle ==> Cur(w').linked
    requires w'.results == w.results || (exists r :: w'.results == w.results + [r] && ReturnOk(w', r))
    ensures Inv(w')
  {
    Untouched(w, w');
    LocalReturns(w, w');
    hide ReturnsOk, PendingOk, ReapsOk, PlaceOk, ReturnOk;
    forall x | x in w'.objs ensures x < w'.next && ObjectOk(w', x) { assert ObjectOk(w, x); }
    forall p | p in w'.procs ensures Owned(w', p) { assert Owned(w, p); }
  }

  lemma LocalReturns(w: World, w': World)
    requires ReturnsOk(w) && Local(w, w')
    requires w'.results == w.results || (exists r :: w'.results == w.results + [r] && ReturnOk(w', r))
    ensures ReturnsOk(w')
  {
    forall r | r in w'.results ensures ReturnOk(w', r) { assert r in w.results ==> ReturnOk(w, r); }
  }

  lemma ExecReadKeeps(w: World)
    requires Inv(w) && w.at == Inside(ExecRead)
    ensures Inv(SectionStep(w, ExecRead))
  {
    hide Inv;
    CurFacts(w);
    var w' := SectionStep(w, ExecRead);
    assert w'.results == w.results || w'.results == w.results + [Error(w.cur)];
    LocalKeeps(w, w');
  }

  lemma ExecStoreKeeps(w: World, pid: int)
    requires Inv(w) && w.at == Inside(ExecStore(pid))
    ensures Inv(SectionStep(w, ExecStore(pid)))
  {
    hide Inv;
    CurFacts(w);
    var w' := SectionStep(w, ExecStore(pid));
    assert w'.results == w.results || w'.results == w.results + [Error(w.cur)];
    LocalKeeps(w, w');
  }

  lemma ExecCheckKeeps(w: World)
    requires Inv(w) && w.at == Inside(ExecCheck)
    ensures Inv(SectionStep(w, ExecCheck))
  {
    hide Inv;
    CurFacts(w);
    var w' := SectionStep(w, ExecCheck);
    hide ReturnOk, Owned;
    LocalKeeps(w, w');
  }

  lemma ExecPidKeeps(w: World)
    requires Inv(w) && w.at == Inside(ExecPid)
    ensures Inv(SectionStep(w, ExecPid))
  {
    hide Inv;
    CurFacts(w);
    var w' := SectionStep(w, ExecPid);
    assert w'.results == w.results || w'.results == w.results + [Started(w.cur, Cur(w).pid)];
    LocalKeeps(w, w');
  }

  lemma WaitReadKeeps(w: World, why: Why)
    requires Inv(w) && w.at == Inside(WaitRead(why))
    ensures Inv(SectionStep(w, WaitRead(why)))
  {
    hide Inv;
    CurFacts(w);
    var w' := SectionStep(w, WaitRead(why));
    assert w'.results == w.results || w'.results == w.results + [Reported(w.cur, Cur(w).child, Cur(w).status)];
    LocalKeeps(w, w');
  }

  lemma CheckReadKeeps(w: World, why: Why)
    requires Inv(w) && w.at == Inside(CheckRead(why))
    ensures Inv(SectionStep(w, CheckRead(why)))
  {
    hide Inv;
    CurFacts(w);
    var w' := SectionStep(w, CheckRead(why));
    assert w'.results == w.results || w'.results == w.results + [Error(w.cur)]
           || w'.results == w.results + [Reported(w.cur, Cur(w).child, Cur(w).status)];
    LocalKeeps(w, w');
  }

  lemma UpdateKeeps(w: World, status: int, why: Why)
    requires Inv(w) && w.at == Inside(Update(status, why))
    ensures Inv(SectionStep(w, Update(status, why)))
  {
    hide Inv;
    CurFacts(w);
    var w' := SectionStep(w, Update(status, why));
    assert w'.results == w.results || w'.results == w.results + [Reported(w.cur, Cur(w).child, status)];
    LocalKeeps(w, w');
  }

  lemma KillKeeps(w: World, last: bool)
    requires Inv(w) && w.at == Inside(Kill(last))
    ensures Inv(SectionStep(w, Kill(last)))
  {
    hide Inv;
    CurFacts(w);
    var w' := SectionStep(w, Kill(last));
    hide ReturnOk, Owned;
    LocalKeeps(w, w');
  }

  lemma DeleteReadKeeps(w: World)
    requires Inv(w) && w.at == Inside(DeleteRead)
    ensures Inv(SectionStep(w, DeleteRead))
  {
    hide Inv;
    CurFacts(w);
    match Cur(w).state {
      case ALIVE => GoesTo(w, Enter(Kill(false)));
      case ZOMBIE => GoesTo(w, Enter(WaitRead(DeleteZombie)));
      case _ => GoesTo(w, Enter(Unlink(Cur(w).status)));
    }
  }

  /** A section that changes nothing in the object. */
  lemma GoesTo(w: World, p: Place)
    requires Inv(w) && w.at.Inside? && !w.at.section.ExecStore? && PlaceOk(w, Leave(p)) && !Checking(w.at)
    requires Updating(w.at) == None
    ensures Inv(Then(w, p))
  {
    hide Inv;
    CurFacts(w);
    SamePlace(w, Then(w, p), Leave(p));
    LocalKeeps(w, Then(w, p));
  }

  lemma UnlinkKeeps(w: World, status: int)
    requires Inv(w) && w.at == Inside(Unlink(status))
    ensures Inv(SectionStep(w, Unlink(status)))
  {
    hide Inv;
    CurFacts(w);
    var w' := SectionStep(w, Unlink(status));
    hide ReturnOk, Owned;
    LocalKeeps(w, w');
  }

  lemma CurFacts(w: World)
    requires Inv(w) && (w.at.Inside? || w.at.Doing?)
    ensures w.cur in w.objs && ObjectOk(w, w.cur) && PlaceOk(w, w.at) && !w.broken
    ensures forall p :: p in w.procs ==> Owned(w, p)
    ensures w.masked <==> w.at.Inside?
  {
  }

  lemma SectionKeeps(w: World, s: Section)
    requires Inv(w) && w.at == Inside(s)
    ensures Inv(SectionStep(w, s))
  {
    match s {
      case ExecRead => ExecReadKeeps(w);
      case ExecStore(pid) => ExecStoreKeeps(w, pid);
      case ExecCheck => ExecCheckKeeps(w);
      case ExecPid => ExecPidKeeps(w);
      case WaitRead(why) => WaitReadKeeps(w, why);
      case CheckRead(why) => CheckReadKeeps(w, why);
      case Update(status, why) => UpdateKeeps(w, status, why);
      case Kill(last) => KillKeeps(w, last);
      case DeleteRead => DeleteReadKeeps(w);
      case Unlink(status) => UnlinkKeeps(w, status);
    }
  }

  lemma RecycleKeeps(w: World)
    requires Inv(w) && w.at == Doing(Recycle)
    ensures Inv(ActionStep(w, Recycle))
  {
    hide Inv;
    CurFacts(w);
    LocalKeeps(w, ActionStep(w, Recycle));
  }

  lemma NotDeadKeeps(w: World, pid: int, blocking: bool, why: Why)
    requires Inv(w) && w.at == Doing(WaitPid(pid, blocking, why)) && Enabled(w, Go)
    requires pid in w.procs && !w.procs[pid].Dead?
    ensures !blocking && w.procs[pid].Running? && Inv(NotDead(w, why, false))
  {
    hide Inv;
    CurFacts(w);
    var r := NotYet(w.cur);
    assert why == AskStatus ==> NotDead(w, why, false).results == w.results + [r] && ReturnOk(w, r);
    LocalKeeps(w, NotDead(w, why, false));
  }

  lemma ReapKeeps(w: World, pid: nat, blocking: bool, why: Why)
    requires Inv(w) && w.at == Doing(WaitPid(pid, blocking, why)) && pid in w.procs && w.procs[pid].Dead?
    ensures Inv(Reap(w, pid, why))
  {
    hide ReturnsOk, ObjectsOk, PendingOk, ReapsOk, ProcessesOk;
    ReturnsStay(w, Reap(w, pid, why));
    ReapObjects(w, pid, blocking, why);
    ReapCounted(w, pid, why);
    ReapProcesses(w, pid, blocking, why);
  }

  lemma ReapProcesses(w: World, pid: nat, blocking: bool, why: Why)
    requires Inv(w) && w.at == Doing(WaitPid(pid, blocking, why)) && pid in w.procs && w.procs[pid].Dead?
    ensures ProcessesOk(Reap(w, pid, why))
  {
    hide ReturnsOk, ObjectsOk, PendingOk, ReapsOk, PlaceOk;
    var w' := Reap(w, pid, why);
    forall p | p in w'.procs ensures w'.procs[p].owner < w'.next && Owned(w', p) { assert Owned(w, p); }
  }

  lemma ReapCounted(w: World, pid: nat, why: Why)
    requires Inv(w) && pid in w.procs && w.procs[pid].Dead?
    ensures PendingOk(Reap(w, pid, why)) && ReapsOk(Reap(w, pid, why))
  {
    hide ReturnsOk, ObjectsOk, ProcessesOk, PlaceOk;
  }

  lemma ReapObjects(w: World, pid: nat, blocking: bool, why: Why)
    requires Inv(w) && w.at == Doing(WaitPid(pid, blocking, why)) && pid in w.procs && w.procs[pid].Dead?
    ensures ObjectsOk(Reap(w, pid, why)) && w.procs[pid].owner == w.cur
  {
    hide ReturnsOk, PendingOk, ReapsOk, ProcessesOk;
    var w' := Reap(w, pid, why);
    assert ObjectOk(w, w.cur);
    forall x | x in w'.objs ensures x < w'.next && ObjectOk(w', x) { assert ObjectOk(w, x); }
  }

  lemma ReleaseKeeps(w: World, status: int)
    requires Inv(w) && w.at == Doing(Release(status))
    ensures Inv(ActionStep(w, Release(status)))
  {
    var w' := ActionStep(w, Release(status));
    Untouched(w, w');
    assert ObjectOk(w, w.cur);
    ReleaseReturns(w, status);
    hide ReturnsOk, PendingOk, ReapsOk;
    forall x | x in w'.objs ensures x < w'.next && ObjectOk(w', x) { assert ObjectOk(w, x); }
    forall p | p in w'.procs ensures Owned(w', p) { assert Owned(w, p); }
  }

  lemma ReleaseReturns(w: World, status: int)
    requires Inv(w) && w.at == Doing(Release(status))
    ensures ReturnsOk(ActionStep(w, Release(status)))
  {
    hide PendingOk, ReapsOk, ProcessesOk;
    var w' := ActionStep(w, Release(status));
    assert ObjectOk(w, w.cur);
    forall r | r in w'.results ensures ReturnOk(w', r) { assert r in w.results ==> ReturnOk(w, r); }
  }

  lemma NapKeeps(w: World)
    requires Inv(w) && w.at == Doing(Nap)
    ensures Inv(ActionStep(w, Nap))
  {
    hide Inv;
    CurFacts(w);
    LocalKeeps(w, ActionStep(w, Nap));
  }

  lemma GoKeeps(w: World)
    requires Inv(w) && Enabled(w, Go)
    ensures Inv(Step(w, Go))
  {
    match w.at {
      case Enter(s) => EnterKeeps(w, s);
      case Inside(s) => SectionKeeps(w, s);
      case Leave(p) => LeaveKeeps(w, p);
      case Doing(Recycle) => RecycleKeeps(w);
      case Doing(WaitPid(pid, blocking, why)) =>
        assert ObjectOk(w, w.cur);
        if w.procs[pid].Dead? {
          ReapKeeps(w, pid, blocking, why);
        } else {
          NotDeadKeeps(w, pid, blocking, why);
        }
      case Doing(Nap) => NapKeeps(w);
      case Doing(Release(status)) => ReleaseKeeps(w, status);
    }
  }

  /** No step breaks the life cycle. */
  lemma StepKeeps(w: World, e: Event)
    requires Inv(w) && Enabled(w, e)
    ensures Inv(Step(w, e))
  {
    match e {
      case New => NewKeeps(w);
      case Begin(o, call) => BeginKeeps(w, o, call);
      case Go => GoKeeps(w);
      case Forked(pid) => ForkedKeeps(w, pid);
      case Die(pid, status, heard) => DieKeeps(w, pid, status, heard);
      case Signal(pid) => SignalKeeps(w, pid);
    }
  }

  // ------------------------------------------------------------------ over whole runs

  ghost function Run(w: World, es: seq<Event>): World {
    if es == [] then w
    else
      var w', e := Run(w, es[..|es| - 1]), es[|es| - 1];
      if Enabled(w', e) then Step(w', e) else w'
  }

  /** Before the first object: no process, nothing pending. */
  predicate Initial(w: World) {
    w.objs == map[] && w.procs == map[] && w.pending == {} && !w.masked && w.at == Idle && w.results == []
    && w.reaps == multiset{} && w.termed == {} && w.killed == {} && !w.broken
  }

  /**
   Over every run, whatever dies whenever and whichever signals get lost: the assertions of the handler and
   of pdip_exec() hold, waitpid() is only called for unreaped children and kill() never reaches anything
   else (`broken`); a child is reaped at most once; and the fields of the objects tell the truth (Inv).
   */
  lemma {:induction false} RunKeeps(w: World, es: seq<Event>)
    requires Initial(w)
    ensures Inv(Run(w, es))
    ensures !Run(w, es).broken && forall p: nat :: Run(w, es).reaps[p] <= 1
  {
    if es == [] {
      assert Inv(w);
    } else {
      var before, e := es[..|es| - 1], es[|es| - 1];
      RunKeeps(w, before);
      if Enabled(Run(w, before), e) {
        StepKeeps(Run(w, before), e);
      }
    }
    var w' := Run(w, es);
    forall p: nat ensures w'.reaps[p] <= 1 {
      assert p in w'.procs || p !in w'.procs;
    }
  }

  /** A dead object has no pid; its status is the one its child was reaped with. */
  lemma DeadObject(w: World, es: seq<Event>, o: nat)
    requires Initial(w)
    requires var w' := Run(w, es); o in w'.objs && w'.objs[o].state == DEAD
    ensures var w' := Run(w, es);
            var x := w'.objs[o];
            x.pid == -1 && x.child.Some? && x.child.value in w'.procs && w'.procs[x.child.value] == Reaped(o, x.status)
  {
    RunKeeps(w, es);
    assert ObjectOk(Run(w, es), o);
  }

  /** How a child ended never changes. */
  lemma EndIsFinal(w: World, e: Event, pid: nat)
    requires Enabled(w, e) && pid in w.procs && !w.procs[pid].Running?
    ensures var w' := Step(w, e);
            && pid in w'.procs && !w'.procs[pid].Running?
            && w'.procs[pid].owner == w.procs[pid].owner && w'.procs[pid].status == w.procs[pid].status
            && (w.procs[pid].Reaped? ==> w'.procs[pid] == w.procs[pid])
  {
    match e {
      case Go =>
        match w.at {
          case Inside(s) => SectionProcesses(w, s);
          case _ =>
        }
      case _ =>
    }
  }

  lemma SectionProcesses(w: World, s: Section)
    requires w.cur in w.objs
    ensures SectionStep(w, s).procs == w.procs
  {
    hide SectionStep;
    SectionFrame(w, s);
  }

  lemma KnownFrame(w: World, status: int, why: Why)
    requires w.cur in w.objs
    ensures var w' := Known(w, status, why); w'.procs == w.procs && w'.objs == w.objs && w.results <= w'.results
  {
  }

  /** A section changes neither the children nor the other objects, and results are only appended. */
  lemma SectionFrame(w: World, s: Section)
    requires w.cur in w.objs
    ensures var w' := SectionStep(w, s);
            && w'.procs == w.procs && w.results <= w'.results
            && forall o :: o in w.objs ==> o in w'.objs && (o != w.cur ==> w'.objs[o] == w.objs[o])
  {
    hide Known;
    var x := Cur(w);
    match s {
      case WaitRead(why) => KnownFrame(w, x.status, why);
      case CheckRead(why) => KnownFrame(w, x.status, why);
      case Update(status, why) => KnownFrame(SetCur(w, x.(state := DEAD, status := status, pid := -1)), status, why);
      case Kill(last) => KillFrame(w, last);
      case _ => PlainFrame(w, s);
    }
  }

  lemma KillFrame(w: World, last: bool)
    requires w.cur in w.objs
    ensures var w' := SectionStep(w, Kill(last)); w'.procs == w.procs && w'.results == w.results && w'.objs == w.objs
  {
  }

  lemma PlainFrame(w: World, s: Section)
    requires w.cur in w.objs && !s.WaitRead? && !s.CheckRead? && !s.Update? && !s.Kill?
    ensures var w' := SectionStep(w, s);
            && w'.procs == w.procs && w.results <= w'.results
            && forall o :: o in w.objs ==> o in w'.objs && (o != w.cur ==> w'.objs[o] == w.objs[o])
  {
  }

  lemma {:induction false} EndIsFinalOverRuns(w: World, es: seq<Event>, pid: nat)
    requires pid in w.procs && !w.procs[pid].Running?
    ensures var w' := Run(w, es);
            && pid in w'.procs && !w'.procs[pid].Running?
            && w'.procs[pid].owner == w.procs[pid].owner && w'.procs[pid].status == w.procs[pid].status
            && (w.procs[pid].Reaped? ==> w'.procs[pid] == w.procs[pid])
  {
    if es != [] {
      EndIsFinalOverRuns(w, es[..|es| - 1], pid);
      var w', e := Run(w, es[..|es| - 1]), es[|es| - 1];
      if Enabled(w', e) {
        EndIsFinal(w', e, pid);
      }
    }
  }

  /** The status of a dead object does not change, until something else is executed in it. */
  lemma DeadStatusFixed(w: World, e: Event, o: nat)
    requires Inv(w) && Enabled(w, e) && o in w.objs && w.objs[o].state == DEAD
    requires !(w.at == Doing(Recycle) && e == Go && w.cur == o) && o in Step(w, e).objs
    ensures Step(w, e).objs[o].state == DEAD && Step(w, e).objs[o].status == w.objs[o].status
            && Step(w, e).objs[o].child == w.objs[o].child && Step(w, e).objs[o].pid == -1
  {
    hide ReturnsOk, ReapsOk, PendingOk, ProcessesOk;
    assert ObjectOk(w, o);
    match e {
      case Signal(pid) =>
        hide Inv, ObjectOk;
        assert !Found(w, pid, o);
      case Go =>
        GoOnDead(w, o);
      case _ =>
        hide Inv, ObjectOk;
    }
  }

  /** The thread leaves a dead object as it is, up to its link in the list. */
  lemma GoOnDead(w: World, o: nat)
    requires Inv(w) && Enabled(w, Go) && o in w.objs && w.objs[o].state == DEAD
    requires !(w.at == Doing(Recycle) && w.cur == o) && o in Step(w, Go).objs
    ensures Step(w, Go).objs[o] == w.objs[o] || Step(w, Go).objs[o] == w.objs[o].(linked := false)
  {
    hide ObjectOk, Owned, ReturnOk;
    match w.at {
      case Inside(s) =>
        SectionOthers(w, s, o);
        if o == w.cur {
          SectionOnDead(w, s);
        }
      case Leave(_) =>
      case Enter(_) =>
      case Doing(a) => hide Inv, PlaceOk;
    }
  }

  lemma SectionOthers(w: World, s: Section, o: nat)
    requires w.cur in w.objs && o in w.objs
    ensures o in SectionStep(w, s).objs && (o != w.cur ==> SectionStep(w, s).objs[o] == w.objs[o])
  {
    hide SectionStep;
    SectionFrame(w, s);
  }

  lemma SectionOnDead(w: World, s: Section)
    requires w.cur in w.objs && SectionOk(w, Cur(w), s) && Cur(w).state == DEAD
    ensures w.cur in SectionStep(w, s).objs
    ensures Cur(SectionStep(w, s)) == Cur(w) || Cur(SectionStep(w, s)) == Cur(w).(linked := false)
  {
  }

  /** Every status that pdip_status() has reported is the one that the child of the object died with. */
  lemma ReportsAreReal(w: World, es: seq<Event>, o: nat, child: Option<nat>, status: int)
    requires Initial(w) && Reported(o, child, status) in Run(w, es).results
    ensures child.Some? && child.value in Run(w, es).procs && Run(w, es).procs[child.value] == Reaped(o, status)
  {
    RunKeeps(w, es);
    assert ReturnOk(Run(w, es), Reported(o, child, status));
  }

  /** Once an object is deleted, all the children that were ever started in it are reaped. */
  lemma DeletedLeavesNothing(w: World, es: seq<Event>, o: nat, child: Option<nat>, status: int, pid: nat)
    requires Initial(w)
    requires var w' := Run(w, es);
             Deleted(o, child, status) in w'.results && pid in w'.procs && w'.procs[pid].owner == o
    ensures Run(w, es).procs[pid].Reaped?
    ensures child.Some? ==> child.value in Run(w, es).procs && Run(w, es).procs[child.value] == Reaped(o, status)
    ensures child == None ==> status == 0
  {
    RunKeeps(w, es);
    assert ReturnOk(Run(w, es), Deleted(o, child, status));
    assert Owned(Run(w, es), pid);
  }

  // ------------------------------------------------------------------ pdip_status() in blocking mode

  /** Steps left to the thread from a place inside the call, 0 outside of it. */
  function Rank(p: Place): nat {
    match p
    case Enter(WaitRead(AskStatus)) => 6
    case Inside(WaitRead(AskStatus)) => 5
    case Leave(Doing(WaitPid(_, true, AskStatus))) => 4
    case Doing(WaitPid(_, true, AskStatus)) => 3
    case Enter(Update(_, AskStatus)) => 2
    case Inside(Update(_, AskStatus)) => 1
    case _ => 0
  }

  /** The thread is inside the call on the object `o`, whose last program is `child`. */
  ghost predicate Asking(w: World, o: nat, child: Option<nat>) {
    Rank(w.at) > 0 && w.cur == o && o in w.objs && w.objs[o].child == child
  }

  /** It waits for its own child, which is still running. */
  predicate Waiting(w: World) {
    w.at.Doing? && w.at.action.WaitPid? && w.at.action.pid in w.procs && w.procs[w.at.action.pid].Running?
  }

  /** The call has returned the status that the child died with, as the result number `n`. */
  ghost predicate Answered(w: World, o: nat, child: Option<nat>, n: nat) {
    && child.Some? && n < |w.results| && child.value in w.procs && w.procs[child.value].Reaped?
    && w.results[n] == Reported(o, child, w.procs[child.value].status) && w.procs[child.value].owner == o
  }

  /** One step of the thread: nearer to the end of the call, or at its end. */
  lemma AskingGo(w: World, o: nat, child: Option<nat>)
    requires Inv(w) && Asking(w, o, child) && Enabled(w, Go)
    ensures var w' := Step(w, Go);
            || (w'.results == w.results && Asking(w', o, child) && Rank(w'.at) < Rank(w.at))
            || (exists status :: w'.results == w.results + [Reported(o, child, status)])
  {
    hide ReturnsOk, ReapsOk, PendingOk, ProcessesOk;
    assert ObjectOk(w, o);
    hide ObjectsOk;
    match w.at {
      case Inside(WaitRead(AskStatus)) =>
        var x := w.objs[o];
        if x.state == DEAD {
          assert Step(w, Go).results == w.results + [Reported(o, child, x.status)];
        }
      case Inside(Update(status, AskStatus)) =>
        assert Step(w, Go).results == w.results + [Reported(o, child, status)];
      case _ =>
    }
  }

  /** Whatever else happens leaves the call where it is. */
  lemma AskingOther(w: World, o: nat, child: Option<nat>, e: Event)
    requires Inv(w) && Asking(w, o, child) && Enabled(w, e) && e != Go
    ensures var w' := Step(w, e); w'.results == w.results && w'.at == w.at && Asking(w', o, child)
  {
    hide Inv;
  }

  /** The thread goes on, unless it waits for its own child: an unreaped one, whose pid it has read. */
  lemma AskingGoesOn(w: World, o: nat, child: Option<nat>)
    requires Inv(w) && Asking(w, o, child)
    ensures Enabled(w, Go) <==> !Waiting(w)
    ensures w.at.Doing? ==> child == Some(w.at.action.pid) && Held(w, w.at.action.pid)
  {
    assert ObjectOk(w, o);
  }

  /** Results are only appended. */
  lemma ResultsGrow(w: World, e: Event)
    requires Enabled(w, e)
    ensures w.results <= Step(w, e).results
  {
    if e == Go {
      match w.at {
        case Inside(s) => SectionResults(w, s);
        case _ =>
      }
    }
  }

  lemma SectionResults(w: World, s: Section)
    requires w.cur in w.objs
    ensures w.results <= SectionStep(w, s).results
  {
    hide SectionStep;
    SectionFrame(w, s);
  }

  lemma AnsweredStays(w: World, e: Event, o: nat, child: Option<nat>, n: nat)
    requires Enabled(w, e) && Answered(w, o, child, n)
    ensures Answered(Step(w, e), o, child, n)
  {
    ResultsGrow(w, e);
    EndIsFinal(w, e, child.value);
    hide Step;
  }

  /** Number of steps that the thread makes in a run. */
  ghost function Steps(w: World, es: seq<Event>): nat {
    if es == [] then 0
    else
      var before, e := es[..|es| - 1], es[|es| - 1];
      Steps(w, before) + if e == Go && Enabled(Run(w, before), Go) then 1 else 0
  }

  lemma {:induction false} RunKeepsFrom(w: World, es: seq<Event>)
    requires Inv(w)
    ensures Inv(Run(w, es))
  {
    if es != [] {
      var before, e := es[..|es| - 1], es[|es| - 1];
      RunKeepsFrom(w, before);
      if Enabled(Run(w, before), e) {
        StepKeeps(Run(w, before), e);
      }
    }
  }

  /** A new report is the truth about the child. */
  lemma ReportedIsAnswer(w: World, w': World, o: nat, child: Option<nat>, status: int)
    requires Inv(w') && w'.results == w.results + [Reported(o, child, status)]
    ensures Answered(w', o, child, |w.results|)
  {
    assert Reported(o, child, status) in w'.results;
    assert ReturnOk(w', Reported(o, child, status));
  }

  /** Where the call is, one event further on. */
  lemma CallStep(w0: World, w: World, e: Event, o: nat, child: Option<nat>, steps: nat)
    requires Inv(w) && Enabled(w, e)
    requires Answered(w, o, child, |w0.results|)
             || (w.results == w0.results && Asking(w, o, child) && steps + Rank(w.at) <= 6)
    ensures var w' := Step(w, e);
            || Answered(w', o, child, |w0.results|)
            || (w'.results == w0.results && Asking(w', o, child)
                && steps + (if e == Go then 1 else 0) + Rank(w'.at) <= 6)
  {
    StepKeeps(w, e);
    if Answered(w, o, child, |w0.results|) {
      AnsweredStays(w, e, o, child, |w0.results|);
    } else if e == Go {
      AskingGo(w, o, child);
      hide Inv, Step, Asking;
      if Step(w, Go).results != w0.results {
        var status :| Step(w, Go).results == w.results + [Reported(o, child, status)];
        ReportedIsAnswer(w, Step(w, Go), o, child, status);
      }
    } else {
      AskingOther(w, o, child, e);
    }
  }

  lemma {:induction false} CallRun(w: World, es: seq<Event>, o: nat, child: Option<nat>)
    requires Inv(w) && w.at == Enter(WaitRead(AskStatus)) && Asking(w, o, child)
    ensures var w' := Run(w, es);
            || Answered(w', o, child, |w.results|)
            || (w'.results == w.results && Asking(w', o, child) && Steps(w, es) + Rank(w'.at) <= 6)
  {
    if es != [] {
      var before, e := es[..|es| - 1], es[|es| - 1];
      CallRun(w, before, o, child);
      RunKeepsFrom(w, before);
      hide Inv, Step, Asking, Answered, Enabled;
      if Enabled(Run(w, before), e) {
        CallStep(w, Run(w, before), e, o, child, Steps(w, before));
      }
    }
  }

  /**
   pdip_status() in blocking mode, on an object in which a program was executed, under every interleaving
   with deaths and signals, lost or not: it is answered by nothing but the status that the program died
   with. Until then the thread is inside the call, makes at most five steps in it, and is only held up while
   its own child, which nobody else has reaped, is running.
   */
  lemma BlockingStatus(w: World, o: nat, es: seq<Event>)
    requires Inv(w) && o in w.objs && w.cur == o && w.at == Enter(WaitRead(AskStatus))
    ensures var w', child := Run(w, es), w.objs[o].child;
            if |w'.results| > |w.results| then Answered(w', o, child, |w.results|)
            else
              && w'.results == w.results && Asking(w', o, child) && Steps(w, es) <= 5
              && (!Enabled(w', Go) ==>
                    w'.at.Doing? && child == Some(w'.at.action.pid) && w'.procs[w'.at.action.pid].Running?)
  {
    var w', child := Run(w, es), w.objs[o].child;
    CallRun(w, es, o, child);
    RunKeepsFrom(w, es);
    hide Inv, Run, Steps, Enabled;
    if !Answered(w', o, child, |w.results|) {
      AskingGoesOn(w', o, child);
    }
  }

  /** The same from the call itself. */
  lemma BlockingCall(w: World, o: nat, es: seq<Event>)
    requires Inv(w) && Enabled(w, Begin(o, StatusCall(true)))
    ensures var w' := Run(Step(w, Begin(o, StatusCall(true))), es);
            |w'.results| > |w.results| ==> Answered(w', o, w.objs[o].child, |w.results|)
  {
    BeginKeeps(w, o, StatusCall(true));
    BlockingStatus(Step(w, Begin(o, StatusCall(true))), o, es);
  }
}
