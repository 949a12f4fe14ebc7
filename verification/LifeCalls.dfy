/**
 What the calls of the library answer under every interleaving with the deaths of the children and their
 signals: pdip_status() without blocking, pdip_exec() and pdip_delete().
 */
module LifeCalls {
  import opened Bytes
  import opened LifeCycle

  // ------------------------------------------------------------------ pdip_status() in non-blocking mode

  /** Steps left to the thread from a place inside the call, 0 outside of it. */
  function PollRank(p: Place): nat {
    match p
    case Enter(CheckRead(AskStatus)) => 6
    case Inside(CheckRead(AskStatus)) => 5
    case Leave(Doing(WaitPid(_, false, AskStatus))) => 4
    case Doing(WaitPid(_, false, AskStatus)) => 3
    case Enter(Update(_, AskStatus)) => 2
    case Inside(Update(_, AskStatus)) => 1
    case _ => 0
  }

  /** The thread is inside the call on the object `o`, whose last program is `child`. */
  ghost predicate Polling(w: World, o: nat, child: Option<nat>) {
    PollRank(w.at) > 0 && w.cur == o && o in w.objs && w.objs[o].child == child
  }

  /** waitpid() is being called, and the child is running. */
  predicate StillRuns(w: World, child: Option<nat>) {
    && child.Some? && w.at == Doing(WaitPid(child.value, false, AskStatus))
    && child.value in w.procs && w.procs[child.value].Running?
  }

  /** The waitpid() made in the call that gives the result number `n` has found the child running. */
  ghost predicate Missed(w: World, es: seq<Event>, child: Option<nat>, n: nat) {
    if es == [] then false
    else
      var before, e := es[..|es| - 1], es[|es| - 1];
      var v := Run(w, before);
      Missed(w, before, child, n) || (e == Go && |v.results| == n && StillRuns(v, child))
  }

  /** The result number `n`: an error when nothing was executed, otherwise "not yet" exactly when the child was
      running at the waitpid() of the call, and else the status that it died with. */
  ghost predicate Polled(w: World, o: nat, child: Option<nat>, n: nat, missed: bool) {
    && n < |w.results|
    && if child == None then w.results[n] == Error(o)
       else if missed then w.results[n] == NotYet(o)
       else Answered(w, o, child, n)
  }

  lemma PollGo(w: World, o: nat, child: Option<nat>)
    requires Inv(w) && Polling(w, o, child) && Enabled(w, Go)
    ensures var w' := Step(w, Go);
            if StillRuns(w, child) then w'.results == w.results + [NotYet(o)]
            else
              || (w'.results == w.results && Polling(w', o, child) && PollRank(w'.at) < PollRank(w.at))
              || (child == None && w'.results == w.results + [Error(o)])
              || (child.Some? && exists status :: w'.results == w.results + [Reported(o, child, status)])
  {
    hide ReturnsOk, ReapsOk, PendingOk, ProcessesOk;
    assert ObjectOk(w, o);
    hide ObjectsOk;
    match w.at {
      case Inside(CheckRead(AskStatus)) =>
        var x := w.objs[o];
        if x.state == DEAD {
          assert Step(w, Go).results == w.results + [Reported(o, child, x.status)];
        }
      case Inside(Update(status, AskStatus)) =>
        assert Step(w, Go).results == w.results + [Reported(o, child, status)];
      case _ =>
    }
  }

  lemma PollOther(w: World, o: nat, child: Option<nat>, e: Event)
    requires Polling(w, o, child) && Enabled(w, e) && e != Go
    ensures var w' := Step(w, e); w'.results == w.results && w'.at == w.at && Polling(w', o, child)
  {
  }

  lemma PolledStays(w: World, e: Event, o: nat, child: Option<nat>, n: nat, missed: bool)
    requires Enabled(w, e) && Polled(w, o, child, n, missed)
    ensures Polled(Step(w, e), o, child, n, missed)
  {
    hide Step, Answered;
    ResultsGrow(w, e);
    if child.Some? && !missed {
      AnsweredStays(w, e, o, child, n);
    }
  }

  /** Where the call is: still inside, or answered. */
  ghost predicate PollState(w: World, o: nat, child: Option<nat>, n: nat, missed: bool, steps: nat) {
    if |w.results| > n then Polled(w, o, child, n, missed)
    else |w.results| == n && Polling(w, o, child) && !missed && steps + PollRank(w.at) <= 6
  }

  lemma PollStep(w: World, e: Event, o: nat, child: Option<nat>, n: nat, missed: bool, steps: nat)
    requires Inv(w) && Enabled(w, e) && PollState(w, o, child, n, missed, steps)
    ensures PollState(Step(w, e), o, child, n, missed || (e == Go && |w.results| == n && StillRuns(w, child)),
                      steps + if e == Go then 1 else 0)
  {
    StepKeeps(w, e);
    hide Inv, Enabled, Step, Polling, StillRuns, Answered;
    if |w.results| > n {
      PolledStays(w, e, o, child, n, missed);
      ResultsGrow(w, e);
    } else if e == Go {
      PollGo(w, o, child);
      var w' := Step(w, Go);
      if w'.results != w.results && child.Some? && !StillRuns(w, child) {
        var status :| w'.results == w.results + [Reported(o, child, status)];
        ReportedIsAnswer(w, w', o, child, status);
      }
    } else {
      PollOther(w, o, child, e);
    }
  }

  lemma {:induction false} PollRun(w: World, es: seq<Event>, o: nat, child: Option<nat>)
    requires Inv(w) && w.at == Enter(CheckRead(AskStatus)) && Polling(w, o, child)
    ensures PollState(Run(w, es), o, child, |w.results|, Missed(w, es, child, |w.results|), Steps(w, es))
  {
    if es != [] {
      var before, e := es[..|es| - 1], es[|es| - 1];
      PollRun(w, before, o, child);
      RunKeepsFrom(w, before);
      var v := Run(w, before);
      if Enabled(v, e) {
        hide Inv, Step, Enabled, PollState, StillRuns;
        PollStep(v, e, o, child, |w.results|, Missed(w, before, child, |w.results|), Steps(w, before));
      } else {
        NotHeldUp(v, o, child);
        hide Inv, Step, Enabled, Polling, Polled, StillRuns, Answered;
      }
    }
  }

  /** The call is never held up. */
  lemma NotHeldUp(w: World, o: nat, child: Option<nat>)
    requires Inv(w)
    ensures Polling(w, o, child) || StillRuns(w, child) ==> Enabled(w, Go)
  {
  }

  /** A child that is dead is not missed. */
  lemma {:induction false} NotMissed(w: World, es: seq<Event>, child: Option<nat>, n: nat)
    requires child.Some? && child.value in w.procs && !w.procs[child.value].Running?
    ensures !Missed(w, es, child, n)
  {
    if es != [] {
      NotMissed(w, es[..|es| - 1], child, n);
      EndIsFinalOverRuns(w, es[..|es| - 1], child.value);
      hide Step, Enabled;
    }
  }

  /**
   pdip_status() in non-blocking mode, under every interleaving with deaths and signals, lost or not: an error
   exactly when nothing was executed in the object; "not yet" exactly when the child is running at the waitpid()
   of this call; otherwise the status that the child was reaped with, and so in particular when it was dead or
   reaped at the call already. The call takes at most five steps more and is never held up.
   */
  lemma PollingCall(w: World, o: nat, es: seq<Event>)
    requires Inv(w) && Enabled(w, Begin(o, StatusCall(false)))
    ensures var w1, child, n := Step(w, Begin(o, StatusCall(false))), w.objs[o].child, |w.results|;
            var w', missed := Run(w1, es), Missed(w1, es, child, n);
            && (if |w'.results| > n then Polled(w', o, child, n, missed) else Steps(w1, es) <= 5 && Enabled(w', Go))
            && (child.Some? ==> child.value in w.procs && (!w.procs[child.value].Running? ==> !missed))
            && (child == None <==> w.objs[o].state == INIT)
  {
    var e := Begin(o, StatusCall(false));
    var w1, child, n := Step(w, e), w.objs[o].child, |w.results|;
    BeginKeeps(w, o, StatusCall(false));
    ChildKnown(w, o);
    PollRun(w1, es, o, child);
    RunKeepsFrom(w1, es);
    NotHeldUp(Run(w1, es), o, child);
    if child.Some? && !w.procs[child.value].Running? {
      NotMissed(w1, es, child, n);
    }
    hide Inv, Run, Steps, Missed, Polled, Enabled;
  }

  lemma ChildKnown(w: World, o: nat)
    requires Inv(w) && o in w.objs && w.at == Idle
    ensures var x := w.objs[o];
            && (x.child.Some? ==> x.child.value in w.procs)
            && (x.child == None <==> x.state == INIT)
            && (x.state == ALIVE || x.state == ZOMBIE ==> x.child == Some(x.pid) && Held(w, x.pid))
  {
    assert ObjectOk(w, o);
  }

  // ------------------------------------------------------------------ pdip_exec()

  /** A program is attached to the object and its status has not been asked. */
  predicate Attached(x: Object) {
    x.state == ALIVE || x.state == ZOMBIE
  }

  /** Whether the thread is inside the call, and how far. */
  datatype ExecStage = Outside | Reading | Forking | Storing(pid: int) | Checked

  function StageOf(p: Place): ExecStage {
    match p
    case Enter(ExecRead) => Reading
    case Inside(ExecRead) => Reading
    case Leave(Doing(Recycle)) => Forking
    case Leave(Doing(Fork)) => Forking
    case Doing(Recycle) => Forking
    case Doing(Fork) => Forking
    case Enter(ExecStore(pid)) => Storing(pid)
    case Inside(ExecStore(pid)) => Storing(pid)
    case Leave(Enter(ExecCheck)) => Checked
    case Enter(ExecCheck) => Checked
    case Inside(ExecCheck) => Checked
    case Leave(Enter(ExecPid)) => Checked
    case Enter(ExecPid) => Checked
    case Inside(ExecPid) => Checked
    case _ => Outside
  }

  /** The outcome of the fork() made in the call that gives the result number `n`; none if there was none. */
  ghost function ForkOf(w: World, es: seq<Event>, n: nat): Option<Option<nat>> {
    if es == [] then None
    else
      var before, e := es[..|es| - 1], es[|es| - 1];
      var v := Run(w, before);
      if e.Forked? && Enabled(v, e) && |v.results| == n then Some(e.child) else ForkOf(w, before, n)
  }

  ghost predicate Executing(w: World, o: nat, attached: bool, fork: Option<Option<nat>>) {
    && w.cur == o && o in w.objs
    && match StageOf(w.at)
       case Outside => false
       case Reading => fork == None && Attached(w.objs[o]) == attached
       case Forking => fork == None && !attached
       case Storing(pid) => !attached && fork == Some(if pid > 0 then Some(pid) else None) && (pid > 0 || pid == -1)
       case Checked => !attached && w.objs[o].pid > 0 && fork == Some(Some(w.objs[o].pid))
  }

  /** The result number `n`: an error exactly when the object was taken or fork() has failed; otherwise the pid of
      the child that was forked in the call, which belongs to the object. */
  ghost predicate Execed(w: World, o: nat, n: nat, attached: bool, fork: Option<Option<nat>>) {
    && n < |w.results|
    && if attached then fork == None && w.results[n] == Error(o)
       else
         && fork.Some?
         && match fork.value
            case None => w.results[n] == Error(o)
            case Some(pid) => w.results[n] == Started(o, pid) && pid in w.procs && w.procs[pid].owner == o
  }

  ghost predicate ExecState(w: World, o: nat, n: nat, attached: bool, fork: Option<Option<nat>>) {
    if |w.results| > n then Execed(w, o, n, attached, fork) else |w.results| == n && Executing(w, o, attached, fork)
  }

  lemma ExecGo(w: World, o: nat, attached: bool, fork: Option<Option<nat>>)
    requires Inv(w) && Executing(w, o, attached, fork) && Enabled(w, Go)
    ensures var w' := Step(w, Go);
            || (w'.results == w.results && Executing(w', o, attached, fork))
            || (attached && fork == None && w'.results == w.results + [Error(o)])
            || (!attached && fork == Some(None) && w'.results == w.results + [Error(o)])
            || (!attached && fork.Some? && fork.value.Some? && w'.results == w.results + [Started(o, fork.value.value)])
  {
    hide ReturnsOk, ReapsOk, PendingOk, ProcessesOk;
    assert ObjectOk(w, o);
    hide ObjectsOk;
  }

  lemma ExecOther(w: World, o: nat, attached: bool, fork: Option<Option<nat>>, e: Event)
    requires Inv(w) && Executing(w, o, attached, fork) && Enabled(w, e) && e != Go
    ensures var w' := Step(w, e);
            w'.results == w.results && Executing(w', o, attached, if e.Forked? then Some(e.child) else fork)
  {
    hide ReturnsOk, ReapsOk, PendingOk, ProcessesOk;
    assert ObjectOk(w, o);
    hide ObjectsOk;
  }

  /** A child stays known, with its owner. */
  lemma OwnerStays(w: World, e: Event, pid: nat)
    requires Enabled(w, e) && pid in w.procs
    ensures pid in Step(w, e).procs && Step(w, e).procs[pid].owner == w.procs[pid].owner
  {
    if e == Go {
      match w.at {
        case Inside(s) => SectionProcesses(w, s);
        case _ =>
      }
    }
  }

  lemma ExecStep(w: World, e: Event, o: nat, n: nat, attached: bool, fork: Option<Option<nat>>)
    requires Inv(w) && Enabled(w, e) && ExecState(w, o, n, attached, fork)
    ensures ExecState(Step(w, e), o, n, attached, if e.Forked? && |w.results| == n then Some(e.child) else fork)
  {
    var w' := Step(w, e);
    StepKeeps(w, e);
    ResultsGrow(w, e);
    if |w.results| > n {
      if !attached && fork.value.Some? {
        OwnerStays(w, e, fork.value.value);
      }
    } else if e == Go {
      ExecGo(w, o, attached, fork);
      hide Enabled, Step, Executing;
      if w'.results != w.results && !attached && fork.value.Some? {
        assert Started(o, fork.value.value) in w'.results;
        assert ReturnOk(w', Started(o, fork.value.value));
      }
    } else {
      ExecOther(w, o, attached, fork, e);
    }
    hide Inv, Enabled, Step, Executing;
  }

  lemma {:induction false} ExecRun(w: World, es: seq<Event>, o: nat, attached: bool)
    requires Inv(w) && w.at == Enter(ExecRead) && Executing(w, o, attached, None)
    ensures ExecState(Run(w, es), o, |w.results|, attached, ForkOf(w, es, |w.results|))
  {
    hide Inv, Step, Executing, Execed, Enabled;
    if es != [] {
      var before, e := es[..|es| - 1], es[|es| - 1];
      ExecRun(w, before, o, attached);
      RunKeepsFrom(w, before);
      if Enabled(Run(w, before), e) {
        ExecStep(Run(w, before), e, o, |w.results|, attached, ForkOf(w, before, |w.results|));
      }
    }
  }

  /**
   pdip_exec(), under every interleaving: an error exactly when a program is attached to the object, dead or not,
   and its status has not been asked, or when fork() fails in the call; otherwise the pid of the child forked in
   it. It waits for nothing but fork().
   */
  lemma ExecutingCall(w: World, o: nat, es: seq<Event>)
    requires Inv(w) && Enabled(w, Begin(o, ExecCall))
    ensures var w1, n, attached := Step(w, Begin(o, ExecCall)), |w.results|, Attached(w.objs[o]);
            var w' := Run(w1, es);
            if |w'.results| > n then Execed(w', o, n, attached, ForkOf(w1, es, n))
            else Enabled(w', Go) || w'.at == Doing(Fork)
  {
    hide Inv, Step, Enabled, Run, Execed, Executing, ForkOf;
    BeginKeeps(w, o, ExecCall);
    ExecBegins(w, o);
    var w1, attached := Step(w, Begin(o, ExecCall)), Attached(w.objs[o]);
    ExecRun(w1, es, o, attached);
    RunKeepsFrom(w1, es);
    ExecNotHeldUp(Run(w1, es), o, attached, ForkOf(w1, es, |w.results|));
  }

  lemma ExecBegins(w: World, o: nat)
    requires Enabled(w, Begin(o, ExecCall))
    ensures var w1 := Step(w, Begin(o, ExecCall));
            o in w.objs && w1.at == Enter(ExecRead) && w1.results == w.results && Executing(w1, o, Attached(w.objs[o]), None)
  {
  }

  lemma ExecNotHeldUp(w: World, o: nat, attached: bool, fork: Option<Option<nat>>)
    requires Inv(w)
    ensures Executing(w, o, attached, fork) ==> Enabled(w, Go) || w.at == Doing(Fork)
  {
  }

  // ------------------------------------------------------------------ pdip_delete()

  /** A bound of the steps left to the thread from a place inside the call, 0 outside of it. */
  function DeleteRank(p: Place): nat {
    match p
    case Enter(DeleteRead) => 50
    case Inside(DeleteRead) => 49
    case Leave(Enter(Kill(false))) => 48
    case Enter(Kill(false)) => 47
    case Inside(Kill(false)) => 46
    case Leave(Enter(CheckRead(FirstCheck))) => 45
    case Enter(CheckRead(FirstCheck)) => 44
    case Inside(CheckRead(FirstCheck)) => 43
    case Leave(Doing(WaitPid(_, false, FirstCheck))) => 42
    case Doing(WaitPid(_, false, FirstCheck)) => 41
    case Leave(Doing(Nap)) => 41
    case Doing(Nap) => 40
    case Enter(CheckRead(SecondCheck)) => 39
    case Inside(CheckRead(SecondCheck)) => 38
    case Leave(Doing(WaitPid(_, false, SecondCheck))) => 37
    case Doing(WaitPid(_, false, SecondCheck)) => 36
    case Leave(Enter(Kill(true))) => 36
    case Enter(Kill(true)) => 35
    case Inside(Kill(true)) => 34
    case Leave(Enter(WaitRead(LastWait))) => 33
    case Enter(WaitRead(LastWait)) => 32
    case Inside(WaitRead(LastWait)) => 31
    case Leave(Doing(WaitPid(_, true, LastWait))) => 30
    case Doing(WaitPid(_, true, LastWait)) => 29
    case Leave(Enter(WaitRead(DeleteZombie))) => 28
    case Enter(WaitRead(DeleteZombie)) => 27
    case Inside(WaitRead(DeleteZombie)) => 26
    case Leave(Doing(WaitPid(_, true, DeleteZombie))) => 25
    case Doing(WaitPid(_, true, DeleteZombie)) => 24
    case Enter(Update(_, why)) => if why != AskStatus then 8 else 0
    case Inside(Update(_, why)) => if why != AskStatus then 7 else 0
    case Leave(Enter(Unlink(_))) => 6
    case Enter(Unlink(_)) => 5
    case Inside(Unlink(_)) => 4
    case Leave(Doing(Release(_))) => 3
    case Doing(Release(_)) => 2
    case _ => 0
  }

  /** SIGTERM has been sent to the child. */
  predicate Warned(p: Place) {
    29 <= DeleteRank(p) <= 45
  }

  /** And SIGKILL. */
  predicate Doomed(p: Place) {
    29 <= DeleteRank(p) <= 33
  }

  /** The child is known to be dead, by its signal. */
  predicate Ended(p: Place) {
    24 <= DeleteRank(p) <= 28
  }

  ghost predicate Deleting(w: World, o: nat, child: Option<nat>) {
    && DeleteRank(w.at) > 0 && w.cur == o && o in w.objs && w.objs[o].child == child
    && (Warned(w.at) ==> child.Some? && child.value in w.termed)
    && (Doomed(w.at) ==> child.Some? && child.value in w.killed)
    && (Ended(w.at) ==> w.objs[o].state == ZOMBIE)
  }

  /** A step of the call: nearer to its end, or at its end. */
  ghost predicate DeleteAdvances(w: World, w': World, o: nat, child: Option<nat>) {
    || (w'.results == w.results && Deleting(w', o, child) && DeleteRank(w'.at) < DeleteRank(w.at))
    || (exists status :: w'.results == w.results + [Deleted(o, child, status)])
  }

  lemma DeleteGo(w: World, o: nat, child: Option<nat>)
    requires Inv(w) && Deleting(w, o, child) && Enabled(w, Go)
    ensures DeleteAdvances(w, Step(w, Go), o, child)
  {
    hide ReturnsOk, ReapsOk, PendingOk, ProcessesOk;
    assert ObjectOk(w, o);
    hide ObjectsOk;
    match w.at {
      case Inside(s) => DeleteSection(w, o, child, s);
      case Doing(a) => DeleteAction(w, o, child, a);
      case _ => hide ObjectOk, SectionOk, ActionOk;
    }
  }

  lemma DeleteSection(w: World, o: nat, child: Option<nat>, s: Section)
    requires Deleting(w, o, child) && w.at == Inside(s) && SectionOk(w, w.objs[o], s) && ObjectOk(w, o)
    ensures DeleteAdvances(w, SectionStep(w, s), o, child)
  {
    hide Updating, Checking, Over;
  }

  lemma DeleteAction(w: World, o: nat, child: Option<nat>, a: Action)
    requires Deleting(w, o, child) && w.at == Doing(a) && ActionOk(w, w.objs[o], a) && ObjectOk(w, o) && Enabled(w, Go)
    ensures DeleteAdvances(w, ActionStep(w, a), o, child)
  {
    match a {
      case Release(status) => assert ActionStep(w, a).results == w.results + [Deleted(o, child, status)];
      case _ =>
    }
  }

  lemma DeleteOther(w: World, o: nat, child: Option<nat>, e: Event)
    requires Inv(w) && Deleting(w, o, child) && Enabled(w, e) && e != Go
    ensures var w' := Step(w, e); w'.results == w.results && w'.at == w.at && Deleting(w', o, child)
  {
    hide ReturnsOk, ReapsOk, PendingOk, ProcessesOk;
    assert ObjectOk(w, o);
    hide ObjectsOk;
  }

  /** The result number `n`: the object is deleted, with the status that its child was reaped with, or 0. */
  ghost predicate Removed(w: World, o: nat, child: Option<nat>, n: nat) {
    && n < |w.results| && w.results[n].Deleted? && w.results[n].obj == o && w.results[n].child == child
    && var status := w.results[n].status;
       if child.Some? then child.value in w.procs && w.procs[child.value] == Reaped(o, status) else status == 0
  }

  lemma RemovedStays(w: World, e: Event, o: nat, child: Option<nat>, n: nat)
    requires Enabled(w, e) && Removed(w, o, child, n)
    ensures Removed(Step(w, e), o, child, n)
  {
    ResultsGrow(w, e);
    if child.Some? {
      EndIsFinal(w, e, child.value);
    }
    hide Step, Enabled;
  }

  lemma DeletedIsRemoved(w: World, w': World, o: nat, child: Option<nat>, status: int)
    requires Inv(w') && w'.results == w.results + [Deleted(o, child, status)]
    ensures Removed(w', o, child, |w.results|)
  {
    assert Deleted(o, child, status) in w'.results;
    assert ReturnOk(w', Deleted(o, child, status));
  }

  ghost predicate DeleteState(w: World, o: nat, child: Option<nat>, n: nat, steps: nat) {
    if |w.results| > n then Removed(w, o, child, n)
    else |w.results| == n && Deleting(w, o, child) && steps + DeleteRank(w.at) <= 50
  }

  lemma DeleteStep(w: World, e: Event, o: nat, child: Option<nat>, n: nat, steps: nat)
    requires Inv(w) && Enabled(w, e) && DeleteState(w, o, child, n, steps)
    ensures DeleteState(Step(w, e), o, child, n, steps + if e == Go then 1 else 0)
  {
    var w' := Step(w, e);
    StepKeeps(w, e);
    hide Inv, Enabled, Step, Deleting, Removed;
    if |w.results| > n {
      ResultsGrow(w, e);
      RemovedStays(w, e, o, child, n);
    } else if e == Go {
      DeleteGo(w, o, child);
      if w'.results != w.results {
        var status :| w'.results == w.results + [Deleted(o, child, status)];
        DeletedIsRemoved(w, w', o, child, status);
      }
    } else {
      DeleteOther(w, o, child, e);
    }
  }

  lemma {:induction false} DeleteRun(w: World, es: seq<Event>, o: nat, child: Option<nat>)
    requires Inv(w) && w.at == Enter(DeleteRead) && Deleting(w, o, child)
    ensures DeleteState(Run(w, es), o, child, |w.results|, Steps(w, es))
  {
    hide Inv, Step, Deleting, Removed, Enabled;
    if es != [] {
      var before, e := es[..|es| - 1], es[|es| - 1];
      DeleteRun(w, before, o, child);
      RunKeepsFrom(w, before);
      if Enabled(Run(w, before), e) {
        DeleteStep(Run(w, before), e, o, child, |w.results|, Steps(w, before));
      }
    }
  }

  /** The thread waits for the last time for its own child. */
  ghost predicate WaitsForKilled(w: World, child: Option<nat>) {
    && child.Some? && w.at == Doing(WaitPid(child.value, true, LastWait))
    && child.value in w.procs && w.procs[child.value].Running?
    && child.value in w.termed && child.value in w.killed
  }

  /**
   pdip_delete(), under every interleaving: it always ends with the object deleted, never with an error; the status
   is the one that the child was reaped with, 0 when nothing was executed. It takes at most 49 steps, and is held
   up only when its own child is still running behind SIGTERM, the delay and SIGKILL.
   */
  lemma DeletingCall(w: World, o: nat, es: seq<Event>)
    requires Inv(w) && Enabled(w, Begin(o, DeleteCall))
    ensures var w1, child, n := Step(w, Begin(o, DeleteCall)), w.objs[o].child, |w.results|;
            var w' := Run(w1, es);
            if |w'.results| > n then Removed(w', o, child, n)
            else Steps(w1, es) <= 49 && (Enabled(w', Go) || WaitsForKilled(w', child))
  {
    hide Inv, Step, Enabled, Run, Removed, Deleting, Steps, WaitsForKilled;
    BeginKeeps(w, o, DeleteCall);
    DeleteBegins(w, o);
    var w1, child := Step(w, Begin(o, DeleteCall)), w.objs[o].child;
    DeleteRun(w1, es, o, child);
    RunKeepsFrom(w1, es);
    DeleteNotHeldUp(Run(w1, es), o, child);
  }

  lemma DeleteBegins(w: World, o: nat)
    requires Enabled(w, Begin(o, DeleteCall))
    ensures var w1 := Step(w, Begin(o, DeleteCall));
            o in w.objs && w1.at == Enter(DeleteRead) && w1.results == w.results && Deleting(w1, o, w.objs[o].child)
  {
  }

  lemma DeleteNotHeldUp(w: World, o: nat, child: Option<nat>)
    requires Inv(w)
    ensures Deleting(w, o, child) ==> DeleteRank(w.at) > 0 && (Enabled(w, Go) || WaitsForKilled(w, child))
  {
    hide ReturnsOk, ReapsOk, PendingOk, ProcessesOk;
    assert o in w.objs ==> ObjectOk(w, o);
    hide ObjectsOk;
  }

  // ------------------------------------------------------------------ the states of an object

  /** One event: the state of an object moves along the life cycle or stays; a program is over for its object at
      the very signal of its child, and this is never forgotten until its status is stored. */
  ghost predicate Moves(w: World, w': World, e: Event, o: nat)
    requires o in w.objs && o in w'.objs
  {
    var x, s' := w.objs[o], w'.objs[o].state;
    match x.state
    case INIT =>
      if e.Signal? && x.pid == e.pid then s' == ZOMBIE
      else s' == INIT || (s' == ALIVE && e == Go && w.at == Inside(ExecCheck) && w.cur == o)
    case ALIVE =>
      if e.Signal? && x.pid == e.pid then s' == ZOMBIE
      else s' == ALIVE || (s' == DEAD && e == Go && w.at.Inside? && w.at.section.Update? && w.cur == o)
    case ZOMBIE => s' == ZOMBIE || (s' == DEAD && e == Go && w.at.Inside? && w.at.section.Update? && w.cur == o)
    case DEAD => s' == DEAD || (s' == INIT && e == Go && w.at == Doing(Recycle) && w.cur == o)
  }

  lemma StateMoves(w: World, e: Event, o: nat)
    requires Inv(w) && Enabled(w, e) && o in w.objs && o in Step(w, e).objs
    ensures Moves(w, Step(w, e), e, o)
  {
    hide ReturnsOk, ReapsOk, PendingOk, ProcessesOk;
    assert ObjectOk(w, o);
    match e {
      case Signal(pid) => SignalMarks(w, pid, o);
      case Go =>
        match w.at {
          case Inside(s) =>
            hide ObjectsOk;
            SectionOthers(w, s, o);
            if w.cur == o {
              SectionMoves(w, s);
            }
          case _ => hide ObjectsOk;
        }
      case _ => hide ObjectsOk;
    }
  }

  /** The handler marks the object of the child, and no other one. */
  lemma SignalMarks(w: World, pid: nat, o: nat)
    requires Inv(w) && Enabled(w, Signal(pid)) && o in w.objs
    ensures var x := w.objs[o]; Step(w, Signal(pid)).objs[o] == if x.pid == pid then x.(state := ZOMBIE) else x
  {
    hide ReturnsOk, ReapsOk, PlaceOk;
    assert ObjectOk(w, o);
    forall p | Found(w, pid, p) ensures w.objs[o].pid == pid ==> p == o {
      assert ObjectOk(w, p);
    }
    assert w.objs[o].pid == pid ==> Found(w, pid, o);
  }

  lemma SectionMoves(w: World, s: Section)
    requires w.cur in w.objs && SectionOk(w, Cur(w), s) && ObjectOk(w, w.cur) && w.at == Inside(s)
    requires w.cur in SectionStep(w, s).objs
    ensures Moves(w, SectionStep(w, s), Go, w.cur)
  {
  }
}
