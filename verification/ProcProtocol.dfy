/** proc.c as a protocol over any number of processes and CPUs.  ptable.lock is held by a CPU and
    handed across swtch: a process that gives up its CPU leaves the lock to the scheduler, and
    a process that is dispatched gets it from the scheduler. */
module ProcProtocol {
  import opened ProcTable
  import opened Wrappers

  /** What a CPU executes: its scheduler, or the kernel thread of a process. */
  datatype Ctx = Sched | Thread(p: nat)

  /** `proc` is c->proc and `pt` the process whose page table the CPU has loaded. */
  datatype Cpu = Cpu(proc: Option<nat>, ctx: Ctx, pt: Option<nat>)

  /** `fork` maps a process inside fork to the embryo it is building.  `exited` and `reaped`
      record the pids that have exited and, in order, those that wait has returned. */
  datatype Sys = Sys(t: Table, cpus: seq<Cpu>, lock: Option<nat>, fork: map<nat, nat>,
                     init: nat, nextpid: int, exited: set<int>, reaped: seq<int>)

  datatype Step =
    | SchedAcquire | SchedRelease | Dispatch(p: nat) | Clean   // scheduler
    | Acquire | Release | Swtch                                // lock and context switch of a process
    | Yield | Sleep(id: nat) | Wakeup(c: Chan) | Kill(q: nat)
    | ForkAlloc(np: nat) | ForkFail | ForkParent | ForkReady
    | Exit | WaitReap(q: nat) | WaitSleep

  /** CPU k runs the kernel thread of process p. */
  ghost predicate Runs(s: Sys, k: nat, p: nat) {
    k < |s.cpus| && s.cpus[k].ctx == Thread(p) && p < |s.t|
  }

  /** ... and p holds ptable.lock and has not yet given up its RUNNING state. */
  ghost predicate InSection(s: Sys, k: nat, p: nat) {
    Runs(s, k, p) && s.lock == Some(k) && s.t[p].state == RUNNING
  }

  ghost predicate InScheduler(s: Sys, k: nat) {
    k < |s.cpus| && s.cpus[k].ctx == Sched
  }

  ghost function SetState(t: Table, p: nat, st: State): Table
    requires p < |t|
  {
    t[p := t[p].(state := st)]
  }

  ghost predicate NextStep(s: Sys, s': Sys, k: nat, p: nat, step: Step) {
    match step
    case SchedAcquire =>
      InScheduler(s, k) && s.cpus[k].proc == None && s.lock == None && s' == s.(lock := Some(k))
    case SchedRelease =>
      InScheduler(s, k) && s.cpus[k].proc == None && s.lock == Some(k) && s' == s.(lock := None)
    case Dispatch(q) =>
      && InScheduler(s, k) && s.cpus[k].proc == None && s.lock == Some(k)
      && q < |s.t| && s.t[q].state == RUNNABLE
      && s' == s.(cpus := s.cpus[k := Cpu(Some(q), Thread(q), Some(q))], t := SetState(s.t, q, RUNNING))
    case Clean =>  // switchkvm(); c->proc = 0
      && InScheduler(s, k) && s.cpus[k].proc.Some? && s.lock == Some(k)
      && s' == s.(cpus := s.cpus[k := Cpu(None, Sched, None)])
    case Acquire =>
      Runs(s, k, p) && s.lock == None && s' == s.(lock := Some(k))
    case Release =>
      InSection(s, k, p) && s' == s.(lock := None)
    case Swtch =>  // sched() panics if the state is still RUNNING
      && Runs(s, k, p) && s.lock == Some(k) && s.t[p].state != RUNNING
      && s' == s.(cpus := s.cpus[k := s.cpus[k].(ctx := Sched)])
    case Yield =>
      InSection(s, k, p) && s' == s.(t := SetState(s.t, p, RUNNABLE))
    case Sleep(id) =>
      && InSection(s, k, p) && p !in s.fork
      && s' == s.(t := s.t[p := s.t[p].(state := SLEEPING, chan := Some(OnOther(id)))])
    case Wakeup(c) =>
      InSection(s, k, p) && s' == s.(t := WakeAll(s.t, c))
    case Kill(q) =>
      InSection(s, k, p) && q < |s.t| && s' == s.(t := s.t[q := Killed(s.t[q])])
    case ForkAlloc(np) =>
      && InSection(s, k, p) && p !in s.fork && np < |s.t| && s.t[np].state == UNUSED
      && s' == s.(t := s.t[np := s.t[np].(state := EMBRYO, pid := s.nextpid)],
                  nextpid := s.nextpid + 1, fork := s.fork[p := np])
    case ForkFail =>  // no kernel stack, or copyuvm failed: undone without the lock
      && Runs(s, k, p) && s.t[p].state == RUNNING && p in s.fork && s.fork[p] < |s.t|
      && s.t[s.fork[p]].parent == None
      && s' == s.(t := SetState(s.t, s.fork[p], UNUSED), fork := s.fork - {p})
    case ForkParent =>  // np->parent = curproc, without the lock
      && Runs(s, k, p) && s.t[p].state == RUNNING && p in s.fork && s.fork[p] < |s.t|
      && s' == s.(t := s.t[s.fork[p] := s.t[s.fork[p]].(parent := Some(p))])
    case ForkReady =>
      && InSection(s, k, p) && p in s.fork && s.fork[p] < |s.t| && s.t[s.fork[p]].parent == Some(p)
      && s' == s.(t := SetState(s.t, s.fork[p], RUNNABLE), fork := s.fork - {p})
    case Exit =>  // init panics instead
      && InSection(s, k, p) && p !in s.fork && p != s.init
      && s' == s.(t := ExitTable(s.t, p, s.init), exited := s.exited + {s.t[p].pid})
    case WaitReap(q) =>
      && InSection(s, k, p) && p !in s.fork
      && q < |s.t| && s.t[q].parent == Some(p) && s.t[q].state == ZOMBIE
      && s' == s.(t := s.t[q := Reaped(s.t[q])], reaped := s.reaped + [s.t[q].pid])
    case WaitSleep =>
      && InSection(s, k, p) && p !in s.fork
      && !HasChild(s.t, p, true) && HasChild(s.t, p, false) && !s.t[p].killed
      && s' == s.(t := s.t[p := s.t[p].(state := SLEEPING, chan := Some(OnProc(p)))])
  }

  ghost predicate Next(s: Sys, s': Sys) {
    exists k, p, step :: NextStep(s, s', k, p, step)
  }

  /** After userinit: only init exists, ready to run, and every CPU is in its scheduler. */
  ghost predicate Init(s: Sys) {
    && s.init < |s.t|
    && (forall i :: 0 <= i < |s.t| ==> s.t[i].parent == None && s.t[i].chan == None && !s.t[i].killed)
    && (forall i :: 0 <= i < |s.t| && i != s.init ==> s.t[i].state == UNUSED && s.t[i].pid == 0)
    && s.t[s.init].state == RUNNABLE && s.t[s.init].pid == 1 && s.nextpid == 2
    && (forall k :: 0 <= k < |s.cpus| ==> s.cpus[k] == Cpu(None, Sched, None))
    && s.lock == None && s.fork == map[] && s.exited == {} && s.reaped == []
  }

  ghost predicate IsRun(run: seq<Sys>) {
    |run| > 0 && Init(run[0]) && forall i :: 0 <= i < |run| - 1 ==> Next(run[i], run[i + 1])
  }

  // ---------- CPU ownership ----------

  /** Who runs where.  Only the CPU that holds the lock may disagree with the table. */
  ghost predicate Owners(s: Sys) {
    && (s.lock.Some? ==> s.lock.value < |s.cpus|)
    && (forall k :: 0 <= k < |s.cpus| ==> CpuOk(s, k))
    && (forall j, k :: 0 <= j < k < |s.cpus| && s.cpus[j].proc.Some? ==> s.cpus[j].proc != s.cpus[k].proc)
    && (forall p :: 0 <= p < |s.t| && s.t[p].state == RUNNING ==>
          exists k :: 0 <= k < |s.cpus| && s.cpus[k].ctx == Thread(p))
  }

  ghost predicate CpuOk(s: Sys, k: nat)
    requires k < |s.cpus|
  {
    var c := s.cpus[k];
    && c.pt == c.proc
    && (c.proc.Some? ==> c.proc.value < |s.t|)
    && (c.ctx.Thread? ==> c.proc == Some(c.ctx.p))
    && (s.lock != Some(k) ==>
          if c.ctx.Thread? then c.ctx.p < |s.t| && s.t[c.ctx.p].state == RUNNING else c.proc == None)
    && (c.ctx.Sched? && c.proc.Some? ==> s.t[c.proc.value].state != RUNNING)
    && (c.proc.Some? ==> s.t[c.proc.value].state != UNUSED && s.t[c.proc.value].state != EMBRYO)
  }

  /** Wait may free a zombie's slot: no CPU is on it. */
  lemma ReapIsSafe(s: Sys, k: nat, p: nat, q: nat)
    requires Owners(s) && InSection(s, k, p)
    requires q < |s.t| && s.t[q].state == ZOMBIE
    ensures forall j :: 0 <= j < |s.cpus| ==>
              s.cpus[j].proc != Some(q) && s.cpus[j].ctx != Thread(q) && s.cpus[j].pt != Some(q)
  {
    forall j | 0 <= j < |s.cpus|
      ensures s.cpus[j].proc != Some(q) && s.cpus[j].ctx != Thread(q) && s.cpus[j].pt != Some(q)
    {
      assert CpuOk(s, j) && CpuOk(s, k);
    }
  }

  /** How the step of process p on CPU k may change the state of slot i: p may give up RUNNING,
      sleepers wake, embryos come and go, zombies are reaped. */
  ghost predicate MayChange(s: Sys, s': Sys, k: nat, p: nat, i: nat)
    requires i < |s.t| == |s'.t|
  {
    var a, b := s.t[i].state, s'.t[i].state;
    || a == b
    || (i == p && InSection(s, k, p) && (b == RUNNABLE || b == SLEEPING || b == ZOMBIE))
    || (a == SLEEPING && b == RUNNABLE)
    || ((a == UNUSED || a == EMBRYO) && b != RUNNING)
    || (a == ZOMBIE && b == UNUSED && InSection(s, k, p))
  }

  ghost predicate TableStep(s: Sys, s': Sys, k: nat, p: nat) {
    && s'.cpus == s.cpus && s'.lock == s.lock && |s'.t| == |s.t|
    && forall i :: 0 <= i < |s.t| ==> MayChange(s, s', k, p, i)
  }

  lemma TableStepKeepsOwners(s: Sys, s': Sys, k: nat, p: nat)
    requires Owners(s) && TableStep(s, s', k, p)
    ensures Owners(s')
  {
    forall j | 0 <= j < |s.cpus| ensures CpuOk(s', j) {
      assert CpuOk(s, j);
      if s.cpus[j].proc.Some? {
        var q := s.cpus[j].proc.value;
        assert MayChange(s, s', k, p, q);
        if InSection(s, k, p) && s.t[q].state == ZOMBIE {
          ReapIsSafe(s, k, p, q);
        }
        assert Runs(s, k, p) && j != k ==> CpuOk(s, k);
      }
    }
    forall q | 0 <= q < |s.t| && s'.t[q].state == RUNNING
      ensures exists j :: 0 <= j < |s.cpus| && s'.cpus[j].ctx == Thread(q)
    {
      assert MayChange(s, s', k, p, q);
    }
  }

  lemma StepsOnTable(s: Sys, s': Sys, k: nat, p: nat, step: Step)
    requires NextStep(s, s', k, p, step)
    requires !(step.SchedAcquire? || step.SchedRelease? || step.Dispatch? || step.Clean?
               || step.Acquire? || step.Release? || step.Swtch?)
    requires step.ForkFail? || step.ForkParent? || step.ForkReady? ==> s.t[s.fork[p]].state == EMBRYO
    ensures TableStep(s, s', k, p)
  {
    if step.Exit? {
      ExitStates(s.t, p, s.init);
    }
  }

  lemma ExitStates(t: Table, p: nat, init: nat)
    requires p < |t|
    ensures forall i :: 0 <= i < |t| && i != p ==>
              ExitTable(t, p, init)[i].state == t[i].state
              || (t[i].state == SLEEPING && ExitTable(t, p, init)[i].state == RUNNABLE)
    ensures ExitTable(t, p, init)[p].state == ZOMBIE
  {
  }

  lemma CpuStepKeepsOwners(s: Sys, s': Sys, k: nat, p: nat, step: Step)
    requires Owners(s) && NextStep(s, s', k, p, step)
    requires step.SchedAcquire? || step.SchedRelease? || step.Clean?
               || step.Acquire? || step.Release? || step.Swtch?
    ensures Owners(s')
  {
    assert CpuOk(s, k);
    forall j | 0 <= j < |s.cpus| ensures CpuOk(s', j) {
      assert CpuOk(s, j);
    }
    forall q | 0 <= q < |s.t| && s'.t[q].state == RUNNING
      ensures exists j :: 0 <= j < |s.cpus| && s'.cpus[j].ctx == Thread(q)
    {
      var j :| 0 <= j < |s.cpus| && s.cpus[j].ctx == Thread(q);
      assert s'.cpus[j].ctx == Thread(q);
    }
  }

  lemma DispatchKeepsOwners(s: Sys, s': Sys, k: nat, p: nat, q: nat)
    requires Owners(s) && NextStep(s, s', k, p, Dispatch(q))
    ensures Owners(s')
  {
    assert CpuOk(s, k);
    forall j | 0 <= j < |s.cpus| ensures CpuOk(s', j) {
      assert CpuOk(s, j);
    }
    forall r | 0 <= r < |s.t| && s'.t[r].state == RUNNING
      ensures exists j :: 0 <= j < |s.cpus| && s'.cpus[j].ctx == Thread(r)
    {
      if r == q {
        assert s'.cpus[k].ctx == Thread(q);
      } else {
        var j :| 0 <= j < |s.cpus| && s.cpus[j].ctx == Thread(r);
        assert s'.cpus[j].ctx == Thread(r);
      }
    }
    forall i, j | 0 <= i < j < |s.cpus| && s'.cpus[i].proc.Some?
      ensures s'.cpus[i].proc != s'.cpus[j].proc
    {
      assert CpuOk(s, i) && CpuOk(s, j);
    }
  }

  lemma KeepsOwners(s: Sys, s': Sys, k: nat, p: nat, step: Step)
    requires Owners(s) && NextStep(s, s', k, p, step)
    requires step.ForkFail? || step.ForkParent? || step.ForkReady? ==> s.t[s.fork[p]].state == EMBRYO
    ensures Owners(s')
  {
    hide Owners, NextStep, TableStep;
    if step.Dispatch? {
      DispatchKeepsOwners(s, s', k, p, step.p);
    } else if step.SchedAcquire? || step.SchedRelease? || step.Clean? || step.Acquire? || step.Release? || step.Swtch? {
      CpuStepKeepsOwners(s, s', k, p, step);
    } else {
      StepsOnTable(s, s', k, p, step);
      TableStepKeepsOwners(s, s', k, p);
    }
  }

  // ---------- the process tree ----------

  ghost predicate IsLive(q: Proc) {
    q.state == SLEEPING || q.state == RUNNABLE || q.state == RUNNING
  }

  /** A parent is a live process, and not the process itself. */
  ghost predicate ParentOk(t: Table, i: nat)
    requires i < |t|
  {
    t[i].parent.Some? ==>
      && t[i].state != UNUSED
      && t[i].parent.value < |t| && t[i].parent.value != i
      && IsLive(t[t[i].parent.value])
  }

  /** A process asleep on a slot sleeps in wait, on its own slot, has no zombie child and has not been
      killed. */
  ghost predicate WaiterOk(t: Table, i: nat)
    requires i < |t|
  {
    t[i].state == SLEEPING && t[i].chan.Some? && t[i].chan.value.OnProc? ==>
      t[i].chan.value.slot == i && !HasChild(t, i, true) && !t[i].killed
  }

  ghost predicate ForkOk(s: Sys, p: nat)
    requires p in s.fork
  {
    && p < |s.t| && s.fork[p] < |s.t|
    && (s.t[p].state == RUNNING || s.t[p].state == RUNNABLE)
    && s.t[s.fork[p]].state == EMBRYO
    && (s.t[s.fork[p]].parent == None || s.t[s.fork[p]].parent == Some(p))
  }

  /** Every process but init, dead or alive, has a parent. */
  ghost predicate Parented(s: Sys) {
    forall i :: 0 <= i < |s.t| && i != s.init && (IsLive(s.t[i]) || s.t[i].state == ZOMBIE) ==> s.t[i].parent.Some?
  }

  ghost predicate Tree(s: Sys) {
    && s.init < |s.t| && IsLive(s.t[s.init]) && s.t[s.init].parent == None
    && (forall i :: 0 <= i < |s.t| ==> ParentOk(s.t, i))
    && (forall i :: 0 <= i < |s.t| ==> WaiterOk(s.t, i))
    && Parented(s)
    && (forall p :: p in s.fork ==> ForkOk(s, p))
    && (forall p, q :: p in s.fork && q in s.fork && p != q ==> s.fork[p] != s.fork[q])
  }

  /** exit wakes the parent if it sleeps in wait, and init if it has been given a zombie to collect. */
  ghost predicate ExitWakes(t: Table, p: nat, init: nat, i: nat)
    requires p < |t| && i < |t|
  {
    || (t[p].parent.Some? && SleepsOn(t[i], OnProc(t[p].parent.value)))
    || (HasChild(t, p, true) && SleepsOn(t[i], OnProc(init)))
  }

  /** Slot by slot, what exit leaves. */
  lemma ExitSlots(t: Table, p: nat, init: nat, i: nat)
    requires p < |t| && i < |t| && ParentOk(t, p)
    ensures
      var r := ExitTable(t, p, init)[i];
      && r.parent == (if t[i].parent == Some(p) then Some(init) else t[i].parent)
      && r.chan == t[i].chan && r.pid == t[i].pid && r.killed == t[i].killed
      && r.state == (if i == p then ZOMBIE else if ExitWakes(t, p, init, i) then RUNNABLE else t[i].state)
    ensures
      i != p && t[p].parent == Some(i) && SleepsOn(t[i], OnProc(i)) ==> ExitTable(t, p, init)[i].state == RUNNABLE
    ensures
      i == init && i != p && HasChild(t, p, true) && SleepsOn(t[i], OnProc(i)) ==>
        ExitTable(t, p, init)[i].state == RUNNABLE
  {
    if t[p].parent.Some? {
      var woken := WakeAll(t, OnProc(t[p].parent.value));
      if HasChild(t, p, true) {
        var j :| 0 <= j < |t| && t[j].parent == Some(p) && t[j].state == ZOMBIE;
        assert woken[j].parent == Some(p) && woken[j].state == ZOMBIE;
        assert HasChild(woken, p, true);
      }
      if HasChild(woken, p, true) {
        var j :| 0 <= j < |t| && woken[j].parent == Some(p) && woken[j].state == ZOMBIE;
        assert t[j].parent == Some(p) && t[j].state == ZOMBIE;
        assert HasChild(t, p, true);
      }
    }
  }

  lemma ExitKeepsParents(t: Table, p: nat, init: nat)
    requires p < |t| && init < |t| && p != init && IsLive(t[init]) && t[init].parent == None
    requires forall i :: 0 <= i < |t| ==> ParentOk(t, i)
    ensures forall i :: 0 <= i < |t| ==> ParentOk(ExitTable(t, p, init), i)
  {
    hide ExitTable;
    var r := ExitTable(t, p, init);
    forall i | 0 <= i < |t| ensures ParentOk(r, i) {
      assert ParentOk(t, i) && ParentOk(t, p);
      ExitSlots(t, p, init, i);
      ExitSlots(t, p, init, init);
      if t[i].parent.Some? {
        ExitSlots(t, p, init, t[i].parent.value);
      }
    }
  }

  lemma ExitKeepsWaiters(t: Table, p: nat, init: nat, i: nat)
    requires p < |t| && init < |t| && p != init && i < |t|
    requires forall j :: 0 <= j < |t| ==> ParentOk(t, j) && WaiterOk(t, j)
    ensures WaiterOk(ExitTable(t, p, init), i)
  {
    hide ExitTable;
    var r := ExitTable(t, p, init);
    assert ParentOk(t, p);
    ExitSlots(t, p, init, i);
    if i != p && SleepsOn(t[i], OnProc(i)) && r[i].state == SLEEPING {
      assert WaiterOk(t, i);
      forall j | 0 <= j < |t| && r[j].parent == Some(i) ensures r[j].state != ZOMBIE {
        ExitSlots(t, p, init, j);
        if t[j].parent == Some(p) {
          assert i == init && !HasChild(t, p, true);
          assert t[j].state != ZOMBIE;
          assert ParentOk(t, j);
        } else {
          assert t[j].parent == Some(i) && j != p;
        }
      }
    } else if i != p && t[i].state == SLEEPING {
      assert WaiterOk(t, i);
    }
  }

  lemma ExitKeepsParented(s: Sys, s': Sys, p: nat)
    requires p < |s.t| && IsLive(s.t[p]) && ParentOk(s.t, p) && Parented(s)
    requires s'.t == ExitTable(s.t, p, s.init) && s'.init == s.init
    ensures Parented(s')
  {
    hide ExitTable;
    forall i | 0 <= i < |s'.t| && i != s.init && (IsLive(s'.t[i]) || s'.t[i].state == ZOMBIE)
      ensures s'.t[i].parent.Some?
    {
      ExitSlots(s.t, p, s.init, i);
    }
  }

  lemma ExitKeepsTree(s: Sys, s': Sys, k: nat, p: nat)
    requires Tree(s) && NextStep(s, s', k, p, Exit)
    ensures Tree(s')
  {
    hide ExitTable;
    ExitKeepsParents(s.t, p, s.init);
    assert ParentOk(s.t, p);
    ExitSlots(s.t, p, s.init, s.init);
    forall i | 0 <= i < |s.t| ensures WaiterOk(s'.t, i) {
      ExitKeepsWaiters(s.t, p, s.init, i);
    }
    ExitKeepsParented(s, s', p);
    forall q | q in s.fork ensures ForkOk(s', q) {
      assert ForkOk(s, q);
      ExitSlots(s.t, p, s.init, q);
      ExitSlots(s.t, p, s.init, s.fork[q]);
    }
  }

  ghost predicate IsForkStep(step: Step) {
    step.ForkAlloc? || step.ForkFail? || step.ForkParent? || step.ForkReady?
  }

  /** The embryo a fork step touches, and how: nothing but its own slot changes. */
  lemma ForkTouches(s: Sys, s': Sys, k: nat, p: nat, step: Step) returns (np: nat)
    requires Tree(s) && NextStep(s, s', k, p, step) && IsForkStep(step)
    ensures p < |s.t| && np < |s.t| == |s'.t| && np != p && s.t[p].state == RUNNING && s'.init == s.init
    ensures s.t[np].state == UNUSED || s.t[np].state == EMBRYO
    ensures s'.t == s.t[np := s'.t[np]]
    ensures s'.t[np].state == UNUSED || s'.t[np].state == EMBRYO || s'.t[np].state == RUNNABLE
    ensures s'.t[np].parent == None || (s'.t[np].parent == Some(p) && s'.t[np].state != UNUSED)
    ensures s'.t[np].state == RUNNABLE ==> s'.t[np].parent == Some(p)
    ensures s'.t[np].state == EMBRYO <==> p in s'.fork
    ensures p in s'.fork ==> s'.fork[p] == np
    ensures if p in s.fork then s.fork[p] == np else s.t[np].state == UNUSED
    ensures s'.fork - {p} == s.fork - {p}
  {
    np := if step.ForkAlloc? then step.np else s.fork[p];
    if p in s.fork {
      assert ForkOk(s, p);
    }
    assert ParentOk(s.t, np);
  }

  lemma ForkKeepsTree(s: Sys, s': Sys, k: nat, p: nat, step: Step)
    requires Tree(s) && NextStep(s, s', k, p, step) && IsForkStep(step)
    ensures Tree(s')
  {
    hide NextStep, ParentOk, WaiterOk, Parented, ForkOk;
    var np := ForkTouches(s, s', k, p, step);
    InitIsNotForked(s, np);
    ForkKeepsSlots(s, s', p, np);
    forall q | q in s'.fork ensures ForkOk(s', q) && (q != p ==> q in s.fork && s.fork[q] == s'.fork[q] != np) {
      ForkKeepsFork(s, s', p, np, q);
    }
  }

  lemma InitIsNotForked(s: Sys, np: nat)
    requires Tree(s) && np < |s.t| && (s.t[np].state == UNUSED || s.t[np].state == EMBRYO)
    ensures np != s.init
  {
  }

  lemma ForkKeepsSlots(s: Sys, s': Sys, p: nat, np: nat)
    requires p < |s.t| && np < |s.t| == |s'.t| && np != p && np != s.init && s'.init == s.init
    requires s.t[p].state == RUNNING && (s.t[np].state == UNUSED || s.t[np].state == EMBRYO)
    requires s'.t == s.t[np := s'.t[np]]
    requires s'.t[np].state == UNUSED || s'.t[np].state == EMBRYO || s'.t[np].state == RUNNABLE
    requires s'.t[np].parent == None || (s'.t[np].parent == Some(p) && s'.t[np].state != UNUSED)
    requires s'.t[np].state == RUNNABLE ==> s'.t[np].parent == Some(p)
    requires Parented(s) && forall i :: 0 <= i < |s.t| ==> ParentOk(s.t, i) && WaiterOk(s.t, i)
    ensures Parented(s') && forall i :: 0 <= i < |s.t| ==> ParentOk(s'.t, i) && WaiterOk(s'.t, i)
  {
    forall i | 0 <= i < |s.t| ensures ParentOk(s'.t, i) && WaiterOk(s'.t, i) {
      assert ParentOk(s.t, i) && WaiterOk(s.t, i);
    }
  }

  lemma ForkKeepsFork(s: Sys, s': Sys, p: nat, np: nat, q: nat)
    requires Tree(s) && p < |s.t| && np < |s.t| == |s'.t| && np != p && s.t[p].state == RUNNING
    requires s.t[np].state == UNUSED || s.t[np].state == EMBRYO
    requires s'.t == s.t[np := s'.t[np]] && s'.fork - {p} == s.fork - {p} && q in s'.fork
    requires s'.t[np].parent == None || (s'.t[np].parent == Some(p) && s'.t[np].state != UNUSED)
    requires (s'.t[np].state == EMBRYO <==> p in s'.fork) && (p in s'.fork ==> s'.fork[p] == np)
    requires if p in s.fork then s.fork[p] == np else s.t[np].state == UNUSED
    ensures ForkOk(s', q) && (q != p ==> q in s.fork && s.fork[q] == s'.fork[q] != np)
  {
    hide ParentOk, WaiterOk, Parented;
    if q != p {
      assert q in s'.fork - {p};
      assert ForkOk(s, q);
      if p in s.fork {
        assert s.fork[q] != s.fork[p];
      }
    }
  }

  lemma WaitReapKeepsTree(s: Sys, s': Sys, k: nat, p: nat, q: nat)
    requires Tree(s) && NextStep(s, s', k, p, WaitReap(q))
    ensures Tree(s')
  {
    forall i | 0 <= i < |s.t| ensures ParentOk(s'.t, i) {
      assert ParentOk(s.t, i);
    }
    forall i | 0 <= i < |s.t| ensures WaiterOk(s'.t, i) {
      assert WaiterOk(s.t, i);
    }
    forall f | f in s.fork ensures ForkOk(s', f) {
      assert ForkOk(s, f);
    }
  }

  /** Whoever falls asleep on its own slot does so in wait, not killed and having no zombie child; and
      kill lets nobody sleep on. */
  ghost predicate FallsAsleepOk(s: Sys, s': Sys, i: nat)
    requires i < |s.t| == |s'.t|
  {
    var c := s'.t[i].chan;
    || (s.t[i].state == SLEEPING && c == s.t[i].chan && s'.t[i].killed == s.t[i].killed)
    || (i !in s.fork &&
        (c.Some? && c.value.OnProc? ==> c.value.slot == i && !HasChild(s.t, i, true) && !s'.t[i].killed))
  }

  /** Steps that only move processes between the live states. */
  ghost predicate LiveStep(s: Sys, s': Sys) {
    && |s'.t| == |s.t| && s'.init == s.init && s'.fork == s.fork
    && (forall i :: 0 <= i < |s.t| ==> s'.t[i].parent == s.t[i].parent)
    && (forall i :: 0 <= i < |s.t| ==> s'.t[i].state == s.t[i].state || (IsLive(s.t[i]) && IsLive(s'.t[i])))
    && (forall i :: 0 <= i < |s.t| && s'.t[i].state == SLEEPING ==> FallsAsleepOk(s, s', i))
  }

  lemma LiveStepKeepsTree(s: Sys, s': Sys)
    requires Tree(s) && LiveStep(s, s')
    ensures Tree(s')
  {
    forall i | 0 <= i < |s.t| ensures ParentOk(s'.t, i) {
      assert ParentOk(s.t, i);
    }
    forall i | 0 <= i < |s.t| ensures HasChild(s'.t, i, true) ==> HasChild(s.t, i, true) {
      if HasChild(s'.t, i, true) {
        var j :| 0 <= j < |s.t| && s'.t[j].parent == Some(i) && s'.t[j].state == ZOMBIE;
        assert s.t[j].parent == Some(i) && s.t[j].state == ZOMBIE;
      }
    }
    forall i | 0 <= i < |s.t| ensures WaiterOk(s'.t, i) {
      assert WaiterOk(s.t, i);
    }
    forall f | f in s.fork ensures ForkOk(s', f) {
      assert ForkOk(s, f);
    }
  }

  lemma OtherStepsAreLive(s: Sys, s': Sys, k: nat, p: nat, step: Step)
    requires NextStep(s, s', k, p, step)
    requires !IsForkStep(step) && !step.Exit? && !step.WaitReap?
    ensures LiveStep(s, s')
  {
    hide NextStep, LiveStep;
    if step.Wakeup? || step.Kill? || step.Sleep? || step.Yield? || step.WaitSleep? {
      TableStepsAreLive(s, s', k, p, step);
    } else {
      CpuStepsAreLive(s, s', k, p, step);
    }
  }

  lemma TableStepsAreLive(s: Sys, s': Sys, k: nat, p: nat, step: Step)
    requires NextStep(s, s', k, p, step)
    requires step.Wakeup? || step.Kill? || step.Sleep? || step.Yield? || step.WaitSleep?
    ensures LiveStep(s, s')
  {
    match step
    case Wakeup(c) =>
    case Kill(q) =>
    case WaitSleep =>
    case _ =>
  }

  lemma CpuStepsAreLive(s: Sys, s': Sys, k: nat, p: nat, step: Step)
    requires NextStep(s, s', k, p, step) && !IsForkStep(step) && !step.Exit? && !step.WaitReap?
    requires !(step.Wakeup? || step.Kill? || step.Sleep? || step.Yield? || step.WaitSleep?)
    ensures LiveStep(s, s')
  {
  }

  lemma KeepsTree(s: Sys, s': Sys, k: nat, p: nat, step: Step)
    requires Tree(s) && NextStep(s, s', k, p, step)
    ensures Tree(s')
  {
    hide Tree, NextStep, LiveStep;
    if IsForkStep(step) {
      ForkKeepsTree(s, s', k, p, step);
    } else if step.Exit? {
      ExitKeepsTree(s, s', k, p);
    } else if step.WaitReap? {
      WaitReapKeepsTree(s, s', k, p, step.q);
    } else {
      OtherStepsAreLive(s, s', k, p, step);
      LiveStepKeepsTree(s, s');
    }
  }

  // ---------- every exited process is collected once ----------

  ghost predicate Pids(s: Sys) {
    && (forall i, j :: 0 <= i < j < |s.t| && s.t[i].state != UNUSED && s.t[j].state != UNUSED ==>
        s.t[i].pid != s.t[j].pid)
    && (forall i :: 0 <= i < |s.t| && s.t[i].state != UNUSED ==> PidOk(s, i))
    && (forall x :: x in s.exited ==> x < s.nextpid && (x in s.reaped || Zombie(s.t, x)))
    && (forall i :: 0 <= i < |s.reaped| ==> s.reaped[i] in s.exited)
    && (forall i, j :: 0 <= i < j < |s.reaped| ==> s.reaped[i] != s.reaped[j])
  }

  ghost predicate PidOk(s: Sys, i: nat)
    requires i < |s.t|
  {
    && s.t[i].pid < s.nextpid
    && (s.t[i].pid in s.exited <==> s.t[i].state == ZOMBIE)
    && s.t[i].pid !in s.reaped
  }

  /** Some zombie has this pid. */
  ghost predicate Zombie(t: Table, x: int) {
    exists i :: 0 <= i < |t| && t[i].state == ZOMBIE && t[i].pid == x
  }

  ghost predicate SamePids(s: Sys, s': Sys) {
    && |s'.t| == |s.t| && s'.nextpid == s.nextpid && s'.exited == s.exited && s'.reaped == s.reaped
    && forall i :: 0 <= i < |s.t| ==>
         && s'.t[i].pid == s.t[i].pid
         && (s'.t[i].state == UNUSED <==> s.t[i].state == UNUSED)
         && (s'.t[i].state == ZOMBIE <==> s.t[i].state == ZOMBIE)
  }

  lemma SamePidsKeepsPids(s: Sys, s': Sys)
    requires Pids(s) && SamePids(s, s')
    ensures Pids(s')
  {
  }

  lemma MostStepsSamePids(s: Sys, s': Sys, k: nat, p: nat, step: Step)
    requires NextStep(s, s', k, p, step)
    requires step.ForkReady? ==> s.t[s.fork[p]].state == EMBRYO
    requires !step.ForkAlloc? && !step.ForkFail? && !step.Exit? && !step.WaitReap?
    ensures SamePids(s, s')
  {
    match step
    case Wakeup(c) =>
    case Kill(q) =>
    case _ =>
  }

  lemma ForkAllocKeepsPids(s: Sys, s': Sys, k: nat, p: nat, np: nat)
    requires Pids(s) && NextStep(s, s', k, p, ForkAlloc(np))
    ensures Pids(s')
  {
    forall i | 0 <= i < |s.t| && s'.t[i].state != UNUSED
      ensures PidOk(s', i) && (i != np ==> s'.t[i].pid != s.nextpid)
    {
      if i != np {
        assert PidOk(s, i);
      }
    }
    forall x | x in s.exited && Zombie(s.t, x) ensures Zombie(s'.t, x) {
      var i :| 0 <= i < |s.t| && s.t[i].state == ZOMBIE && s.t[i].pid == x;
      assert s'.t[i].state == ZOMBIE;
    }
  }

  lemma ForkFailKeepsPids(s: Sys, s': Sys, k: nat, p: nat)
    requires Tree(s) && Pids(s) && NextStep(s, s', k, p, ForkFail)
    ensures Pids(s')
  {
    assert ForkOk(s, p);
    hide Tree;
    forall i | 0 <= i < |s.t| && s'.t[i].state != UNUSED ensures PidOk(s', i) {
      assert PidOk(s, i);
    }
    forall x | x in s.exited && Zombie(s.t, x) ensures Zombie(s'.t, x) {
      var i :| 0 <= i < |s.t| && s.t[i].state == ZOMBIE && s.t[i].pid == x;
      assert s'.t[i].state == ZOMBIE;
    }
  }

  lemma ExitKeepsPids(s: Sys, s': Sys, k: nat, p: nat)
    requires Tree(s) && Pids(s) && NextStep(s, s', k, p, Exit)
    ensures Pids(s')
  {
    hide ExitTable;
    assert ParentOk(s.t, p) && PidOk(s, p);
    forall i | 0 <= i < |s.t|
      ensures s'.t[i].pid == s.t[i].pid && (s'.t[i].state == UNUSED <==> s.t[i].state == UNUSED)
      ensures s'.t[i].state == ZOMBIE <==> s.t[i].state == ZOMBIE || i == p
    {
      ExitSlots(s.t, p, s.init, i);
    }
    forall i | 0 <= i < |s.t| && s'.t[i].state != UNUSED ensures PidOk(s', i) {
      assert PidOk(s, i);
    }
    forall x | x in s'.exited && x !in s.reaped ensures Zombie(s'.t, x) && x < s.nextpid {
      if x == s.t[p].pid {
        assert s'.t[p].state == ZOMBIE;
      } else {
        var i :| 0 <= i < |s.t| && s.t[i].state == ZOMBIE && s.t[i].pid == x;
        assert s'.t[i].state == ZOMBIE;
      }
    }
  }

  lemma WaitReapKeepsPids(s: Sys, s': Sys, k: nat, p: nat, q: nat)
    requires Pids(s) && NextStep(s, s', k, p, WaitReap(q))
    ensures Pids(s')
  {
    assert PidOk(s, q);
    forall i | 0 <= i < |s.t| && s'.t[i].state != UNUSED ensures PidOk(s', i) {
      assert PidOk(s, i);
    }
    forall x | x in s.exited ensures x in s'.reaped || Zombie(s'.t, x) {
      if x !in s.reaped {
        var i :| 0 <= i < |s.t| && s.t[i].state == ZOMBIE && s.t[i].pid == x;
        if i == q {
          assert s'.reaped[|s.reaped|] == x;
        } else {
          assert s'.t[i].state == ZOMBIE;
        }
      } else {
        var i :| 0 <= i < |s.reaped| && s.reaped[i] == x;
        assert s'.reaped[i] == x;
      }
    }
    forall i | 0 <= i < |s'.reaped| ensures s'.reaped[i] in s'.exited {
    }
  }

  lemma KeepsPids(s: Sys, s': Sys, k: nat, p: nat, step: Step)
    requires Tree(s) && Pids(s) && NextStep(s, s', k, p, step)
    ensures Pids(s')
  {
    hide Tree, Pids, NextStep, SamePids;
    if step.ForkAlloc? {
      ForkAllocKeepsPids(s, s', k, p, step.np);
    } else if step.ForkFail? {
      ForkFailKeepsPids(s, s', k, p);
    } else if step.Exit? {
      ExitKeepsPids(s, s', k, p);
    } else if step.WaitReap? {
      WaitReapKeepsPids(s, s', k, p, step.q);
    } else {
      EmbryoAtFork(s, s', k, p, step);
      MostStepsSamePids(s, s', k, p, step);
      SamePidsKeepsPids(s, s');
    }
  }

  // ---------- whole runs ----------

  ghost predicate Inv(s: Sys) {
    Owners(s) && Tree(s) && Pids(s)
  }

  lemma EmbryoAtFork(s: Sys, s': Sys, k: nat, p: nat, step: Step)
    requires Tree(s) && NextStep(s, s', k, p, step)
    ensures step.ForkFail? || step.ForkParent? || step.ForkReady? ==> s.t[s.fork[p]].state == EMBRYO
  {
  }

  lemma NextKeepsInv(s: Sys, s': Sys)
    requires Inv(s) && Next(s, s')
    ensures Inv(s')
  {
    var k, p, step :| NextStep(s, s', k, p, step);
    hide Owners, Tree, Pids;
    EmbryoAtFork(s, s', k, p, step);
    KeepsOwners(s, s', k, p, step);
    KeepsTree(s, s', k, p, step);
    KeepsPids(s, s', k, p, step);
  }

  lemma InitHasInv(s: Sys)
    requires Init(s)
    ensures Inv(s)
  {
  }

  lemma {:induction false} RunKeepsInv(run: seq<Sys>, i: nat)
    requires IsRun(run) && i < |run|
    ensures Inv(run[i])
  {
    hide Inv, Next, Init;
    if i == 0 {
      InitHasInv(run[0]);
    } else {
      RunKeepsInv(run, i - 1);
      NextKeepsInv(run[i - 1], run[i]);
    }
  }

  /** CPU ownership: whenever ptable.lock is free, the running processes and the CPUs' current
      processes are in one-to-one correspondence. */
  lemma CpuOwnership(run: seq<Sys>, i: nat)
    requires IsRun(run) && i < |run| && run[i].lock == None
    ensures forall k :: 0 <= k < |run[i].cpus| && run[i].cpus[k].proc.Some? ==>
              var p := run[i].cpus[k].proc.value;
              p < |run[i].t| && run[i].t[p].state == RUNNING && run[i].cpus[k].ctx == Thread(p)
    ensures forall p :: 0 <= p < |run[i].t| && run[i].t[p].state == RUNNING ==>
              exists k :: 0 <= k < |run[i].cpus| && run[i].cpus[k].proc == Some(p)
    ensures forall j, k :: 0 <= j < k < |run[i].cpus| && run[i].cpus[j].proc.Some? ==>
              run[i].cpus[j].proc != run[i].cpus[k].proc
  {
    RunKeepsInv(run, i);
    var s := run[i];
    hide Tree, Pids, IsRun;
    forall k | 0 <= k < |s.cpus| && s.cpus[k].proc.Some?
      ensures
        var p := s.cpus[k].proc.value;
        p < |s.t| && s.t[p].state == RUNNING && s.cpus[k].ctx == Thread(p)
    {
      assert CpuOk(s, k);
    }
    forall p | 0 <= p < |s.t| && s.t[p].state == RUNNING
      ensures exists k :: 0 <= k < |s.cpus| && s.cpus[k].proc == Some(p)
    {
      var k :| 0 <= k < |s.cpus| && s.cpus[k].ctx == Thread(p);
      assert CpuOk(s, k);
    }
  }

  /** Zombie safety: when wait frees the stack and page table of q, no CPU executes q, has it as
      its current process or has its page table loaded. */
  lemma ZombieSafety(run: seq<Sys>, i: nat, k: nat, p: nat, q: nat)
    requires IsRun(run) && i + 1 < |run| && NextStep(run[i], run[i + 1], k, p, WaitReap(q))
    ensures forall j :: 0 <= j < |run[i].cpus| ==>
              run[i].cpus[j].proc != Some(q) && run[i].cpus[j].ctx != Thread(q) && run[i].cpus[j].pt != Some(q)
  {
    RunKeepsInv(run, i);
    hide IsRun, Tree, Pids, Owners;
    ReapIsSafe(run[i], k, p, q);
  }

  /** The process tree: every process but init has a parent, which is a live process; and no process
      sleeps in wait while it has a zombie child or has been killed. */
  lemma ProcessTree(run: seq<Sys>, i: nat, q: nat)
    requires IsRun(run) && i < |run| && q < |run[i].t|
    ensures run[i].t[q].parent.Some? ==>
              run[i].t[q].parent.value < |run[i].t| && IsLive(run[i].t[run[i].t[q].parent.value])
    ensures q != run[i].init && (IsLive(run[i].t[q]) || run[i].t[q].state == ZOMBIE) ==> run[i].t[q].parent.Some?
    ensures q == run[i].init ==> IsLive(run[i].t[q])
    ensures SleepsOn(run[i].t[q], OnProc(q)) ==> !HasChild(run[i].t, q, true) && !run[i].t[q].killed
  {
    RunKeepsInv(run, i);
    hide IsRun, Owners, Pids;
    assert ParentOk(run[i].t, q) && WaiterOk(run[i].t, q);
  }

  /** Slot q is a zombie whose parent p is alive and not asleep in wait: p's wait will find it. */
  ghost predicate Collectable(t: Table, q: nat, p: nat) {
    && q < |t| && p < |t| && t[q].state == ZOMBIE && t[q].parent == Some(p)
    && IsLive(t[p]) && !SleepsOn(t[p], OnProc(p))
  }

  /** Nobody is forgotten: every pid that has exited and not been returned by wait is a zombie that a
      live parent can collect. */
  lemma EveryZombieCollectable(run: seq<Sys>, i: nat, x: int)
    requires IsRun(run) && i < |run| && x in run[i].exited && x !in run[i].reaped
    ensures exists q: nat, p: nat :: Collectable(run[i].t, q, p) && run[i].t[q].pid == x
  {
    hide IsRun, Inv;
    CollectedOnce(run, i, x);
    var t := run[i].t;
    var q: nat :| q < |t| && t[q].state == ZOMBIE && t[q].pid == x;
    ProcessTree(run, i, q);
    var p := t[q].parent.value;
    ProcessTree(run, i, p);
    assert HasChild(t, p, true);
    assert Collectable(t, q, p);
  }

  /** Every exited pid is returned by wait at most once, and until then a zombie holds it. */
  lemma CollectedOnce(run: seq<Sys>, i: nat, x: int)
    requires IsRun(run) && i < |run|
    ensures forall a, b :: 0 <= a < b < |run[i].reaped| ==> run[i].reaped[a] != run[i].reaped[b]
    ensures x in run[i].reaped ==> x in run[i].exited && !Zombie(run[i].t, x)
    ensures x in run[i].exited && x !in run[i].reaped ==> Zombie(run[i].t, x)
  {
    RunKeepsInv(run, i);
    var s := run[i];
    hide IsRun, Owners, Tree;
    assert forall j :: 0 <= j < |s.t| && s.t[j].state == ZOMBIE ==> PidOk(s, j);
  }

  // ---------- collected pids ----------

  /** Pids are used once, and a collected one is gone from the table, free slots included. */
  ghost predicate PidsOnce(s: Sys) {
    && s.nextpid > 0
    && (forall i :: 0 <= i < |s.t| ==> 0 <= s.t[i].pid < s.nextpid && (s.t[i].state != UNUSED ==> s.t[i].pid != 0))
    && (forall i, j :: 0 <= i < j < |s.t| && s.t[i].pid == s.t[j].pid ==> s.t[i].pid == 0)
    && (forall x :: x in s.reaped ==> 0 < x < s.nextpid)
    && (forall i, x :: 0 <= i < |s.t| && x in s.reaped ==> s.t[i].pid != x)
  }

  /** Steps that leave pids alone and take no slot into use. */
  ghost predicate PidsStay(s: Sys, s': Sys) {
    && |s'.t| == |s.t| && s'.nextpid == s.nextpid && s'.reaped == s.reaped
    && forall i :: 0 <= i < |s.t| ==>
         s'.t[i].pid == s.t[i].pid && (s'.t[i].state != UNUSED ==> s.t[i].state != UNUSED)
  }

  lemma MostPidsStay(s: Sys, s': Sys, k: nat, p: nat, step: Step)
    requires Tree(s) && NextStep(s, s', k, p, step) && !step.ForkAlloc? && !step.WaitReap?
    ensures PidsStay(s, s')
  {
    hide Tree, ExitTable;
    EmbryoAtFork(s, s', k, p, step);
    if step.Exit? {
      forall i | 0 <= i < |s.t|
        ensures s'.t[i].pid == s.t[i].pid && (s'.t[i].state != UNUSED ==> s.t[i].state != UNUSED)
      {
        TreeParent(s, p);
        ExitSlots(s.t, p, s.init, i);
      }
    }
  }

  lemma StepKeepsPidsOnce(s: Sys, s': Sys, k: nat, p: nat, step: Step)
    requires Tree(s) && PidsOnce(s) && NextStep(s, s', k, p, step)
    ensures PidsOnce(s')
  {
    hide Tree, NextStep, PidsOnce, PidsStay;
    if step.ForkAlloc? {
      AllocKeepsPidsOnce(s, s', k, p, step.np);
    } else if step.WaitReap? {
      ReapKeepsPidsOnce(s, s', k, p, step.q);
    } else {
      MostPidsStay(s, s', k, p, step);
      StayKeepsPidsOnce(s, s');
    }
  }

  lemma StayKeepsPidsOnce(s: Sys, s': Sys)
    requires PidsOnce(s) && PidsStay(s, s')
    ensures PidsOnce(s')
  {
  }

  lemma AllocKeepsPidsOnce(s: Sys, s': Sys, k: nat, p: nat, np: nat)
    requires PidsOnce(s) && NextStep(s, s', k, p, ForkAlloc(np))
    ensures PidsOnce(s')
  {
    hide InSection;
  }

  lemma ReapKeepsPidsOnce(s: Sys, s': Sys, k: nat, p: nat, q: nat)
    requires PidsOnce(s) && NextStep(s, s', k, p, WaitReap(q))
    ensures PidsOnce(s')
  {
    hide InSection;
    forall x | x in s'.reaped ensures x in s.reaped || x == s.t[q].pid {
    }
  }

  lemma {:induction false} RunKeepsPidsOnce(run: seq<Sys>, i: nat)
    requires IsRun(run) && i < |run|
    ensures PidsOnce(run[i])
  {
    hide NextStep, PidsOnce, Tree, Pids, Owners, Init;
    if i == 0 {
      InitPidsOnce(run[0]);
    } else {
      RunKeepsPidsOnce(run, i - 1);
      RunKeepsInv(run, i - 1);
      var k, p, step :| NextStep(run[i - 1], run[i], k, p, step);
      StepKeepsPidsOnce(run[i - 1], run[i], k, p, step);
    }
  }

  lemma InitPidsOnce(s: Sys)
    requires Init(s)
    ensures PidsOnce(s)
  {
  }

  /** A pid that wait has returned is in no slot any more, used or free: kill does not find it. */
  lemma CollectedIsGone(run: seq<Sys>, i: nat, x: int, q: nat)
    requires IsRun(run) && i < |run| && x in run[i].reaped && q < |run[i].t|
    ensures run[i].t[q].pid != x
  {
    hide IsRun;
    RunKeepsPidsOnce(run, i);
  }

  // ---------- kill ----------

  ghost predicate Kills(s: Sys, s': Sys, q: nat) {
    exists k, p :: NextStep(s, s', k, p, Kill(q))
  }

  ghost predicate Reaps(s: Sys, s': Sys, q: nat) {
    exists k, p :: NextStep(s, s', k, p, WaitReap(q))
  }

  /** The process in slot q calls sleep, by itself or in wait. */
  ghost predicate GoesToSleep(s: Sys, s': Sys, q: nat) {
    || (exists k, id :: NextStep(s, s', k, q, Sleep(id)))
    || (exists k :: NextStep(s, s', k, q, WaitSleep))
  }

  /** Only kill marks a slot, only wait clears the mark, and only its own sleep puts a process to sleep. */
  lemma StepMarks(s: Sys, s': Sys, k: nat, p: nat, step: Step, q: nat)
    requires Tree(s) && NextStep(s, s', k, p, step) && q < |s.t|
    ensures |s'.t| == |s.t|
    ensures !(step == Kill(q)) && !(step == WaitReap(q)) ==> s'.t[q].killed == s.t[q].killed
    ensures s'.t[q].state == SLEEPING && !(p == q && (step.Sleep? || step.WaitSleep?)) ==> s.t[q].state == SLEEPING
  {
    hide Tree, ExitTable;
    if step.Exit? {
      TreeParent(s, p);
      ExitSlots(s.t, p, s.init, q);
    }
  }

  lemma TreeParent(s: Sys, p: nat)
    requires Tree(s) && p < |s.t|
    ensures ParentOk(s.t, p)
  {
  }

  lemma NextMarks(s: Sys, s': Sys, q: nat)
    requires Tree(s) && Next(s, s') && q < |s.t|
    ensures |s'.t| == |s.t|
    ensures Kills(s, s', q) ==> s'.t[q].killed && s'.t[q].state != SLEEPING
    ensures Reaps(s, s', q) ==> !s'.t[q].killed
    ensures !Kills(s, s', q) && !Reaps(s, s', q) ==> s'.t[q].killed == s.t[q].killed
    ensures !GoesToSleep(s, s', q) && s'.t[q].state == SLEEPING ==> s.t[q].state == SLEEPING
  {
    var k, p, step :| NextStep(s, s', k, p, step);
    StepMarks(s, s', k, p, step, q);
    hide Tree;
  }

  lemma {:induction false} TableSize(run: seq<Sys>, i: nat)
    requires IsRun(run) && i < |run|
    ensures |run[i].t| == |run[0].t| > 0 && Tree(run[i])
  {
    hide Next, Tree, Pids, Owners;
    RunKeepsInv(run, i);
    if i > 0 {
      TableSize(run, i - 1);
      NextMarks(run[i - 1], run[i], 0);
    }
  }

  /** What kill does: whatever happens afterwards, the process is not asleep unless it has called sleep
      again since. */
  lemma {:induction false} KilledWakes(run: seq<Sys>, i: nat, j: nat, q: nat)
    requires IsRun(run) && i < j < |run| && q < |run[i].t| && Kills(run[i], run[i + 1], q)
    requires forall m :: i < m < j ==> !GoesToSleep(run[m], run[m + 1], q)
    ensures q < |run[j].t| && run[j].t[q].state != SLEEPING
    decreases j
  {
    hide Next, Tree, Kills, GoesToSleep, Reaps;
    TableSize(run, i);
    TableSize(run, j);
    TableSize(run, j - 1);
    NextMarks(run[j - 1], run[j], q);
    if i < j - 1 {
      KilledWakes(run, i, j - 1, q);
    }
  }

  /** A kill has hit slot q since it was last collected. */
  ghost predicate MarkedSince(run: seq<Sys>, j: nat, q: nat)
    requires j < |run|
  {
    exists m :: 0 <= m < j && Kills(run[m], run[m + 1], q) && NotReaped(run, m, j, q)
  }

  ghost predicate NotReaped(run: seq<Sys>, m: int, j: nat, q: nat)
    requires j < |run| && 0 <= m
  {
    forall n :: m < n < j ==> !Reaps(run[n], run[n + 1], q)
  }

  /** A slot is marked killed exactly if a kill has hit it since it was last collected by wait; so what
      fork makes of it is unmarked exactly if none has. */
  lemma {:induction false} MarkedExactly(run: seq<Sys>, j: nat, q: nat)
    requires IsRun(run) && j < |run| && q < |run[j].t|
    ensures run[j].t[q].killed <==> MarkedSince(run, j, q)
  {
    hide Next, Tree, Kills, Reaps;
    if j > 0 {
      TableSize(run, j);
      TableSize(run, j - 1);
      MarkedExactly(run, j - 1, q);
      NextMarks(run[j - 1], run[j], q);
      MarkedNext(run, j, q);
    }
  }

  lemma MarkedNext(run: seq<Sys>, j: nat, q: nat)
    requires 0 < j < |run|
    ensures Kills(run[j - 1], run[j], q) ==> MarkedSince(run, j, q)
    ensures !Kills(run[j - 1], run[j], q) ==>
              (MarkedSince(run, j, q) <==> MarkedSince(run, j - 1, q) && !Reaps(run[j - 1], run[j], q))
  {
    hide Kills, Reaps;
    if Kills(run[j - 1], run[j], q) {
      assert NotReaped(run, j - 1, j, q);
    }
    if m :| 0 <= m < j - 1 && Kills(run[m], run[m + 1], q) && NotReaped(run, m, j - 1, q) {
      if !Reaps(run[j - 1], run[j], q) {
        assert NotReaped(run, m, j, q);
      }
    }
    if m :| 0 <= m < j && Kills(run[m], run[m + 1], q) && NotReaped(run, m, j, q) {
      if m < j - 1 {
        assert NotReaped(run, m, j - 1, q);
        assert !Reaps(run[j - 1], run[j], q);
      }
    }
  }

  /** kill also hits free slots: with pid 0 the first of them.  Then fork hands out a process that has
      been killed before it starts. */
  lemma KilledBeforeBirth(s: Sys) returns (run: seq<Sys>)
    requires Init(s) && s.init == 0 && |s.t| > 1 && |s.cpus| > 0
    ensures IsRun(run) && |run| == 5 && run[0] == s
    ensures Kills(run[2], run[3], 1) && run[2].t[1].pid == 0 && run[2].t[1].state == UNUSED
    ensures |run[4].t| > 1 && run[4].t[1].state == EMBRYO && run[4].t[1].killed
  {
    var a := s.(lock := Some(0));
    var b := a.(cpus := a.cpus[0 := Cpu(Some(0), Thread(0), Some(0))], t := SetState(a.t, 0, RUNNING));
    var c := b.(t := b.t[1 := Killed(b.t[1])]);
    var d := c.(t := c.t[1 := c.t[1].(state := EMBRYO, pid := c.nextpid)], nextpid := c.nextpid + 1,
                fork := c.fork[0 := 1]);
    assert NextStep(s, a, 0, 0, SchedAcquire);
    assert NextStep(a, b, 0, 0, Dispatch(0));
    assert NextStep(b, c, 0, 0, Kill(1));
    assert NextStep(c, d, 0, 0, ForkAlloc(1));
    run := [s, a, b, c, d];
  }
}
