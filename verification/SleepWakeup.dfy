/** sleep, wakeup, spin-locks and sleep-locks (proc.c, spinlock.c, sleeplock.c) for any number of
    processes, locks and channels.  The condition of channel c changes only under lock lockOf[c], and
    several channels may share a lock, as the two of a pipe do.  Every xchg, release, store to a
    lock, store to the process table and scan position is a step of its own. */
module SleepWakeup {
  import opened Wrappers

  /** Where a process is.  `held` is the spin-lock, if any, under which wakeup was called. */
  datatype Pc =
    | Idle
    | WantLk(l: nat)                              // spinning in acquire
    | InLk(l: nat)                                // holds l
    | SawFree(c: nat)                             // acquiresleep: has found locked == 0
    | SetLocked(c: nat)                           // acquiresleep: has set locked, not yet pid
    | Cleared(c: nat)                             // releasesleep: has cleared locked, not yet pid
    | WantPt(c: nat)                              // sleep: spinning on ptable.lock, holds lk
    | GotPt(c: nat)                               // holds both, about to release lk
    | RelLk(c: nat)                               // about to set chan
    | ChanSet(c: nat)                             // about to set state
    | AsleepPt(c: nat)                            // SLEEPING, the scheduler not yet out of the lock
    | Asleep(c: nat)                              // off the CPU
    | Awake(c: nat)                               // back from sched with ptable.lock, chan still set
    | Tidied(c: nat)                              // chan cleared, about to release ptable.lock
    | WantScan(c: nat, held: Option<nat>)         // wakeup: spinning on ptable.lock
    | Scan(c: nat, i: nat, held: Option<nat>)     // in wakeup1 at slot i

  /** `lk` and `pt` are the words that xchg works on.  `sleeping` and `chan` are the state and chan of
      the process table.  `owed` has the channels whose condition a process has made true without
      having begun a wakeup since.  For a sleep-lock isLock[c] holds, cond[c] means !locked, pid[c] is
      lk->pid, and `has` says who is between acquiresleep's last store and releasesleep's first. */
  datatype Sys = Sys(
    pc: seq<Pc>, sleeping: seq<bool>, chan: seq<Option<nat>>, owed: seq<set<nat>>, pt: bool,
    lk: seq<bool>, lockOf: seq<nat>, cond: seq<bool>, isLock: seq<bool>, pid: seq<Option<nat>>, has: set<(nat, nat)>)

  datatype Step =
    | Enter(lock: nat) | Xchg | Leave
    | SetCond(ch: nat, b: bool)
    | TestFree(ch: nat) | StoreLocked | StorePid | ClearLocked(ch: nat) | ClearPid
    | SleepCall(ch: nat) | SleepPt | SleepRel | SetChan | SetState | SleepSched | Resume | Tidy | SleepOut
    | WakeCall(ch: nat) | WakePt | ScanStep | ScanEnd
    | KillWake(q: nat)

  predicate PcOk(pc: Pc, locks: nat, chans: nat) {
    match pc
    case Idle => true
    case WantLk(l) => l < locks
    case InLk(l) => l < locks
    case _ => pc.c < chans
  }

  ghost predicate Shaped(s: Sys) {
    && |s.sleeping| == |s.chan| == |s.owed| == |s.pc|
    && |s.cond| == |s.isLock| == |s.pid| == |s.lockOf|
    && (forall c :: 0 <= c < |s.lockOf| ==> s.lockOf[c] < |s.lk|)
    && forall p :: 0 <= p < |s.pc| ==> PcOk(s.pc[p], |s.lk|, |s.lockOf|)
  }

  /** Process p, which holds lock l, works on channel c of that lock. */
  ghost predicate At(s: Sys, p: nat, c: nat)
    requires Shaped(s) && p < |s.pc|
  {
    c < |s.lockOf| && s.pc[p] == InLk(s.lockOf[c])
  }

  /** acquire, release and stores to the conditions under a lock. */
  ghost predicate LockStep(s: Sys, s': Sys, p: nat, step: Step)
    requires Shaped(s) && p < |s.pc|
  {
    var pc := s.pc[p];
    match step
    case Enter(l) => pc.Idle? && s.owed[p] == {} && l < |s.lk| && s' == s.(pc := s.pc[p := WantLk(l)])
    case Xchg =>
      pc.WantLk? && s' == s.(lk := s.lk[pc.l := true], pc := if s.lk[pc.l] then s.pc else s.pc[p := InLk(pc.l)])
    case Leave => pc.InLk? && s' == s.(pc := s.pc[p := Idle], lk := s.lk[pc.l := false])
    case SetCond(c, b) =>
      && At(s, p, c) && !s.isLock[c]
      && s' == s.(cond := s.cond[c := b], owed := if b then s.owed[p := s.owed[p] + {c}] else s.owed)
    case _ => false
  }

  /** acquiresleep and releasesleep under the inner lock. */
  ghost predicate MutexStep(s: Sys, s': Sys, p: nat, step: Step)
    requires Shaped(s) && p < |s.pc|
  {
    var pc := s.pc[p];
    match step
    case TestFree(c) => At(s, p, c) && s.isLock[c] && s.cond[c] && s' == s.(pc := s.pc[p := SawFree(c)])
    case StoreLocked => pc.SawFree? && s' == s.(pc := s.pc[p := SetLocked(pc.c)], cond := s.cond[pc.c := false])
    case StorePid =>
      && pc.SetLocked?
      && s' == s.(pc := s.pc[p := InLk(s.lockOf[pc.c])], pid := s.pid[pc.c := Some(p)], has := s.has + {(p, pc.c)})
    case ClearLocked(c) =>  // only a process that has the lock calls releasesleep
      && At(s, p, c) && s.isLock[c] && (p, c) in s.has
      && s' == s.(pc := s.pc[p := Cleared(c)], cond := s.cond[c := true], has := s.has - {(p, c)},
                  owed := s.owed[p := s.owed[p] + {c}])
    case ClearPid => pc.Cleared? && s' == s.(pc := s.pc[p := InLk(s.lockOf[pc.c])], pid := s.pid[pc.c := None])
    case _ => false
  }

  /** sleep, from the test of the condition to the return. */
  ghost predicate SleepStep(s: Sys, s': Sys, p: nat, step: Step)
    requires Shaped(s) && p < |s.pc|
  {
    var pc := s.pc[p];
    match step
    case SleepCall(c) => At(s, p, c) && !s.cond[c] && s.owed[p] == {} && s' == s.(pc := s.pc[p := WantPt(c)])
    case SleepPt => pc.WantPt? && s' == s.(pt := true, pc := if s.pt then s.pc else s.pc[p := GotPt(pc.c)])
    case SleepRel => pc.GotPt? && s' == s.(pc := s.pc[p := RelLk(pc.c)], lk := s.lk[s.lockOf[pc.c] := false])
    case SetChan => pc.RelLk? && s' == s.(pc := s.pc[p := ChanSet(pc.c)], chan := s.chan[p := Some(pc.c)])
    case SetState => pc.ChanSet? && s' == s.(pc := s.pc[p := AsleepPt(pc.c)], sleeping := s.sleeping[p := true])
    case SleepSched => pc.AsleepPt? && s' == s.(pc := s.pc[p := Asleep(pc.c)], pt := false)
    case Resume =>  // the scheduler, once the process is RUNNABLE
      && pc.Asleep? && !s.sleeping[p]
      && s' == s.(pt := true, pc := if s.pt then s.pc else s.pc[p := Awake(pc.c)])
    case Tidy => pc.Awake? && s' == s.(pc := s.pc[p := Tidied(pc.c)], chan := s.chan[p := None])
    case SleepOut => pc.Tidied? && s' == s.(pc := s.pc[p := WantLk(s.lockOf[pc.c])], pt := false)
    case _ => false
  }

  /** wakeup, and kill. */
  ghost predicate WakeStep(s: Sys, s': Sys, p: nat, step: Step)
    requires Shaped(s) && p < |s.pc|
  {
    var pc := s.pc[p];
    match step
    case WakeCall(c) =>
      && c < |s.lockOf| && (pc.Idle? || pc.InLk?)
      && s' == s.(pc := s.pc[p := WantScan(c, if pc.InLk? then Some(pc.l) else None)])
    case WakePt =>
      && pc.WantScan?
      && s' == if s.pt then s
               else s.(pt := true, pc := s.pc[p := Scan(pc.c, 0, pc.held)], owed := s.owed[p := s.owed[p] - {pc.c}])
    case ScanStep =>
      && pc.Scan? && pc.i < |s.pc|
      && s' == s.(pc := s.pc[p := Scan(pc.c, pc.i + 1, pc.held)],
                  sleeping := if s.sleeping[pc.i] && s.chan[pc.i] == Some(pc.c) then s.sleeping[pc.i := false]
                              else s.sleeping)
    case ScanEnd =>
      && pc.Scan? && pc.i >= |s.pc| && (pc.held.Some? ==> pc.held.value < |s.lk|)
      && s' == s.(pc := s.pc[p := if pc.held.Some? then InLk(pc.held.value) else Idle], pt := false)
    case KillWake(q) => pc.Idle? && !s.pt && q < |s.pc| && s' == s.(sleeping := s.sleeping[q := false])
    case _ => false
  }

  ghost predicate NextStep(s: Sys, s': Sys, p: nat, step: Step)
    requires Shaped(s) && p < |s.pc|
  {
    || LockStep(s, s', p, step)
    || MutexStep(s, s', p, step)
    || SleepStep(s, s', p, step)
    || WakeStep(s, s', p, step)
  }

  ghost predicate Next(s: Sys, s': Sys) {
    Shaped(s) && exists p, step :: 0 <= p < |s.pc| && NextStep(s, s', p, step)
  }

  ghost predicate Init(s: Sys) {
    && Shaped(s)
    && (forall p :: 0 <= p < |s.pc| ==> s.pc[p] == Idle && !s.sleeping[p] && s.owed[p] == {})
    && !s.pt && s.has == {} && (forall l :: 0 <= l < |s.lk| ==> !s.lk[l])
    && (forall c :: 0 <= c < |s.lockOf| ==> s.pid[c] == None && (s.isLock[c] ==> s.cond[c]))
  }

  ghost predicate IsRun(run: seq<Sys>) {
    |run| > 0 && Init(run[0]) && forall i :: 0 <= i < |run| - 1 ==> Next(run[i], run[i + 1])
  }

  // ---------- lock ownership ----------

  ghost predicate HoldsLk(s: Sys, p: nat, l: nat)
    requires Shaped(s) && p < |s.pc|
  {
    match s.pc[p]
    case InLk(k) => k == l
    case SawFree(c) => s.lockOf[c] == l
    case SetLocked(c) => s.lockOf[c] == l
    case Cleared(c) => s.lockOf[c] == l
    case WantPt(c) => s.lockOf[c] == l
    case GotPt(c) => s.lockOf[c] == l
    case WantScan(_, h) => h == Some(l)
    case Scan(_, _, h) => h == Some(l)
    case _ => false
  }

  predicate HoldsPt(pc: Pc) {
    pc.GotPt? || pc.RelLk? || pc.ChanSet? || pc.AsleepPt? || pc.Awake? || pc.Tidied? || pc.Scan?
  }

  /** At most one process holds ptable.lock, and the word says whether there is one. */
  ghost predicate PtOk(s: Sys) {
    && (forall p :: 0 <= p < |s.pc| && HoldsPt(s.pc[p]) ==> s.pt)
    && (forall p, q :: 0 <= p < q < |s.pc| ==> !(HoldsPt(s.pc[p]) && HoldsPt(s.pc[q])))
    && (s.pt ==> exists p :: 0 <= p < |s.pc| && HoldsPt(s.pc[p]))
  }

  ghost predicate Holder(s: Sys, l: nat)
    requires Shaped(s)
  {
    exists p :: 0 <= p < |s.pc| && HoldsLk(s, p, l)
  }

  /** So it is with every other spin-lock. */
  ghost predicate LkOk(s: Sys)
    requires Shaped(s)
  {
    && (forall p, l :: 0 <= p < |s.pc| && 0 <= l && HoldsLk(s, p, l) ==> l < |s.lk| && s.lk[l])
    && (forall p, q, l :: 0 <= p < q < |s.pc| && 0 <= l ==> !(HoldsLk(s, p, l) && HoldsLk(s, q, l)))
    && (forall l :: 0 <= l < |s.lk| && s.lk[l] ==> Holder(s, l))
  }

  /** Only a process that is off the CPU, or about to be, is marked as sleeping. */
  ghost predicate SleepersOk(s: Sys)
    requires Shaped(s)
  {
    && (forall p :: 0 <= p < |s.pc| && s.sleeping[p] ==> s.pc[p].AsleepPt? || s.pc[p].Asleep?)
    && (forall p :: 0 <= p < |s.pc| && (s.pc[p].ChanSet? || s.pc[p].AsleepPt? || s.pc[p].Asleep? || s.pc[p].Awake?) ==>
          s.chan[p] == Some(s.pc[p].c))
  }

  /** Whoever owes a wakeup is not asleep, nor waiting for a lock other than ptable.lock. */
  ghost predicate DebtorsOk(s: Sys)
    requires Shaped(s)
  {
    forall p :: 0 <= p < |s.pc| && s.owed[p] != {} ==> OnItsWay(s.pc[p])
  }

  predicate OnItsWay(pc: Pc) {
    pc.Idle? || pc.InLk? || pc.SawFree? || pc.SetLocked? || pc.Cleared? || pc.WantScan? || pc.Scan?
  }

  ghost predicate Locks(s: Sys) {
    Shaped(s) && PtOk(s) && LkOk(s) && SleepersOk(s) && DebtorsOk(s)
  }

  /** What no step changes, and that a step moves one process only. */
  ghost predicate Sized(s: Sys, s': Sys, p: nat) {
    && Shaped(s') && |s'.pc| == |s.pc| && |s'.lk| == |s.lk| && s'.isLock == s.isLock && s'.lockOf == s.lockOf
    && forall q :: 0 <= q < |s.pc| && q != p ==> s'.pc[q] == s.pc[q]
  }

  lemma ShapeLock(s: Sys, s': Sys, p: nat, step: Step)
    requires Shaped(s) && p < |s.pc| && LockStep(s, s', p, step)
    ensures Sized(s, s', p)
  {
  }

  lemma ShapeMutex(s: Sys, s': Sys, p: nat, step: Step)
    requires Shaped(s) && p < |s.pc| && MutexStep(s, s', p, step)
    ensures Sized(s, s', p)
  {
  }

  lemma ShapeSleep(s: Sys, s': Sys, p: nat, step: Step)
    requires Shaped(s) && p < |s.pc| && SleepStep(s, s', p, step)
    ensures Sized(s, s', p)
  {
  }

  lemma ShapeWake(s: Sys, s': Sys, p: nat, step: Step)
    requires Shaped(s) && p < |s.pc| && WakeStep(s, s', p, step)
    ensures Sized(s, s', p)
  {
  }

  lemma KeepsShape(s: Sys, s': Sys, p: nat, step: Step)
    requires Shaped(s) && p < |s.pc| && NextStep(s, s', p, step)
    ensures Sized(s, s', p)
  {
    hide LockStep, MutexStep, SleepStep, WakeStep, Sized, Shaped;
    if LockStep(s, s', p, step) {
      ShapeLock(s, s', p, step);
    } else if MutexStep(s, s', p, step) {
      ShapeMutex(s, s', p, step);
    } else if SleepStep(s, s', p, step) {
      ShapeSleep(s, s', p, step);
    } else {
      ShapeWake(s, s', p, step);
    }
  }

  // What the steps of each group leave alone.

  lemma LockFrame(s: Sys, s': Sys, p: nat, step: Step)
    requires Shaped(s) && Sized(s, s', p) && p < |s.pc| && LockStep(s, s', p, step)
    ensures s'.pt == s.pt && s'.sleeping == s.sleeping && s'.chan == s.chan && s'.pid == s.pid && s'.has == s.has
    ensures Plain(s.pc[p]) && Plain(s'.pc[p])
    ensures forall c :: 0 <= c < |s.cond| && s'.cond[c] != s.cond[c] ==> At(s, p, c) && !s.isLock[c]
    ensures forall c :: 0 <= c < |s.cond| && s'.cond[c] && !s.cond[c] ==> c in s'.owed[p]
    ensures s.owed[p] <= s'.owed[p] && s'.owed == s.owed[p := s'.owed[p]]
  {
    hide Sized, PcOk;
  }

  predicate Plain(pc: Pc) {
    pc.Idle? || pc.WantLk? || pc.InLk?
  }

  lemma MutexFrame(s: Sys, s': Sys, p: nat, step: Step)
    requires Shaped(s) && Sized(s, s', p) && p < |s.pc| && MutexStep(s, s', p, step)
    ensures s'.pt == s.pt && s'.lk == s.lk && s'.sleeping == s.sleeping && s'.chan == s.chan
    ensures InMutex(s.pc[p]) && InMutex(s'.pc[p])
    ensures s.owed[p] <= s'.owed[p] && s'.owed == s.owed[p := s'.owed[p]]
    ensures forall l: nat :: HoldsLk(s', p, l) <==> HoldsLk(s, p, l)
  {
  }

  /** The sleep-lock a step is about. */
  function MutexOf(step: Step, pc: Pc): nat {
    if step.TestFree? || step.ClearLocked? then step.ch
    else if pc.SawFree? || pc.SetLocked? || pc.Cleared? then pc.c else 0
  }

  lemma MutexOnly(s: Sys, s': Sys, p: nat, step: Step)
    requires Shaped(s) && Sized(s, s', p) && p < |s.pc| && MutexStep(s, s', p, step)
    ensures
      var c := MutexOf(step, s.pc[p]);
      c < |s.lockOf| && HoldsLk(s, p, s.lockOf[c]) && OnlyMutex(s, s', p, c)
  {
  }

  predicate InMutex(pc: Pc) {
    pc.InLk? || pc.SawFree? || pc.SetLocked? || pc.Cleared?
  }

  /** The step concerns sleep-lock c alone. */
  ghost predicate OnlyMutex(s: Sys, s': Sys, p: nat, c: nat)
    requires Shaped(s) && Shaped(s') && s'.lockOf == s.lockOf
  {
    && (forall d :: 0 <= d < |s.cond| && d != c ==> s'.cond[d] == s.cond[d] && s'.pid[d] == s.pid[d])
    && (forall q: nat, d: nat :: d != c ==> ((q, d) in s'.has <==> (q, d) in s.has))
    && p < |s.pc| == |s'.pc| && (forall d: nat :: d != c ==> !MidLock(s.pc[p], d) && !MidLock(s'.pc[p], d))
    && (c < |s.cond| && s'.cond[c] && !s.cond[c] ==> c in s'.owed[p])
  }

  predicate MidLock(pc: Pc, c: nat) {
    pc == SawFree(c) || pc == SetLocked(c) || pc == Cleared(c)
  }

  lemma SleepFrame(s: Sys, s': Sys, p: nat, step: Step)
    requires Shaped(s) && Sized(s, s', p) && p < |s.pc| && SleepStep(s, s', p, step)
    ensures s'.cond == s.cond && s'.pid == s.pid && s'.has == s.has && s'.owed == s.owed
    ensures forall c: nat :: !MidLock(s.pc[p], c) && !MidLock(s'.pc[p], c)
    ensures !s.pc[p].Scan? && !s'.pc[p].Scan?
  {
    hide Sized, PcOk;
  }

  lemma WakeFrame(s: Sys, s': Sys, p: nat, step: Step)
    requires Shaped(s) && Sized(s, s', p) && p < |s.pc| && WakeStep(s, s', p, step)
    ensures s'.cond == s.cond && s'.pid == s.pid && s'.has == s.has && s'.chan == s.chan && s'.lk == s.lk
    ensures InWake(s.pc[p]) && InWake(s'.pc[p])
    ensures forall l: nat :: HoldsLk(s', p, l) <==> HoldsLk(s, p, l)
    ensures forall q :: 0 <= q < |s.pc| && s'.sleeping[q] ==> s.sleeping[q]
    ensures s'.owed == s.owed[p := s'.owed[p]] && s'.owed[p] <= s.owed[p]
  {
    hide Sized, PcOk;
  }

  predicate InWake(pc: Pc) {
    pc.Idle? || pc.InLk? || pc.WantScan? || pc.Scan?
  }

  // The locks.

  /** What a step does to the holding of ptable.lock. */
  ghost predicate PtMove(s: Sys, s': Sys, p: nat) {
    && p < |s.pc| == |s'.pc|
    && (|| (s'.pt == s.pt && (HoldsPt(s'.pc[p]) <==> HoldsPt(s.pc[p])))
        || (!s.pt && s'.pt && HoldsPt(s'.pc[p]))
        || (HoldsPt(s.pc[p]) && !s'.pt && !HoldsPt(s'.pc[p])))
  }

  lemma PtSleep(s: Sys, s': Sys, p: nat, step: Step)
    requires Shaped(s) && p < |s.pc| == |s'.pc| && SleepStep(s, s', p, step)
    ensures PtMove(s, s', p)
  {
    hide Shaped;
  }

  lemma PtWake(s: Sys, s': Sys, p: nat, step: Step)
    requires Shaped(s) && p < |s.pc| == |s'.pc| && WakeStep(s, s', p, step)
    ensures PtMove(s, s', p)
  {
    hide Shaped;
  }

  lemma StepOnPt(s: Sys, s': Sys, p: nat, step: Step)
    requires Shaped(s) && Sized(s, s', p) && p < |s.pc| == |s'.pc| && NextStep(s, s', p, step)
    ensures PtMove(s, s', p)
  {
    hide LockStep, MutexStep, SleepStep, WakeStep, Shaped, Sized;
    if LockStep(s, s', p, step) {
      LockFrame(s, s', p, step);
    } else if MutexStep(s, s', p, step) {
      MutexFrame(s, s', p, step);
    } else if SleepStep(s, s', p, step) {
      PtSleep(s, s', p, step);
    } else {
      PtWake(s, s', p, step);
    }
  }

  lemma KeepsPt(s: Sys, s': Sys, p: nat, step: Step)
    requires Shaped(s) && PtOk(s) && p < |s.pc| && NextStep(s, s', p, step)
    ensures PtOk(s')
  {
    hide NextStep, Shaped, HoldsPt;
    KeepsShape(s, s', p, step);
    StepOnPt(s, s', p, step);
    if s'.pt {
      if s.pt {
        var w :| 0 <= w < |s.pc| && HoldsPt(s.pc[w]);
        assert HoldsPt(s'.pc[w]);
      } else {
        assert HoldsPt(s'.pc[p]);
      }
    }
  }

  /** What a step does to the holding of lock l. */
  ghost predicate LkMove(s: Sys, s': Sys, p: nat, l: nat)
    requires Shaped(s) && Shaped(s') && p < |s.pc| == |s'.pc| && |s'.lk| == |s.lk|
  {
    && (HoldsLk(s', p, l) && !HoldsLk(s, p, l) ==> l < |s.lk|)
    && (l < |s.lk| ==>
          || (s'.lk[l] == s.lk[l] && (HoldsLk(s', p, l) <==> HoldsLk(s, p, l)))
          || (!s.lk[l] && s'.lk[l] && HoldsLk(s', p, l))
          || (HoldsLk(s, p, l) && !s'.lk[l] && !HoldsLk(s', p, l)))
  }

  lemma LkLock(s: Sys, s': Sys, p: nat, step: Step, l: nat)
    requires Shaped(s) && Sized(s, s', p) && p < |s.pc| && LockStep(s, s', p, step)
    requires HoldsLk(s, p, l) ==> l < |s.lk| && s.lk[l]
    ensures LkMove(s, s', p, l)
  {
  }

  lemma LkSleep(s: Sys, s': Sys, p: nat, step: Step, l: nat)
    requires Shaped(s) && Sized(s, s', p) && p < |s.pc| && SleepStep(s, s', p, step)
    requires HoldsLk(s, p, l) ==> l < |s.lk| && s.lk[l]
    ensures LkMove(s, s', p, l)
  {
    hide PcOk;
  }

  lemma StepOnLock(s: Sys, s': Sys, p: nat, step: Step, l: nat)
    requires Shaped(s) && Sized(s, s', p) && p < |s.pc| && NextStep(s, s', p, step)
    requires HoldsLk(s, p, l) ==> l < |s.lk| && s.lk[l]
    ensures LkMove(s, s', p, l)
  {
    hide LockStep, MutexStep, SleepStep, WakeStep, Shaped, HoldsLk;
    if LockStep(s, s', p, step) {
      LkLock(s, s', p, step, l);
    } else if MutexStep(s, s', p, step) {
      MutexFrame(s, s', p, step);
    } else if SleepStep(s, s', p, step) {
      LkSleep(s, s', p, step, l);
    } else {
      WakeFrame(s, s', p, step);
    }
  }

  lemma KeepsLk(s: Sys, s': Sys, p: nat, step: Step)
    requires Shaped(s) && LkOk(s) && p < |s.pc| && NextStep(s, s', p, step)
    ensures Shaped(s') && LkOk(s')
  {
    hide NextStep, Shaped, HoldsLk;
    KeepsShape(s, s', p, step);
    forall q, l | 0 <= q < |s.pc| && 0 <= l && HoldsLk(s', q, l) ensures l < |s'.lk| && s'.lk[l] {
      StepOnLock(s, s', p, step, l);
      OthersHold(s, s', p, q, l);
      OneHolder(s, p, q, l);
    }
    forall q, r, l | 0 <= q < r < |s.pc| && 0 <= l ensures !(HoldsLk(s', q, l) && HoldsLk(s', r, l)) {
      StepOnLock(s, s', p, step, l);
      OthersHold(s, s', p, q, l);
      OthersHold(s, s', p, r, l);
    }
    forall l | 0 <= l < |s'.lk| && s'.lk[l] ensures Holder(s', l) {
      StepOnLock(s, s', p, step, l);
      if s.lk[l] {
        var w :| 0 <= w < |s.pc| && HoldsLk(s, w, l);
        OthersHold(s, s', p, w, l);
        assert HoldsLk(s', w, l);
      } else {
        assert HoldsLk(s', p, l);
      }
    }
  }

  lemma OneHolder(s: Sys, p: nat, q: nat, l: nat)
    requires Shaped(s) && LkOk(s) && p < |s.pc| && q < |s.pc|
    ensures HoldsLk(s, p, l) && HoldsLk(s, q, l) ==> p == q
  {
  }

  lemma OthersHold(s: Sys, s': Sys, p: nat, q: nat, l: nat)
    requires Shaped(s) && Shaped(s') && s'.lockOf == s.lockOf && q < |s.pc| == |s'.pc|
    requires q != p ==> s'.pc[q] == s.pc[q]
    ensures q != p ==> (HoldsLk(s', q, l) <==> HoldsLk(s, q, l))
  {
  }

  lemma SleepersSleep(s: Sys, s': Sys, p: nat, step: Step)
    requires Shaped(s) && SleepersOk(s) && Sized(s, s', p) && p < |s.pc| && SleepStep(s, s', p, step)
    ensures SleepersOk(s')
  {
    hide PcOk;
  }

  lemma KeepsSleepers(s: Sys, s': Sys, p: nat, step: Step)
    requires Shaped(s) && SleepersOk(s) && p < |s.pc| && NextStep(s, s', p, step)
    ensures Shaped(s') && SleepersOk(s')
  {
    hide LockStep, MutexStep, SleepStep, WakeStep, PcOk;
    KeepsShape(s, s', p, step);
    if LockStep(s, s', p, step) {
      LockFrame(s, s', p, step);
    } else if MutexStep(s, s', p, step) {
      MutexFrame(s, s', p, step);
    } else if SleepStep(s, s', p, step) {
      SleepersSleep(s, s', p, step);
    } else {
      WakeFrame(s, s', p, step);
    }
  }

  lemma DebtorsSleep(s: Sys, s': Sys, p: nat, step: Step)
    requires Shaped(s) && DebtorsOk(s) && Sized(s, s', p) && p < |s.pc| && SleepStep(s, s', p, step)
    ensures s.owed[p] == {}
  {
    hide PcOk;
  }

  lemma DebtorsLock(s: Sys, s': Sys, p: nat, step: Step)
    requires Shaped(s) && DebtorsOk(s) && Sized(s, s', p) && p < |s.pc| && LockStep(s, s', p, step)
    ensures s'.owed[p] != {} ==> OnItsWay(s'.pc[p])
  {
    hide PcOk;
  }

  lemma KeepsDebtors(s: Sys, s': Sys, p: nat, step: Step)
    requires Shaped(s) && DebtorsOk(s) && p < |s.pc| && NextStep(s, s', p, step)
    ensures Shaped(s') && DebtorsOk(s')
  {
    hide LockStep, MutexStep, SleepStep, WakeStep, PcOk;
    KeepsShape(s, s', p, step);
    if LockStep(s, s', p, step) {
      LockFrame(s, s', p, step);
      DebtorsLock(s, s', p, step);
    } else if MutexStep(s, s', p, step) {
      MutexFrame(s, s', p, step);
    } else if SleepStep(s, s', p, step) {
      SleepFrame(s, s', p, step);
      DebtorsSleep(s, s', p, step);
    } else {
      WakeFrame(s, s', p, step);
    }
  }

  lemma KeepsLocks(s: Sys, s': Sys, p: nat, step: Step)
    requires Locks(s) && p < |s.pc| && NextStep(s, s', p, step)
    ensures Locks(s')
  {
    hide NextStep, PtOk, LkOk, SleepersOk, DebtorsOk;
    KeepsPt(s, s', p, step);
    KeepsLk(s, s', p, step);
    KeepsSleepers(s, s', p, step);
    KeepsDebtors(s, s', p, step);
  }

  // ---------- no wakeup is lost ----------

  /** Process w is committed to waking whoever sleeps on c in slot p: it has yet to begin its scan, or
      its scan has not passed p. */
  ghost predicate WillWake(s: Sys, w: nat, c: nat, p: nat)
    requires Shaped(s) && w < |s.pc|
  {
    c in s.owed[w] || (s.pc[w].Scan? && s.pc[w].c == c && s.pc[w].i <= p)
  }

  ghost predicate Waker(s: Sys, c: nat, p: nat)
    requires Shaped(s)
  {
    exists w :: 0 <= w < |s.pc| && WillWake(s, w, c, p)
  }

  ghost predicate Owed(s: Sys, c: nat)
    requires Shaped(s)
  {
    exists w :: 0 <= w < |s.pc| && c in s.owed[w]
  }

  /** Between testing the condition and releasing lk, a sleeper's condition is false. */
  ghost predicate Untouched(s: Sys)
    requires Shaped(s)
  {
    forall p :: 0 <= p < |s.pc| && (s.pc[p].WantPt? || s.pc[p].GotPt?) ==> !s.cond[s.pc[p].c]
  }

  /** Between releasing lk and SLEEPING, a condition that became true is still owed a wakeup. */
  ghost predicate Covered(s: Sys)
    requires Shaped(s)
  {
    forall p :: 0 <= p < |s.pc| && (s.pc[p].RelLk? || s.pc[p].ChanSet?) && s.cond[s.pc[p].c] ==> Owed(s, s.pc[p].c)
  }

  /** Process p is SLEEPING on channel c, whose condition is true. */
  ghost predicate Misses(s: Sys, p: nat, c: nat)
    requires Shaped(s)
  {
    p < |s.pc| && s.sleeping[p] && s.chan[p] == Some(c) && c < |s.cond| && s.cond[c]
  }

  ghost predicate NoLost(s: Sys)
    requires Shaped(s)
  {
    forall p: nat, c: nat :: Misses(s, p, c) ==> Waker(s, c, p)
  }

  /** Only the holder of its lock changes a condition, and whoever makes it true owes a wakeup. */
  lemma CondChange(s: Sys, s': Sys, p: nat, step: Step, c: nat)
    requires Shaped(s) && Sized(s, s', p) && p < |s.pc| && NextStep(s, s', p, step) && c < |s.cond|
    ensures s'.cond[c] != s.cond[c] ==> HoldsLk(s, p, s.lockOf[c])
    ensures s'.cond[c] && !s.cond[c] ==> c in s'.owed[p]
  {
    hide LockStep, MutexStep, SleepStep, WakeStep, PcOk;
    if LockStep(s, s', p, step) {
      LockFrame(s, s', p, step);
    } else if MutexStep(s, s', p, step) {
      MutexOnly(s, s', p, step);
    } else if SleepStep(s, s', p, step) {
      SleepFrame(s, s', p, step);
    } else {
      WakeFrame(s, s', p, step);
    }
  }

  /** A debt ends only with the start of a scan, which needs ptable.lock. */
  lemma DebtStays(s: Sys, s': Sys, p: nat, step: Step, w: nat, c: nat)
    requires Shaped(s) && Sized(s, s', p) && p < |s.pc| && NextStep(s, s', p, step) && w < |s.pc|
    requires c in s.owed[w]
    ensures c in s'.owed[w] || (!s.pt && s'.pc[w].Scan? && s'.pc[w].c == c && s'.pc[w].i == 0)
  {
    hide LockStep, MutexStep, SleepStep, PcOk;
    if LockStep(s, s', p, step) {
      LockFrame(s, s', p, step);
    } else if MutexStep(s, s', p, step) {
      MutexFrame(s, s', p, step);
    } else if SleepStep(s, s', p, step) {
      SleepFrame(s, s', p, step);
    }
  }

  /** A scan that has not passed slot q either stays before it or has just dealt with it. */
  lemma ScanStays(s: Sys, s': Sys, p: nat, step: Step, w: nat, c: nat, q: nat)
    requires Shaped(s) && Sized(s, s', p) && p < |s.pc| && NextStep(s, s', p, step) && w < |s.pc| && q < |s.pc|
    requires s.pc[w].Scan? && s.pc[w].c == c && s.pc[w].i <= q && s.chan[q] == Some(c)
    ensures s'.pc[w].Scan? && s'.pc[w].c == c && (s'.pc[w].i <= q || !s'.sleeping[q])
  {
    hide LockStep, MutexStep, SleepStep, PcOk;
    if LockStep(s, s', p, step) {
      LockFrame(s, s', p, step);
    } else if MutexStep(s, s', p, step) {
      MutexFrame(s, s', p, step);
    } else if SleepStep(s, s', p, step) {
      SleepFrame(s, s', p, step);
    }
  }

  lemma UntouchedSleep(s: Sys, s': Sys, p: nat, step: Step)
    requires Shaped(s) && Sized(s, s', p) && Untouched(s) && p < |s.pc| && SleepStep(s, s', p, step)
    ensures s'.pc[p].WantPt? || s'.pc[p].GotPt? ==> !s'.cond[s'.pc[p].c]
  {
    hide PcOk;
  }

  /** Where the step of p itself ends, if not in sleep. */
  lemma NotInSleep(s: Sys, s': Sys, p: nat, step: Step)
    requires Shaped(s) && Sized(s, s', p) && p < |s.pc| && NextStep(s, s', p, step) && !SleepStep(s, s', p, step)
    ensures Plain(s'.pc[p]) || InMutex(s'.pc[p]) || InWake(s'.pc[p])
    ensures Plain(s.pc[p]) || InMutex(s.pc[p]) || InWake(s.pc[p])
    ensures s'.chan == s.chan && forall q :: 0 <= q < |s.pc| && s'.sleeping[q] ==> s.sleeping[q]
  {
    hide LockStep, MutexStep, SleepStep, WakeStep, PcOk;
    if LockStep(s, s', p, step) {
      LockFrame(s, s', p, step);
    } else if MutexStep(s, s', p, step) {
      MutexFrame(s, s', p, step);
    } else {
      WakeFrame(s, s', p, step);
    }
  }

  lemma KeepsUntouched(s: Sys, s': Sys, p: nat, step: Step)
    requires Locks(s) && Untouched(s) && p < |s.pc| && NextStep(s, s', p, step)
    ensures Shaped(s') && Untouched(s')
  {
    hide LockStep, MutexStep, SleepStep, WakeStep, NextStep, LkOk, PtOk, SleepersOk, DebtorsOk;
    KeepsShape(s, s', p, step);
    forall q | 0 <= q < |s.pc| && (s'.pc[q].WantPt? || s'.pc[q].GotPt?) ensures !s'.cond[s'.pc[q].c] {
      if q != p {
        var c := s.pc[q].c;
        CondChange(s, s', p, step, c);
        OneHolder(s, p, q, s.lockOf[c]);
      } else if SleepStep(s, s', p, step) {
        UntouchedSleep(s, s', p, step);
      } else {
        NotInSleep(s, s', p, step);
      }
    }
  }

  lemma CoveredSleep(s: Sys, s': Sys, p: nat, step: Step)
    requires Shaped(s) && Sized(s, s', p) && p < |s.pc| && SleepStep(s, s', p, step)
    ensures s'.pc[p].RelLk? || s'.pc[p].ChanSet? ==>
              (s.pc[p].GotPt? || s.pc[p].RelLk? || s.pc[p].ChanSet?) && s'.pc[p].c == s.pc[p].c
  {
    hide PcOk;
  }

  lemma KeepsCovered(s: Sys, s': Sys, p: nat, step: Step)
    requires Locks(s) && Untouched(s) && Covered(s) && p < |s.pc| && NextStep(s, s', p, step)
    ensures Shaped(s') && Covered(s')
  {
    hide LockStep, MutexStep, SleepStep, WakeStep, NextStep, LkOk, SleepersOk, DebtorsOk;
    KeepsShape(s, s', p, step);
    if SleepStep(s, s', p, step) {
      CoveredSleep(s, s', p, step);
    } else {
      NotInSleep(s, s', p, step);
    }
    forall q | 0 <= q < |s.pc| && (s'.pc[q].RelLk? || s'.pc[q].ChanSet?) && s'.cond[s'.pc[q].c]
      ensures Owed(s', s'.pc[q].c)
    {
      var c := s'.pc[q].c;
      CondChange(s, s', p, step, c);
      if s.cond[c] {
        assert s.pc[q].RelLk? || s.pc[q].ChanSet?;
        var w :| 0 <= w < |s.pc| && c in s.owed[w];
        DebtStays(s, s', p, step, w, c);
      } else {
        assert c in s'.owed[p];
      }
    }
  }

  lemma KeepsNoLost(s: Sys, s': Sys, p: nat, step: Step)
    requires Locks(s) && Covered(s) && NoLost(s) && p < |s.pc| && NextStep(s, s', p, step)
    ensures Shaped(s') && NoLost(s')
  {
    hide NextStep, LkOk, PtOk, SleepersOk, DebtorsOk, Covered, PcOk;
    KeepsShape(s, s', p, step);
    forall q: nat, c: nat | Misses(s', q, c) ensures Waker(s', c, q) {
      WakerStays(s, s', p, step, q, c);
    }
  }

  lemma WakerStays(s: Sys, s': Sys, p: nat, step: Step, q: nat, c: nat)
    requires Locks(s) && Covered(s) && NoLost(s) && p < |s.pc| && NextStep(s, s', p, step)
    requires Sized(s, s', p) && Misses(s', q, c)
    ensures Waker(s', c, q)
  {
    hide NextStep, PtOk, LkOk, DebtorsOk, NoLost, PcOk;
    CondChange(s, s', p, step, c);
    if !s.cond[c] {
      assert WillWake(s', p, c, q);
    } else {
      WasMissing(s, s', p, step, q, c);
      if Misses(s, q, c) {
        OldWaker(s, c, q);
        var w :| 0 <= w < |s.pc| && WillWake(s, w, c, q);
        if c in s.owed[w] {
          DebtStays(s, s', p, step, w, c);
        } else {
          ScanStays(s, s', p, step, w, c, q);
        }
        assert WillWake(s', w, c, q);
      } else {
        var w :| 0 <= w < |s.pc| && c in s.owed[w];
        DebtStays(s, s', p, step, w, c);
        assert WillWake(s', w, c, q);
      }
    }
  }

  lemma OldWaker(s: Sys, c: nat, q: nat)
    requires Shaped(s) && NoLost(s) && Misses(s, q, c)
    ensures Waker(s, c, q)
  {
  }

  /** Whoever misses a wakeup was missing it before, or has just gone to sleep. */
  lemma WasMissing(s: Sys, s': Sys, p: nat, step: Step, q: nat, c: nat)
    requires Shaped(s) && SleepersOk(s) && p < |s.pc| && NextStep(s, s', p, step) && Sized(s, s', p)
    requires Misses(s', q, c) && c < |s.cond| && s.cond[c]
    ensures Misses(s, q, c) || (q == p && s.pc[p] == ChanSet(c))
  {
    hide LockStep, MutexStep, SleepStep, WakeStep, PcOk;
    if SleepStep(s, s', p, step) {
      SleepMissing(s, s', p, step, q, c);
    } else {
      NotInSleep(s, s', p, step);
    }
  }

  lemma SleepMissing(s: Sys, s': Sys, p: nat, step: Step, q: nat, c: nat)
    requires Shaped(s) && SleepersOk(s) && p < |s.pc| && SleepStep(s, s', p, step) && Sized(s, s', p)
    requires Misses(s', q, c) && c < |s.cond| && s.cond[c]
    ensures Misses(s, q, c) || (q == p && s.pc[p] == ChanSet(c))
  {
    hide PcOk;
  }

  // ---------- sleep-locks ----------

  ghost predicate HolderOk(s: Sys, c: nat)
    requires Shaped(s) && c < |s.lockOf|
  {
    && (forall p: nat :: (p, c) in s.has ==> s.isLock[c] && !s.cond[c] && s.pid[c] == Some(p))
    && (s.pid[c].Some? ==> (s.pid[c].value, c) in s.has || Clearing(s, s.pid[c].value, c))
    && (s.isLock[c] && !s.cond[c] ==> s.pid[c].Some? || exists p :: 0 <= p < |s.pc| && s.pc[p] == SetLocked(c))
  }

  ghost predicate MidsOk(s: Sys, c: nat)
    requires Shaped(s) && c < |s.lockOf|
  {
    && (forall p :: 0 <= p < |s.pc| && s.pc[p] == SawFree(c) ==> s.isLock[c] && s.cond[c])
    && (forall p :: 0 <= p < |s.pc| && s.pc[p] == SetLocked(c) ==> s.isLock[c] && !s.cond[c] && s.pid[c] == None)
    && (forall p :: 0 <= p < |s.pc| && s.pc[p] == Cleared(c) ==> s.isLock[c] && s.cond[c] && s.pid[c] == Some(p))
  }

  ghost predicate LockOwned(s: Sys, c: nat)
    requires Shaped(s) && c < |s.lockOf|
  {
    HolderOk(s, c) && MidsOk(s, c)
  }

  ghost predicate Clearing(s: Sys, p: nat, c: nat) {
    p < |s.pc| && s.pc[p] == Cleared(c)
  }

  /** locked, pid and who has the lock agree, except between two stores of one process. */
  ghost predicate Owned(s: Sys)
    requires Shaped(s)
  {
    && (forall p: nat, c: nat :: (p, c) in s.has ==> c < |s.lockOf|)
    && forall c :: 0 <= c < |s.lockOf| && s.isLock[c] ==> LockOwned(s, c)
  }

  /** A process that does not hold the inner lock of c leaves the sleep-lock c alone. */
  lemma OutsideStep(s: Sys, s': Sys, p: nat, step: Step, c: nat)
    requires Shaped(s) && Sized(s, s', p) && p < |s.pc| && NextStep(s, s', p, step) && c < |s.lockOf|
    requires !HoldsLk(s, p, s.lockOf[c])
    ensures s'.cond[c] == s.cond[c] && s'.pid[c] == s.pid[c] && !MidLock(s'.pc[p], c) && !MidLock(s.pc[p], c)
    ensures forall q: nat :: (q, c) in s'.has <==> (q, c) in s.has
  {
    hide LockStep, MutexStep, SleepStep, WakeStep, PcOk;
    if LockStep(s, s', p, step) {
      LockFrame(s, s', p, step);
    } else if MutexStep(s, s', p, step) {
      MutexOnly(s, s', p, step);
    } else if SleepStep(s, s', p, step) {
      SleepFrame(s, s', p, step);
    } else {
      WakeFrame(s, s', p, step);
    }
  }

  /** While p holds the inner lock nobody else is in the middle of c. */
  lemma AloneInside(s: Sys, p: nat, c: nat)
    requires Shaped(s) && LkOk(s) && p < |s.pc| && c < |s.lockOf| && HoldsLk(s, p, s.lockOf[c])
    ensures forall q :: 0 <= q < |s.pc| && q != p ==> !MidLock(s.pc[q], c)
  {
    forall q | 0 <= q < |s.pc| && q != p ensures !MidLock(s.pc[q], c) {
      if MidLock(s.pc[q], c) {
        assert HoldsLk(s, q, s.lockOf[c]);
      }
    }
  }

  /** A step outside acquiresleep and releasesleep leaves every sleep-lock alone. */
  lemma NotMutex(s: Sys, s': Sys, p: nat, step: Step, c: nat)
    requires Shaped(s) && Sized(s, s', p) && p < |s.pc| && NextStep(s, s', p, step) && !MutexStep(s, s', p, step)
    requires c < |s.lockOf| && s.isLock[c]
    ensures s'.cond[c] == s.cond[c] && s'.pid[c] == s.pid[c] && !MidLock(s'.pc[p], c) && !MidLock(s.pc[p], c)
    ensures forall q: nat :: (q, c) in s'.has <==> (q, c) in s.has
  {
    hide LockStep, MutexStep, SleepStep, WakeStep, PcOk;
    if LockStep(s, s', p, step) {
      LockFrame(s, s', p, step);
    } else if SleepStep(s, s', p, step) {
      SleepFrame(s, s', p, step);
    } else {
      WakeFrame(s, s', p, step);
    }
  }

  lemma MutexHolder(s: Sys, s': Sys, p: nat, step: Step, c: nat)
    requires Shaped(s) && Sized(s, s', p) && p < |s.pc| && MutexStep(s, s', p, step) && c < |s.lockOf|
    requires forall q :: 0 <= q < |s.pc| && q != p ==> !MidLock(s.pc[q], c)
    requires LockOwned(s, c)
    ensures HolderOk(s', c)
  {
    if step.StoreLocked? && s.pc[p] == SawFree(c) {
      assert s'.pc[p] == SetLocked(c);
    }
  }

  lemma MutexMids(s: Sys, s': Sys, p: nat, step: Step, c: nat)
    requires Shaped(s) && Sized(s, s', p) && p < |s.pc| && MutexStep(s, s', p, step) && c < |s.lockOf|
    requires forall q :: 0 <= q < |s.pc| && q != p ==> !MidLock(s.pc[q], c)
    requires LockOwned(s, c)
    ensures MidsOk(s', c)
  {
    hide PcOk;
  }

  lemma KeepsLockOwned(s: Sys, s': Sys, p: nat, step: Step, c: nat)
    requires Shaped(s) && Sized(s, s', p) && LkOk(s) && c < |s.lockOf| && LockOwned(s, c)
    requires s.isLock[c] && p < |s.pc| && NextStep(s, s', p, step)
    ensures LockOwned(s', c)
  {
    hide NextStep, MutexStep, HolderOk, MidsOk, LkOk, HoldsLk, PcOk;
    if MutexStep(s, s', p, step) && HoldsLk(s, p, s.lockOf[c]) {
      AloneInside(s, p, c);
      MutexHolder(s, s', p, step, c);
      MutexMids(s, s', p, step, c);
    } else {
      if MutexStep(s, s', p, step) {
        OutsideStep(s, s', p, step, c);
      } else {
        NotMutex(s, s', p, step, c);
      }
      LockUntouched(s, s', p, c);
    }
  }

  lemma KeepsOwned(s: Sys, s': Sys, p: nat, step: Step)
    requires Shaped(s) && LkOk(s) && Owned(s) && p < |s.pc| && NextStep(s, s', p, step)
    ensures Shaped(s') && Owned(s')
  {
    hide NextStep, LockOwned, LkOk, PcOk;
    KeepsShape(s, s', p, step);
    HasStays(s, s', p, step);
    forall c | 0 <= c < |s.lockOf| && s.isLock[c] ensures LockOwned(s', c) {
      KeepsLockOwned(s, s', p, step, c);
    }
  }

  lemma HasStays(s: Sys, s': Sys, p: nat, step: Step)
    requires Shaped(s) && Sized(s, s', p) && p < |s.pc| && NextStep(s, s', p, step)
    ensures forall q: nat, c: nat :: (q, c) in s'.has ==> (q, c) in s.has || (c < |s.lockOf| && s.pc[p] == SetLocked(c))
  {
    hide LockStep, SleepStep, WakeStep;
    if LockStep(s, s', p, step) {
      LockFrame(s, s', p, step);
    } else if SleepStep(s, s', p, step) {
      SleepFrame(s, s', p, step);
    } else if WakeStep(s, s', p, step) {
      WakeFrame(s, s', p, step);
    }
  }

  lemma LockUntouched(s: Sys, s': Sys, p: nat, c: nat)
    requires Shaped(s) && Shaped(s') && p < |s.pc| == |s'.pc| && s'.lockOf == s.lockOf && s'.isLock == s.isLock
    requires c < |s.lockOf| && LockOwned(s, c) && s'.cond[c] == s.cond[c] && s'.pid[c] == s.pid[c]
    requires forall q :: 0 <= q < |s.pc| && q != p ==> s'.pc[q] == s.pc[q]
    requires !MidLock(s'.pc[p], c) && !MidLock(s.pc[p], c)
    requires forall q: nat :: (q, c) in s'.has <==> (q, c) in s.has
    ensures LockOwned(s', c)
  {
    if s.isLock[c] && !s.cond[c] && s.pid[c] == None {
      var q :| 0 <= q < |s.pc| && s.pc[q] == SetLocked(c);
      assert s'.pc[q] == SetLocked(c);
    }
  }

  // ---------- whole runs ----------

  ghost predicate Inv(s: Sys) {
    Locks(s) && Untouched(s) && Covered(s) && NoLost(s) && Owned(s)
  }

  lemma NextKeepsInv(s: Sys, s': Sys)
    requires Inv(s) && Next(s, s')
    ensures Inv(s')
  {
    hide NextStep, PtOk, LkOk, SleepersOk, DebtorsOk, Untouched, Covered, NoLost, Owned;
    var p, step :| 0 <= p < |s.pc| && NextStep(s, s', p, step);
    KeepsLocks(s, s', p, step);
    KeepsUntouched(s, s', p, step);
    KeepsCovered(s, s', p, step);
    KeepsNoLost(s, s', p, step);
    KeepsOwned(s, s', p, step);
  }

  lemma InitHasInv(s: Sys)
    requires Init(s)
    ensures Inv(s)
  {
  }

  lemma {:induction false} RunKeepsInv(run: seq<Sys>, i: nat)
    requires IsRun(run) && i < |run|
    ensures Inv(run[i])
  {
    hide Inv, Next, Init;
    if i == 0 {
      InitHasInv(run[0]);
    } else {
      RunKeepsInv(run, i - 1);
      NextKeepsInv(run[i - 1], run[i]);
    }
  }

  /** No lost wakeup: in every state of every run, if a process is SLEEPING on c although c's
      condition is true, some process that is neither asleep nor waiting for a lock other than
      ptable.lock is still to scan that slot for c. */
  lemma NoLostWakeup(run: seq<Sys>, i: nat, p: nat, c: nat)
    requires IsRun(run) && i < |run| && Shaped(run[i]) && Misses(run[i], p, c)
    ensures exists w :: 0 <= w < |run[i].pc| && WillWake(run[i], w, c, p) && OnItsWay(run[i].pc[w])
  {
    hide IsRun, PtOk, LkOk, SleepersOk, Owned, Covered, Untouched;
    RunKeepsInv(run, i);
    var w :| 0 <= w < |run[i].pc| && WillWake(run[i], w, c, p);
  }

  /** So when no waker is at work, every sleeper's condition is false. */
  lemma SleepersHaveReason(run: seq<Sys>, i: nat, p: nat, c: nat)
    requires IsRun(run) && i < |run| && Shaped(run[i]) && p < |run[i].pc| && c < |run[i].cond|
    requires forall w :: 0 <= w < |run[i].pc| ==> run[i].owed[w] == {} && !run[i].pc[w].Scan?
    requires run[i].sleeping[p] && run[i].chan[p] == Some(c)
    ensures !run[i].cond[c]
  {
    hide IsRun;
    if run[i].cond[c] {
      NoLostWakeup(run, i, p, c);
    }
  }

  /** Sleep-lock mutual exclusion: at most one process is between acquiresleep and releasesleep, and
      locked and pid say so; when no process is between two stores, they say nothing else. */
  lemma SleepLockExclusion(run: seq<Sys>, i: nat, p: nat, q: nat, c: nat)
    requires IsRun(run) && i < |run| && Shaped(run[i]) && c < |run[i].lockOf| && run[i].isLock[c]
    ensures (p, c) in run[i].has && (q, c) in run[i].has ==> p == q
    ensures (p, c) in run[i].has ==> !run[i].cond[c] && run[i].pid[c] == Some(p)
    ensures (forall r :: 0 <= r < |run[i].pc| ==> !MidLock(run[i].pc[r], c)) ==>
              && ((p, c) in run[i].has <==> run[i].pid[c] == Some(p))
              && (run[i].cond[c] <==> run[i].pid[c] == None)
  {
    hide IsRun, Locks, NoLost, Covered, Untouched;
    RunKeepsInv(run, i);
    assert LockOwned(run[i], c);
  }

  /** holdingsleep: under the inner lock, locked with one's own pid means having the sleep-lock. */
  lemma HoldingSleep(run: seq<Sys>, i: nat, p: nat, c: nat)
    requires IsRun(run) && i < |run| && Shaped(run[i]) && p < |run[i].pc| && c < |run[i].lockOf|
    requires At(run[i], p, c) && run[i].isLock[c]
    ensures !run[i].cond[c] && run[i].pid[c] == Some(p) <==> (p, c) in run[i].has
  {
    hide IsRun, NoLost, Covered, Untouched, PtOk, SleepersOk, DebtorsOk;
    RunKeepsInv(run, i);
    AloneInside(run[i], p, c);
    assert LockOwned(run[i], c);
  }

  /** Spin-lock mutual exclusion: nobody else holds the lock or ptable.lock, and the word that xchg
      tests is 1 exactly when somebody does. */
  lemma SpinLockExclusion(run: seq<Sys>, i: nat, p: nat, q: nat, l: nat)
    requires IsRun(run) && i < |run| && Shaped(run[i]) && p < |run[i].pc| && q < |run[i].pc| && l < |run[i].lk|
    ensures HoldsLk(run[i], p, l) && HoldsLk(run[i], q, l) ==> p == q
    ensures run[i].lk[l] <==> Holder(run[i], l)
    ensures HoldsPt(run[i].pc[p]) && HoldsPt(run[i].pc[q]) ==> p == q
    ensures run[i].pt <==> exists r :: 0 <= r < |run[i].pc| && HoldsPt(run[i].pc[r])
  {
    hide IsRun, NoLost, Covered, Untouched, Owned, SleepersOk, DebtorsOk;
    RunKeepsInv(run, i);
    OneHolder(run[i], p, q, l);
  }
}
