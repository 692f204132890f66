/** The process table of proc.c and the scans that exit, wait, wakeup1, kill and allocproc make
    over it under ptable.lock. */
module ProcTable {
  import opened Wrappers

  datatype State = UNUSED | EMBRYO | SLEEPING | RUNNABLE | RUNNING | ZOMBIE

  /** A sleep channel is an address: that of a process slot, or some other one. */
  datatype Chan = OnProc(slot: nat) | OnOther(id: nat)

  datatype Proc = Proc(state: State, pid: int, parent: Option<nat>, chan: Option<Chan>, killed: bool,
                       kstack: int, pgdir: int)

  type Table = seq<Proc>

  // ---------- what the scans compute ----------

  predicate SleepsOn(p: Proc, c: Chan) {
    p.state == SLEEPING && p.chan == Some(c)
  }

  function Wake(p: Proc, c: Chan): Proc {
    if SleepsOn(p, c) then p.(state := RUNNABLE) else p
  }

  /** wakeup1 */
  function WakeAll(t: Table, c: Chan): (r: Table)
    ensures |r| == |t|
    ensures forall i :: 0 <= i < |t| ==> r[i] == Wake(t[i], c)
  {
    seq(|t|, i requires 0 <= i < |t| => Wake(t[i], c))
  }

  predicate HasChild(t: Table, p: nat, zombie: bool) {
    exists i :: 0 <= i < |t| && t[i].parent == Some(p) && (zombie ==> t[i].state == ZOMBIE)
  }

  function Adopted(q: Proc, p: nat, init: nat): Proc {
    if q.parent == Some(p) then q.(parent := Some(init)) else q
  }

  /** The loop of exit: init inherits the children of p and is woken if one is a zombie. */
  function Reparent(t: Table, p: nat, init: nat): (r: Table)
    ensures |r| == |t|
  {
    var s := seq(|t|, i requires 0 <= i < |t| => Adopted(t[i], p, init));
    if HasChild(t, p, true) then WakeAll(s, OnProc(init)) else s
  }

  /** exit, from taking the lock to entering the scheduler. */
  function ExitTable(t: Table, p: nat, init: nat): (r: Table)
    requires p < |t|
    ensures |r| == |t|
  {
    var woken := if t[p].parent.Some? then WakeAll(t, OnProc(t[p].parent.value)) else t;
    var s := Reparent(woken, p, init);
    s[p := s[p].(state := ZOMBIE)]
  }

  /** What wait leaves of a zombie's slot. */
  function Reaped(q: Proc): Proc {
    q.(state := UNUSED, pid := 0, parent := None, killed := false, kstack := 0)
  }

  function Killed(q: Proc): Proc {
    q.(killed := true, state := if q.state == SLEEPING then RUNNABLE else q.state)
  }

  /** With what wait passes to kfree and to freevm. */
  datatype WaitResult = Collected(slot: nat, pid: int, kstack: int, pgdir: int) | NoChild | MustSleep

  // ---------- the scans ----------

  class PTable {
    const proc: array<Proc>
    const init: nat
    var nextpid: int

    constructor (n: nat, init: nat)
      ensures fresh(proc) && proc.Length == n && this.init == init && nextpid == 1
      ensures forall i :: 0 <= i < n ==> proc[i].state == UNUSED && proc[i].parent == None
    {
      proc := new Proc[n](i => Proc(UNUSED, 0, None, None, false, 0, 0));
      this.init := init;
      nextpid := 1;
    }

    method Wakeup1(c: Chan)
      modifies proc
      ensures proc[..] == WakeAll(old(proc[..]), c)
      ensures forall i :: 0 <= i < proc.Length ==>
                proc[i] == if old(proc[i]).state == SLEEPING && old(proc[i]).chan == Some(c)
                           then old(proc[i]).(state := RUNNABLE) else old(proc[i])
    {
      for i := 0 to proc.Length
        invariant forall j :: 0 <= j < i ==> proc[j] == Wake(old(proc[j]), c)
        invariant forall j :: i <= j < proc.Length ==> proc[j] == old(proc[j])
      {
        if proc[i].state == SLEEPING && proc[i].chan == Some(c) {
          proc[i] := proc[i].(state := RUNNABLE);
        }
      }
    }

    /** allocproc's scan: the first unused slot becomes an embryo with a fresh pid. */
    method Allocproc() returns (slot: Option<nat>)
      modifies proc, this`nextpid
      ensures slot.None? ==> (forall i :: 0 <= i < proc.Length ==> old(proc[i].state) != UNUSED)
                             && proc[..] == old(proc[..]) && nextpid == old(nextpid)
      ensures slot.Some? ==>
                && slot.value < proc.Length && old(proc[slot.value].state) == UNUSED
                && (forall i :: 0 <= i < slot.value ==> old(proc[i].state) != UNUSED)
                && proc[..] == old(proc[..])[slot.value := old(proc[slot.value]).(state := EMBRYO, pid := old(nextpid))]
                && nextpid == old(nextpid) + 1
    {
      for i := 0 to proc.Length
        invariant forall j :: 0 <= j < i ==> proc[j].state != UNUSED
        invariant proc[..] == old(proc[..]) && nextpid == old(nextpid)
      {
        if proc[i].state == UNUSED {
          proc[i] := proc[i].(state := EMBRYO, pid := nextpid);
          nextpid := nextpid + 1;
          return Some(i);
        }
      }
      return None;
    }

    /** exit of the process in slot cur, from taking the lock to entering the scheduler. */
    method Exit(cur: nat)
      requires cur < proc.Length
      modifies proc
      ensures proc[..] == ExitTable(old(proc[..]), cur, init)
    {
      var parent := proc[cur].parent;
      if parent.Some? {
        Wakeup1(OnProc(parent.value));
      }
      ghost var t := proc[..];
      var p := 0;
      while p < proc.Length
        invariant 0 <= p <= proc.Length
        invariant proc[..] == PartlyReparented(t, cur, init, p)
      {
        ReparentStep(t, cur, init, p);
        if proc[p].parent == Some(cur) {
          proc[p] := proc[p].(parent := Some(init));
          if proc[p].state == ZOMBIE {
            Wakeup1(OnProc(init));
          }
        }
        p := p + 1;
      }
      ReparentDone(t, cur, init);
      proc[cur] := proc[cur].(state := ZOMBIE);
    }

    /** One pass of wait's loop for the process in slot cur. */
    method Wait(cur: nat) returns (r: WaitResult)
      requires cur < proc.Length
      modifies proc
      ensures r.Collected? ==>
                && r.slot < proc.Length && r.pid == old(proc[r.slot].pid)
                && r.kstack == old(proc[r.slot].kstack) && r.pgdir == old(proc[r.slot].pgdir)
                && old(proc[r.slot].parent) == Some(cur) && old(proc[r.slot].state) == ZOMBIE
                && proc[..] == old(proc[..])[r.slot := Reaped(old(proc[r.slot]))]
                && proc[r.slot].state == UNUSED && proc[r.slot].pid == 0 && proc[r.slot].parent == None
                && !proc[r.slot].killed && proc[r.slot].kstack == 0
      ensures !r.Collected? ==> proc[..] == old(proc[..]) && !HasChild(proc[..], cur, true)
      ensures r.NoChild? <==> !old(HasChild(proc[..], cur, true))
                              && (!old(HasChild(proc[..], cur, false)) || old(proc[cur].killed))
    {
      var havekids := false;
      for p := 0 to proc.Length
        invariant proc[..] == old(proc[..])
        invariant havekids <==> exists i :: 0 <= i < p && proc[i].parent == Some(cur)
        invariant forall i :: 0 <= i < p ==> !(proc[i].parent == Some(cur) && proc[i].state == ZOMBIE)
      {
        if proc[p].parent == Some(cur) {
          havekids := true;
          if proc[p].state == ZOMBIE {
            r := Collected(p, proc[p].pid, proc[p].kstack, proc[p].pgdir);
            assert HasChild(proc[..], cur, true);
            proc[p] := Reaped(proc[p]);
            return;
          }
        }
      }
      if !havekids || proc[cur].killed {
        return NoChild;
      }
      return MustSleep;
    }

    /** kill: the first slot with this pid is marked, and woken if it sleeps. */
    method Kill(pid: int) returns (found: bool)
      modifies proc
      ensures found <==> exists i :: 0 <= i < proc.Length && old(proc[i].pid) == pid
      ensures !found ==> proc[..] == old(proc[..])
      ensures found ==> exists i :: 0 <= i < proc.Length && old(proc[i].pid) == pid
                          && (forall j :: 0 <= j < i ==> old(proc[j].pid) != pid)
                          && (forall j :: 0 <= j < proc.Length && j != i ==> proc[j] == old(proc[j]))
                          && proc[i].killed
                          && proc[i].state == (if old(proc[i].state) == SLEEPING then RUNNABLE else old(proc[i].state))
                          && proc[i].pid == pid && proc[i].parent == old(proc[i].parent)
                          && proc[i].chan == old(proc[i].chan) && proc[i].kstack == old(proc[i].kstack)
                          && proc[i].pgdir == old(proc[i].pgdir) && proc[i] == Killed(old(proc[i]))
    {
      for i := 0 to proc.Length
        invariant proc[..] == old(proc[..])
        invariant forall j :: 0 <= j < i ==> proc[j].pid != pid
      {
        if proc[i].pid == pid {
          proc[i] := proc[i].(killed := true);
          if proc[i].state == SLEEPING {
            proc[i] := proc[i].(state := RUNNABLE);
          }
          assert proc[i] == Killed(old(proc[i]));
          return true;
        }
      }
      return false;
    }
  }

  // ---------- exit's loop ----------

  predicate HasZombieBefore(t: Table, p: nat, k: nat) {
    exists i :: 0 <= i < |t| && i < k && t[i].parent == Some(p) && t[i].state == ZOMBIE
  }

  ghost function PartlyReparented(t: Table, p: nat, init: nat, k: nat): (r: Table)
    ensures |r| == |t|
  {
    var s := seq(|t|, i requires 0 <= i < |t| => if i < k then Adopted(t[i], p, init) else t[i]);
    if HasZombieBefore(t, p, k) then WakeAll(s, OnProc(init)) else s
  }

  lemma ReparentStep(t: Table, p: nat, init: nat, k: nat)
    requires k < |t|
    ensures
      var r := PartlyReparented(t, p, init, k);
      && r[k].parent == t[k].parent && (r[k].state == ZOMBIE <==> t[k].state == ZOMBIE)
      && var r1 := if r[k].parent == Some(p) then r[k := r[k].(parent := Some(init))] else r;
         var r2 := if r[k].parent == Some(p) && r[k].state == ZOMBIE then WakeAll(r1, OnProc(init)) else r1;
         PartlyReparented(t, p, init, k + 1) == r2
  {
  }

  lemma ReparentDone(t: Table, p: nat, init: nat)
    ensures PartlyReparented(t, p, init, |t|) == Reparent(t, p, init)
  {
  }
}
