/** The log as a protocol: arbitrarily many operations interleave begin_op, the two halves of
    log_write (the unlocked size test, then the locked append) and end_op; the committer and
    recovery write the disk one block at a time; a crash may fall between any two steps. */
module LogProtocol {
  import opened Params
  import opened WriteAheadLog

  datatype Op = Op(used: nat, checked: bool)

  datatype Update = Update(op: nat, bno: int, data: Block)

  datatype Mode = Down | Recovering | Up

  /** `base`, `plan` and `pc` are the disk before the current write sequence, that sequence and
      how much of it is done.  `born`, `issued`, `batch` and `history` record what happened: all
      operations begun, all updates logged, those not committed yet, the committed batches. */
  datatype Sys = Sys(
    disk: Disk, mode: Mode,
    lh: seq<int>, cache: map<int, Block>, ops: map<nat, Op>, outstanding: int, committing: bool,
    base: Disk, plan: seq<Write>, pc: nat,
    born: set<nat>, issued: seq<Update>, batch: seq<Update>, history: seq<seq<Update>>)

  // ---------- steps ----------

  /** The writes of commit, also for a list that has outgrown the log region. */
  ghost function PlanOf(lay: Layout, s: Sys): seq<Write> {
    var t := Seen(s.disk, s.cache);
    if Writable(lay, t, s.lh) then CommitPlan(lay, t, s.lh) else []
  }

  ghost function RecoveryPlan(lay: Layout, d: Disk): seq<Write> {
    if GoodDisk(lay, d) then RecoveryWrites(lay, d) else []
  }

  ghost predicate Begin(s: Sys, s': Sys, op: nat) {
    && s.mode.Up?
    && MayBegin(|s.lh|, s.outstanding, s.committing)
    && op !in s.born
    && s' == s.(ops := s.ops[op := Op(0, false)], outstanding := s.outstanding + 1, born := s.born + {op})
  }

  /** The size test of log_write, made without the lock. */
  ghost predicate Check(lay: Layout, s: Sys, s': Sys, op: nat) {
    && s.mode.Up?
    && op in s.ops
    && !LogWritePanics(lay, |s.lh|, s.outstanding)
    && s' == s.(ops := s.ops[op := s.ops[op].(checked := true)])
  }

  /** The rest of log_write, under the lock.  An operation appends at most MAXOPBLOCKS blocks:
      that is what a file-system call promises begin_op. */
  ghost predicate Append(lay: Layout, s: Sys, s': Sys, u: Update) {
    && s.mode.Up?
    && u.op in s.ops && s.ops[u.op].checked
    && IsHome(lay, u.bno)
    && (u.bno !in s.lh ==> s.ops[u.op].used < MAXOPBLOCKS)
    && s' == s.(lh := Absorb(s.lh, u.bno),
                cache := s.cache[u.bno := u.data],
                ops := s.ops[u.op := Op(if u.bno in s.lh then s.ops[u.op].used else s.ops[u.op].used + 1, false)],
                issued := s.issued + [u],
                batch := s.batch + [u])
  }

  /** The commit that the last operation starts finds no buffer for its first slot: the blocks it
      lists are pinned and fill the cache. */
  predicate CommitHalts(s: Sys) {
    s.outstanding == 1 && |s.lh| >= NBUF
  }

  ghost predicate End(lay: Layout, s: Sys, s': Sys, op: nat) {
    && s.mode.Up?
    && op in s.ops
    && !s.committing
    && !CommitHalts(s)
    && var t := s.(ops := s.ops - {op}, outstanding := s.outstanding - 1);
       s' == if t.outstanding == 0
             then t.(committing := true, base := s.disk, plan := PlanOf(lay, s), pc := 0)
             else t
  }

  /** end_op when that commit panics.  Buffers that other processes hold may make a smaller commit
      panic too; that is a Crash. */
  ghost predicate Halt(s: Sys, s': Sys, op: nat) {
    s.mode.Up? && op in s.ops && !s.committing && CommitHalts(s) && Crash(s, s')
  }

  /** One bwrite of the committer or of recovery.  The committer's write number |lh| is the
      header: it is the step that commits. */
  ghost predicate WriteOut(s: Sys, s': Sys) {
    && !s.mode.Down?
    && s.pc < |s.plan|
    && s.plan[s.pc].bno < |s.disk|
    && var t := s.(disk := s.disk[s.plan[s.pc].bno := s.plan[s.pc].data], pc := s.pc + 1);
       s' == if s.mode.Up? && s.pc == |s.lh| then t.(history := s.history + [s.batch], batch := []) else t
  }

  /** The end of end_op after a commit: installing has unpinned every buffer. */
  ghost predicate Finish(s: Sys, s': Sys) {
    && s.mode.Up? && s.committing && s.pc == |s.plan|
    && s' == s.(committing := false, lh := [], cache := map[], plan := [], pc := 0)
  }

  ghost predicate Crash(s: Sys, s': Sys) {
    s' == s.(mode := Down, lh := [], cache := map[], ops := map[], outstanding := 0, committing := false,
             base := [], plan := [], pc := 0, batch := [])
  }

  ghost predicate Boot(lay: Layout, s: Sys, s': Sys) {
    && s.mode.Down?
    && s' == s.(mode := Recovering, base := s.disk, plan := RecoveryPlan(lay, s.disk), pc := 0)
  }

  ghost predicate Recovered(s: Sys, s': Sys) {
    && s.mode.Recovering? && s.pc == |s.plan|
    && s' == s.(mode := Up, plan := [], pc := 0)
  }

  ghost predicate Next(lay: Layout, s: Sys, s': Sys) {
    || (exists op :: Begin(s, s', op))
    || (exists op :: Check(lay, s, s', op))
    || (exists u :: Append(lay, s, s', u))
    || (exists op :: End(lay, s, s', op))
    || (exists op :: Halt(s, s', op))
    || WriteOut(s, s')
    || Finish(s, s')
    || Crash(s, s')
    || Boot(lay, s, s')
    || Recovered(s, s')
  }

  /** A machine that is switched on with a readable log. */
  ghost predicate Init(s: Sys) {
    && s.mode.Down? && s.lh == [] && s.cache == map[] && s.ops == map[] && s.outstanding == 0 && !s.committing
    && s.plan == [] && s.pc == 0 && s.born == {} && s.issued == [] && s.batch == [] && s.history == []
  }

  ghost predicate IsRun(lay: Layout, run: seq<Sys>) {
    && |run| > 0
    && Init(run[0])
    && forall i :: 0 <= i < |run| - 1 ==> Next(lay, run[i], run[i + 1])
  }

  // ---------- reservations ----------

  /** What the active operations may still append. */
  ghost function Unspent(ops: map<nat, Op>): int
    decreases |ops|
  {
    if ops == map[] then 0
    else
      var k :| k in ops;
      MAXOPBLOCKS - ops[k].used + Unspent(ops - {k})
  }

  lemma {:induction false} UnspentWithout(ops: map<nat, Op>, k: nat)
    requires k in ops
    ensures Unspent(ops) == MAXOPBLOCKS - ops[k].used + Unspent(ops - {k})
    decreases |ops|
  {
    var j :| j in ops && Unspent(ops) == MAXOPBLOCKS - ops[j].used + Unspent(ops - {j});
    if j != k {
      UnspentWithout(ops - {j}, k);
      UnspentWithout(ops - {k}, j);
      assert ops - {j} - {k} == ops - {k} - {j};
    }
  }

  lemma UnspentWith(ops: map<nat, Op>, k: nat, o: Op)
    ensures Unspent(ops[k := o]) == MAXOPBLOCKS - o.used + Unspent(ops - {k})
  {
    UnspentWithout(ops[k := o], k);
    assert ops[k := o] - {k} == ops - {k};
  }

  lemma {:induction false} UnspentIsRoom(ops: map<nat, Op>)
    requires forall k :: k in ops ==> ops[k].used <= MAXOPBLOCKS
    ensures 0 <= Unspent(ops) <= |ops| * MAXOPBLOCKS
    decreases |ops|
  {
    if ops != map[] {
      var k :| k in ops;
      UnspentWithout(ops, k);
      UnspentIsRoom(ops - {k});
    }
  }

  /** The bookkeeping invariant; it holds for any size of the on-disk log. */
  ghost predicate Booked(lay: Layout, s: Sys) {
    && s.outstanding == |s.ops|
    && (forall k :: k in s.ops ==> k in s.born && s.ops[k].used <= MAXOPBLOCKS)
    && |s.lh| + Unspent(s.ops) <= LOGSIZE
    && Listing(lay, s.lh)
    && Pins(s.lh, s.cache)
    && (s.committing ==> s.mode.Up? && s.ops == map[])
    && (!s.mode.Up? ==> s.ops == map[] && s.lh == [])
  }

  lemma BeginKeepsBooked(lay: Layout, s: Sys, s': Sys, op: nat)
    requires Booked(lay, s) && Begin(s, s', op)
    ensures Booked(lay, s')
  {
    hide Listing, Pins, Unspent, MayBegin;
    RoomToBegin(s.ops, |s.lh|, s.committing);
    BeginOps(s.ops, s.born, op);
  }

  lemma BeginOps(ops: map<nat, Op>, born: set<nat>, op: nat)
    requires op !in born && forall k :: k in ops ==> k in born && ops[k].used <= MAXOPBLOCKS
    ensures
      var ops' := ops[op := Op(0, false)];
      && |ops'| == |ops| + 1 && Unspent(ops') == Unspent(ops) + MAXOPBLOCKS
      && forall k :: k in ops' ==> k in born + {op} && ops'[k].used <= MAXOPBLOCKS
  {
    hide Unspent;
    UnspentWith(ops, op, Op(0, false));
    OneMoreOp(ops, op, Op(0, false));
  }

  lemma RoomToBegin(ops: map<nat, Op>, n: nat, committing: bool)
    requires MayBegin(n, |ops|, committing) && forall k :: k in ops ==> ops[k].used <= MAXOPBLOCKS
    ensures !committing && n + Unspent(ops) + MAXOPBLOCKS <= LOGSIZE
  {
    hide Unspent;
    UnspentIsRoom(ops);
  }

  lemma OneMoreOp(ops: map<nat, Op>, op: nat, o: Op)
    requires op !in ops
    ensures ops - {op} == ops && |ops[op := o]| == |ops| + 1
  {
    var more := ops[op := o];
    assert more.Keys == ops.Keys + {op};
    assert |more| == |more.Keys| && |ops| == |ops.Keys|;
  }

  lemma CheckKeepsBooked(lay: Layout, s: Sys, s': Sys, op: nat)
    requires Booked(lay, s) && Check(lay, s, s', op)
    ensures Booked(lay, s')
  {
    hide Listing, Pins, Unspent;
    UnspentWith(s.ops, op, s.ops[op].(checked := true));
    UnspentWithout(s.ops, op);
    assert s'.ops.Keys == s.ops.Keys;
  }

  lemma AppendKeepsBooked(lay: Layout, s: Sys, s': Sys, u: Update)
    requires Booked(lay, s) && Append(lay, s, s', u)
    ensures Booked(lay, s')
  {
    hide Unspent;
    UnspentWith(s.ops, u.op, s'.ops[u.op]);
    UnspentWithout(s.ops, u.op);
    assert s'.ops.Keys == s.ops.Keys;
    UnspentIsRoom(s'.ops);
  }

  lemma EndKeepsBooked(lay: Layout, s: Sys, s': Sys, op: nat)
    requires Booked(lay, s) && End(lay, s, s', op)
    ensures Booked(lay, s')
  {
    hide Listing, Pins, Unspent;
    UnspentWithout(s.ops, op);
    assert s'.ops.Keys == s.ops.Keys - {op};
    assert |s'.ops| == |s'.ops.Keys| == |s.ops.Keys| - 1;
    if s'.outstanding == 0 {
      assert s'.ops == map[];
    }
  }

  lemma NextKeepsBooked(lay: Layout, s: Sys, s': Sys)
    requires Booked(lay, s) && Next(lay, s, s')
    ensures Booked(lay, s')
  {
    hide Booked, Begin, Check, Append, End;
    if op :| Begin(s, s', op) {
      BeginKeepsBooked(lay, s, s', op);
    } else if op :| Check(lay, s, s', op) {
      CheckKeepsBooked(lay, s, s', op);
    } else if u :| Append(lay, s, s', u) {
      AppendKeepsBooked(lay, s, s', u);
    } else if op :| End(lay, s, s', op) {
      EndKeepsBooked(lay, s, s', op);
    } else {
      RestKeepsBooked(lay, s, s');
    }
  }

  lemma RestKeepsBooked(lay: Layout, s: Sys, s': Sys)
    requires Booked(lay, s)
    requires WriteOut(s, s') || Finish(s, s') || Crash(s, s') || Boot(lay, s, s') || Recovered(s, s')
    ensures Booked(lay, s')
  {
  }

  lemma {:induction false} RunKeepsBooked(lay: Layout, run: seq<Sys>, i: nat)
    requires IsRun(lay, run) && i < |run|
    ensures Booked(lay, run[i])
  {
    if i > 0 {
      RunKeepsBooked(lay, run, i - 1);
      NextKeepsBooked(lay, run[i - 1], run[i]);
    }
  }

  /** Group commit: commit runs only when no operation is active, so end_op's panic cannot
      happen, and the locked half of log_write always finds a free entry in log.lh.block. */
  lemma GroupCommit(lay: Layout, run: seq<Sys>, i: nat)
    requires IsRun(lay, run) && i < |run|
    ensures run[i].committing ==> run[i].outstanding == 0 && run[i].ops == map[]
    ensures forall op :: op in run[i].ops && run[i].ops[op].used < MAXOPBLOCKS ==> |run[i].lh| < LOGSIZE
  {
    RunKeepsBooked(lay, run, i);
    var s := run[i];
    forall op | op in s.ops && s.ops[op].used < MAXOPBLOCKS
      ensures |s.lh| < LOGSIZE
    {
      UnspentWithout(s.ops, op);
      UnspentIsRoom(s.ops - {op});
    }
  }

  // ---------- what the disk holds over whole runs ----------

  function Overlay(m: map<int, Block>, batch: seq<Update>): map<int, Block> {
    if batch == [] then m
    else
      var u := batch[|batch| - 1];
      Overlay(m, batch[..|batch| - 1])[u.bno := u.data]
  }

  function Replay(home: map<int, Block>, history: seq<seq<Update>>): map<int, Block> {
    if history == [] then home
    else Overlay(Replay(home, history[..|history| - 1]), history[|history| - 1])
  }

  lemma {:induction false} OverlayIsMerge(m: map<int, Block>, batch: seq<Update>)
    ensures Overlay(m, batch) == m + Overlay(map[], batch)
  {
    if batch != [] {
      OverlayIsMerge(m, batch[..|batch| - 1]);
    }
  }

  lemma OverlaySnoc(m: map<int, Block>, batch: seq<Update>, u: Update)
    ensures Overlay(m, batch + [u]) == Overlay(m, batch)[u.bno := u.data]
  {
    assert (batch + [u])[..|batch|] == batch;
  }

  lemma ReplaySnoc(home: map<int, Block>, history: seq<seq<Update>>, batch: seq<Update>)
    ensures Replay(home, history + [batch]) == Overlay(Replay(home, history), batch)
  {
    assert (history + [batch])[..|history|] == history;
  }

  /** While the committer works: where it is in its plan, and what the batch contributes. */
  ghost predicate Committing(lay: Layout, s: Sys) {
    && CommitReady(lay, s.base, s.lh, s.cache)
    && s.plan == CommitWrites(lay, s.base, s.lh, s.cache)
    && WritesFit(s.base, s.plan)
    && s.pc <= |s.plan|
    && s.disk == Apply(s.base, s.plan[..s.pc])
    && Pins(s.lh, s.cache)
    && (s.pc <= |s.lh| ==> s.cache == Overlay(map[], s.batch))
    && (s.pc > |s.lh| ==> s.batch == [])
  }

  ghost predicate Recovery(lay: Layout, s: Sys) {
    && GoodDisk(lay, s.base)
    && s.plan == RecoveryWrites(lay, s.base)
    && WritesFit(s.base, s.plan)
    && s.pc <= |s.plan|
    && s.disk == Apply(s.base, s.plan[..s.pc])
  }

  /** What is listed has its slots when it is committed: the log has NBUF blocks, and a longer list
      halts its commit, or the list has not outgrown the log. */
  predicate Fits(lay: Layout, s: Sys) {
    NBUF <= lay.nlog || |s.lh| < lay.nlog
  }

  /** The disk always holds exactly the committed batches. */
  ghost predicate Consistent(lay: Layout, home: map<int, Block>, s: Sys) {
    && OnDisk(lay)
    && Fits(lay, s)
    && Booked(lay, s)
    && GoodDisk(lay, s.disk)
    && Durable(lay, s.disk) == Replay(home, s.history)
    && (s.committing ==> s.mode.Up? && Committing(lay, s))
    && (s.mode.Up? && !s.committing ==>
          s.plan == [] && HeaderN(s.disk[lay.start]) == 0 && s.cache == Overlay(map[], s.batch))
    && (s.mode.Recovering? ==> Recovery(lay, s))
    && (!s.mode.Up? ==> s.batch == [])
  }

  lemma AppendKeepsConsistent(lay: Layout, home: map<int, Block>, s: Sys, s': Sys, u: Update)
    requires Consistent(lay, home, s) && Append(lay, s, s', u) && Fits(lay, s')
    ensures Consistent(lay, home, s')
  {
    hide Booked, GoodDisk, Durable, Committing, Overlay, Replay;
    CommitterIsAlone(lay, s);
    AppendKeepsBooked(lay, s, s', u);
    OverlaySnoc(map[], s.batch, u);
  }

  lemma CommitterIsAlone(lay: Layout, s: Sys)
    requires Booked(lay, s)
    ensures s.committing ==> s.ops == map[]
  {
  }

  lemma EndKeepsConsistent(lay: Layout, home: map<int, Block>, s: Sys, s': Sys, op: nat)
    requires Consistent(lay, home, s) && End(lay, s, s', op)
    ensures Consistent(lay, home, s')
  {
    hide Booked, Committing, GoodDisk, Durable, Overlay, Replay;
    EndKeepsBooked(lay, s, s', op);
    if s'.committing {
      CommitCanStart(lay, home, s, s', op);
    }
  }

  lemma CommitCanStart(lay: Layout, home: map<int, Block>, s: Sys, s': Sys, op: nat)
    requires Consistent(lay, home, s) && End(lay, s, s', op)
    requires s'.committing
    ensures Committing(lay, s')
  {
    hide Unspent, Overlay, Replay, Durable, CommitWrites, CommitPlan;
    assert forall i :: 0 <= i < |s.lh| ==> s.lh[i] in s.cache;
    assert CommitReady(lay, s.disk, s.lh, s.cache);
    CommitWritesFit(lay, s.disk, s.lh, s.cache);
    CommitPlanIs(lay, s.disk, s.lh, s.cache);
    assert s'.plan[..0] == [];
  }

  /** The header write moves the batch into the history; every other write leaves both. */
  lemma CommitWriteIsDurable(lay: Layout, home: map<int, Block>, s: Sys, s': Sys)
    requires Committing(lay, s) && WriteOut(s, s') && s.mode.Up?
    requires GoodDisk(lay, s.disk) && Durable(lay, s.disk) == Replay(home, s.history)
    ensures GoodDisk(lay, s'.disk) && Durable(lay, s'.disk) == Replay(home, s'.history)
  {
    hide GoodDisk, Durable, CommitReady, CommitWrites, Home, Apply, Overlay, Replay, Pins, WritesFit;
    CommitIsAtomic(lay, s.base, s.lh, s.cache, s.pc);
    CommitIsAtomic(lay, s.base, s.lh, s.cache, s.pc + 1);
    ApplyNext(s.base, s.plan, s.pc);
    if s.pc == |s.lh| {
      ReplaySnoc(home, s.history, s.batch);
      OverlayIsMerge(Replay(home, s.history), s.batch);
    }
  }

  lemma CommitWriteKeepsPlan(lay: Layout, s: Sys, s': Sys)
    requires Committing(lay, s) && WriteOut(s, s') && s.mode.Up?
    ensures Committing(lay, s')
  {
    hide GoodDisk, CommitReady, CommitWrites, Apply, Overlay, Pins, WritesFit;
    ApplyNext(s.base, s.plan, s.pc);
  }

  lemma CommitWriteKeepsConsistent(lay: Layout, home: map<int, Block>, s: Sys, s': Sys)
    requires Consistent(lay, home, s) && WriteOut(s, s') && s.mode.Up?
    ensures Consistent(lay, home, s')
  {
    hide GoodDisk, Durable, Booked, Committing, Recovery, Replay;
    RestKeepsBooked(lay, s, s');
    CommitWriteIsDurable(lay, home, s, s');
    CommitWriteKeepsPlan(lay, s, s');
  }

  lemma RecoveryWriteKeepsConsistent(lay: Layout, home: map<int, Block>, s: Sys, s': Sys)
    requires Consistent(lay, home, s) && WriteOut(s, s') && s.mode.Recovering?
    ensures Consistent(lay, home, s')
  {
    hide GoodDisk, Durable, Booked, Committing, Replay, Apply, RecoveryWrites, WritesFit;
    RestKeepsBooked(lay, s, s');
    RecoveryIsIdempotent(lay, s.base, s.pc);
    RecoveryIsIdempotent(lay, s.base, s.pc + 1);
    ApplyNext(s.base, s.plan, s.pc);
  }

  lemma FinishKeepsConsistent(lay: Layout, home: map<int, Block>, s: Sys, s': Sys)
    requires Consistent(lay, home, s) && Finish(s, s')
    ensures Consistent(lay, home, s')
  {
    hide GoodDisk, Durable, Booked, Recovery, Replay, Overlay, Apply, CommitWrites, CommitReady, WritesFit;
    RestKeepsBooked(lay, s, s');
    CommitIsAtomic(lay, s.base, s.lh, s.cache, s.pc);
    BatchIsCommitted(lay, s);
    OverlayNothing();
  }

  lemma OverlayNothing()
    ensures Overlay(map[], []) == map[]
  {
  }

  lemma BatchIsCommitted(lay: Layout, s: Sys)
    requires Committing(lay, s) && s.pc == |s.plan|
    ensures s.batch == []
  {
    if s.lh == [] && s.batch != [] {
      OverlayNonempty(s.batch);
    }
  }

  lemma OverlayNonempty(batch: seq<Update>)
    requires batch != []
    ensures batch[|batch| - 1].bno in Overlay(map[], batch)
  {
  }

  lemma RecoveredKeepsConsistent(lay: Layout, home: map<int, Block>, s: Sys, s': Sys)
    requires Consistent(lay, home, s) && Recovered(s, s')
    ensures Consistent(lay, home, s')
  {
    hide GoodDisk, Durable, Booked, Committing, Replay, Overlay, Apply, RecoveryWrites;
    RestKeepsBooked(lay, s, s');
    RecoveryIsIdempotent(lay, s.base, s.pc);
    BookedWhenNotUp(lay, s);
    OverlayNothing();
  }

  lemma BookedWhenNotUp(lay: Layout, s: Sys)
    requires Booked(lay, s) && !s.mode.Up?
    ensures s.cache == map[] && !s.committing
  {
    assert forall b :: b !in s.cache;
  }

  lemma BootKeepsConsistent(lay: Layout, home: map<int, Block>, s: Sys, s': Sys)
    requires Consistent(lay, home, s) && Boot(lay, s, s')
    ensures Consistent(lay, home, s')
  {
    hide GoodDisk, Durable, Booked, Committing, Replay, Overlay, RecoveryWrites, WritesFit;
    RestKeepsBooked(lay, s, s');
    RecoveryIsIdempotent(lay, s.disk, 0);
    assert s'.plan[..0] == [];
  }

  lemma CrashKeepsConsistent(lay: Layout, home: map<int, Block>, s: Sys, s': Sys)
    requires Consistent(lay, home, s) && Crash(s, s')
    ensures Consistent(lay, home, s')
  {
    hide GoodDisk, Durable, Booked, Replay, Overlay, Committing, Recovery;
    RestKeepsBooked(lay, s, s');
  }

  lemma StartKeepsConsistent(lay: Layout, home: map<int, Block>, s: Sys, s': Sys, op: nat)
    requires Consistent(lay, home, s)
    requires Begin(s, s', op) || Check(lay, s, s', op)
    ensures Consistent(lay, home, s')
  {
    hide GoodDisk, Durable, Booked, Replay, Overlay, Committing, Recovery;
    CommitterIsAlone(lay, s);
    if Begin(s, s', op) {
      BeginKeepsBooked(lay, s, s', op);
    } else {
      CheckKeepsBooked(lay, s, s', op);
    }
  }

  lemma NextKeepsConsistent(lay: Layout, home: map<int, Block>, s: Sys, s': Sys)
    requires Consistent(lay, home, s) && Next(lay, s, s') && Fits(lay, s')
    ensures Consistent(lay, home, s')
  {
    hide Consistent, Begin, Check, Append, End, Boot, Crash, Recovered, Finish;
    if op :| Begin(s, s', op) {
      StartKeepsConsistent(lay, home, s, s', op);
    } else if op :| Check(lay, s, s', op) {
      StartKeepsConsistent(lay, home, s, s', op);
    } else if u :| Append(lay, s, s', u) {
      AppendKeepsConsistent(lay, home, s, s', u);
    } else if op :| End(lay, s, s', op) {
      EndKeepsConsistent(lay, home, s, s', op);
    } else if WriteOut(s, s') {
      if s.mode.Up? {
        CommitWriteKeepsConsistent(lay, home, s, s');
      } else {
        RecoveryWriteKeepsConsistent(lay, home, s, s');
      }
    } else if Finish(s, s') {
      FinishKeepsConsistent(lay, home, s, s');
    } else if Boot(lay, s, s') {
      BootKeepsConsistent(lay, home, s, s');
    } else if Recovered(s, s') {
      RecoveredKeepsConsistent(lay, home, s, s');
    } else {
      CrashKeepsConsistent(lay, home, s, s');
    }
  }

  /** No condition for a log of NBUF blocks; in a smaller one the list has not outgrown the log up to
      state i. */
  ghost predicate FitsUpTo(lay: Layout, run: seq<Sys>, i: nat) {
    forall m :: 0 <= m <= i && m < |run| ==> Fits(lay, run[m])
  }

  /** Crash safety over every run, in a log of at least NBUF blocks and in a smaller one until the list
      outgrows it: at every moment, crashed or not, what a recovery would yield is the initial file
      system with the committed batches replayed in order; and whenever the system is up and not
      committing, that is what the home blocks hold and the log is empty. */
  lemma {:induction false} CrashSafety(lay: Layout, run: seq<Sys>, i: nat)
    requires IsRun(lay, run) && i < |run|
    requires (NBUF <= lay.nlog || FitsUpTo(lay, run, i)) && GoodDisk(lay, run[0].disk)
    ensures Consistent(lay, Durable(lay, run[0].disk), run[i])
    ensures GoodDisk(lay, run[i].disk)
    ensures Durable(lay, run[i].disk) == Replay(Durable(lay, run[0].disk), run[i].history)
    ensures run[i].mode.Up? && !run[i].committing ==>
              Home(lay, run[i].disk) == Replay(Durable(lay, run[0].disk), run[i].history)
  {
    hide Next, Consistent, GoodDisk, Durable, Replay;
    var home := Durable(lay, run[0].disk);
    if i == 0 {
      InitIsConsistent(lay, run[0]);
    } else {
      CrashSafety(lay, run, i - 1);
      NextKeepsConsistent(lay, home, run[i - 1], run[i]);
    }
    ConsistentMeans(lay, home, run[i]);
  }

  lemma InitIsConsistent(lay: Layout, s: Sys)
    requires Init(s) && GoodDisk(lay, s.disk)
    ensures Consistent(lay, Durable(lay, s.disk), s)
  {
  }

  lemma ConsistentMeans(lay: Layout, home: map<int, Block>, s: Sys)
    requires Consistent(lay, home, s)
    ensures Booked(lay, s)
    ensures |s.disk| == lay.size && GoodDisk(lay, s.disk) && Durable(lay, s.disk) == Replay(home, s.history)
    ensures s.mode.Up? && !s.committing ==>
              Home(lay, s.disk) == Replay(home, s.history) && s.plan == []
  {
    if s.mode.Up? && !s.committing {
      EmptyLogIsDurable(lay, s.disk);
    }
  }

  // ---------- whole operations ----------

  function OpUpdates(us: seq<Update>, op: nat): seq<Update> {
    if us == [] then []
    else
      var u := us[|us| - 1];
      OpUpdates(us[..|us| - 1], op) + if u.op == op then [u] else []
  }

  lemma OpUpdatesSnoc(us: seq<Update>, u: Update, op: nat)
    ensures OpUpdates(us + [u], op) == OpUpdates(us, op) + if u.op == op then [u] else []
  {
    assert (us + [u])[..|us|] == us;
  }

  /** An operation's updates are together: all of them in the open batch, or all of them in one
      committed batch after it ended, or (after a crash) in none. */
  ghost predicate Whole(s: Sys) {
    && (forall op :: op in s.ops ==> op in s.born)
    && (s.committing ==> s.ops == map[])
    && (s.mode.Up? && !s.committing ==> s.plan == [])
    && (forall op {:trigger OpUpdates(s.issued, op)} :: op !in s.born ==> OpUpdates(s.issued, op) == [])
    && (forall op {:trigger OpUpdates(s.batch, op)} :: op in s.ops || OpUpdates(s.batch, op) != [] ==>
          OpUpdates(s.batch, op) == OpUpdates(s.issued, op))
    && (forall i, op {:trigger OpUpdates(s.history[i], op)} ::
          0 <= i < |s.history| && OpUpdates(s.history[i], op) != [] ==>
          && op !in s.ops
          && OpUpdates(s.batch, op) == []
          && OpUpdates(s.history[i], op) == OpUpdates(s.issued, op))
  }

  lemma AppendKeepsWhole(lay: Layout, s: Sys, s': Sys, u: Update)
    requires Whole(s) && Append(lay, s, s', u)
    ensures Whole(s')
  {
    forall op {:trigger OpUpdates(s'.batch, op)} {:trigger OpUpdates(s'.issued, op)}
      ensures OpUpdates(s'.issued, op) == OpUpdates(s.issued, op) + if u.op == op then [u] else []
      ensures OpUpdates(s'.batch, op) == OpUpdates(s.batch, op) + if u.op == op then [u] else []
    {
      OpUpdatesSnoc(s.issued, u, op);
      OpUpdatesSnoc(s.batch, u, op);
    }
  }

  lemma BeginKeepsWhole(s: Sys, s': Sys, op: nat)
    requires Whole(s) && Begin(s, s', op)
    ensures Whole(s')
  {
    assert OpUpdates(s.issued, op) == [];
    assert OpUpdates(s.batch, op) == [];
  }

  lemma WriteOutKeepsWhole(s: Sys, s': Sys)
    requires Whole(s) && WriteOut(s, s')
    ensures Whole(s')
  {
  }

  lemma NextKeepsWhole(lay: Layout, s: Sys, s': Sys)
    requires Whole(s) && Next(lay, s, s')
    requires Booked(lay, s)
    ensures Whole(s')
  {
    hide Whole, Begin, Append, WriteOut;
    if op :| Begin(s, s', op) {
      BeginKeepsWhole(s, s', op);
    } else if u :| Append(lay, s, s', u) {
      AppendKeepsWhole(lay, s, s', u);
    } else if WriteOut(s, s') {
      WriteOutKeepsWhole(s, s');
    } else {
      RestKeepsWhole(lay, s, s');
    }
  }

  lemma RestKeepsWhole(lay: Layout, s: Sys, s': Sys)
    requires Whole(s) && Booked(lay, s)
    requires (exists op :: Check(lay, s, s', op)) || (exists op :: End(lay, s, s', op))
             || Finish(s, s') || Crash(s, s') || Boot(lay, s, s') || Recovered(s, s')
    ensures Whole(s')
  {
    hide Booked, PlanOf, RecoveryPlan;
    if op :| End(lay, s, s', op) {
      EndKeepsBooked(lay, s, s', op);
      CommitterIsAlone(lay, s');
    }
  }

  lemma InitIsWhole(s: Sys)
    requires Init(s)
    ensures Whole(s)
  {
  }

  lemma {:induction false} RunKeepsWhole(lay: Layout, run: seq<Sys>, i: nat)
    requires IsRun(lay, run) && i < |run|
    ensures Whole(run[i])
  {
    hide Next, Whole, Booked;
    if i == 0 {
      InitIsWhole(run[0]);
    } else {
      RunKeepsWhole(lay, run, i - 1);
      RunKeepsBooked(lay, run, i - 1);
      NextKeepsWhole(lay, run[i - 1], run[i]);
    }
  }

  /** All or nothing: a committed batch that holds any update of an operation holds all the
      updates it ever issued, in order, and the operation had ended. */
  lemma AllOrNothing(lay: Layout, run: seq<Sys>, i: nat, j: nat, op: nat)
    requires IsRun(lay, run) && i < |run|
    requires j < |run[i].history| && OpUpdates(run[i].history[j], op) != []
    ensures op !in run[i].ops
    ensures OpUpdates(run[i].history[j], op) == OpUpdates(run[i].issued, op)
  {
    RunKeepsWhole(lay, run, i);
  }

  lemma {:induction false} HistoryGrows(lay: Layout, run: seq<Sys>, i: nat, j: nat)
    requires IsRun(lay, run) && i <= j < |run|
    ensures run[i].history <= run[j].history
    decreases j - i
  {
    hide Next;
    if i < j {
      HistoryGrows(lay, run, i, j - 1);
      NextHistory(lay, run[j - 1], run[j]);
    }
  }

  lemma NextHistory(lay: Layout, s: Sys, s': Sys)
    requires Next(lay, s, s')
    ensures s.history <= s'.history
  {
    hide PlanOf, RecoveryPlan, MayBegin, LogWritePanics, IsHome, Absorb;
  }

  /** Durability: once a batch with an update of an operation is committed, what every later
      recovery yields, whatever crashes come between, is a replay that contains all the updates of
      that operation in that batch. */
  lemma Durability(lay: Layout, run: seq<Sys>, i: nat, j: nat, b: nat, op: nat)
    requires IsRun(lay, run) && i <= j < |run| && GoodDisk(lay, run[0].disk)
    requires NBUF <= lay.nlog || FitsUpTo(lay, run, j)
    requires b < |run[i].history| && OpUpdates(run[i].history[b], op) != []
    ensures b < |run[j].history| && OpUpdates(run[j].history[b], op) == OpUpdates(run[j].issued, op)
    ensures GoodDisk(lay, run[j].disk)
    ensures Durable(lay, run[j].disk) == Replay(Durable(lay, run[0].disk), run[j].history)
  {
    hide IsRun, GoodDisk, Durable, Replay, Consistent;
    HistoryGrows(lay, run, i, j);
    assert run[j].history[b] == run[i].history[b];
    AllOrNothing(lay, run, j, b, op);
    CrashSafety(lay, run, j);
  }

  /** The write-ahead rule over every run: a home block changes on disk only when the header on disk
      lists it and its slot holds the new contents. */
  lemma NoEarlyWrite(lay: Layout, run: seq<Sys>, i: nat, b: nat)
    requires IsRun(lay, run) && i + 1 < |run| && GoodDisk(lay, run[0].disk)
    requires NBUF <= lay.nlog || FitsUpTo(lay, run, i)
    requires IsHome(lay, b)
    ensures |run[i].disk| == |run[i + 1].disk| == lay.size
    ensures run[i + 1].disk[b] != run[i].disk[b] ==> Ahead(lay, run[i].disk, Write(b, run[i + 1].disk[b]))
  {
    hide Next, Consistent, GoodDisk, Durable, Replay, Ahead;
    CrashSafety(lay, run, i);
    assert Next(lay, run[i], run[i + 1]);
    NextKeepsSize(lay, run[i], run[i + 1]);
    ConsistentMeans(lay, Durable(lay, run[0].disk), run[i]);
    if run[i + 1].disk[b] != run[i].disk[b] {
      ChangeIsAhead(lay, Durable(lay, run[0].disk), run[i], run[i + 1], b);
    }
  }

  lemma NextKeepsSize(lay: Layout, s: Sys, s': Sys)
    requires Next(lay, s, s')
    ensures |s'.disk| == |s.disk|
  {
    hide PlanOf, RecoveryPlan, MayBegin, LogWritePanics, IsHome, Absorb;
  }

  lemma ChangeIsAhead(lay: Layout, home: map<int, Block>, s: Sys, s': Sys, b: nat)
    requires Consistent(lay, home, s) && Next(lay, s, s')
    requires IsHome(lay, b) && |s.disk| == |s'.disk| == lay.size && s'.disk[b] != s.disk[b]
    ensures Ahead(lay, s.disk, Write(b, s'.disk[b]))
  {
    hide Booked, GoodDisk, Durable, Replay, Overlay, Ahead, Apply, CommitWrites, RecoveryWrites, CommitReady, Pins;
    hide PlanOf, RecoveryPlan;
    assert WriteOut(s, s') && s.plan[s.pc].bno == b;
    if s.mode.Up? {
      CommitWritesAhead(lay, s.base, s.lh, s.cache, s.pc);
    } else {
      RecoveryWritesAhead(lay, s.base, s.pc);
    }
  }

  // ---------- how large the on-disk log must be ----------

  /** log_write never refuses an operation that is within its reservation. */
  ghost predicate NeverRefuses(lay: Layout) {
    forall run: seq<Sys>, i: nat, op: nat ::
      IsRun(lay, run) && i < |run| && op in run[i].ops && run[i].ops[op].used < MAXOPBLOCKS
      ==> !LogWritePanics(lay, |run[i].lh|, run[i].outstanding)
  }

  /** Every listed block has its slot inside the log region. */
  ghost predicate SlotsFit(lay: Layout) {
    forall run: seq<Sys>, i: nat :: IsRun(lay, run) && i < |run| ==> |run[i].lh| < lay.nlog
  }

  /** Whatever happens, a recovery yields the initial file system with the committed batches. */
  ghost predicate CrashSafe(lay: Layout) {
    forall run: seq<Sys>, i: nat :: IsRun(lay, run) && i < |run| && GoodDisk(lay, run[0].disk) ==>
      && GoodDisk(lay, run[i].disk)
      && Durable(lay, run[i].disk) == Replay(Durable(lay, run[0].disk), run[i].history)
  }

  lemma RoomyNeverRefuses(lay: Layout)
    requires Roomy(lay)
    ensures NeverRefuses(lay) && SlotsFit(lay)
  {
    forall run: seq<Sys>, i: nat | IsRun(lay, run) && i < |run|
      ensures |run[i].lh| < lay.nlog
      ensures forall op :: op in run[i].ops && run[i].ops[op].used < MAXOPBLOCKS
                ==> !LogWritePanics(lay, |run[i].lh|, run[i].outstanding)
    {
      hide IsRun;
      RunKeepsBooked(lay, run, i);
      GroupCommit(lay, run, i);
      BookedBounds(lay, run[i]);
    }
  }

  /** A log of NBUF blocks is enough: a list that fills it halts its commit before the first write. */
  lemma EnoughIsCrashSafe(lay: Layout)
    requires OnDisk(lay) && NBUF <= lay.nlog
    ensures CrashSafe(lay)
  {
    hide Next, Consistent;
    forall run: seq<Sys>, i: nat | IsRun(lay, run) && i < |run| && GoodDisk(lay, run[0].disk)
      ensures GoodDisk(lay, run[i].disk)
      ensures Durable(lay, run[i].disk) == Replay(Durable(lay, run[0].disk), run[i].history)
    {
      CrashSafety(lay, run, i);
    }
  }

  lemma BookedBounds(lay: Layout, s: Sys)
    requires Booked(lay, s)
    ensures |s.lh| <= LOGSIZE
    ensures s.ops != map[] ==> s.outstanding >= 1
  {
  }

  /** When log_write of an active operation panics: exactly when the list is full, whether or not
      the block is listed already. */
  lemma RefusedExactly(lay: Layout, run: seq<Sys>, i: nat, op: nat)
    requires IsRun(lay, run) && i < |run| && op in run[i].ops
    ensures LogWritePanics(lay, |run[i].lh|, run[i].outstanding)
        <==> |run[i].lh| >= lay.nlog - 1 || |run[i].lh| == LOGSIZE
    ensures Roomy(lay) ==> (LogWritePanics(lay, |run[i].lh|, run[i].outstanding) <==> |run[i].lh| == LOGSIZE)
  {
    hide IsRun;
    RunKeepsBooked(lay, run, i);
    BookedBounds(lay, run[i]);
  }

  // A run that fills the log: three operations take turns appending fresh blocks.

  function Blank(): Block {
    Block(seq(WORDS, i => 0))
  }

  function Mark(): (b: Block)
    ensures b != Blank()
  {
    var b := Block(seq(WORDS, i => 1));
    assert b.word[0] != Blank().word[0];
    b
  }

  function BlankDisk(lay: Layout): Disk {
    seq(lay.size, i => Blank())
  }

  lemma BlankHeader()
    ensures HasHeader(Blank()) && HeaderN(Blank()) == 0 && HeaderList(Blank()) == []
    ensures PutHeader(Blank(), []) == Blank()
  {
    assert [0] + Blank().word[1..] == Blank().word;
  }

  /** How many of the first j blocks operation r appended, taking turns. */
  function Turns(j: nat, r: nat): nat
    requires r < 3
  {
    (j + 2 - r) / 3
  }

  function TurnMap(j: nat): map<nat, Op> {
    map[0 := Op(Turns(j, 0), false), 1 := Op(Turns(j, 1), false), 2 := Op(Turns(j, 2), false)]
  }

  /** The block appended in turn i: home blocks after the log region, but not the first of them. */
  function TurnBlock(lay: Layout, i: int): int {
    lay.start + lay.nlog + 1 + i
  }

  ghost predicate Marked(s: Sys) {
    && Pins(s.lh, s.cache)
    && (forall b :: b in s.cache ==> s.cache[b] == Mark())
    && (forall i :: 0 <= i < |s.issued| ==> s.issued[i].bno in s.lh)
  }

  ghost predicate Filled(lay: Layout, s: Sys, j: nat) {
    && s.mode.Up? && !s.committing && s.outstanding == 3
    && s.lh == seq(j, i => TurnBlock(lay, i))
    && s.ops == TurnMap(j)
    && s.disk == BlankDisk(lay) && s.history == [] && Marked(s)
  }

  /** A run from an empty disk. */
  ghost predicate FreshRun(lay: Layout, run: seq<Sys>) {
    IsRun(lay, run) && run[0].disk == BlankDisk(lay)
  }

  lemma RunSnoc(lay: Layout, run: seq<Sys>, s: Sys)
    requires |run| > 0 && FreshRun(lay, run) && Next(lay, run[|run| - 1], s)
    ensures FreshRun(lay, run + [s]) && |run| > 0
  {
    hide Next, Init;
    var r := run + [s];
    forall i | 0 <= i < |r| - 1 ensures Next(lay, r[i], r[i + 1]) {
      if i < |run| - 1 {
        assert r[i] == run[i] && r[i + 1] == run[i + 1];
      }
    }
  }

  /** A machine that has just recovered from an empty disk. */
  ghost predicate JustUp(lay: Layout, s: Sys) {
    s == Sys(BlankDisk(lay), Up, [], map[], map[], 0, false, BlankDisk(lay), [], 0, {}, [], [], [])
  }

  lemma BootBlank(lay: Layout) returns (run: seq<Sys>)
    requires OnDisk(lay)
    ensures |run| > 0 && FreshRun(lay, run) && JustUp(lay, run[|run| - 1])
  {
    var disk := BlankDisk(lay);
    BlankHeader();
    hide PutHeader;
    var s0 := Sys(disk, Down, [], map[], map[], 0, false, [], [], 0, {}, [], [], []);
    var s1 := s0.(mode := Recovering, base := disk, plan := RecoveryPlan(lay, disk));
    assert s1.plan == [Write(lay.start, Blank())];
    var s2 := s1.(disk := disk[lay.start := s1.plan[0].data], pc := 1);
    assert WriteOut(s1, s2) && s2.disk == disk;
    var s3 := s2.(mode := Up, plan := [], pc := 0);
    run := [s0, s1, s2, s3];
  }

  lemma BeginOf(lay: Layout, s: Sys, op: nat) returns (s': Sys)
    requires s.mode.Up? && MayBegin(|s.lh|, s.outstanding, s.committing) && op !in s.born
    ensures s' == s.(ops := s.ops[op := Op(0, false)], outstanding := s.outstanding + 1, born := s.born + {op})
    ensures Next(lay, s, s')
  {
    s' := s.(ops := s.ops[op := Op(0, false)], outstanding := s.outstanding + 1, born := s.born + {op});
    assert Begin(s, s', op);
  }

  lemma BeginThree(lay: Layout) returns (run: seq<Sys>)
    requires OnDisk(lay)
    ensures |run| > 0 && FreshRun(lay, run) && Filled(lay, run[|run| - 1], 0)
  {
    hide FreshRun, Next;
    run := BootBlank(lay);
    var a := BeginOf(lay, run[|run| - 1], 0);
    RunSnoc(lay, run, a);
    var b := BeginOf(lay, a, 1);
    RunSnoc(lay, run + [a], b);
    var c := BeginOf(lay, b, 2);
    RunSnoc(lay, run + [a] + [b], c);
    run := run + [a] + [b] + [c];
  }

  lemma CheckOf(lay: Layout, s: Sys, op: nat) returns (s': Sys)
    requires s.mode.Up? && op in s.ops && !LogWritePanics(lay, |s.lh|, s.outstanding)
    ensures s' == s.(ops := s.ops[op := s.ops[op].(checked := true)]) && Next(lay, s, s')
  {
    s' := s.(ops := s.ops[op := s.ops[op].(checked := true)]);
    assert Check(lay, s, s', op);
  }

  lemma AppendOf(lay: Layout, s: Sys, op: nat, b: int) returns (s': Sys)
    requires s.mode.Up? && op in s.ops && s.ops[op].checked && s.ops[op].used < MAXOPBLOCKS
    requires IsHome(lay, b) && b !in s.lh && Marked(s)
    ensures Next(lay, s, s') && s'.mode.Up? && s'.committing == s.committing && s'.outstanding == s.outstanding
    ensures s'.lh == s.lh + [b] && s'.ops == s.ops[op := Op(s.ops[op].used + 1, false)]
    ensures s'.disk == s.disk && s'.history == s.history && Marked(s')
  {
    var u := Update(op, b, Mark());
    s' := s.(lh := Absorb(s.lh, b), cache := s.cache[b := u.data],
             ops := s.ops[op := Op(s.ops[op].used + 1, false)],
             issued := s.issued + [u], batch := s.batch + [u]);
    assert Append(lay, s, s', u);
  }

  /** With a log of nlog blocks, nlog - 1 appends get through one after the other. */
  lemma {:induction false} FillTo(lay: Layout, j: nat) returns (run: seq<Sys>)
    requires OnDisk(lay) && lay.start + lay.nlog + 1 + j <= lay.size
    requires j < lay.nlog && j <= LOGSIZE
    ensures |run| > 0 && FreshRun(lay, run) && Filled(lay, run[|run| - 1], j)
  {
    if j == 0 {
      run := BeginThree(lay);
    } else {
      hide FreshRun, Next;
      run := FillTo(lay, j - 1);
      var t, u := FillStep(lay, run[|run| - 1], j - 1);
      RunSnoc(lay, run, t);
      RunSnoc(lay, run + [t], u);
      run := run + [t] + [u];
    }
  }

  lemma FillStep(lay: Layout, s: Sys, j: nat) returns (t: Sys, u: Sys)
    requires OnDisk(lay) && lay.start + lay.nlog + 1 + j < lay.size
    requires j < lay.nlog - 1 && j < LOGSIZE
    requires Filled(lay, s, j)
    ensures Next(lay, s, t) && Next(lay, t, u) && Filled(lay, u, j + 1)
  {
    hide Next, Mark, Pins;
    var op := j % 3;
    TurnsNext(j);
    t := CheckOf(lay, s, op);
    u := AppendOf(lay, t, op, TurnBlock(lay, j));
    assert u.lh == seq(j + 1, i => TurnBlock(lay, i));
  }

  lemma TurnsNext(j: nat)
    ensures forall r :: 0 <= r < 3 ==> Turns(j + 1, r) == Turns(j, r) + if j % 3 == r then 1 else 0
    ensures j < LOGSIZE ==> Turns(j, j % 3) < MAXOPBLOCKS
  {
    assert j == 3 * (j / 3) + j % 3;
  }

  /** With nlog <= LOGSIZE the reservations outrun the size test: an operation within its
      reservation is refused. */
  lemma SmallLogRefuses(lay: Layout)
    requires OnDisk(lay) && lay.nlog <= LOGSIZE && lay.start + 2 * lay.nlog <= lay.size
    ensures !NeverRefuses(lay)
  {
    var run := FillTo(lay, lay.nlog - 1);
    var s := run[|run| - 1];
    var op := (lay.nlog - 1) % 3;
    TurnsNext(lay.nlog - 1);
    assert op in s.ops && s.ops[op].used < MAXOPBLOCKS;
    assert LogWritePanics(lay, |s.lh|, s.outstanding);
  }

  /** And because the test is made without the lock, two operations that both pass it on the
      last free slot append two blocks: the second has no slot inside the log region. */
  lemma SmallLogOverruns(lay: Layout) returns (run: seq<Sys>)
    requires OnDisk(lay) && 2 <= lay.nlog <= LOGSIZE && lay.start + 2 * lay.nlog + 1 <= lay.size
    ensures |run| > 0 && FreshRun(lay, run) && Filled(lay, run[|run| - 1], lay.nlog)
  {
    hide FreshRun, Next;
    var j := lay.nlog - 2;
    run := FillTo(lay, j);
    var t, u, v, w := OverrunSteps(lay, run[|run| - 1], j);
    RunSnoc(lay, run, t);
    RunSnoc(lay, run + [t], u);
    RunSnoc(lay, run + [t] + [u], v);
    RunSnoc(lay, run + [t] + [u] + [v], w);
    run := run + [t] + [u] + [v] + [w];
  }

  lemma OverrunSteps(lay: Layout, s: Sys, j: nat) returns (t: Sys, u: Sys, v: Sys, w: Sys)
    requires OnDisk(lay) && j + 2 == lay.nlog <= LOGSIZE && lay.start + 2 * lay.nlog + 1 <= lay.size
    requires Filled(lay, s, j)
    ensures Next(lay, s, t) && Next(lay, t, u) && Next(lay, u, v) && Next(lay, v, w) && Filled(lay, w, j + 2)
  {
    hide Next, Filled;
    t, u := BothChecks(lay, s, j);
    v, w := BothAppends(lay, s, u, j);
  }

  lemma BothChecks(lay: Layout, s: Sys, j: nat) returns (t: Sys, u: Sys)
    requires j + 2 == lay.nlog <= LOGSIZE && Filled(lay, s, j)
    ensures Next(lay, s, t) && Next(lay, t, u) && u == s.(ops := BothChecked(j))
  {
    hide Next, Marked;
    t := CheckOf(lay, s, j % 3);
    u := CheckOf(lay, t, (j + 1) % 3);
  }

  /** The two operations whose turn it is have both passed the size test. */
  function BothChecked(j: nat): map<nat, Op> {
    map[0 := Op(Turns(j, 0), (j + 2) % 3 != 0),
        1 := Op(Turns(j, 1), (j + 2) % 3 != 1),
        2 := Op(Turns(j, 2), (j + 2) % 3 != 2)]
  }

  lemma BothAppends(lay: Layout, s: Sys, u: Sys, j: nat) returns (v: Sys, w: Sys)
    requires OnDisk(lay) && j + 2 == lay.nlog <= LOGSIZE && lay.start + 2 * lay.nlog + 1 <= lay.size
    requires Filled(lay, s, j) && u == s.(ops := BothChecked(j))
    ensures Next(lay, u, v) && Next(lay, v, w) && Filled(lay, w, j + 2)
  {
    hide Next, Marked, TurnMap, BothChecked;
    BothTurned(j);
    MarkedStays(s, u);
    v := AppendOf(lay, u, j % 3, TurnBlock(lay, j));
    assert v.lh == seq(j + 1, i => TurnBlock(lay, i));
    w := AppendOf(lay, v, (j + 1) % 3, TurnBlock(lay, j + 1));
    assert w.lh == seq(j + 2, i => TurnBlock(lay, i));
  }

  lemma BothTurned(j: nat)
    requires j + 2 <= LOGSIZE
    ensures
      var a, b, m := j % 3, (j + 1) % 3, BothChecked(j);
      && a != b && a in m && b in m && m[a].checked && m[b].checked
      && m[a].used < MAXOPBLOCKS && m[b].used < MAXOPBLOCKS
      && m[a := Op(m[a].used + 1, false)][b := Op(m[b].used + 1, false)] == TurnMap(j + 2)
  {
    TurnsNext(j);
    TurnsNext(j + 1);
  }

  lemma MarkedStays(s: Sys, s': Sys)
    requires Marked(s) && s'.lh == s.lh && s'.cache == s.cache && s'.issued == s.issued
    ensures Marked(s')
  {
  }

  // What the commit of such a list does to the disk.

  lemma EndOf(lay: Layout, s: Sys, op: nat) returns (s': Sys)
    requires s.mode.Up? && op in s.ops && !s.committing && !CommitHalts(s)
    ensures End(lay, s, s', op) && Next(lay, s, s')
    ensures s'.mode.Up? && s'.ops == s.ops - {op} && s'.outstanding == s.outstanding - 1
    ensures s'.lh == s.lh && s'.cache == s.cache && s'.disk == s.disk && s'.history == s.history
    ensures s'.issued == s.issued
    ensures s'.committing <==> s'.outstanding == 0
    ensures s'.committing ==> s'.plan == PlanOf(lay, s) && s'.pc == 0
  {
    hide PlanOf;
    var t := s.(ops := s.ops - {op}, outstanding := s.outstanding - 1);
    s' := if t.outstanding == 0 then t.(committing := true, base := s.disk, plan := PlanOf(lay, s), pc := 0) else t;
    assert End(lay, s, s', op);
  }

  /** All operations have ended and the committer has made its first k writes. */
  ghost predicate Logging(lay: Layout, s: Sys, n: nat, k: nat) {
    && s.mode.Up? && s.lh == seq(n, i => TurnBlock(lay, i)) && s.history == [] && Marked(s)
    && Writable(lay, Seen(BlankDisk(lay), s.cache), s.lh)
    && s.plan == CommitPlan(lay, Seen(BlankDisk(lay), s.cache), s.lh)
    && WritesFit(BlankDisk(lay), s.plan)
    && s.pc == k <= |s.plan| && s.disk == Apply(BlankDisk(lay), s.plan[..k])
  }

  lemma EndThree(lay: Layout, run: seq<Sys>, n: nat) returns (r: seq<Sys>)
    requires OnDisk(lay) && n < NBUF && lay.start + lay.nlog + 1 + n <= lay.size && lay.start + 1 + n <= lay.size
    requires |run| > 0 && FreshRun(lay, run) && Filled(lay, run[|run| - 1], n)
    ensures |r| > 0 && FreshRun(lay, r) && Logging(lay, r[|r| - 1], n, 0)
  {
    hide FreshRun, Next, Mark, Apply, CommitPlan, PlanOf;
    var s := run[|run| - 1];
    var t := EndOf(lay, s, 0);
    var u := EndOf(lay, t, 1);
    var v := EndOf(lay, u, 2);
    RunSnoc(lay, run, t);
    RunSnoc(lay, run + [t], u);
    RunSnoc(lay, run + [t] + [u], v);
    r := run + [t] + [u] + [v];
    PlanStarts(lay, u, n);
    assert v.plan[..0] == [];
  }

  lemma PlanStarts(lay: Layout, s: Sys, n: nat)
    requires OnDisk(lay) && n <= LOGSIZE && lay.start + lay.nlog + 1 + n <= lay.size && lay.start + 1 + n <= lay.size
    requires s.lh == seq(n, i => TurnBlock(lay, i)) && s.disk == BlankDisk(lay) && Marked(s)
    ensures
      var t := Seen(BlankDisk(lay), s.cache);
      && Writable(lay, t, s.lh) && PlanOf(lay, s) == CommitPlan(lay, t, s.lh)
      && WritesFit(BlankDisk(lay), PlanOf(lay, s)) && Apply(BlankDisk(lay), []) == BlankDisk(lay)
  {
    hide CommitPlan, Mark;
    assert lay.start !in s.lh;
    assert lay.start !in s.cache;
    BlankHeader();
  }

  lemma {:induction false} WriteSlots(lay: Layout, run: seq<Sys>, n: nat, k: nat) returns (r: seq<Sys>)
    requires |run| > 0 && FreshRun(lay, run) && Logging(lay, run[|run| - 1], n, 0) && k <= n
    ensures |r| > 0 && FreshRun(lay, r) && Logging(lay, r[|r| - 1], n, k)
  {
    hide FreshRun, Logging;
    if k == 0 {
      r := run;
    } else {
      r := WriteSlots(lay, run, n, k - 1);
      var s := WriteSlot(lay, r[|r| - 1], n, k - 1);
      RunSnoc(lay, r, s);
      r := r + [s];
    }
  }

  lemma WriteSlot(lay: Layout, s: Sys, n: nat, k: nat) returns (s': Sys)
    requires Logging(lay, s, n, k) && k < n
    ensures Next(lay, s, s') && Logging(lay, s', n, k + 1)
  {
    hide CommitPlan, Apply, Marked, Writable, BlankDisk, Seen, Next;
    PlanIsLong(lay, Seen(BlankDisk(lay), s.cache), s.lh);
    ApplyNext(BlankDisk(lay), s.plan, k);
    s' := s.(disk := s.disk[s.plan[k].bno := s.plan[k].data], pc := k + 1);
    MarkedStays(s, s');
    WriteSlotIsStep(lay, s, s');
  }

  lemma WriteSlotIsStep(lay: Layout, s: Sys, s': Sys)
    requires s.mode.Up? && s.pc < |s.plan| && s.pc < |s.lh| && s.plan[s.pc].bno < |s.disk|
    requires s' == s.(disk := s.disk[s.plan[s.pc].bno := s.plan[s.pc].data], pc := s.pc + 1)
    ensures Next(lay, s, s')
  {
    assert WriteOut(s, s');
  }

  lemma PlanIsLong(lay: Layout, t: Disk, lh: seq<int>)
    requires Writable(lay, t, lh) && lh != []
    ensures |lh| <= |CommitPlan(lay, t, lh)|
    ensures CommitPlan(lay, t, lh)[..|lh|] == Copies(t, lh, Slots(lay, |lh|))
  {
    hide Copies, Apply;
  }

  /** What the slot writes of an overrun list leave: the log is still empty, and the block after the
      log region, which nobody has touched, holds a copy of another block. */
  lemma OverrunDisk(lay: Layout, s: Sys)
    requires OnDisk(lay) && 2 <= lay.nlog && Logging(lay, s, lay.nlog, lay.nlog)
    requires lay.start + 2 * lay.nlog + 1 <= lay.size
    ensures |s.disk| == lay.size && s.disk[lay.start] == Blank() && s.disk[lay.start + lay.nlog] == Mark()
    ensures forall i :: 0 <= i < |s.issued| ==> s.issued[i].bno != lay.start + lay.nlog
  {
    hide CommitPlan, Apply, Mark, Copies;
    var n, t, d := lay.nlog, Seen(BlankDisk(lay), s.cache), BlankDisk(lay);
    var slots := Slots(lay, n);
    var ws := Copies(t, s.lh, slots);
    PlanIsLong(lay, t, s.lh);
    assert ws == s.plan[..n];
    assert Apart(slots, s.lh);
    CopiesApart(t, s.lh, slots, n - 1);
    assert s.lh[n - 1] in s.cache;
    ApplySlots(lay, d, ws, n - 1);
    ApplyElsewhere(d, ws, lay.start);
  }

  /** A run in which nothing has been committed and no operation has named the block after the log
      region, and yet its old contents are gone: the list outgrows the log but not the cache. */
  lemma SmallLogLosesData(lay: Layout) returns (run: seq<Sys>)
    requires OnDisk(lay) && 2 <= lay.nlog < NBUF && lay.start + 2 * lay.nlog + 1 <= lay.size
    ensures |run| > 0 && IsRun(lay, run) && GoodDisk(lay, run[0].disk) && GoodDisk(lay, run[|run| - 1].disk)
    ensures
      var s, b := run[|run| - 1], lay.start + lay.nlog;
      && s.history == [] && (forall i :: 0 <= i < |s.issued| ==> s.issued[i].bno != b)
      && IsHome(lay, b) && Durable(lay, s.disk)[b] != Durable(lay, run[0].disk)[b]
  {
    hide Logging, Filled, Next, GoodDisk, Durable;
    run := SmallLogOverruns(lay);
    run := EndThree(lay, run, lay.nlog);
    run := WriteSlots(lay, run, lay.nlog, lay.nlog);
    OverrunDisk(lay, run[|run| - 1]);
    LoggingIs(lay, run[|run| - 1], lay.nlog, lay.nlog);
    BlankIsGood(lay, run[0].disk);
    BlankIsGood(lay, run[|run| - 1].disk);
  }

  lemma LoggingIs(lay: Layout, s: Sys, n: nat, k: nat)
    requires Logging(lay, s, n, k)
    ensures s.history == []
  {
  }

  lemma BlankIsGood(lay: Layout, d: Disk)
    requires OnDisk(lay) && |d| == lay.size && d[lay.start] == Blank()
    ensures GoodDisk(lay, d) && forall b :: IsHome(lay, b) ==> b in Durable(lay, d) && Durable(lay, d)[b] == d[b]
  {
    BlankHeader();
  }

  /** Exactly when the log is large enough: for the reservations of begin_op and for the slots of all
      that may be listed, LOGSIZE + 1 blocks; for crash safety, NBUF blocks.  mkfs makes nlog equal to
      LOGSIZE, which is NBUF. */
  lemma LogSizeMatters(lay: Layout)
    requires OnDisk(lay) && lay.start + 2 * lay.nlog + 1 <= lay.size
    ensures NeverRefuses(lay) <==> lay.nlog >= LOGSIZE + 1
    ensures lay.nlog >= 2 ==> (SlotsFit(lay) <==> lay.nlog >= LOGSIZE + 1)
    ensures lay.nlog >= 2 ==> (CrashSafe(lay) <==> lay.nlog >= NBUF)
  {
    hide NeverRefuses, SlotsFit, CrashSafe;
    if lay.nlog >= LOGSIZE + 1 {
      RoomyNeverRefuses(lay);
    } else {
      SmallLogRefuses(lay);
      if lay.nlog >= 2 {
        SmallLogLacksSlots(lay);
      }
    }
    if lay.nlog >= NBUF {
      EnoughIsCrashSafe(lay);
    } else if lay.nlog >= 2 {
      SmallLogFails(lay);
    }
  }

  lemma SmallLogLacksSlots(lay: Layout)
    requires OnDisk(lay) && 2 <= lay.nlog <= LOGSIZE && lay.start + 2 * lay.nlog + 1 <= lay.size
    ensures !SlotsFit(lay)
  {
    hide Next;
    var over := SmallLogOverruns(lay);
    assert |over[|over| - 1].lh| == lay.nlog;
  }

  lemma SmallLogFails(lay: Layout)
    requires OnDisk(lay) && 2 <= lay.nlog < NBUF && lay.start + 2 * lay.nlog + 1 <= lay.size
    ensures !CrashSafe(lay)
  {
    hide Next, Durable, GoodDisk;
    var run := SmallLogLosesData(lay);
    assert Replay(Durable(lay, run[0].disk), []) == Durable(lay, run[0].disk);
  }

  /** Even a large enough log refuses some absorbed writes: once LOGSIZE blocks are listed,
      log_write panics although the block already has a slot. */
  lemma FullLogRefusesAbsorption(lay: Layout) returns (run: seq<Sys>, op: nat, b: int)
    requires Roomy(lay) && lay.start + 2 * lay.nlog <= lay.size
    ensures IsRun(lay, run)
    ensures var s := run[|run| - 1]; op in s.ops && b in s.lh && LogWritePanics(lay, |s.lh|, s.outstanding)
  {
    run := FillTo(lay, LOGSIZE);
    op, b := 0, TurnBlock(lay, 0);
    assert run[|run| - 1].lh[0] == b;
  }

  // ---------- when a commit halts ----------

  /** In every run the commit of the last operation halts exactly when the list has NBUF blocks. */
  lemma HaltsExactly(lay: Layout, run: seq<Sys>, i: nat, op: nat)
    requires IsRun(lay, run) && i < |run| && op in run[i].ops && run[i].outstanding == 1
    ensures (exists s' :: Halt(run[i], s', op)) <==> |run[i].lh| == NBUF
    ensures (exists s' :: End(lay, run[i], s', op)) <==> |run[i].lh| < NBUF
  {
    hide IsRun;
    var s := run[i];
    RunKeepsBooked(lay, run, i);
    BookedBounds(lay, s);
    OpsMeanUp(lay, s, op);
    if |s.lh| == NBUF {
      var down := HaltOf(lay, s, op);
    } else {
      var next := EndOf(lay, s, op);
    }
  }

  lemma OpsMeanUp(lay: Layout, s: Sys, op: nat)
    requires Booked(lay, s) && op in s.ops
    ensures s.mode.Up? && !s.committing
  {
  }

  /** Some run, with every operation within its reservation, comes to a commit that halts. */
  ghost predicate SomeCommitHalts(lay: Layout) {
    exists run: seq<Sys>, i: nat, op: nat ::
      IsRun(lay, run) && i < |run| && op in run[i].ops && CommitHalts(run[i])
  }

  /** How many operations have passed the size test and not appended yet. */
  ghost function Waiting(ops: map<nat, Op>): nat
    decreases |ops|
  {
    if ops == map[] then 0
    else
      var k :| k in ops;
      (if ops[k].checked then 1 else 0) + Waiting(ops - {k})
  }

  lemma {:induction false} WaitingWithout(ops: map<nat, Op>, k: nat)
    requires k in ops
    ensures Waiting(ops) == (if ops[k].checked then 1 else 0) + Waiting(ops - {k})
    ensures Waiting(ops) <= |ops|
    decreases |ops|
  {
    var j :| j in ops && Waiting(ops) == (if ops[j].checked then 1 else 0) + Waiting(ops - {j});
    if j != k {
      WaitingWithout(ops - {j}, k);
      WaitingWithout(ops - {k}, j);
      assert ops - {j} - {k} == ops - {k} - {j};
    } else if ops - {k} != map[] {
      var m :| m in ops - {k};
      WaitingWithout(ops - {k}, m);
    }
  }

  lemma WaitingWith(ops: map<nat, Op>, k: nat, o: Op)
    ensures Waiting(ops[k := o]) == (if o.checked then 1 else 0) + Waiting(ops - {k})
    ensures Waiting(ops[k := o]) <= |ops[k := o]|
  {
    WaitingWithout(ops[k := o], k);
    assert ops[k := o] - {k} == ops - {k};
  }

  /** At most three operations are active, so the list outgrows the log by at most two blocks. */
  ghost predicate Paced(lay: Layout, s: Sys) {
    s.outstanding <= 3 && |s.lh| + Waiting(s.ops) <= lay.nlog + 1
  }

  lemma StartKeepsPaced(lay: Layout, s: Sys, s': Sys, op: nat)
    requires Booked(lay, s) && Paced(lay, s) && Begin(s, s', op)
    ensures Paced(lay, s')
  {
    hide Waiting, Unspent, Listing, Pins;
    assert op !in s.ops;
    WaitingWith(s.ops, op, Op(0, false));
    OneMoreOp(s.ops, op, Op(0, false));
  }

  lemma CheckKeepsPaced(lay: Layout, s: Sys, s': Sys, op: nat)
    requires Booked(lay, s) && Paced(lay, s) && Check(lay, s, s', op)
    ensures Paced(lay, s')
  {
    hide Waiting, Unspent;
    WaitingWith(s.ops, op, s.ops[op].(checked := true));
    assert s'.ops.Keys == s.ops.Keys;
  }

  lemma AppendKeepsPaced(lay: Layout, s: Sys, s': Sys, u: Update)
    requires Paced(lay, s) && Append(lay, s, s', u)
    ensures Paced(lay, s')
  {
    hide Waiting;
    WaitingWith(s.ops, u.op, s'.ops[u.op]);
    WaitingWithout(s.ops, u.op);
  }

  lemma EndKeepsPaced(lay: Layout, s: Sys, s': Sys, op: nat)
    requires Paced(lay, s) && End(lay, s, s', op)
    ensures Paced(lay, s')
  {
    hide Waiting, PlanOf;
    WaitingWithout(s.ops, op);
  }

  lemma NextKeepsPaced(lay: Layout, s: Sys, s': Sys)
    requires Booked(lay, s) && Paced(lay, s) && Next(lay, s, s')
    ensures Paced(lay, s')
  {
    hide Booked, Paced, Begin, Check, Append, End;
    if op :| Begin(s, s', op) {
      StartKeepsPaced(lay, s, s', op);
    } else if op :| Check(lay, s, s', op) {
      CheckKeepsPaced(lay, s, s', op);
    } else if u :| Append(lay, s, s', u) {
      AppendKeepsPaced(lay, s, s', u);
    } else if op :| End(lay, s, s', op) {
      EndKeepsPaced(lay, s, s', op);
    } else {
      RestKeepsPaced(lay, s, s');
    }
  }

  lemma RestKeepsPaced(lay: Layout, s: Sys, s': Sys)
    requires Paced(lay, s)
    requires WriteOut(s, s') || Finish(s, s') || Crash(s, s') || Boot(lay, s, s') || Recovered(s, s')
    ensures Paced(lay, s')
  {
    hide RecoveryPlan;
  }

  lemma {:induction false} RunKeepsPaced(lay: Layout, run: seq<Sys>, i: nat)
    requires IsRun(lay, run) && i < |run|
    ensures Paced(lay, run[i])
  {
    hide Next, Booked;
    if i > 0 {
      RunKeepsPaced(lay, run, i - 1);
      RunKeepsBooked(lay, run, i - 1);
      NextKeepsPaced(lay, run[i - 1], run[i]);
    }
  }

  /** Three operations that all pass the size test before any of them appends fill the cache. */
  lemma FillCache(lay: Layout) returns (run: seq<Sys>)
    requires OnDisk(lay) && NBUF - 1 <= lay.nlog && lay.start + lay.nlog + 1 + NBUF <= lay.size
    ensures |run| > 0 && FreshRun(lay, run)
    ensures var s := run[|run| - 1]; s.mode.Up? && !s.committing && s.ops == TurnMap(NBUF) && s.outstanding == 3
    ensures |run[|run| - 1].lh| == NBUF
  {
    hide FreshRun, Next, Marked;
    run := FillTo(lay, NBUF - 3);
    var s := run[|run| - 1];
    var a := CheckOf(lay, s, 0);
    var b := CheckOf(lay, a, 1);
    var c := CheckOf(lay, b, 2);
    MarkedStays(s, c);
    var d := AppendOf(lay, c, 0, TurnBlock(lay, NBUF - 3));
    var e := AppendOf(lay, d, 1, TurnBlock(lay, NBUF - 2));
    var f := AppendOf(lay, e, 2, TurnBlock(lay, NBUF - 1));
    RunSnoc(lay, run, a);
    RunSnoc(lay, run + [a], b);
    RunSnoc(lay, run + [a] + [b], c);
    RunSnoc(lay, run + [a] + [b] + [c], d);
    RunSnoc(lay, run + [a] + [b] + [c] + [d], e);
    RunSnoc(lay, run + [a] + [b] + [c] + [d] + [e], f);
    run := run + [a] + [b] + [c] + [d] + [e] + [f];
  }

  lemma FullCacheHalts(lay: Layout)
    requires OnDisk(lay) && NBUF - 1 <= lay.nlog && lay.start + lay.nlog + 1 + NBUF <= lay.size
    ensures SomeCommitHalts(lay)
  {
    hide Next;
    var run := FillCache(lay);
    var t := EndOf(lay, run[|run| - 1], 0);
    var u := EndOf(lay, t, 1);
    RunSnoc(lay, run, t);
    RunSnoc(lay, run + [t], u);
    run := run + [t] + [u];
    assert 2 in run[|run| - 1].ops;
  }

  lemma HaltOf(lay: Layout, s: Sys, op: nat) returns (s': Sys)
    requires s.mode.Up? && op in s.ops && !s.committing && CommitHalts(s)
    ensures Halt(s, s', op) && Next(lay, s, s')
  {
    s' := s.(mode := Down, lh := [], cache := map[], ops := map[], outstanding := 0, committing := false,
             base := [], plan := [], pc := 0, batch := []);
    assert Halt(s, s', op);
  }

  /** Some commit halts exactly when the log has at least NBUF - 1 blocks; so a log as large as the
      reservations need is one whose commits can find the cache full. */
  lemma HaltsWhenLarge(lay: Layout)
    requires OnDisk(lay) && lay.start + lay.nlog + 1 + NBUF <= lay.size
    ensures SomeCommitHalts(lay) <==> lay.nlog >= NBUF - 1
  {
    hide Next, Init;
    if lay.nlog >= NBUF - 1 {
      FullCacheHalts(lay);
    } else if run: seq<Sys>, i: nat, op: nat :|
      IsRun(lay, run) && i < |run| && op in run[i].ops && CommitHalts(run[i])
    {
      RunKeepsPaced(lay, run, i);
      assert false;
    }
  }
}
