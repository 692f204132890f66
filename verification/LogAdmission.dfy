/** begin_op admits as much as it can: it sees the number of listed blocks and of active operations, and
    refuses exactly where some run with those numbers would run out of room. */
module LogAdmission {
  import opened Params
  import opened WriteAheadLog
  import opened LogProtocol

  /** The state with one operation more, whether or not begin_op would let it in. */
  ghost function Admit(s: Sys, op: nat): Sys {
    s.(ops := s.ops[op := Op(0, false)], outstanding := s.outstanding + 1, born := s.born + {op})
  }

  /** The list is full, and an operation that has not used up its MAXOPBLOCKS is still active. */
  ghost predicate Full(s: Sys) {
    s.mode.Up? && |s.lh| >= LOGSIZE && exists op :: op in s.ops && s.ops[op].used < MAXOPBLOCKS
  }

  ghost predicate Path(lay: Layout, path: seq<Sys>) {
    |path| > 0 && forall i :: 0 <= i < |path| - 1 ==> Next(lay, path[i], path[i + 1])
  }

  /** Some continuation leaves an operation without room that is within its reservation. */
  ghost predicate RunsOut(lay: Layout, s: Sys) {
    exists path :: Path(lay, path) && path[0] == s && Full(path[|path| - 1])
  }

  /** A state where begin_op can be called. */
  ghost predicate Open(s: Sys, op: nat) {
    s.mode.Up? && !s.committing && op !in s.born
  }

  // ---------- a booked state never runs out ----------

  lemma {:induction false} PathKeepsBooked(lay: Layout, path: seq<Sys>, i: nat)
    requires Path(lay, path) && Booked(lay, path[0]) && i < |path|
    ensures Booked(lay, path[i])
  {
    hide Next, Booked;
    if i > 0 {
      PathKeepsBooked(lay, path, i - 1);
      NextKeepsBooked(lay, path[i - 1], path[i]);
    }
  }

  lemma BookedIsNotFull(lay: Layout, s: Sys)
    requires Booked(lay, s)
    ensures !Full(s)
  {
    hide Unspent;
    if op :| op in s.ops && s.ops[op].used < MAXOPBLOCKS {
      UnspentWithout(s.ops, op);
      UnspentIsRoom(s.ops - {op});
    }
  }

  lemma BookedStaysRoomy(lay: Layout, s: Sys)
    requires Booked(lay, s)
    ensures !RunsOut(lay, s)
  {
    hide Booked, Next, Full;
    if path :| Path(lay, path) && path[0] == s && Full(path[|path| - 1]) {
      PathKeepsBooked(lay, path, |path| - 1);
      BookedIsNotFull(lay, path[|path| - 1]);
      assert false;
    }
  }

  lemma AdmitKeepsBooked(lay: Layout, s: Sys, op: nat)
    requires Booked(lay, s) && Open(s, op) && |s.lh| + Unspent(s.ops) + MAXOPBLOCKS <= LOGSIZE
    ensures Booked(lay, Admit(s, op))
  {
    hide Listing, Pins, Unspent;
    BeginOps(s.ops, s.born, op);
  }

  // ---------- an overbooked state does ----------

  lemma PathSnoc(lay: Layout, path: seq<Sys>, s: Sys)
    requires Path(lay, path) && Next(lay, path[|path| - 1], s)
    ensures Path(lay, path + [s])
  {
    hide Next;
    var r := path + [s];
    forall i | 0 <= i < |r| - 1 ensures Next(lay, r[i], r[i + 1]) {
      if i < |path| - 1 {
        assert r[i] == path[i] && r[i + 1] == path[i + 1];
      }
    }
  }

  /** Some of these n blocks is not listed. */
  lemma {:induction false} Unlisted(lh: seq<int>, a: int, n: nat) returns (b: int)
    requires Distinct(lh) && |lh| < n
    ensures a <= b < a + n && b !in lh
    decreases n
  {
    var last := a + n - 1;
    if last !in lh {
      b := last;
    } else {
      var i :| 0 <= i < |lh| && lh[i] == last;
      var less := lh[..i] + lh[i + 1..];
      b := Unlisted(less, a, n - 1);
      assert forall j :: 0 <= j < |lh| && j != i ==> lh[j] in less;
    }
  }

  lemma {:induction false} SomeUnspent(ops: map<nat, Op>) returns (op: nat)
    requires Unspent(ops) > 0
    ensures op in ops && ops[op].used < MAXOPBLOCKS
    decreases |ops|
  {
    hide Unspent;
    NoneUnspent(ops);
    var k :| k in ops;
    UnspentWithout(ops, k);
    if ops[k].used < MAXOPBLOCKS {
      op := k;
    } else {
      op := SomeUnspent(ops - {k});
    }
  }

  lemma NoneUnspent(ops: map<nat, Op>)
    requires Unspent(ops) > 0
    ensures ops != map[]
  {
  }

  /** More may still be appended than there is room for. */
  ghost predicate Over(lay: Layout, s: Sys) {
    && s.mode.Up? && s.outstanding >= 1 && Distinct(s.lh) && |s.lh| <= LOGSIZE
    && |s.lh| + Unspent(s.ops) > LOGSIZE
  }

  /** One operation passes the size test and appends a block that was not listed. */
  lemma OneMore(lay: Layout, s: Sys) returns (t: Sys, u: Sys)
    requires Roomy(lay) && lay.start + lay.nlog + LOGSIZE <= lay.size && Over(lay, s) && |s.lh| < LOGSIZE
    ensures Next(lay, s, t) && Next(lay, t, u) && Over(lay, u) && |u.lh| == |s.lh| + 1
  {
    hide Next, Unspent;
    var op := SomeUnspent(s.ops);
    var b := Unlisted(s.lh, lay.start + lay.nlog, LOGSIZE);
    t := CheckOf(lay, s, op);
    u := AppendBlank(lay, t, op, b);
    UnspentWith(t.ops, op, u.ops[op]);
    UnspentWith(s.ops, op, t.ops[op]);
    UnspentWithout(s.ops, op);
    assert t.ops - {op} == s.ops - {op};
  }

  lemma AppendBlank(lay: Layout, s: Sys, op: nat, b: int) returns (s': Sys)
    requires s.mode.Up? && op in s.ops && s.ops[op].checked && s.ops[op].used < MAXOPBLOCKS
    requires IsHome(lay, b) && b !in s.lh
    ensures Next(lay, s, s') && s'.mode.Up? && s'.outstanding == s.outstanding
    ensures s'.lh == s.lh + [b] && s'.ops == s.ops[op := Op(s.ops[op].used + 1, false)]
  {
    var u := Update(op, b, Blank());
    s' := s.(lh := Absorb(s.lh, b), cache := s.cache[b := u.data],
             ops := s.ops[op := Op(s.ops[op].used + 1, false)],
             issued := s.issued + [u], batch := s.batch + [u]);
    assert Append(lay, s, s', u);
  }

  lemma {:induction false} OverRunsOut(lay: Layout, path: seq<Sys>)
    requires Roomy(lay) && lay.start + lay.nlog + LOGSIZE <= lay.size
    requires Path(lay, path) && Over(lay, path[|path| - 1])
    ensures RunsOut(lay, path[0])
    decreases LOGSIZE - |path[|path| - 1].lh|
  {
    hide Next, Unspent;
    var s := path[|path| - 1];
    if |s.lh| == LOGSIZE {
      var op := SomeUnspent(s.ops);
      assert Full(s);
    } else {
      var t, u := OneMore(lay, s);
      PathSnoc(lay, path, t);
      PathSnoc(lay, path + [t], u);
      assert (path + [t] + [u])[0] == path[0];
      OverRunsOut(lay, path + [t] + [u]);
    }
  }

  /** In every state of every run: one more operation could run out of room exactly if the blocks listed,
      what the active operations may still append and its own MAXOPBLOCKS exceed LOGSIZE. */
  lemma RunsOutExactly(lay: Layout, run: seq<Sys>, i: nat, op: nat)
    requires Roomy(lay) && lay.start + lay.nlog + LOGSIZE <= lay.size
    requires IsRun(lay, run) && i < |run| && Open(run[i], op)
    ensures RunsOut(lay, Admit(run[i], op)) <==> |run[i].lh| + Unspent(run[i].ops) + MAXOPBLOCKS > LOGSIZE
  {
    hide IsRun, RunsOut, Unspent;
    var s := run[i];
    RunKeepsBooked(lay, run, i);
    if |s.lh| + Unspent(s.ops) + MAXOPBLOCKS <= LOGSIZE {
      AdmitKeepsBooked(lay, s, op);
      BookedStaysRoomy(lay, Admit(s, op));
    } else {
      BeginOps(s.ops, s.born, op);
      var path := [Admit(s, op)];
      OverRunsOut(lay, path);
      assert path[0] == Admit(s, op);
    }
  }

  // ---------- what begin_op can know ----------

  /** With n blocks listed and m operations active, however it came to that, one more is safe. */
  ghost predicate AlwaysSafe(lay: Layout, n: nat, m: int) {
    forall run: seq<Sys>, i: nat, op: nat ::
      IsRun(lay, run) && i < |run| && Open(run[i], op) && |run[i].lh| == n && run[i].outstanding == m ==>
        !RunsOut(lay, Admit(run[i], op))
  }

  /** When nobody is active and no commit runs, nothing is listed. */
  ghost predicate Idle(s: Sys) {
    s.mode.Up? && !s.committing && s.ops == map[] ==> s.lh == []
  }

  lemma NextKeepsIdle(lay: Layout, s: Sys, s': Sys)
    requires Booked(lay, s) && Idle(s) && Next(lay, s, s')
    ensures Idle(s')
  {
    hide PlanOf, RecoveryPlan, Unspent, MayBegin, LogWritePanics, Absorb;
    if op :| End(lay, s, s', op) {
      EndKeepsBooked(lay, s, s', op);
    }
  }

  lemma {:induction false} RunIsIdle(lay: Layout, run: seq<Sys>, i: nat)
    requires IsRun(lay, run) && i < |run|
    ensures Idle(run[i])
  {
    hide Next, Booked;
    if i > 0 {
      RunIsIdle(lay, run, i - 1);
      RunKeepsBooked(lay, run, i - 1);
      NextKeepsIdle(lay, run[i - 1], run[i]);
    }
  }

  /** How many of the first n blocks operation k appends when each goes on until it is done. */
  function Part(n: nat, k: nat): nat {
    if n <= MAXOPBLOCKS * k then 0 else if n >= MAXOPBLOCKS * (k + 1) then MAXOPBLOCKS else n - MAXOPBLOCKS * k
  }

  function Parts(n: nat): map<nat, Op> {
    map[0 := Op(Part(n, 0), false), 1 := Op(Part(n, 1), false), 2 := Op(Part(n, 2), false)]
  }

  ghost predicate InTurn(lay: Layout, s: Sys, n: nat) {
    && s.mode.Up? && !s.committing && s.outstanding == 3 && s.ops == Parts(n)
    && s.lh == seq(n, i => TurnBlock(lay, i)) && Marked(s)
  }

  lemma {:induction false} FillInTurn(lay: Layout, n: nat) returns (run: seq<Sys>)
    requires Roomy(lay) && lay.start + lay.nlog + 1 + LOGSIZE <= lay.size && n <= LOGSIZE
    ensures |run| > 0 && FreshRun(lay, run) && InTurn(lay, run[|run| - 1], n)
  {
    if n == 0 {
      run := BeginThree(lay);
    } else {
      hide FreshRun, Next;
      run := FillInTurn(lay, n - 1);
      var t, u := TurnStep(lay, run[|run| - 1], n - 1);
      RunSnoc(lay, run, t);
      RunSnoc(lay, run + [t], u);
      run := run + [t] + [u];
    }
  }

  lemma TurnStep(lay: Layout, s: Sys, n: nat) returns (t: Sys, u: Sys)
    requires Roomy(lay) && lay.start + lay.nlog + 1 + LOGSIZE <= lay.size && n < LOGSIZE && InTurn(lay, s, n)
    ensures Next(lay, s, t) && Next(lay, t, u) && InTurn(lay, u, n + 1)
  {
    hide Next, Mark, Marked;
    var op := n / MAXOPBLOCKS;
    t := CheckOf(lay, s, op);
    MarkedStays(s, t);
    u := AppendOf(lay, t, op, TurnBlock(lay, n));
    assert u.lh == seq(n + 1, i => TurnBlock(lay, i));
  }

  lemma PartsUnspent(n: nat)
    requires n <= LOGSIZE
    ensures Unspent(Parts(n)) == LOGSIZE - n
  {
    hide Unspent;
    var ops := Parts(n);
    UnspentWithout(ops, 0);
    UnspentWithout(ops - {0}, 1);
    UnspentWithout(ops - {0} - {1}, 2);
    NothingUnspent(ops - {0} - {1} - {2});
  }

  lemma NothingUnspent(ops: map<nat, Op>)
    requires forall k :: k !in ops
    ensures Unspent(ops) == 0
  {
    assert ops == map[];
  }

  /** The operations that end first are those that have done most. */
  lemma EndFirst(lay: Layout, run: seq<Sys>, n: nat, m: nat) returns (r: seq<Sys>)
    requires n <= LOGSIZE && 1 <= m <= 3 && |run| > 0 && FreshRun(lay, run) && InTurn(lay, run[|run| - 1], n)
    ensures |r| > 0 && FreshRun(lay, r)
    ensures
      var s := r[|r| - 1];
      && s.mode.Up? && !s.committing && |s.lh| == n && s.outstanding == m
      && Unspent(s.ops) == if n + m * MAXOPBLOCKS <= LOGSIZE then m * MAXOPBLOCKS else LOGSIZE - n
  {
    hide FreshRun, Next, Unspent, Marked;
    r := run;
    PartsUnspent(n);
    if m < 3 {
      var t := EndOf(lay, r[|r| - 1], 0);
      UnspentWithout(Parts(n), 0);
      RunSnoc(lay, r, t);
      r := r + [t];
      if m < 2 {
        var u := EndOf(lay, t, 1);
        UnspentWithout(t.ops, 1);
        RunSnoc(lay, r, u);
        r := r + [u];
      }
    }
  }

  /** For every n and m begin_op may meet and refuses at: a run with these numbers in which one more
      operation runs out of room. */
  lemma RefusalIsDue(lay: Layout, n: nat, m: nat)
    requires Roomy(lay) && lay.start + lay.nlog + 1 + LOGSIZE <= lay.size
    requires n <= LOGSIZE && 1 <= m <= 3 && n + (m + 1) * MAXOPBLOCKS > LOGSIZE
    ensures !AlwaysSafe(lay, n, m)
  {
    hide Next, Unspent, Admit, RunsOut, InTurn;
    var run := FillInTurn(lay, n);
    run := EndFirst(lay, run, n, m);
    var i, op := |run| - 1, NewOp(run[|run| - 1].born);
    RunsOutExactly(lay, run, i, op);
    assert IsRun(lay, run) && Open(run[i], op);
  }

  /** A number that no operation has had. */
  ghost function NewOp(born: set<nat>): (op: nat)
    ensures op !in born
  {
    Above(born);
    var op :| op !in born;
    op
  }

  lemma {:induction false} Above(born: set<nat>)
    ensures exists op: nat :: op !in born && forall k :: k in born ==> k < op
    decreases |born|
  {
    if born == {} {
      assert 0 !in born;
    } else {
      var k :| k in born;
      Above(born - {k});
      var op: nat :| op !in born - {k} && forall j :: j in born - {k} ==> j < op;
      var top := if op > k then op else k + 1;
      assert forall j :: j in born ==> j == k || j in born - {k};
      assert top !in born && forall j :: j in born ==> j < top;
    }
  }

  lemma SafeWhenFew(lay: Layout, n: nat, m: int)
    requires Roomy(lay) && lay.start + lay.nlog + LOGSIZE <= lay.size && n + (m + 1) * MAXOPBLOCKS <= LOGSIZE
    ensures AlwaysSafe(lay, n, m)
  {
    forall run: seq<Sys>, i: nat, op: nat |
      IsRun(lay, run) && i < |run| && Open(run[i], op) && |run[i].lh| == n && run[i].outstanding == m
      ensures !RunsOut(lay, Admit(run[i], op))
    {
      hide Next, Admit, RunsOut, Unspent;
      RunKeepsBooked(lay, run, i);
      UnspentIsRoom(run[i].ops);
      RunsOutExactly(lay, run, i, op);
    }
  }

  /** Admission is sound and maximal: in every state of every run with no commit running, whatever the
      size of the log, begin_op lets an operation in exactly if with as many blocks listed and as many
      operations active as it sees one more is safe in a large enough log, however it came to that; which
      is when the blocks listed and MAXOPBLOCKS for each operation and the new one fit in LOGSIZE. */
  lemma AdmissionIsExact(lay: Layout, run: seq<Sys>, i: nat, op: nat, large: Layout)
    requires Roomy(large) && large.start + large.nlog + 1 + LOGSIZE <= large.size
    requires IsRun(lay, run) && i < |run| && Open(run[i], op)
    ensures (exists s' :: Begin(run[i], s', op)) <==> AlwaysSafe(large, |run[i].lh|, run[i].outstanding)
    ensures (exists s' :: Begin(run[i], s', op)) <==> |run[i].lh| + (|run[i].ops| + 1) * MAXOPBLOCKS <= LOGSIZE
  {
    hide IsRun, AlwaysSafe, Unspent;
    var s := run[i];
    RunKeepsBooked(lay, run, i);
    RunKeepsPaced(lay, run, i);
    RunIsIdle(lay, run, i);
    if |s.lh| + (|s.ops| + 1) * MAXOPBLOCKS <= LOGSIZE {
      assert Begin(s, Admit(s, op), op);
      SafeWhenFew(large, |s.lh|, s.outstanding);
    } else {
      UnspentIsRoom(s.ops);
      RefusalIsDue(large, |s.lh|, s.outstanding);
    }
  }

  /** begin_op does not see how much each operation has used: here it refuses although one more would
      be safe in this run. */
  lemma RefusedNeedlessly(lay: Layout) returns (run: seq<Sys>, op: nat)
    requires Roomy(lay) && lay.start + lay.nlog + 1 + LOGSIZE <= lay.size
    ensures |run| > 0 && IsRun(lay, run) && Open(run[|run| - 1], op)
    ensures var s := run[|run| - 1]; !(exists s' :: Begin(s, s', op)) && !RunsOut(lay, Admit(s, op))
  {
    hide Next, Unspent, Admit, RunsOut, AlwaysSafe, Marked;
    run := FillInTurn(lay, 1);
    PartsUnspent(1);
    var t := EndOf(lay, run[|run| - 1], 2);
    UnspentWithout(Parts(1), 2);
    RunSnoc(lay, run, t);
    run := run + [t];
    op := NewOp(t.born);
    RunsOutExactly(lay, run, |run| - 1, op);
    RunKeepsBooked(lay, run, |run| - 1);
    AdmissionIsExact(lay, run, |run| - 1, op, lay);
  }
}
