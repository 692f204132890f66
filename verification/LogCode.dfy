/** The procedures of log.c on top of the buffer cache.  The cache's `trace` records every bwrite in
    order, so the lemmas of WriteAheadLog about prefixes of a write sequence are about every crash
    point of these methods.  The methods wait for nobody: where they need a buffer, `Quiet` says that
    no other process holds one. */
module LogCode {
  import opened Params
  import opened WriteAheadLog
  import opened BufferRing
  import opened BufferState
  import opened Bio
  import opened LogSteps

  datatype EndResult = Panicked | Left | Committed | NoBuffers

  class Log {
    const lay: Layout
    var n: int                       // log.lh.n
    const block: array<int>          // log.lh.block
    var outstanding: int
    var committing: bool
    const cache: BufferCache

    ghost predicate Valid()
      reads this, block, cache, cache.buf
    {
      && cache.Valid()
      && OnDisk(lay)
      && |cache.disk| == lay.size
      && block.Length == LOGSIZE
      && 0 <= n <= LOGSIZE
      && ValidList(lay, block[..n])
      && forall b :: b in cache.pinned ==> IsHome(lay, b)
    }

    /** The state between calls: an empty log on disk, and exactly the listed blocks pinned. */
    ghost predicate Ready()
      reads this, block, cache, cache.buf
    {
      Valid() && CommitReady(lay, cache.disk, Listed(), Pinned()) && Pins(Listed(), Pinned())
    }

    ghost predicate Quiet()
      reads cache
    {
      OnlyHeld(cache.use, {})
    }

    function Listed(): seq<int>
      requires block.Length == LOGSIZE && 0 <= n <= LOGSIZE
      reads this, block
    {
      block[..n]
    }

    /** What was logged and is not at home yet. */
    ghost function Pinned(): map<int, Block>
      requires cache.Valid()
      reads this, cache, cache.buf
    {
      PinnedBlocks(cache.State())
    }

    constructor (lay: Layout, cache: BufferCache)
      requires OnDisk(lay) && cache.Valid() && |cache.disk| == lay.size && cache.pinned == {}
      ensures this.lay == lay && this.cache == cache && Valid() && n == 0 && outstanding == 0 && !committing
      ensures fresh(block)
    {
      this.lay := lay;
      this.n := 0;
      this.block := new int[LOGSIZE](i => 0);
      this.outstanding := 0;
      this.committing := false;
      this.cache := cache;
    }

    /** bwrite as log.c uses it.  The write-ahead rule is an obligation of every call: a home block is
        written only when the header on disk lists it and its slot holds the same contents. */
    method Bwrite(b: int)
      requires cache.Valid() && 0 <= b < NBUF && cache.buf[b].locked
      requires cache.buf[b].dev == ROOTDEV && 0 <= cache.buf[b].blockno < |cache.disk|
      requires IsHome(lay, cache.buf[b].blockno) ==>
                 Ahead(lay, cache.disk, WriteAheadLog.Write(cache.buf[b].blockno, cache.buf[b].data))
      modifies cache, cache.buf
      ensures cache.Valid() && |old(cache.truth)| == |old(cache.disk)|
      ensures cache.State() == Written(old(cache.State()), b)
      ensures cache.trace == old(cache.trace) + [WriteAheadLog.Write(cache.buf[b].blockno, cache.buf[b].data)]
    {
      cache.Bwrite(b);
    }

    /** memmove, bwrite and the two brelse of one turn, for the buffers of blocks x and y. */
    method MoveAndWrite(f: int, g: int, ghost tf: nat, ghost tg: nat, ghost x: int, ghost y: int)
      requires cache.Valid() && f != g && x != y && OnlyHeld(cache.use, {f, g}) && 0 <= x < |cache.disk|
      requires 0 <= y < |cache.disk|
      requires Holds(cache.State(), f, tf, x) && !cache.use[f].touched && Holds(cache.State(), g, tg, y)
      requires |cache.truth| == |cache.disk|
      requires IsHome(lay, y) ==> Ahead(lay, cache.disk, WriteAheadLog.Write(y, cache.truth[x]))
      modifies cache, cache.buf
      ensures cache.Valid() && Quiet()
      ensures Copied(old(cache.State()), cache.State(), x, y)
      ensures cache.trace == old(cache.trace) + [WriteAheadLog.Write(y, old(cache.truth)[x])]
    {
      hide Inv, Ahead;
      ghost var c := cache.State();
      InvSizes(c);
      BreadReturnsLast(c, f, tf);
      cache.Store(g, cache.buf[f].data);
      Bwrite(g);
      assert cache.State() == Written(Stored(c, g, c.buf[f].data), g);
      StillHeld(c, f, g, tf, tg);
      cache.Brelse(f, tf, {f, g});
      assert {f, g} - {f} == {g};
      cache.Brelse(g, tg, {g});
      assert {g} - {g} == {};
    }

    /** The two bread of a turn. */
    method BreadTwo(first: int, second: int) returns (b1: int, b2: int, ghost t1: nat, ghost t2: nat)
      requires cache.Valid() && Quiet() && first != second && 0 <= first < |cache.disk| && 0 <= second < |cache.disk|
      modifies cache.buf, cache`use, cache`tokens
      ensures cache.Valid()
      ensures b1 != -1 && b2 != -1 <==> |cache.pinned + {first, second}| <= NBUF
      ensures b1 != -1 && b2 != -1 ==>
                && b1 != b2 && OnlyHeld(cache.use, {b1, b2})
                && Holds(cache.State(), b1, t1, first) && Holds(cache.State(), b2, t2, second)
                && !cache.use[b1].touched && !cache.use[b2].touched
    {
      hide Inv, Kept, Holds, OnlyHeld;
      InvSizes(cache.State());
      KeptByNone(cache.State());
      TwoMore(cache.pinned, first, second);
      b2, t2 := -1, 0;
      b1, t1 := cache.Bread(first, {});
      if b1 == -1 {
        return;
      }
      assert {} + {b1} == {b1};
      ghost var c1 := cache.State();
      InvSizes(c1);
      HoldsIs(c1, b1, t1, first);
      KeptByOne(c1, b1, first);
      b2, t2 := cache.Bread(second, {b1});
      if b2 == -1 {
        return;
      }
      assert {b1} + {b2} == {b1, b2};
      InvSizes(cache.State());
      HoldsStays(c1, cache.State(), b1, t1, first);
      HoldsIs(cache.State(), b2, t2, second);
    }

    /** A turn of write_log or install_trans: bread two blocks, copy one to the other and write it. */
    method CopyTurn(first: int, second: int, toFirst: bool) returns (ok: bool)
      requires cache.Valid() && Quiet() && first != second
      requires 0 <= first < |cache.disk| == |cache.truth| && 0 <= second < |cache.disk|
      requires
        var x, y := if toFirst then second else first, if toFirst then first else second;
        IsHome(lay, y) ==> Ahead(lay, cache.disk, WriteAheadLog.Write(y, cache.truth[x]))
      modifies cache, cache.buf
      ensures cache.Valid()
      ensures ok <==> |old(cache.pinned) + {first, second}| <= NBUF
      ensures ok ==>
                var x, y := if toFirst then second else first, if toFirst then first else second;
                && Quiet() && Copied(old(cache.State()), cache.State(), x, y)
                && cache.trace == old(cache.trace) + [WriteAheadLog.Write(y, old(cache.truth)[x])]
      ensures !ok ==> cache.disk == old(cache.disk) && cache.truth == old(cache.truth)
      ensures !ok ==> cache.pinned == old(cache.pinned) && cache.trace == old(cache.trace)
    {
      hide Inv, Ahead, Holds, OnlyHeld, IsHome;
      ghost var t1, t2;
      var b1, b2;
      b1, b2, t1, t2 := BreadTwo(first, second);
      if b1 == -1 || b2 == -1 {
        return false;
      }
      if toFirst {
        assert {b1, b2} == {b2, b1};
        MoveAndWrite(b2, b1, t2, t1, second, first);
      } else {
        MoveAndWrite(b1, b2, t1, t2, first, second);
      }
      ok := true;
    }

    /** install_trans, for a list that the header on disk names. */
    method InstallTrans() returns (ok: bool)
      requires Valid() && Quiet() && GoodDisk(lay, cache.disk) && HeaderList(cache.disk[lay.start]) == Listed()
      requires cache.pinned <= Members(Listed())
      modifies cache, cache.buf
      ensures cache.Valid()
      ensures old(cache.pinned) == {} || n < NBUF ==> ok
      ensures ok ==>
                && Quiet() && InRange(old(cache.truth), Slots(lay, n)) && InRange(old(cache.truth), Listed())
                && var ws := Copies(old(cache.truth), Slots(lay, n), Listed());
                   && Wrote(old(cache.State()), cache.State(), ws) && cache.trace == old(cache.trace) + ws
                   && cache.pinned == old(cache.pinned) - Members(Listed())
    {
      hide Inv, Copying, Copied, ValidList, OnlyHeld, Ahead, GoodDisk, HeaderList, Members, IsHome, PinnedBlocks;
      hide Unpinned;
      hide HasHeader;
      ghost var c, t, lh, slots := cache.State(), cache.trace, Listed(), Slots(lay, n);
      ListInRange(lay, c, lh);
      CopyingStart(c, t, slots, lh);
      UnpinnedNone(c.pinned, lh);
      var tail := 0;
      while tail < n
        invariant 0 <= tail <= n && cache.Valid() && Quiet()
        invariant Copying(c, cache.State(), t, cache.trace, slots, lh, tail)
        invariant Unpinned(c.pinned, cache.pinned, lh, tail)
      {
        ghost var c1, t1 := cache.State(), cache.trace;
        InstallTurn(lay, c, c1, t, t1, lh, tail);
        ok := CopyTurn(lay.start + tail + 1, block[tail], false);
        if !ok {
          return;
        }
        CopyingNext(c, c1, cache.State(), t, t1, cache.trace, slots, lh, tail);
        UnpinnedNext(c.pinned, c1, cache.State(), slots[tail], lh, tail);
        tail := tail + 1;
      }
      CopyingEnd(c, cache.State(), t, cache.trace, slots, lh);
      UnpinnedAll(c.pinned, cache.pinned, lh);
      ok := true;
    }

    method ReadHead() returns (ok: bool)
      requires cache.Valid() && Quiet() && OnDisk(lay) && |cache.disk| == lay.size && block.Length == LOGSIZE
      requires lay.start !in cache.pinned && HasHeader(cache.disk[lay.start])
      modifies this`n, block, cache.buf, cache`use, cache`tokens, cache`order
      ensures cache.Valid()
      ensures ok <==> |cache.pinned| < NBUF
      ensures ok ==> Quiet() && 0 <= n <= LOGSIZE && Listed() == HeaderList(cache.disk[lay.start])
    {
      hide Inv, Kept, OnlyHeld;
      InvSizes(cache.State());
      UnpinnedIsDisk(cache.State(), lay.start);
      KeptByNone(cache.State());
      ghost var t;
      var b;
      b, t := cache.Bread(lay.start, {});
      if b == -1 {
        return false;
      }
      assert {} + {b} == {b} && {b} - {b} == {};
      var lh := cache.buf[b].data;
      assert lh == cache.disk[lay.start];
      n := HeaderN(lh);
      for i := 0 to n
        invariant n == HeaderN(lh) && cache.Valid() && Holds(cache.State(), b, t, lay.start) && OnlyHeld(cache.use, {b})
        invariant !cache.use[b].touched
        invariant block[..i] == HeaderList(lh)[..i]
      {
        block[i] := lh.word[1 + i];
      }
      cache.Brelse(b, t, {b});
      ok := true;
    }

    method WriteHead() returns (ok: bool)
      requires cache.Valid() && Quiet() && OnDisk(lay) && |cache.disk| == lay.size && block.Length == LOGSIZE
      requires lay.start !in cache.pinned && HasHeader(cache.disk[lay.start]) && 0 <= n <= LOGSIZE
      modifies cache, cache.buf
      ensures cache.Valid()
      ensures ok <==> |old(cache.pinned)| < NBUF
      ensures ok ==>
                && Quiet() && cache.pinned == old(cache.pinned)
                && var ws := [WriteAheadLog.Write(lay.start, PutHeader(old(cache.disk[lay.start]), Listed()))];
                   Wrote(old(cache.State()), cache.State(), ws) && cache.trace == old(cache.trace) + ws
      ensures !ok ==> cache.disk == old(cache.disk) && cache.trace == old(cache.trace)
    {
      hide Inv, Kept, Wrote, PutHeader, OnlyHeld, Holds;
      ghost var c := cache.State();
      InvSizes(c);
      UnpinnedIsDisk(c, lay.start);
      KeptByNone(c);
      ghost var t;
      var b;
      b, t := cache.Bread(lay.start, {});
      if b == -1 {
        return false;
      }
      assert {} + {b} == {b};
      InvSizes(cache.State());
      HoldsIs(cache.State(), b, t, lay.start);
      var words := HeadWords(cache.buf[b].data);
      PutHead(b, Block(words), t);
      HeadWritten(c, cache.State(), lay.start, Block(words));
      ok := true;
    }

    /** The end of write_head: the new header, bwrite and brelse. */
    method PutHead(b: int, head: Block, ghost t: nat)
      requires cache.Valid() && Holds(cache.State(), b, t, lay.start) && OnlyHeld(cache.use, {b})
      requires OnDisk(lay) && |cache.disk| == lay.size == |cache.truth| && lay.start !in cache.pinned
      modifies cache, cache.buf
      ensures cache.Valid() && Quiet() && cache.pinned == old(cache.pinned)
      ensures cache.disk == old(cache.disk)[lay.start := head] && cache.truth == old(cache.truth)[lay.start := head]
      ensures cache.trace == old(cache.trace) + [WriteAheadLog.Write(lay.start, head)]
    {
      hide Inv, Ahead;
      InvSizes(cache.State());
      cache.Store(b, head);
      Bwrite(b);
      cache.Brelse(b, t, {b});
      assert {b} - {b} == {};
    }

    /** The stores of write_head to the header buffer. */
    method HeadWords(hb: Block) returns (words: seq<int>)
      requires block.Length == LOGSIZE && HasHeader(hb) && 0 <= n <= LOGSIZE
      ensures Block(words) == PutHeader(hb, Listed())
    {
      words := hb.word[0 := n];
      for i := 0 to n
        invariant |words| == WORDS
        invariant words == [n] + block[..i] + hb.word[1 + i..]
      {
        words := words[1 + i := block[i]];
      }
    }

    /** At boot there are always buffers enough. */
    method RecoverFromLog()
      requires cache.Valid() && Quiet() && cache.pinned == {}
      requires GoodDisk(lay, cache.disk) && block.Length == LOGSIZE
      modifies this`n, block, cache, cache.buf
      ensures
        var ws := RecoveryWrites(lay, old(cache.disk));
        && WritesFit(old(cache.disk), ws) && cache.trace == old(cache.trace) + ws
        && cache.disk == Apply(old(cache.disk), ws)
      ensures Ready() && Quiet() && n == 0 && cache.pinned == {}
      ensures HasHeader(cache.disk[lay.start]) && HeaderN(cache.disk[lay.start]) == 0
      ensures Home(lay, cache.disk) == Durable(lay, old(cache.disk))
    {
      hide Inv, Home, Durable, Wrote, OnlyHeld, RecoveryWrites, WritesFit, Apply, Members, Ahead, PinnedBlocks;
      hide ValidList;
      hide Copies, SlotsHome, PutHeader, Slots, CommitReady, Pins, Kept;
      RoomAtBoot(cache.pinned);
      GoodList(lay, cache.disk);
      var ok := ReadHead();
      ghost var c, t, hl := cache.State(), cache.trace, Listed();
      NothingPinned(c);
      ok := InstallTrans();
      ghost var c1 := cache.State();
      InstalledAtBoot(lay, c, c1, hl);
      n := 0;
      assert Listed() == [];
      ok := WriteHead();
      RecoveredAtBoot(lay, c, c1, cache.State(), hl, t);
      NothingPinned(cache.State());
      ReadyWhenEmpty(lay, cache.disk);
    }

    /** write_log: copy the pinned contents of every listed block to its slot. */
    method WriteLog() returns (ok: bool)
      requires Valid() && Quiet() && cache.pinned == Members(Listed())
      modifies cache, cache.buf
      ensures cache.Valid()
      ensures ok <==> n == 0 || n < NBUF
      ensures ok ==>
                && Quiet() && InRange(old(cache.truth), Slots(lay, n)) && InRange(old(cache.truth), Listed())
                && var ws := Copies(old(cache.truth), Listed(), Slots(lay, n));
                   && Wrote(old(cache.State()), cache.State(), ws) && cache.trace == old(cache.trace) + ws
                   && cache.pinned == old(cache.pinned)
      ensures !ok ==> cache.disk == old(cache.disk) && cache.trace == old(cache.trace)
    {
      hide Inv, Copying, Copied, ValidList, OnlyHeld, Ahead, Members, PinnedBlocks, IsHome;
      ghost var c, t, lh, slots := cache.State(), cache.trace, Listed(), Slots(lay, n);
      ListInRange(lay, c, lh);
      CopyingStart(c, t, lh, slots);
      var tail := 0;
      while tail < n
        invariant 0 <= tail <= n && cache.Valid() && Quiet() && (tail > 0 ==> n < NBUF)
        invariant Copying(c, cache.State(), t, cache.trace, lh, slots, tail)
        invariant cache.pinned == c.pinned
      {
        ghost var c1, t1 := cache.State(), cache.trace;
        LogTurn(lay, c, c1, t, t1, lh, tail);
        ok := CopyTurn(lay.start + tail + 1, block[tail], true);
        if !ok {
          CopyingNothing(c, c1, t, t1, lh, slots);
          return;
        }
        CopyingNext(c, c1, cache.State(), t, t1, cache.trace, lh, slots, tail);
        PinnedElsewhere(lay, c1, cache.State(), lh, tail);
        tail := tail + 1;
      }
      CopyingEnd(c, cache.State(), t, cache.trace, lh, slots);
      ok := true;
    }

    /** The first half of commit, up to the write that commits. */
    method WriteAhead() returns (ok: bool)
      requires Ready() && Quiet() && n > 0
      modifies cache, cache.buf
      ensures cache.Valid() && (ok <==> n < NBUF)
      ensures ok ==>
                && Valid() && Quiet() && cache.pinned == old(cache.pinned) && Writable(lay, old(cache.truth), Listed())
                && var ws := LogPlan(lay, old(cache.truth), Listed());
                   Wrote(old(cache.State()), cache.State(), ws) && cache.trace == old(cache.trace) + ws
      ensures !ok ==> cache.disk == old(cache.disk) && cache.trace == old(cache.trace)
    {
      hide Inv, Wrote, OnlyHeld, Members, PinnedBlocks, LogPlan;
      ghost var c, lh, t := cache.State(), Listed(), cache.trace;
      ReadyMeans(lay, c, lh);
      ok := WriteLog();
      if !ok {
        return;
      }
      ghost var c1 := cache.State();
      SlotsWritten(lay, c, c1, lh);
      ok := WriteHead();
      HeadAfterSlots(lay, c, c1, cache.State(), lh, t);
    }

    /** The second half: the header on disk lists the blocks, and they go home. */
    method Install(ghost c: Cache, ghost t: seq<WriteAheadLog.Write>)
      requires Valid() && Quiet() && 0 < n < NBUF && cache.pinned == Members(Listed())
      requires Inv(c) && CommitReady(lay, c.disk, Listed(), PinnedBlocks(c)) && Writable(lay, c.truth, Listed())
      requires Wrote(c, cache.State(), LogPlan(lay, c.truth, Listed()))
      requires cache.trace == t + LogPlan(lay, c.truth, Listed())
      modifies this`n, cache, cache.buf
      ensures cache.Valid() && Quiet() && n == 0 && cache.pinned == {}
      ensures
        var ws := CommitPlan(lay, c.truth, old(Listed()));
        Wrote(c, cache.State(), ws) && cache.trace == t + ws
    {
      hide Inv, Wrote, OnlyHeld, Members, PinnedBlocks, LogPlan, CommitPlan, CommitReady, Copies, Slots;
      ghost var c2, lh := cache.State(), Listed();
      HeaderIsAhead(lay, c, c2, lh);
      var ok := InstallTrans();
      ghost var c3 := cache.State();
      AllHome(lay, c2, c3, lh);
      n := 0;
      assert Listed() == [];
      ok := WriteHead();
      CommitAssembles(lay, c, c2, c3, cache.State(), lh, t);
    }

    /** commit: its writes, in order, are those of CommitWrites, so every crash point is a prefix that
        CommitIsAtomic covers.  It fails, having written nothing, exactly when the logged blocks leave
        no buffer for a slot. */
    method Commit() returns (ok: bool)
      requires Ready() && Quiet()
      modifies this`n, cache, cache.buf
      ensures ok <==> old(n) == 0 || old(n) < NBUF
      ensures ok ==>
                var ws := CommitWrites(lay, old(cache.disk), old(Listed()), old(Pinned()));
                && WritesFit(old(cache.disk), ws) && cache.trace == old(cache.trace) + ws
                && cache.disk == Apply(old(cache.disk), ws)
      ensures ok ==> Ready() && Quiet() && n == 0 && cache.pinned == {}
      ensures ok ==> HasHeader(cache.disk[lay.start]) && HeaderN(cache.disk[lay.start]) == 0
      ensures ok ==> Home(lay, cache.disk) == Home(lay, old(cache.disk)) + old(Pinned())
      ensures !ok ==> cache.disk == old(cache.disk) && cache.trace == old(cache.trace) && n == old(n)
    {
      hide Inv, Wrote, OnlyHeld, Members, PinnedBlocks, LogPlan, CommitPlan, CommitReady, CommitWrites;
      ghost var c, lh, t := cache.State(), Listed(), cache.trace;
      ReadyMeans(lay, c, lh);
      if n > 0 {
        ok := WriteAhead();
        if !ok {
          return;
        }
        Install(c, t);
      } else {
        ok := true;
        WroteNothing(lay, c);
      }
      CommitIsDone(lay, c, cache.State(), lh);
      NothingPinned(cache.State());
      ReadyWhenEmpty(lay, cache.disk);
      assert Listed() == [];
    }

    /** One pass of begin_op's loop; a caller that is refused sleeps and tries again. */
    method BeginOp() returns (admitted: bool)
      modifies this`outstanding
      ensures admitted <==> MayBegin(n, old(outstanding), committing)
      ensures outstanding == old(outstanding) + if admitted then 1 else 0
    {
      if committing {
        admitted := false;
      } else if n + (outstanding + 1) * MAXOPBLOCKS > LOGSIZE {
        admitted := false;
      } else {
        outstanding := outstanding + 1;
        admitted := true;
      }
    }

    method EndOp() returns (r: EndResult)
      requires Ready() && (outstanding == 1 && !committing ==> Quiet())
      modifies this`outstanding, this`committing, this`n, cache, cache.buf
      ensures outstanding == old(outstanding) - 1
      ensures r.Panicked? <==> old(committing)
      ensures r.Left? <==> !old(committing) && old(outstanding) != 1
      ensures r.Committed? <==> !old(committing) && old(outstanding) == 1 && (old(n) == 0 || old(n) < NBUF)
      ensures !r.NoBuffers? ==> Ready() && committing == old(committing)
      ensures r.Committed? ==>
                && cache.trace == old(cache.trace) + CommitWrites(lay, old(cache.disk), old(Listed()), old(Pinned()))
                && Home(lay, cache.disk) == Home(lay, old(cache.disk)) + old(Pinned())
                && HasHeader(cache.disk[lay.start]) && HeaderN(cache.disk[lay.start]) == 0
                && n == 0 && cache.pinned == {}
      ensures !r.Committed? ==> cache.disk == old(cache.disk) && cache.trace == old(cache.trace) && n == old(n)
      ensures r.Left? || r.Panicked? ==> cache.State() == old(cache.State())
    {
      hide Inv, CommitReady, CommitWrites, PinnedBlocks, Home, OnlyHeld;
      outstanding := outstanding - 1;
      if committing {
        return Panicked;
      }
      if outstanding == 0 {
        committing := true;
        var ok := Commit();
        if !ok {
          return NoBuffers;
        }
        committing := false;
        r := Committed;
      } else {
        r := Left;
      }
    }

    /** log_write of a locked buffer that holds a home block. */
    method LogWrite(b: int) returns (ok: bool)
      requires Ready() && 0 <= b < NBUF && cache.buf[b].locked && cache.buf[b].valid
      requires IsHome(lay, cache.buf[b].blockno)
      modifies this`n, block, cache, cache.buf
      ensures ok <==> !LogWritePanics(lay, old(n), outstanding)
      ensures outstanding < 1 ==> !ok
      ensures Ready()
      ensures ok ==> Listed() == Absorb(old(Listed()), cache.buf[b].blockno)
      ensures ok ==> Pinned() == old(Pinned())[cache.buf[b].blockno := cache.buf[b].data]
      ensures ok ==> cache.buf[b].data == old(cache.buf[b].data)
      ensures !ok ==> Listed() == old(Listed()) && cache.State() == old(cache.State())
      ensures cache.disk == old(cache.disk) && cache.trace == old(cache.trace)
    {
      hide Inv, PinnedBlocks, Apply;
      if n >= LOGSIZE || n >= lay.nlog - 1 {
        return false;
      }
      if outstanding < 1 {
        return false;
      }
      ghost var c, lh := cache.State(), Listed();
      var bno := cache.buf[b].blockno;
      Enlist(bno);
      cache.Pin(b);
      ReadyAgain(lay, c, cache.State(), lh, bno);
      ok := true;
    }

    /** The loop of log_write: the block keeps its place in the list, or gets the next one. */
    method Enlist(b: int)
      requires block.Length == LOGSIZE && 0 <= n < LOGSIZE
      modifies this`n, block
      ensures 0 <= n <= LOGSIZE && Listed() == Absorb(old(Listed()), b)
    {
      ghost var lh := Listed();
      var i := 0;
      while i < n
        invariant 0 <= i <= n
        invariant b !in block[..i]
      {
        if block[i] == b {
          break;
        }
        i := i + 1;
      }
      block[i] := b;
      if i == n {
        n := n + 1;
        assert Listed() == lh + [b];
      } else {
        assert Listed() == lh;
      }
    }
  }
}
