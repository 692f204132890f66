/** What the procedures of log.c do to the buffer cache and the disk, turn by turn. */
module LogSteps {
  import opened Params
  import opened WriteAheadLog
  import opened BufferRing
  import opened BufferState
  import opened Bio
  import Sets

  /** These writes, in order, are what happened to the disk and to the contents bread returns. */
  ghost predicate Wrote(c: Cache, c': Cache, ws: seq<WriteAheadLog.Write>) {
    && |c.truth| == |c.disk| && WritesFit(c.disk, ws)
    && c'.disk == Apply(c.disk, ws) && c'.truth == Apply(c.truth, ws)
  }

  ghost function PinnedBlocks(c: Cache): map<int, Block>
    requires Inv(c)
  {
    map b | b in c.pinned :: c.truth[b]
  }

  /** Block x has been copied to block y, in the cache and on disk. */
  ghost predicate Copied(c: Cache, c': Cache, x: int, y: int) {
    && 0 <= x < |c.truth| && 0 <= y < |c.truth| == |c.disk|
    && c'.disk == c.disk[y := c.truth[x]] && c'.truth == c.truth[y := c.truth[x]] && c'.pinned == c.pinned - {y}
  }

  lemma StillHeld(c: Cache, f: int, g: int, tf: nat, tg: nat)
    requires |c.buf| == NBUF + 1 && |c.use| == NBUF && 0 <= f < NBUF && 0 <= g < NBUF && f != g
    requires OnlyHeld(c.use, {f, g}) && 0 <= c.buf[g].blockno < |c.disk| == |c.truth|
    ensures
      var c' := Written(Stored(c, g, c.buf[f].data), g);
      && OnlyHeld(c'.use, {f, g}) && c'.use[f] == c.use[f] && c'.buf[f] == c.buf[f]
      && c'.use[g] == c.use[g].(touched := false) && c'.buf[g].locked == c.buf[g].locked
  {
  }

  lemma KeptByNone(c: Cache)
    ensures Kept(c, {}) == c.pinned
  {
  }

  lemma KeptByOne(c: Cache, b: int, blockno: int)
    requires 0 <= b < |c.buf| && c.buf[b].blockno == blockno
    ensures Kept(c, {b}) == c.pinned + {blockno}
  {
  }

  lemma HoldsIs(c: Cache, b: int, t: nat, blockno: int)
    requires Holds(c, b, t, blockno)
    ensures 0 <= b < NBUF && c.buf[b].blockno == blockno && c.buf[b].dev == ROOTDEV && c.use[b].holders == {t}
  {
  }

  lemma HoldsStays(c: Cache, c': Cache, b: int, t: nat, blockno: int)
    requires Holds(c, b, t, blockno) && b < |c'.buf| && b < |c'.use| && c'.buf[b] == c.buf[b] && c'.use[b] == c.use[b]
    ensures Holds(c', b, t, blockno)
  {
  }

  lemma TwoMore(s: set<int>, x: int, y: int)
    ensures s + {x} + {y} == s + {x, y}
    ensures |s + {x, y}| <= NBUF ==> |s + {x}| <= NBUF
  {
    assert s + {x} + {y} == s + {x, y};
    if y !in s + {x} {
      assert |s + {x} + {y}| == |s + {x}| + 1;
    } else {
      assert s + {x} + {y} == s + {x};
    }
  }

  // ---------- turns of the loops ----------

  lemma ListInRange(lay: Layout, c: Cache, lh: seq<int>)
    requires Inv(c) && OnDisk(lay) && |c.disk| == lay.size && ValidList(lay, lh)
    ensures |c.truth| == |c.disk| && InRange(c.truth, lh) && InRange(c.truth, Slots(lay, |lh|))
  {
    assert forall i :: 0 <= i < |lh| ==> IsHome(lay, lh[i]);
  }

  /** The first k turns of a copying loop are done. */
  ghost predicate Copying(c: Cache, c': Cache, t: seq<WriteAheadLog.Write>, t': seq<WriteAheadLog.Write>,
                          from: seq<int>, to: seq<int>, k: nat)
  {
    && |from| == |to| && k <= |from| && InRange(c.truth, from) && InRange(c.truth, to)
    && Wrote(c, c', Copies(c.truth, from[..k], to[..k])) && t' == t + Copies(c.truth, from[..k], to[..k])
  }

  lemma CopyingStart(c: Cache, t: seq<WriteAheadLog.Write>, from: seq<int>, to: seq<int>)
    requires |from| == |to| && InRange(c.truth, from) && InRange(c.truth, to) && |c.truth| == |c.disk|
    ensures Copying(c, c, t, t, from, to, 0)
  {
    assert from[..0] == [] && to[..0] == [];
  }

  lemma CopyingNothing(c: Cache, c': Cache, t: seq<WriteAheadLog.Write>, t': seq<WriteAheadLog.Write>,
                       from: seq<int>, to: seq<int>)
    requires Copying(c, c', t, t', from, to, 0)
    ensures c'.disk == c.disk && t' == t
  {
    assert from[..0] == [] && to[..0] == [];
  }

  lemma CopyingNext(c: Cache, c1: Cache, c2: Cache, t: seq<WriteAheadLog.Write>, t1: seq<WriteAheadLog.Write>,
                    t2: seq<WriteAheadLog.Write>, from: seq<int>, to: seq<int>, k: nat)
    requires Copying(c, c1, t, t1, from, to, k) && k < |from| && Copied(c1, c2, from[k], to[k])
    requires t2 == t1 + [WriteAheadLog.Write(to[k], c1.truth[from[k]])]
    ensures Copying(c, c2, t, t2, from, to, k + 1)
  {
    hide Copies, Apply;
    var ws := Copies(c.truth, from[..k], to[..k]);
    CopiesNext(c.truth, from, to, k);
    ApplySnoc(c.disk, ws, WriteAheadLog.Write(to[k], c1.truth[from[k]]));
    ApplySnoc(c.truth, ws, WriteAheadLog.Write(to[k], c1.truth[from[k]]));
  }

  lemma CopyingEnd(c: Cache, c': Cache, t: seq<WriteAheadLog.Write>, t': seq<WriteAheadLog.Write>,
                   from: seq<int>, to: seq<int>)
    requires Copying(c, c', t, t', from, to, |from|)
    ensures |from| == |to| && InRange(c.truth, from) && InRange(c.truth, to)
    ensures Wrote(c, c', Copies(c.truth, from, to)) && t' == t + Copies(c.truth, from, to)
  {
    hide Copies, Apply;
    assert from[..|from|] == from && to[..|to|] == to;
  }

  ghost function Members(lh: seq<int>): set<int> {
    if lh == [] then {} else Members(lh[..|lh| - 1]) + {lh[|lh| - 1]}
  }

  lemma {:induction false} MembersAre(lh: seq<int>, b: int)
    ensures b in Members(lh) <==> b in lh
  {
    if lh != [] {
      MembersAre(lh[..|lh| - 1], b);
    }
  }

  /** The first k listed blocks are not pinned any more. */
  ghost predicate Unpinned(before: set<int>, now: set<int>, lh: seq<int>, k: nat)
    requires k <= |lh|
  {
    now == before - Members(lh[..k])
  }

  lemma UnpinnedNone(before: set<int>, lh: seq<int>)
    ensures Unpinned(before, before, lh, 0)
  {
  }

  lemma UnpinnedNext(before: set<int>, c: Cache, c': Cache, x: int, lh: seq<int>, k: nat)
    requires k < |lh| && Unpinned(before, c.pinned, lh, k) && Copied(c, c', x, lh[k])
    ensures Unpinned(before, c'.pinned, lh, k + 1)
  {
    assert lh[..k + 1][..k] == lh[..k];
    assert Members(lh[..k + 1]) == Members(lh[..k]) + {lh[k]};
  }

  lemma UnpinnedAll(before: set<int>, now: set<int>, lh: seq<int>)
    requires Unpinned(before, now, lh, |lh|)
    ensures now == before - Members(lh)
  {
    assert lh[..|lh|] == lh;
  }

  lemma {:induction false} MembersCount(lh: seq<int>)
    requires Distinct(lh)
    ensures |Members(lh)| == |lh|
  {
    if lh != [] {
      var n := |lh| - 1;
      MembersCount(lh[..n]);
      MembersAre(lh[..n], lh[n]);
    }
  }

  /** A turn of write_log needs one buffer besides those pinned, and writes no home block. */
  lemma LogTurn(lay: Layout, c: Cache, c1: Cache, t: seq<WriteAheadLog.Write>, t1: seq<WriteAheadLog.Write>,
                lh: seq<int>, k: nat)
    requires OnDisk(lay) && |c.disk| == lay.size && ValidList(lay, lh) && k < |lh|
    requires c1.pinned == Members(lh) && Copying(c, c1, t, t1, lh, Slots(lay, |lh|), k)
    ensures !IsHome(lay, lay.start + k + 1) && lh[k] != lay.start + k + 1
    ensures 0 <= lay.start + k + 1 < |c1.disk| == |c1.truth| && 0 <= lh[k] < |c1.disk|
    ensures |c1.pinned + {lay.start + k + 1, lh[k]}| == |lh| + 1
  {
    hide Copies, Apply, Members;
    assert IsHome(lay, lh[k]);
    var slot := lay.start + k + 1;
    assert forall i :: 0 <= i < |lh| ==> IsHome(lay, lh[i]) && lh[i] != slot;
    MembersCount(lh);
    MembersAre(lh, lh[k]);
    MembersAre(lh, slot);
    assert c1.pinned + {slot, lh[k]} == c1.pinned + {slot};
  }

  lemma PinnedElsewhere(lay: Layout, c: Cache, c': Cache, lh: seq<int>, k: nat)
    requires ValidList(lay, lh) && k < |lh| && c.pinned == Members(lh) && Copied(c, c', lh[k], lay.start + k + 1)
    ensures c'.pinned == c.pinned
  {
    hide Members;
    assert forall i :: 0 <= i < |lh| ==> IsHome(lay, lh[i]);
    MembersAre(lh, lay.start + k + 1);
  }

  /** A turn of install_trans obeys the write-ahead rule, and needs one buffer besides those of the
      listed blocks. */
  lemma InstallTurn(lay: Layout, c: Cache, c1: Cache, t: seq<WriteAheadLog.Write>, t1: seq<WriteAheadLog.Write>,
                    lh: seq<int>, k: nat)
    requires Inv(c) && GoodDisk(lay, c.disk) && HeaderList(c.disk[lay.start]) == lh && k < |lh|
    requires c.pinned <= Members(lh) && Unpinned(c.pinned, c1.pinned, lh, k)
    requires Copying(c, c1, t, t1, Slots(lay, |lh|), lh, k)
    ensures lh[k] != lay.start + k + 1
    ensures 0 <= lay.start + k + 1 < |c1.disk| == |c1.truth| && 0 <= lh[k] < |c1.disk|
    ensures Ahead(lay, c1.disk, WriteAheadLog.Write(lh[k], c1.truth[lay.start + k + 1]))
    ensures c.pinned == {} || |lh| < NBUF ==> |c1.pinned + {lay.start + k + 1, lh[k]}| <= NBUF
  {
    hide Inv, Copies, Apply, GoodDisk, Ahead, HeaderList, Members;
    GoodList(lay, c.disk);
    InvSizes(c);
    InstallAhead(lay, c, c1, lh, k);
    InstallRoom(c, c1, lh, k, lay.start + k + 1);
  }

  lemma GoodList(lay: Layout, d: Disk)
    requires GoodDisk(lay, d)
    ensures |d| == lay.size && OnDisk(lay) && HasHeader(d[lay.start]) && ValidList(lay, HeaderList(d[lay.start]))
    ensures var lh := HeaderList(d[lay.start]); forall i :: 0 <= i < |lh| ==> IsHome(lay, lh[i])
  {
  }

  lemma InstallRoom(c: Cache, c1: Cache, lh: seq<int>, k: nat, slot: int)
    requires Distinct(lh) && k < |lh| && c1.pinned <= c.pinned <= Members(lh)
    ensures c.pinned == {} || |lh| < NBUF ==> |c1.pinned + {slot, lh[k]}| <= NBUF
  {
    hide Members;
    if c.pinned == {} {
      assert c1.pinned + {slot, lh[k]} == {slot, lh[k]};
      assert |{slot, lh[k]}| <= 2;
    } else {
      MembersCount(lh);
      MembersAre(lh, lh[k]);
      Sets.Fewer(c1.pinned + {slot, lh[k]}, Members(lh) + {slot});
    }
  }

  lemma InstallAhead(lay: Layout, c: Cache, c1: Cache, lh: seq<int>, k: nat)
    requires Inv(c) && GoodDisk(lay, c.disk) && HeaderList(c.disk[lay.start]) == lh && k < |lh|
    requires c.pinned <= Members(lh)
    requires |c.truth| == |c.disk| && InRange(c.truth, lh) && InRange(c.truth, Slots(lay, |lh|))
    requires Wrote(c, c1, Copies(c.truth, Slots(lay, |lh|)[..k], lh[..k]))
    ensures |c1.disk| == |c1.truth| == |c.disk| && lay.start + k + 1 < |c1.truth|
    ensures Ahead(lay, c1.disk, WriteAheadLog.Write(lh[k], c1.truth[lay.start + k + 1]))
  {
    hide Inv, Copies, Apply, HeaderList, Members;
    var slot, ws := lay.start + k + 1, Copies(c.truth, Slots(lay, |lh|)[..k], lh[..k]);
    GoodList(lay, c.disk);
    assert forall i :: 0 <= i < |ws| ==> ws[i].bno == lh[i];
    MembersAre(lh, slot);
    UnpinnedIsDisk(c, slot);
    ApplyElsewhere(c.disk, ws, lay.start);
    ApplyElsewhere(c.disk, ws, slot);
    ApplyElsewhere(c.truth, ws, slot);
    PositionUnique(lh, k);
  }

  lemma UnpinnedIsDisk(c: Cache, b: int)
    requires Inv(c) && 0 <= b < |c.disk| && b !in c.pinned
    ensures |c.truth| == |c.disk| && c.truth[b] == c.disk[b]
  {
  }

  lemma NothingPinned(c: Cache)
    requires Inv(c) && c.pinned == {}
    ensures c.truth == c.disk && PinnedBlocks(c) == map[]
  {
  }

  lemma HeadWritten(c: Cache, c': Cache, b: int, data: Block)
    requires 0 <= b < |c.disk| == |c.truth|
    requires c'.disk == c.disk[b := data] && c'.truth == c.truth[b := data]
    ensures Wrote(c, c', [WriteAheadLog.Write(b, data)])
  {
    var ws := [WriteAheadLog.Write(b, data)];
    assert ws[..0] == [];
  }

  // ---------- recovery ----------

  lemma RoomAtBoot(pinned: set<int>)
    requires pinned == {}
    ensures |pinned| < NBUF && forall lh :: pinned - Members(lh) == {}
  {
  }

  lemma ReadyWhenEmpty(lay: Layout, d: Disk)
    requires GoodDisk(lay, d) && HeaderN(d[lay.start]) == 0
    ensures OnDisk(lay) && |d| == lay.size && ValidList(lay, []) && CommitReady(lay, d, [], map[]) && Pins([], map[])
  {
  }

  lemma InstalledAtBoot(lay: Layout, c: Cache, c1: Cache, hl: seq<int>)
    requires GoodDisk(lay, c.disk) && hl == HeaderList(c.disk[lay.start]) && c.truth == c.disk
    requires InRange(c.truth, Slots(lay, |hl|)) && InRange(c.truth, hl)
    requires Wrote(c, c1, Copies(c.truth, Slots(lay, |hl|), hl))
    ensures |c1.disk| == lay.size && c1.disk[lay.start] == c.disk[lay.start]
    ensures Copies(c.truth, Slots(lay, |hl|), hl) == SlotsHome(lay, c.disk, hl)
  {
    hide Copies, Apply, Apart;
    var slots := Slots(lay, |hl|);
    GoodList(lay, c.disk);
    SlotsApart(lay, hl);
    ApplyElsewhere(c.disk, Copies(c.truth, slots, hl), lay.start);
    forall i | 0 <= i < |hl| ensures Copies(c.truth, slots, hl)[i] == SlotsHome(lay, c.disk, hl)[i] {
      CopiesApart(c.truth, slots, hl, i);
    }
  }

  lemma RecoveredAtBoot(lay: Layout, c: Cache, c1: Cache, c2: Cache, hl: seq<int>, t: seq<WriteAheadLog.Write>)
    requires GoodDisk(lay, c.disk) && hl == HeaderList(c.disk[lay.start])
    requires InRange(c.truth, Slots(lay, |hl|)) && InRange(c.truth, hl)
    requires Copies(c.truth, Slots(lay, |hl|), hl) == SlotsHome(lay, c.disk, hl)
    requires Wrote(c, c1, SlotsHome(lay, c.disk, hl))
    requires Wrote(c1, c2, [WriteAheadLog.Write(lay.start, PutHeader(c.disk[lay.start], []))])
    ensures
      var ws := RecoveryWrites(lay, c.disk);
      && WritesFit(c.disk, ws) && c2.disk == Apply(c.disk, ws)
      && t + SlotsHome(lay, c.disk, hl) + [WriteAheadLog.Write(lay.start, PutHeader(c.disk[lay.start], []))] == t + ws
      && GoodDisk(lay, c2.disk) && HeaderN(c2.disk[lay.start]) == 0 && Home(lay, c2.disk) == Durable(lay, c.disk)
  {
    hide SlotsHome, Copies, Home, Durable;
    RecoveryEnds(lay, c.disk);
    ApplyAppend(c.disk, SlotsHome(lay, c.disk, hl), [WriteAheadLog.Write(lay.start, PutHeader(c.disk[lay.start], []))]);
  }

  // ---------- commit ----------

  lemma ReadyMeans(lay: Layout, c: Cache, lh: seq<int>)
    requires Inv(c) && CommitReady(lay, c.disk, lh, PinnedBlocks(c)) && Pins(lh, PinnedBlocks(c))
    ensures c.pinned == Members(lh) && c.truth == Seen(c.disk, PinnedBlocks(c)) && |lh| == |c.pinned|
    ensures lay.start !in c.pinned && Writable(lay, c.truth, lh)
  {
    hide Ring, Full, Unique, AllHeld, AllData, PinnedIn;
    forall b ensures b in c.pinned <==> b in Members(lh) {
      MembersAre(lh, b);
      assert b in c.pinned <==> b in PinnedBlocks(c);
    }
    Sets.Same(c.pinned, Members(lh));
    MembersCount(lh);
    assert lay.start !in PinnedBlocks(c);
    UnpinnedIsDisk(c, lay.start);
    forall b | 0 <= b < |c.disk| ensures c.truth[b] == Seen(c.disk, PinnedBlocks(c))[b] {
      assert b in c.pinned <==> b in PinnedBlocks(c);
    }
  }

  lemma SlotsWritten(lay: Layout, c: Cache, c1: Cache, lh: seq<int>)
    requires Writable(lay, c.truth, lh) && InRange(c.truth, lh) && InRange(c.truth, Slots(lay, |lh|))
    requires Wrote(c, c1, Copies(c.truth, lh, Slots(lay, |lh|)))
    ensures |c1.disk| == |c.disk| == lay.size && c1.disk[lay.start] == c.disk[lay.start]
  {
    hide Copies, Apply;
    ApplyElsewhere(c.disk, Copies(c.truth, lh, Slots(lay, |lh|)), lay.start);
  }

  lemma HeadAfterSlots(lay: Layout, c: Cache, c1: Cache, c2: Cache, lh: seq<int>, t: seq<WriteAheadLog.Write>)
    requires Writable(lay, c.truth, lh) && InRange(c.truth, lh) && InRange(c.truth, Slots(lay, |lh|))
    requires |c.disk| == |c.truth| && c.disk[lay.start] == c.truth[lay.start]
    requires Wrote(c, c1, Copies(c.truth, lh, Slots(lay, |lh|)))
    requires Wrote(c1, c2, [WriteAheadLog.Write(lay.start, PutHeader(c.disk[lay.start], lh))])
    ensures Wrote(c, c2, LogPlan(lay, c.truth, lh)) && |c2.disk| == |c.disk|
    ensures t + Copies(c.truth, lh, Slots(lay, |lh|))
              + [WriteAheadLog.Write(lay.start, PutHeader(c.disk[lay.start], lh))]
         == t + LogPlan(lay, c.truth, lh)
  {
    hide Copies, Apply, PutHeader;
    var ws := Copies(c.truth, lh, Slots(lay, |lh|));
    var w := WriteAheadLog.Write(lay.start, PutHeader(c.disk[lay.start], lh));
    WroteMore(c, c1, c2, ws, [w]);
    Regroup(t, ws, [w], []);
  }

  lemma WroteMore(c: Cache, c1: Cache, c2: Cache, a: seq<WriteAheadLog.Write>, b: seq<WriteAheadLog.Write>)
    requires Wrote(c, c1, a) && Wrote(c1, c2, b)
    ensures Wrote(c, c2, a + b)
  {
    hide Apply;
    ApplyAppend(c.disk, a, b);
    ApplyAppend(c.truth, a, b);
  }

  lemma HeaderIsAhead(lay: Layout, c: Cache, c2: Cache, lh: seq<int>)
    requires Writable(lay, c.truth, lh) && ValidList(lay, lh) && Wrote(c, c2, LogPlan(lay, c.truth, lh))
    ensures |c.disk| == |c2.disk| == lay.size
    ensures GoodDisk(lay, c2.disk) && HeaderList(c2.disk[lay.start]) == lh
    ensures c2.disk[lay.start] == PutHeader(c.truth[lay.start], lh)
    ensures c2.truth == Apply(c.truth, LogPlan(lay, c.truth, lh))
  {
    hide Copies, Apply, PutHeader;
    var ws := Copies(c.truth, lh, Slots(lay, |lh|));
    var w := WriteAheadLog.Write(lay.start, PutHeader(c.truth[lay.start], lh));
    ApplySnoc(c.disk, ws, w);
  }

  lemma AllHome(lay: Layout, c2: Cache, c3: Cache, lh: seq<int>)
    requires OnDisk(lay) && |c2.disk| == |c2.truth| == lay.size && ValidList(lay, lh)
    requires InRange(c2.truth, Slots(lay, |lh|)) && InRange(c2.truth, lh)
    requires Wrote(c2, c3, Copies(c2.truth, Slots(lay, |lh|), lh))
    ensures |c3.disk| == lay.size && c3.disk[lay.start] == c2.disk[lay.start]
  {
    hide Copies, Apply;
    assert forall i :: 0 <= i < |lh| ==> IsHome(lay, lh[i]);
    ApplyElsewhere(c2.disk, Copies(c2.truth, Slots(lay, |lh|), lh), lay.start);
  }

  lemma CommitAssembles(lay: Layout, c: Cache, c2: Cache, c3: Cache, c4: Cache, lh: seq<int>,
                        t: seq<WriteAheadLog.Write>)
    requires Writable(lay, c.truth, lh) && lh != [] && Wrote(c, c2, LogPlan(lay, c.truth, lh))
    requires InRange(c2.truth, Slots(lay, |lh|)) && InRange(c2.truth, lh)
    requires c2.truth == Apply(c.truth, LogPlan(lay, c.truth, lh))
    requires Wrote(c2, c3, Copies(c2.truth, Slots(lay, |lh|), lh))
    requires Wrote(c3, c4, [WriteAheadLog.Write(lay.start, PutHeader(PutHeader(c.truth[lay.start], lh), []))])
    ensures Wrote(c, c4, CommitPlan(lay, c.truth, lh))
    ensures t + LogPlan(lay, c.truth, lh) + Copies(c2.truth, Slots(lay, |lh|), lh)
              + [WriteAheadLog.Write(lay.start, PutHeader(PutHeader(c.truth[lay.start], lh), []))]
         == t + CommitPlan(lay, c.truth, lh)
  {
    hide Copies, Apply, LogPlan, PutHeader, Wrote, Slots;
    var a, b := LogPlan(lay, c.truth, lh), Copies(c2.truth, Slots(lay, |lh|), lh);
    var e := [WriteAheadLog.Write(lay.start, PutHeader(PutHeader(c.truth[lay.start], lh), []))];
    WroteMore(c, c2, c3, a, b);
    WroteMore(c, c3, c4, a + b, e);
    assert CommitPlan(lay, c.truth, lh) == a + b + e;
    Regroup(t, a, b, e);
  }

  lemma Regroup(t: seq<WriteAheadLog.Write>, a: seq<WriteAheadLog.Write>, b: seq<WriteAheadLog.Write>,
                e: seq<WriteAheadLog.Write>)
    ensures t + a + b + e == t + (a + b + e) && t + a + b == t + (a + b)
  {
  }

  lemma WroteNothing(lay: Layout, c: Cache)
    requires Inv(c) && Writable(lay, c.truth, [])
    ensures Wrote(c, c, CommitPlan(lay, c.truth, [])) && CommitPlan(lay, c.truth, []) == [] && Members([]) == {}
  {
  }

  lemma CommitIsDone(lay: Layout, c: Cache, c': Cache, lh: seq<int>)
    requires Inv(c) && CommitReady(lay, c.disk, lh, PinnedBlocks(c)) && Pins(lh, PinnedBlocks(c))
    requires Writable(lay, c.truth, lh) && c.truth == Seen(c.disk, PinnedBlocks(c))
    requires Wrote(c, c', CommitPlan(lay, c.truth, lh))
    ensures CommitPlan(lay, c.truth, lh) == CommitWrites(lay, c.disk, lh, PinnedBlocks(c))
    ensures
      var ws := CommitWrites(lay, c.disk, lh, PinnedBlocks(c));
      && WritesFit(c.disk, ws) && c'.disk == Apply(c.disk, ws)
      && GoodDisk(lay, c'.disk) && HeaderN(c'.disk[lay.start]) == 0
      && Home(lay, c'.disk) == Home(lay, c.disk) + PinnedBlocks(c)
  {
    hide Inv, PinnedBlocks, CommitPlan, CommitWrites, Apply, Home, CommitReady, Pins, Writable, GoodDisk;
    CommitPlanIs(lay, c.disk, lh, PinnedBlocks(c));
    CommitEnds(lay, c.disk, lh, PinnedBlocks(c));
  }

  lemma ReadyAgain(lay: Layout, c: Cache, c': Cache, lh: seq<int>, b: int)
    requires Inv(c) && Inv(c') && CommitReady(lay, c.disk, lh, PinnedBlocks(c)) && Pins(lh, PinnedBlocks(c))
    requires IsHome(lay, b) && |lh| < LOGSIZE && |lh| < lay.nlog - 1 && c'.disk == c.disk
    requires 0 <= b < |c.truth| && c'.pinned == c.pinned + {b} && c'.truth == c.truth[b := c'.truth[b]]
    ensures CommitReady(lay, c'.disk, Absorb(lh, b), PinnedBlocks(c')) && Pins(Absorb(lh, b), PinnedBlocks(c'))
    ensures PinnedBlocks(c') == PinnedBlocks(c)[b := c'.truth[b]]
  {
    hide Inv, GoodDisk, PinnedBlocks;
    PinnedMore(c, c', b);
    assert forall i :: 0 <= i < |lh| ==> lh[i] in PinnedBlocks(c);
    assert ValidList(lay, Absorb(lh, b));
  }

  lemma PinnedMore(c: Cache, c': Cache, b: int)
    requires Inv(c) && Inv(c') && 0 <= b < |c.truth|
    requires c'.pinned == c.pinned + {b} && c'.truth == c.truth[b := c'.truth[b]]
    ensures PinnedBlocks(c') == PinnedBlocks(c)[b := c'.truth[b]]
  {
    hide Ring, Full, Unique, AllHeld, AllData, PinnedIn;
    var m := PinnedBlocks(c)[b := c'.truth[b]];
    forall x ensures x in PinnedBlocks(c') <==> x in m {
      assert x in PinnedBlocks(c') <==> x in c'.pinned;
    }
    forall x | x in m ensures PinnedBlocks(c')[x] == m[x] {
      assert x in c'.pinned;
    }
  }
}
