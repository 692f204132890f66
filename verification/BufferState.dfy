/** What the buffer cache keeps: at most one buffer per block, and contents that follow what was
    last logged or written.  Each function below is one atomic step of bio.c or log_write. */
module BufferState {
  import opened Params
  import opened WriteAheadLog
  import opened BufferRing

  /** Who has a buffer: one token for each bget not yet released, the token that holds the sleep
      lock (-1 for none), and whether the data was changed without having been logged or written. */
  datatype Use = Use(holders: set<nat>, owner: int, touched: bool)

  /** `tokens` says which block each bget asked for, `truth` is what was last logged or written, and
      `pinned` are the blocks logged and not written home since. */
  datatype Cache = Cache(
    buf: seq<Buf>, order: seq<int>, use: seq<Use>, tokens: map<nat, (int, int)>,
    disk: Disk, truth: Disk, pinned: set<int>)

  /** In use, or holding a block that is not installed yet. */
  predicate Busy(b: Buf) {
    !(b.refcnt == 0 && !b.dirty)
  }

  predicate Caches(b: Buf, dev: int, blockno: int) {
    b.dev == dev && b.blockno == blockno
  }

  /** No block of a real device is in two buffers. */
  ghost predicate Unique(buf: seq<Buf>) {
    |buf| == NBUF + 1 &&
    forall i, j :: 0 <= i < j < NBUF && buf[i].dev != 0 ==> !Caches(buf[j], buf[i].dev, buf[i].blockno)
  }

  ghost predicate HeldOk(b: Buf, u: Use, tokens: map<nat, (int, int)>) {
    && b.refcnt == |u.holders|
    && (b.locked <==> u.owner >= 0)
    && (b.locked ==> u.owner in u.holders)
    && (forall t :: t in u.holders ==> t in tokens && tokens[t] == (b.dev, b.blockno))
  }

  ghost predicate DataOk(b: Buf, u: Use, truth: Disk, pinned: set<int>) {
    && (b.valid ==> b.dev == ROOTDEV && 0 <= b.blockno < |truth| && (!u.touched ==> b.data == truth[b.blockno]))
    && (b.dirty ==> b.valid && b.blockno in pinned)
  }

  ghost predicate AllHeld(c: Cache) {
    |c.buf| == NBUF + 1 && |c.use| == NBUF && forall i :: 0 <= i < NBUF ==> HeldOk(c.buf[i], c.use[i], c.tokens)
  }

  ghost predicate AllData(c: Cache) {
    |c.buf| == NBUF + 1 && |c.use| == NBUF && forall i :: 0 <= i < NBUF ==>
      DataOk(c.buf[i], c.use[i], c.truth, c.pinned)
  }

  ghost predicate PinnedIn(buf: seq<Buf>, b: int) {
    |buf| == NBUF + 1 && exists i :: 0 <= i < NBUF && buf[i].dirty && Caches(buf[i], ROOTDEV, b)
  }

  ghost predicate DiskOk(c: Cache) {
    && |c.truth| == |c.disk|
    && (forall b :: b in c.pinned ==> 0 <= b < |c.disk| && PinnedIn(c.buf, b))
    && (forall b :: 0 <= b < |c.disk| && b !in c.pinned ==> c.truth[b] == c.disk[b])
  }

  ghost predicate Inv(c: Cache) {
    Ring(c.buf, c.order) && Full(c.order) && Unique(c.buf) && AllHeld(c) && AllData(c) && DiskOk(c)
  }

  // ---------- what it means ----------

  /** A valid buffer that is not dirty, and that nobody has changed, holds what is on disk. */
  lemma CleanIsDisk(c: Cache, i: nat)
    requires Inv(c) && i < NBUF && c.buf[i].valid && !c.buf[i].dirty && !c.use[i].touched
    ensures 0 <= c.buf[i].blockno < |c.disk| && c.buf[i].data == c.disk[c.buf[i].blockno]
  {
  }

  /** Whoever holds the lock of a valid buffer and has not changed it holds the block asked for,
      with what was last logged or written to it. */
  lemma BreadReturnsLast(c: Cache, i: nat, t: nat)
    requires Inv(c) && i < NBUF && c.use[i].owner == t && c.buf[i].valid && !c.use[i].touched
    ensures t in c.tokens && c.tokens[t] == (ROOTDEV, c.buf[i].blockno)
    ensures 0 <= c.buf[i].blockno < |c.truth| && c.buf[i].data == c.truth[c.buf[i].blockno]
  {
  }

  /** A block that was logged is in a dirty buffer, with what was last logged unless somebody has
      changed it since. */
  lemma PinnedStays(c: Cache, b: int)
    requires Inv(c) && b in c.pinned
    ensures exists i :: 0 <= i < NBUF && c.buf[i].dirty && Caches(c.buf[i], ROOTDEV, b)
                        && (c.use[i].touched || c.buf[i].data == c.truth[b])
  {
  }

  // ---------- steps ----------

  /** bget on a cached block. */
  ghost function Shared(c: Cache, i: nat, t: nat): Cache
    requires i < |c.buf| && i < |c.use|
  {
    c.(buf := c.buf[i := c.buf[i].(refcnt := c.buf[i].refcnt + 1)],
       use := c.use[i := c.use[i].(holders := c.use[i].holders + {t})],
       tokens := c.tokens[t := (c.buf[i].dev, c.buf[i].blockno)])
  }

  /** bget on a block that is not cached: buffer i is taken over. */
  ghost function Recycled(c: Cache, i: nat, t: nat, dev: int, blockno: int): Cache
    requires i < |c.buf| && i < |c.use|
  {
    c.(buf := c.buf[i := c.buf[i].(dev := dev, blockno := blockno, valid := false, dirty := false, refcnt := 1)],
       use := c.use[i := c.use[i].(holders := {t}, touched := false)],
       tokens := c.tokens[t := (dev, blockno)])
  }

  ghost function Locked(c: Cache, i: nat, t: nat): Cache
    requires i < |c.buf| && i < |c.use|
  {
    c.(buf := c.buf[i := c.buf[i].(locked := true)], use := c.use[i := c.use[i].(owner := t)])
  }

  ghost function Unlocked(c: Cache, i: nat): Cache
    requires i < |c.buf| && i < |c.use|
  {
    c.(buf := c.buf[i := c.buf[i].(locked := false)], use := c.use[i := c.use[i].(owner := -1)])
  }

  ghost function Filled(c: Cache, i: nat): Cache
    requires i < |c.buf| && i < |c.use| && 0 <= c.buf[i].blockno < |c.disk|
  {
    c.(buf := c.buf[i := c.buf[i].(valid := true, data := c.disk[c.buf[i].blockno])],
       use := c.use[i := c.use[i].(touched := false)])
  }

  ghost function Stored(c: Cache, i: nat, data: Block): Cache
    requires i < |c.buf| && i < |c.use|
  {
    c.(buf := c.buf[i := c.buf[i].(data := data)], use := c.use[i := c.use[i].(touched := true)])
  }

  /** log_write on buffer i. */
  ghost function Logged(c: Cache, i: nat): Cache
    requires i < |c.buf| && i < |c.use| && 0 <= c.buf[i].blockno < |c.disk| == |c.truth|
  {
    var b := c.buf[i].blockno;
    c.(buf := c.buf[i := c.buf[i].(dirty := true)], use := c.use[i := c.use[i].(touched := false)],
       truth := c.truth[b := c.buf[i].data], pinned := c.pinned + {b})
  }

  /** bwrite on buffer i. */
  ghost function Written(c: Cache, i: nat): Cache
    requires i < |c.buf| && i < |c.use| && 0 <= c.buf[i].blockno < |c.disk| == |c.truth|
  {
    var b := c.buf[i].blockno;
    c.(buf := c.buf[i := c.buf[i].(dirty := false, valid := true)], use := c.use[i := c.use[i].(touched := false)],
       disk := c.disk[b := c.buf[i].data], truth := c.truth[b := c.buf[i].data], pinned := c.pinned - {b})
  }

  /** The end of brelse: one token less, and to the front of the ring with the last one. */
  ghost function Dropped(c: Cache, i: nat, t: nat): Cache
    requires i < |c.buf| && i < |c.use|
  {
    c.(buf := c.buf[i := c.buf[i].(refcnt := c.buf[i].refcnt - 1)],
       use := c.use[i := c.use[i].(holders := c.use[i].holders - {t})])
  }

  /** The links of the ring do not depend on anything else in the buffers. */
  lemma RingStays(buf: seq<Buf>, order: seq<int>, i: nat, b: Buf)
    requires Ring(buf, order) && i < NBUF && b.next == buf[i].next && b.prev == buf[i].prev
    ensures Ring(buf[i := b], order)
  {
    var buf' := buf[i := b];
    forall k | 0 <= k <= |order| ensures Linked(buf', order, k) {
      assert Linked(buf, order, k);
    }
  }

  /** Nor does anything else depend on the links. */
  ghost predicate SameButLinks(buf: seq<Buf>, buf': seq<Buf>) {
    |buf'| == |buf| && forall i :: 0 <= i < |buf| ==> buf'[i] == buf[i].(next := buf'[i].next, prev := buf'[i].prev)
  }

  lemma UniqueStays(buf: seq<Buf>, i: nat, b: Buf)
    requires Unique(buf) && i < NBUF && b.dev == buf[i].dev && b.blockno == buf[i].blockno
    ensures Unique(buf[i := b])
  {
  }

  lemma PinnedInStays(buf: seq<Buf>, i: nat, b: Buf, n: int)
    requires PinnedIn(buf, n) && i < NBUF
    requires buf[i].dirty && Caches(buf[i], ROOTDEV, n) ==> b.dirty && Caches(b, ROOTDEV, n)
    ensures PinnedIn(buf[i := b], n)
  {
    var j :| 0 <= j < NBUF && buf[j].dirty && Caches(buf[j], ROOTDEV, n);
    assert buf[i := b][j].dirty && Caches(buf[i := b][j], ROOTDEV, n);
  }

  /** A step on one buffer that keeps its block, its links and its dirty flag. */
  lemma OneBuffer(c: Cache, i: nat, b: Buf, u: Use, tokens: map<nat, (int, int)>)
    requires Inv(c) && i < NBUF
    requires b.next == c.buf[i].next && b.prev == c.buf[i].prev && b.dev == c.buf[i].dev
    requires b.blockno == c.buf[i].blockno
    requires b.dirty == c.buf[i].dirty
    requires HeldOk(b, u, tokens) && DataOk(b, u, c.truth, c.pinned)
    requires forall t :: t in c.tokens ==> t in tokens && tokens[t] == c.tokens[t]
    ensures Inv(c.(buf := c.buf[i := b], use := c.use[i := u], tokens := tokens))
  {
    hide Ring, Full, Unique, DataOk, PinnedIn;
    var c' := c.(buf := c.buf[i := b], use := c.use[i := u], tokens := tokens);
    RingStays(c.buf, c.order, i, b);
    UniqueStays(c.buf, i, b);
    forall j | 0 <= j < NBUF
      ensures HeldOk(c'.buf[j], c'.use[j], tokens) && DataOk(c'.buf[j], c'.use[j], c.truth, c.pinned)
    {
      assert HeldOk(c.buf[j], c.use[j], c.tokens) && DataOk(c.buf[j], c.use[j], c.truth, c.pinned);
    }
    forall n | n in c.pinned ensures PinnedIn(c'.buf, n) {
      PinnedInStays(c.buf, i, b, n);
    }
  }

  lemma SharedKeeps(c: Cache, i: nat, t: nat)
    requires Inv(c) && i < NBUF && t !in c.tokens
    ensures Inv(Shared(c, i, t))
  {
    hide Ring, Full, Unique, PinnedIn, DiskOk;
    assert HeldOk(c.buf[i], c.use[i], c.tokens) && DataOk(c.buf[i], c.use[i], c.truth, c.pinned);
    var c' := Shared(c, i, t);
    assert t !in c.use[i].holders;
    OneBuffer(c, i, c'.buf[i], c'.use[i], c'.tokens);
  }

  lemma LockedKeeps(c: Cache, i: nat, t: nat)
    requires Inv(c) && i < NBUF && t in c.use[i].holders && !c.buf[i].locked
    ensures Inv(Locked(c, i, t))
  {
    hide Ring, Full, Unique, PinnedIn, DiskOk;
    assert HeldOk(c.buf[i], c.use[i], c.tokens) && DataOk(c.buf[i], c.use[i], c.truth, c.pinned);
    var c' := Locked(c, i, t);
    OneBuffer(c, i, c'.buf[i], c'.use[i], c'.tokens);
  }

  lemma UnlockedKeeps(c: Cache, i: nat)
    requires Inv(c) && i < NBUF
    ensures Inv(Unlocked(c, i))
  {
    hide Ring, Full, Unique, PinnedIn, DiskOk;
    assert HeldOk(c.buf[i], c.use[i], c.tokens) && DataOk(c.buf[i], c.use[i], c.truth, c.pinned);
    var c' := Unlocked(c, i);
    OneBuffer(c, i, c'.buf[i], c'.use[i], c'.tokens);
  }

  lemma FilledKeeps(c: Cache, i: nat)
    requires Inv(c) && i < NBUF && !c.buf[i].valid && c.buf[i].dev == ROOTDEV && 0 <= c.buf[i].blockno < |c.disk|
    ensures Inv(Filled(c, i))
  {
    hide Ring, Full, Unique;
    assert HeldOk(c.buf[i], c.use[i], c.tokens) && DataOk(c.buf[i], c.use[i], c.truth, c.pinned);
    var b := c.buf[i].blockno;
    NotPinned(c, i);
    var c' := Filled(c, i);
    OneBuffer(c, i, c'.buf[i], c'.use[i], c.tokens);
  }

  /** A block whose buffer is not dirty is not pinned. */
  lemma NotPinned(c: Cache, i: nat)
    requires Inv(c) && i < NBUF && !c.buf[i].dirty && c.buf[i].dev == ROOTDEV
    ensures c.buf[i].blockno !in c.pinned
  {
  }

  lemma StoredKeeps(c: Cache, i: nat, data: Block)
    requires Inv(c) && i < NBUF && c.buf[i].locked
    ensures Inv(Stored(c, i, data))
  {
    hide Ring, Full, Unique, PinnedIn, DiskOk;
    assert HeldOk(c.buf[i], c.use[i], c.tokens) && DataOk(c.buf[i], c.use[i], c.truth, c.pinned);
    var c' := Stored(c, i, data);
    OneBuffer(c, i, c'.buf[i], c'.use[i], c'.tokens);
  }

  lemma DroppedKeeps(c: Cache, i: nat, t: nat)
    requires Inv(c) && i < NBUF && t in c.use[i].holders && c.use[i].owner != t
    ensures Inv(Dropped(c, i, t))
  {
    hide Ring, Full, Unique, PinnedIn, DiskOk;
    assert HeldOk(c.buf[i], c.use[i], c.tokens) && DataOk(c.buf[i], c.use[i], c.truth, c.pinned);
    var c' := Dropped(c, i, t);
    OneBuffer(c, i, c'.buf[i], c'.use[i], c'.tokens);
  }

  lemma RecycledKeeps(c: Cache, i: nat, t: nat, dev: int, blockno: int)
    requires Inv(c) && i < NBUF && t !in c.tokens && c.buf[i].refcnt == 0 && !c.buf[i].dirty
    requires forall j :: 0 <= j < NBUF ==> !Caches(c.buf[j], dev, blockno)
    ensures Inv(Recycled(c, i, t, dev, blockno))
  {
    hide Ring, Full, PinnedIn;
    var c' := Recycled(c, i, t, dev, blockno);
    assert HeldOk(c.buf[i], c.use[i], c.tokens);
    assert c.use[i].holders == {};
    RingStays(c.buf, c.order, i, c'.buf[i]);
    forall x, y | 0 <= x < y < NBUF && c'.buf[x].dev != 0 ensures !Caches(c'.buf[y], c'.buf[x].dev, c'.buf[x].blockno) {
      assert c.buf[x].dev != 0 ==> !Caches(c.buf[y], c.buf[x].dev, c.buf[x].blockno);
      assert !Caches(c.buf[y], dev, blockno) && !Caches(c.buf[x], dev, blockno);
    }
    forall j | 0 <= j < NBUF
      ensures HeldOk(c'.buf[j], c'.use[j], c'.tokens) && DataOk(c'.buf[j], c'.use[j], c'.truth, c'.pinned)
    {
      assert HeldOk(c.buf[j], c.use[j], c.tokens) && DataOk(c.buf[j], c.use[j], c.truth, c.pinned);
    }
    forall n | n in c.pinned ensures PinnedIn(c'.buf, n) {
      PinnedInStays(c.buf, i, c'.buf[i], n);
    }
  }

  /** Another valid buffer caches another block. */
  lemma OthersApart(c: Cache, i: nat, j: nat)
    requires Inv(c) && i < NBUF && j < NBUF && i != j && c.buf[i].dev == ROOTDEV && c.buf[j].dev == ROOTDEV
    ensures c.buf[j].blockno != c.buf[i].blockno
  {
  }

  lemma LoggedKeeps(c: Cache, i: nat)
    requires Inv(c) && i < NBUF && c.buf[i].valid
    ensures 0 <= c.buf[i].blockno < |c.disk| == |c.truth|
    ensures Inv(Logged(c, i))
  {
    hide Ring, Full, PinnedIn, Unique;
    assert HeldOk(c.buf[i], c.use[i], c.tokens) && DataOk(c.buf[i], c.use[i], c.truth, c.pinned);
    var c', b := Logged(c, i), c.buf[i].blockno;
    RingStays(c.buf, c.order, i, c'.buf[i]);
    UniqueStays(c.buf, i, c'.buf[i]);
    forall j | 0 <= j < NBUF
      ensures HeldOk(c'.buf[j], c'.use[j], c'.tokens) && DataOk(c'.buf[j], c'.use[j], c'.truth, c'.pinned)
    {
      assert HeldOk(c.buf[j], c.use[j], c.tokens) && DataOk(c.buf[j], c.use[j], c.truth, c.pinned);
      if j != i && c.buf[j].valid {
        OthersApart(c, i, j);
      }
    }
    PinsItself(c'.buf, i);
    forall n | n in c.pinned ensures PinnedIn(c'.buf, n) {
      PinnedInStays(c.buf, i, c'.buf[i], n);
    }
  }

  lemma PinsItself(buf: seq<Buf>, i: nat)
    requires |buf| == NBUF + 1 && i < NBUF && buf[i].dirty && buf[i].dev == ROOTDEV
    ensures PinnedIn(buf, buf[i].blockno)
  {
  }

  lemma WrittenKeeps(c: Cache, i: nat)
    requires Inv(c) && i < NBUF && c.buf[i].dev == ROOTDEV && 0 <= c.buf[i].blockno < |c.disk|
    requires c.buf[i].locked
    ensures |c.disk| == |c.truth| && Inv(Written(c, i))
  {
    hide Ring, Full, PinnedIn, Unique;
    var c', b := Written(c, i), c.buf[i].blockno;
    RingStays(c.buf, c.order, i, c'.buf[i]);
    UniqueStays(c.buf, i, c'.buf[i]);
    forall j | 0 <= j < NBUF
      ensures HeldOk(c'.buf[j], c'.use[j], c'.tokens) && DataOk(c'.buf[j], c'.use[j], c'.truth, c'.pinned)
    {
      assert HeldOk(c.buf[j], c.use[j], c.tokens) && DataOk(c.buf[j], c.use[j], c.truth, c.pinned);
      if j != i && c.buf[j].valid {
        OthersApart(c, i, j);
      }
    }
    forall n | n in c'.pinned ensures PinnedIn(c'.buf, n) {
      PinnedInStays(c.buf, i, c'.buf[i], n);
    }
  }

  /** Only the links have changed. */
  lemma LinksOnly(c: Cache, buf': seq<Buf>, order': seq<int>)
    requires Inv(c) && SameButLinks(c.buf, buf') && Ring(buf', order') && Full(order')
    ensures Inv(c.(buf := buf', order := order'))
  {
  }

  lemma SetLinks(buf: seq<Buf>, i: int, j: int)
    requires 0 <= i < |buf|
    ensures SameButLinks(buf, SetNext(buf, i, j)) && SameButLinks(buf, SetPrev(buf, i, j))
  {
  }

  lemma LinksTrans(a: seq<Buf>, b: seq<Buf>, c: seq<Buf>)
    requires SameButLinks(a, b) && SameButLinks(b, c)
    ensures SameButLinks(a, c)
  {
  }

  lemma UnlinkLinks(buf: seq<Buf>, b: int)
    requires 0 <= b < |buf| && 0 <= buf[b].next < |buf| && 0 <= buf[b].prev < |buf|
    ensures SameButLinks(buf, Unlink(buf, b))
  {
  }

  lemma LinksSize(a: seq<Buf>, b: seq<Buf>)
    requires SameButLinks(a, b)
    ensures |b| == |a|
  {
  }

  lemma PushLinks(buf: seq<Buf>, b: int)
    requires |buf| == NBUF + 1 && 0 <= b < NBUF && 0 <= buf[HEAD].next < |buf|
    ensures SameButLinks(buf, PushFront(buf, b))
  {
    var first := buf[HEAD].next;
    var one := buf[b := buf[b].(next := first, prev := HEAD)];
    assert SameButLinks(buf, one);
    hide SameButLinks, SetNext, SetPrev;
    SetLinks(one, first, b);
    var two := SetPrev(one, first, b);
    LinksSize(one, two);
    SetLinks(two, HEAD, b);
    LinksTrans(buf, one, two);
    LinksTrans(buf, two, SetNext(two, HEAD, b));
  }

  lemma ToFrontKeeps(c: Cache, p: nat)
    requires Inv(c) && p < |c.order|
    ensures
      var b := c.order[p];
      && 0 <= b < NBUF && 0 <= c.buf[b].next <= NBUF && 0 <= c.buf[b].prev <= NBUF
      && 0 <= Unlink(c.buf, b)[HEAD].next <= NBUF
      && Inv(c.(buf := PushFront(Unlink(c.buf, b), b), order := ToFront(c.order, p)))
  {
    hide Ring, Full, Unique, AllHeld, AllData, DiskOk, Unlink, PushFront, SameButLinks;
    RingSize(c.buf, c.order);
    RingToFront(c.buf, c.order, p);
    UnlinkLinks(c.buf, c.order[p]);
    PushLinks(Unlink(c.buf, c.order[p]), c.order[p]);
    LinksTrans(c.buf, Unlink(c.buf, c.order[p]), PushFront(Unlink(c.buf, c.order[p]), c.order[p]));
    LinksOnly(c, PushFront(Unlink(c.buf, c.order[p]), c.order[p]), ToFront(c.order, p));
  }

  // ---------- how many buffers are free ----------

  /** Nobody holds a buffer, save those in `held`, or has left one changed. */
  ghost predicate OnlyHeld(use: seq<Use>, held: set<int>) {
    forall i :: 0 <= i < |use| && i !in held ==> use[i] == Use({}, -1, false)
  }

  /** The caller behind token t holds buffer i, locked, with block b in it. */
  ghost predicate Holds(c: Cache, i: int, t: nat, b: int) {
    && 0 <= i < NBUF && i < |c.use| && i < |c.buf|
    && c.use[i].holders == {t} && c.use[i].owner == t && c.buf[i].locked
    && c.buf[i].valid && Caches(c.buf[i], ROOTDEV, b)
  }

  /** The blocks in the busy ones of the first k buffers. */
  ghost function BusyBlocks(buf: seq<Buf>, k: nat): set<int>
    requires k <= |buf|
  {
    if k == 0 then {} else BusyBlocks(buf, k - 1) + if Busy(buf[k - 1]) then {buf[k - 1].blockno} else {}
  }

  lemma {:induction false} BusyBlocksAre(buf: seq<Buf>, k: nat, b: int)
    requires k <= |buf|
    ensures b in BusyBlocks(buf, k) <==> exists i :: 0 <= i < k && Busy(buf[i]) && buf[i].blockno == b
  {
    if k > 0 {
      BusyBlocksAre(buf, k - 1, b);
      assert b in BusyBlocks(buf, k) <==> b in BusyBlocks(buf, k - 1) || (Busy(buf[k - 1]) && buf[k - 1].blockno == b);
    }
  }

  ghost predicate BusyOnRoot(buf: seq<Buf>) {
    |buf| == NBUF + 1 && forall i :: 0 <= i < NBUF && Busy(buf[i]) ==> buf[i].dev == ROOTDEV
  }

  /** Each busy buffer has a block of its own, so all k are busy exactly when there are k such blocks. */
  lemma {:induction false} BusyCount(buf: seq<Buf>, k: nat)
    requires Unique(buf) && BusyOnRoot(buf) && k <= NBUF
    ensures |BusyBlocks(buf, k)| <= k
    ensures |BusyBlocks(buf, k)| == k <==> forall i :: 0 <= i < k ==> Busy(buf[i])
  {
    if k > 0 {
      BusyCount(buf, k - 1);
      var b := buf[k - 1].blockno;
      BusyBlocksAre(buf, k - 1, b);
      if Busy(buf[k - 1]) {
        assert b !in BusyBlocks(buf, k - 1);
      } else {
        assert BusyBlocks(buf, k) == BusyBlocks(buf, k - 1);
      }
    }
  }

  /** The blocks that cannot leave the cache: those logged, and those in the buffers held. */
  ghost function Kept(c: Cache, held: set<int>): set<int>
    requires forall i :: i in held ==> 0 <= i < |c.buf|
  {
    c.pinned + set i | i in held :: c.buf[i].blockno
  }

  ghost predicate HeldOnRoot(c: Cache, held: set<int>) {
    |c.buf| == NBUF + 1 && |c.use| == NBUF
    && forall i :: i in held ==> 0 <= i < NBUF && c.buf[i].dev == ROOTDEV && c.use[i].holders != {}
  }

  lemma BusyAre(c: Cache, held: set<int>, i: nat)
    requires Inv(c) && OnlyHeld(c.use, held) && HeldOnRoot(c, held) && i < NBUF
    ensures Busy(c.buf[i]) <==> i in held || c.buf[i].dirty
    ensures Busy(c.buf[i]) ==> c.buf[i].dev == ROOTDEV && c.buf[i].blockno in Kept(c, held)
  {
    assert HeldOk(c.buf[i], c.use[i], c.tokens) && DataOk(c.buf[i], c.use[i], c.truth, c.pinned);
  }

  lemma KeptAreBusy(c: Cache, held: set<int>)
    requires Inv(c) && OnlyHeld(c.use, held) && HeldOnRoot(c, held)
    ensures BusyOnRoot(c.buf) && BusyBlocks(c.buf, NBUF) == Kept(c, held)
  {
    hide Ring, Full, Unique, AllHeld, AllData;
    forall i | 0 <= i < NBUF
      ensures Busy(c.buf[i]) <==> i in held || c.buf[i].dirty
      ensures Busy(c.buf[i]) ==> c.buf[i].dev == ROOTDEV && c.buf[i].blockno in Kept(c, held)
    {
      BusyAre(c, held, i);
    }
    forall b ensures b in BusyBlocks(c.buf, NBUF) <==> b in Kept(c, held) {
      BusyBlocksAre(c.buf, NBUF, b);
      if b in c.pinned {
        var i :| 0 <= i < NBUF && c.buf[i].dirty && Caches(c.buf[i], ROOTDEV, b);
        assert Busy(c.buf[i]);
      } else if b in Kept(c, held) {
        var i :| i in held && c.buf[i].blockno == b;
        assert Busy(c.buf[i]);
      }
    }
  }

  /** bget finds a buffer for block b exactly when that block and those that cannot leave the cache
      fit into it. */
  lemma RoomFor(c: Cache, held: set<int>, b: int)
    requires Inv(c) && OnlyHeld(c.use, held) && HeldOnRoot(c, held)
    ensures (forall i :: 0 <= i < NBUF ==> !Caches(c.buf[i], ROOTDEV, b) && Busy(c.buf[i]))
        <==> |Kept(c, held) + {b}| > NBUF
  {
    hide Ring, Full, AllHeld, AllData, DiskOk;
    KeptAreBusy(c, held);
    BusyCount(c.buf, NBUF);
    BusyBlocksAre(c.buf, NBUF, b);
    var all := Kept(c, held);
    if b in all {
      assert all + {b} == all;
      var i :| 0 <= i < NBUF && Busy(c.buf[i]) && c.buf[i].blockno == b;
      assert Caches(c.buf[i], ROOTDEV, b);
    } else {
      assert |all + {b}| == |all| + 1;
    }
  }

  // ---------- runs ----------

  /** The steps, each by one process inside one lock. */
  datatype Step =
    | Get(i: nat, t: nat, dev: int, blockno: int)
    | Lock(i: nat, t: nat)
    | Fill(i: nat)
    | Store(i: nat, data: Block)
    | Pin(i: nat)
    | Write(i: nat)
    | Unlock(i: nat)
    | Unref(i: nat, t: nat)

  ghost predicate Sized(c: Cache) {
    |c.buf| == NBUF + 1 && |c.use| == NBUF && |c.truth| == |c.disk|
  }

  ghost predicate Next(c: Cache, s: Step, c': Cache) {
    Sized(c) && match s
    case Get(i, t, dev, blockno) =>
      && i < NBUF && t !in c.tokens
      && if Caches(c.buf[i], dev, blockno) then c' == Shared(c, i, t)
         else (forall j :: 0 <= j < NBUF ==> !Caches(c.buf[j], dev, blockno)) && !Busy(c.buf[i])
              && c' == Recycled(c, i, t, dev, blockno)
    case Lock(i, t) => i < NBUF && t in c.use[i].holders && !c.buf[i].locked && c' == Locked(c, i, t)
    case Fill(i) =>
      && i < NBUF && c.buf[i].locked && !c.buf[i].valid && c.buf[i].dev == ROOTDEV && 0 <= c.buf[i].blockno < |c.disk|
      && c' == Filled(c, i)
    case Store(i, data) => i < NBUF && c.buf[i].locked && c' == Stored(c, i, data)
    case Pin(i) => i < NBUF && c.buf[i].locked && c.buf[i].valid && 0 <= c.buf[i].blockno < |c.disk|
                   && c' == Logged(c, i)
    case Write(i) =>
      i < NBUF && c.buf[i].locked && c.buf[i].dev == ROOTDEV && 0 <= c.buf[i].blockno < |c.disk| && c' == Written(c, i)
    case Unlock(i) => i < NBUF && c.buf[i].locked && c' == Unlocked(c, i)
    case Unref(i, t) =>
      && i < NBUF && t in c.use[i].holders && c.use[i].owner != t
      && var c1 := Dropped(c, i, t);
         if c1.buf[i].refcnt > 0 then c' == c1
         else exists p: nat :: p < |c.order| && c.order[p] == i && FrontOf(c1, i, p, c')
  }

  ghost predicate FrontOf(c: Cache, i: nat, p: nat, c': Cache) {
    && |c.buf| == NBUF + 1 && i < NBUF && p < |c.order|
    && 0 <= c.buf[i].next <= NBUF && 0 <= c.buf[i].prev <= NBUF
    && 0 <= Unlink(c.buf, i)[HEAD].next <= NBUF
    && c' == c.(buf := PushFront(Unlink(c.buf, i), i), order := ToFront(c.order, p))
  }

  /** A step keeps the invariant. */
  lemma NextKeeps(c: Cache, s: Step, c': Cache)
    requires Inv(c) && Next(c, s, c')
    ensures Inv(c')
  {
    hide Ring, Full, Unique, AllHeld, AllData, DiskOk, Unlink, PushFront, Caches;
    match s
    case Get(i, t, dev, blockno) =>
      if Caches(c.buf[i], dev, blockno) {
        SharedKeeps(c, i, t);
      } else {
        RecycledKeeps(c, i, t, dev, blockno);
      }
    case Lock(i, t) => LockedKeeps(c, i, t);
    case Fill(i) => FilledKeeps(c, i);
    case Store(i, data) => StoredKeeps(c, i, data);
    case Pin(i) => LoggedKeeps(c, i);
    case Write(i) => WrittenKeeps(c, i);
    case Unlock(i) => UnlockedKeeps(c, i);
    case Unref(i, t) =>
      DroppedKeeps(c, i, t);
      var c1 := Dropped(c, i, t);
      if c1.buf[i].refcnt <= 0 {
        var p: nat :| p < |c.order| && c.order[p] == i && FrontOf(c1, i, p, c');
        ToFrontKeeps(c1, p);
      }
  }

  /** A bwrite of block b. */
  ghost predicate Writes(c: Cache, s: Step, b: int) {
    s.Write? && s.i < |c.buf| && c.buf[s.i].blockno == b
  }

  /** Only a bwrite of a block changes it on disk, and only that ends its being pinned. */
  lemma NextDisk(c: Cache, s: Step, c': Cache, b: nat)
    requires Inv(c) && Next(c, s, c') && b < |c.disk|
    ensures |c'.disk| == |c.disk|
    ensures !Writes(c, s, b) ==> c'.disk[b] == c.disk[b] && (b in c.pinned ==> b in c'.pinned)
    ensures Writes(c, s, b) ==> c'.disk[b] == c.buf[s.i].data
  {
    hide Ring, Full, Unique, AllHeld, AllData, Unlink, PushFront, PinnedIn;
  }

  /** A buffer after binit: all zero, which reads as block 0 of device 0. */
  predicate AsBooted(b: Buf) {
    !b.valid && !b.dirty && b.dev == 0 && b.blockno == 0 && !b.locked && b.refcnt == 0
  }

  ghost predicate Booted(c: Cache) {
    && Ring(c.buf, c.order) && |c.order| == NBUF && (forall k :: k in c.order <==> 0 <= k < NBUF)
    && (forall k :: 0 <= k < NBUF ==> AsBooted(c.buf[k]))
    && c.use == seq(NBUF, i => Use({}, -1, false))
    && c.truth == c.disk && c.pinned == {} && c.tokens == map[]
  }

  lemma InitInv(c: Cache)
    requires Booted(c)
    ensures Inv(c)
  {
  }

  ghost predicate Run(run: seq<Cache>, steps: seq<Step>) {
    && |run| == |steps| + 1 && Booted(run[0])
    && forall k :: 0 <= k < |steps| ==> Next(run[k], steps[k], run[k + 1])
  }

  lemma {:induction false} RunKeepsInv(run: seq<Cache>, steps: seq<Step>, k: nat)
    requires Run(run, steps) && k < |run|
    ensures Inv(run[k])
  {
    hide Inv, Next, Booted;
    if k == 0 {
      InitInv(run[0]);
    } else {
      RunKeepsInv(run, steps, k - 1);
      NextKeeps(run[k - 1], steps[k - 1], run[k]);
    }
  }

  /** In every state of every run: the ring holds every buffer once, no block of the disk has two
      buffers, and a clean buffer that nobody has changed is the block on disk. */
  lemma CacheRefinesDisk(run: seq<Cache>, steps: seq<Step>, k: nat)
    requires Run(run, steps) && k < |run|
    ensures Ring(run[k].buf, run[k].order) && Full(run[k].order) && Unique(run[k].buf) && |run[k].use| == NBUF
    ensures forall i :: 0 <= i < NBUF && run[k].buf[i].valid && !run[k].buf[i].dirty && !run[k].use[i].touched ==>
              0 <= run[k].buf[i].blockno < |run[k].disk| && run[k].buf[i].data == run[k].disk[run[k].buf[i].blockno]
  {
    RunKeepsInv(run, steps, k);
    hide Ring, Full, Unique, AllData, DiskOk, Next, Booted, HeldOk;
    var c := run[k];
    RingSize(c.buf, c.order);
    forall i | 0 <= i < NBUF && c.buf[i].valid && !c.buf[i].dirty && !c.use[i].touched
      ensures 0 <= c.buf[i].blockno < |c.disk| && c.buf[i].data == c.disk[c.buf[i].blockno]
    {
      CleanIsDisk(c, i);
    }
  }

  /** From log_write of a block to the next bwrite of it, however the processes interleave, its buffer
      is not given away and its home on disk does not change. */
  lemma {:induction false} PinnedUntilWritten(run: seq<Cache>, steps: seq<Step>, i: nat, j: nat, b: nat)
    requires Run(run, steps) && i <= j < |run| && b < |run[i].disk| && b in run[i].pinned
    requires forall m :: i <= m < j ==> !Writes(run[m], steps[m], b)
    ensures |run[j].disk| == |run[i].disk| && run[j].disk[b] == run[i].disk[b]
    ensures b in run[j].pinned && PinnedIn(run[j].buf, b)
    decreases j - i
  {
    hide Ring, Full, Unique, AllHeld, AllData, Next, Booted, PinnedIn, Writes;
    RunKeepsInv(run, steps, i);
    if i < j {
      assert Next(run[i], steps[i], run[i + 1]);
      NextDisk(run[i], steps[i], run[i + 1], b);
      PinnedUntilWritten(run, steps, i + 1, j, b);
    }
  }
}
