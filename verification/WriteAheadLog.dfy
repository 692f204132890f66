/** The redo log of log.c: the order of its disk writes, recovery, and what survives a crash.

    A block is 1024 words.  The disk is a sequence of blocks and every bwrite replaces one of
    them atomically, so a crash leaves the disk as it is after some prefix of the writes. */
module WriteAheadLog {
  import opened Params

  const WORDS := 1024

  datatype Block = Block(word: seq<int>)
  type Disk = seq<Block>

  /** Where the superblock puts the log: `start` is the header, the slots follow it. */
  datatype Layout = Layout(start: nat, nlog: nat, size: nat)

  datatype Write = Write(bno: nat, data: Block)

  predicate InLog(lay: Layout, b: int) {
    lay.start <= b < lay.start + lay.nlog
  }

  predicate IsHome(lay: Layout, b: int) {
    0 <= b < lay.size && !InLog(lay, b)
  }

  predicate OnDisk(lay: Layout) {
    1 <= lay.nlog && lay.start + lay.nlog <= lay.size
  }

  /** A log region with a slot for each of the LOGSIZE blocks a transaction may list. */
  predicate Roomy(lay: Layout) {
    OnDisk(lay) && LOGSIZE + 1 <= lay.nlog
  }

  predicate Distinct(s: seq<int>) {
    forall i, j :: 0 <= i < j < |s| ==> s[i] != s[j]
  }

  /** What log_write's absorption keeps of the in-memory header: distinct home blocks. */
  predicate Listing(lay: Layout, lh: seq<int>) {
    && |lh| <= LOGSIZE
    && Distinct(lh)
    && forall i :: 0 <= i < |lh| ==> IsHome(lay, lh[i])
  }

  /** The buffers that B_DIRTY pins are those of the listed blocks. */
  ghost predicate Pins(lh: seq<int>, cache: map<int, Block>) {
    forall b :: b in cache <==> b in lh
  }

  /** A listing that has a slot inside the log region for each of its blocks. */
  predicate ValidList(lay: Layout, lh: seq<int>) {
    Listing(lay, lh) && |lh| < lay.nlog
  }

  // ---------- the header block ----------

  predicate HasHeader(b: Block) {
    |b.word| == WORDS && 0 <= b.word[0] <= LOGSIZE
  }

  function HeaderN(b: Block): int
    requires HasHeader(b)
  {
    b.word[0]
  }

  function HeaderList(b: Block): seq<int>
    requires HasHeader(b)
  {
    b.word[1..1 + HeaderN(b)]
  }

  predicate ValidHeader(lay: Layout, b: Block) {
    HasHeader(b) && ValidList(lay, HeaderList(b))
  }

  /** write_head stores n and the first n entries and leaves the other words of the block. */
  function PutHeader(b: Block, lh: seq<int>): (r: Block)
    requires HasHeader(b) && |lh| <= LOGSIZE
    ensures HasHeader(r) && HeaderN(r) == |lh| && HeaderList(r) == lh
  {
    Block([|lh|] + lh + b.word[1 + |lh|..])
  }

  // ---------- disk writes ----------

  predicate WritesFit(d: Disk, ws: seq<Write>) {
    forall i :: 0 <= i < |ws| ==> ws[i].bno < |d|
  }

  function Apply(d: Disk, ws: seq<Write>): (r: Disk)
    requires WritesFit(d, ws)
    ensures |r| == |d|
  {
    if ws == [] then d
    else
      var w := ws[|ws| - 1];
      Apply(d, ws[..|ws| - 1])[w.bno := w.data]
  }

  lemma ApplyNext(d: Disk, ws: seq<Write>, k: nat)
    requires WritesFit(d, ws) && k < |ws|
    ensures Apply(d, ws[..k + 1]) == Apply(d, ws[..k])[ws[k].bno := ws[k].data]
  {
    assert ws[..k + 1][..k] == ws[..k];
  }

  lemma ApplySnoc(d: Disk, ws: seq<Write>, w: Write)
    requires WritesFit(d, ws) && w.bno < |d|
    ensures WritesFit(d, ws + [w])
    ensures Apply(d, ws + [w]) == Apply(d, ws)[w.bno := w.data]
  {
    assert (ws + [w])[..|ws|] == ws;
  }

  lemma {:induction false} ApplyAppend(d: Disk, a: seq<Write>, b: seq<Write>)
    requires WritesFit(d, a) && WritesFit(d, b)
    ensures Apply(d, a + b) == Apply(Apply(d, a), b)
    decreases |b|
  {
    if b == [] {
      assert a + b == a;
    } else {
      var w := b[|b| - 1];
      assert (a + b)[..|a + b| - 1] == a + b[..|b| - 1];
      ApplyAppend(d, a, b[..|b| - 1]);
    }
  }

  // ---------- what a disk means ----------

  /** The home blocks as they are on the disk. */
  function Home(lay: Layout, d: Disk): (r: map<int, Block>)
    requires |d| == lay.size
  {
    map b | 0 <= b < lay.size && !InLog(lay, b) :: d[b]
  }

  /** A position of b; a listing has only one. */
  ghost function Position(s: seq<int>, b: int): (i: nat)
    requires b in s
    ensures i < |s| && s[i] == b
  {
    var i: nat :| i < |s| && s[i] == b;
    i
  }

  ghost predicate GoodDisk(lay: Layout, d: Disk) {
    OnDisk(lay) && |d| == lay.size && ValidHeader(lay, d[lay.start])
  }

  /** The home blocks a completed recovery yields: those the header names come from the log. */
  ghost function DurableBlock(lay: Layout, d: Disk, b: int): Block
    requires GoodDisk(lay, d) && IsHome(lay, b)
  {
    var lh := HeaderList(d[lay.start]);
    if b in lh then d[lay.start + 1 + Position(lh, b)] else d[b]
  }

  ghost function Durable(lay: Layout, d: Disk): map<int, Block>
    requires GoodDisk(lay, d)
  {
    map b | 0 <= b < lay.size && !InLog(lay, b) :: DurableBlock(lay, d, b)
  }

  // ---------- the write sequences of commit and recovery ----------

  function SlotWrites(lay: Layout, lh: seq<int>, cache: map<int, Block>): seq<Write>
    requires forall i :: 0 <= i < |lh| ==> lh[i] in cache
  {
    seq(|lh|, i requires 0 <= i < |lh| => Write(lay.start + 1 + i, cache[lh[i]]))
  }

  function InstallWrites(lh: seq<int>, cache: map<int, Block>): seq<Write>
    requires forall i :: 0 <= i < |lh| ==> lh[i] >= 0 && lh[i] in cache
  {
    seq(|lh|, i requires 0 <= i < |lh| => Write(lh[i], cache[lh[i]]))
  }

  /** The conditions under which commit runs: empty log on disk, every logged block pinned. */
  ghost predicate CommitReady(lay: Layout, d: Disk, lh: seq<int>, cache: map<int, Block>) {
    && GoodDisk(lay, d)
    && HeaderN(d[lay.start]) == 0
    && ValidList(lay, lh)
    && forall i :: 0 <= i < |lh| ==> lh[i] in cache
  }

  /** commit: slots, header, home locations, empty header; nothing for an empty transaction. */
  ghost function CommitWrites(lay: Layout, d: Disk, lh: seq<int>, cache: map<int, Block>): seq<Write>
    requires CommitReady(lay, d, lh, cache)
  {
    if lh == [] then []
    else
      var head := d[lay.start];
      SlotWrites(lay, lh, cache) + [Write(lay.start, PutHeader(head, lh))]
      + InstallWrites(lh, cache) + [Write(lay.start, PutHeader(PutHeader(head, lh), []))]
  }

  /** recover_from_log: copy each slot home, then write an empty header. */
  ghost function RecoveryWrites(lay: Layout, d: Disk): seq<Write>
    requires GoodDisk(lay, d)
  {
    SlotsHome(lay, d, HeaderList(d[lay.start])) + [Write(lay.start, PutHeader(d[lay.start], []))]
  }

  /** install_trans: copy slot i to the i-th listed block. */
  function SlotsHome(lay: Layout, d: Disk, lh: seq<int>): seq<Write>
    requires |d| == lay.size && lay.start + 1 + |lh| <= lay.size
    requires forall i :: 0 <= i < |lh| ==> lh[i] >= 0
  {
    seq(|lh|, i requires 0 <= i < |lh| => Write(lh[i], d[lay.start + 1 + i]))
  }

  // ---------- the same writes as the loops of log.c make them, through the buffer cache ----------

  /** What the blocks hold as bread returns them: the pinned contents where there are any. */
  function Seen(d: Disk, cache: map<int, Block>): (t: Disk)
    ensures |t| == |d| && forall b :: 0 <= b < |d| ==> t[b] == if b in cache then cache[b] else d[b]
  {
    seq(|d|, b requires 0 <= b < |d| => if b in cache then cache[b] else d[b])
  }

  predicate InRange(t: Disk, bs: seq<int>) {
    forall i :: 0 <= i < |bs| ==> 0 <= bs[i] < |t|
  }

  /** A loop that reads block from[i] and writes it to block to[i]; each turn sees the turns before. */
  function Copies(t: Disk, from: seq<int>, to: seq<int>): (ws: seq<Write>)
    requires |from| == |to| && InRange(t, from) && InRange(t, to)
    ensures |ws| == |to| && (forall i :: 0 <= i < |ws| ==> ws[i].bno == to[i]) && WritesFit(t, ws)
    decreases |from|
  {
    if from == [] then []
    else
      var n := |from| - 1;
      var ws := Copies(t, from[..n], to[..n]);
      ws + [Write(to[n], Apply(t, ws)[from[n]])]
  }

  lemma CopiesNext(t: Disk, from: seq<int>, to: seq<int>, k: nat)
    requires |from| == |to| && InRange(t, from) && InRange(t, to) && k < |from|
    ensures
      var ws := Copies(t, from[..k], to[..k]);
      && Copies(t, from[..k + 1], to[..k + 1]) == ws + [Write(to[k], Apply(t, ws)[from[k]])]
  {
    assert from[..k + 1][..k] == from[..k] && to[..k + 1][..k] == to[..k];
  }

  /** Slot i is block start + 1 + i, inside the log region or not. */
  function Slots(lay: Layout, n: nat): (r: seq<int>)
    ensures |r| == n && forall i :: 0 <= i < n ==> r[i] == lay.start + 1 + i
  {
    seq(n, i => lay.start + 1 + i)
  }

  /** A list commit can write without leaving the disk, whether or not it fits the log region. */
  ghost predicate Writable(lay: Layout, t: Disk, lh: seq<int>) {
    && OnDisk(lay) && |t| == lay.size && HasHeader(t[lay.start])
    && Listing(lay, lh) && lay.start + 1 + |lh| <= lay.size
  }

  /** write_log, then write_head. */
  ghost function LogPlan(lay: Layout, t: Disk, lh: seq<int>): (ws: seq<Write>)
    requires Writable(lay, t, lh)
    ensures WritesFit(t, ws) && |ws| == |lh| + 1
  {
    Copies(t, lh, Slots(lay, |lh|)) + [Write(lay.start, PutHeader(t[lay.start], lh))]
  }

  /** What commit writes, for any list: the slots, the header, the home blocks, the empty header. */
  ghost function CommitPlan(lay: Layout, t: Disk, lh: seq<int>): (ws: seq<Write>)
    requires Writable(lay, t, lh)
    ensures WritesFit(t, ws)
  {
    if lh == [] then []
    else
      var first := LogPlan(lay, t, lh);
      first + Copies(Apply(t, first), Slots(lay, |lh|), lh)
      + [Write(lay.start, PutHeader(PutHeader(t[lay.start], lh), []))]
  }

  /** A block that no turn writes is copied as it was at the start. */
  lemma {:induction false} ApplyElsewhere(d: Disk, ws: seq<Write>, b: nat)
    requires WritesFit(d, ws) && b < |d| && forall i :: 0 <= i < |ws| ==> ws[i].bno != b
    ensures Apply(d, ws)[b] == d[b]
  {
    if ws != [] {
      ApplyElsewhere(d, ws[..|ws| - 1], b);
    }
  }

  predicate Apart(a: seq<int>, b: seq<int>) {
    forall j, k :: 0 <= j < |a| && 0 <= k < |b| ==> a[j] != b[k]
  }

  /** A loop that writes none of the blocks it reads copies them as they were at the start. */
  lemma {:induction false} CopiesApart(t: Disk, from: seq<int>, to: seq<int>, i: nat)
    requires |from| == |to| && InRange(t, from) && InRange(t, to) && i < |from| && Apart(to, from)
    ensures Copies(t, from, to)[i] == Write(to[i], t[from[i]])
    decreases |from|
  {
    hide Apply;
    var n := |from| - 1;
    var ws := Copies(t, from[..n], to[..n]);
    assert Copies(t, from, to) == ws + [Write(to[n], Apply(t, ws)[from[n]])];
    if i < n {
      CopiesApart(t, from[..n], to[..n], i);
    } else {
      ApplyElsewhere(t, ws, from[n]);
    }
  }

  lemma SlotsApart(lay: Layout, lh: seq<int>)
    requires OnDisk(lay) && ValidList(lay, lh)
    ensures Apart(Slots(lay, |lh|), lh) && Apart(lh, Slots(lay, |lh|))
    ensures forall t: Disk :: |t| == lay.size ==> InRange(t, lh) && InRange(t, Slots(lay, |lh|))
  {
    assert forall k :: 0 <= k < |lh| ==> IsHome(lay, lh[k]);
  }

  /** With a slot for every listed block the loops write what SlotWrites and InstallWrites say. */
  lemma CommitPlanIs(lay: Layout, d: Disk, lh: seq<int>, cache: map<int, Block>)
    requires CommitReady(lay, d, lh, cache) && Pins(lh, cache)
    ensures Writable(lay, Seen(d, cache), lh)
    ensures CommitPlan(lay, Seen(d, cache), lh) == CommitWrites(lay, d, lh, cache)
  {
    hide Copies, Apply, SlotWrites, InstallWrites;
    var t := Seen(d, cache);
    assert lay.start !in cache;
    assert t[lay.start] == d[lay.start];
    if lh != [] {
      SlotPlanIs(lay, d, lh, cache);
      SlotPlanDone(lay, d, lh, cache);
      InstallPlanIs(lay, d, lh, cache, Apply(t, LogPlan(lay, t, lh)));
    }
  }

  lemma SlotPlanIs(lay: Layout, d: Disk, lh: seq<int>, cache: map<int, Block>)
    requires CommitReady(lay, d, lh, cache) && Writable(lay, Seen(d, cache), lh)
    ensures Copies(Seen(d, cache), lh, Slots(lay, |lh|)) == SlotWrites(lay, lh, cache)
  {
    hide Copies, Apart;
    var t := Seen(d, cache);
    SlotsApart(lay, lh);
    forall i | 0 <= i < |lh| ensures Copies(t, lh, Slots(lay, |lh|))[i] == SlotWrites(lay, lh, cache)[i] {
      assert lh[i] in cache && IsHome(lay, lh[i]);
      CopiesApart(t, lh, Slots(lay, |lh|), i);
    }
  }

  lemma SlotPlanDone(lay: Layout, d: Disk, lh: seq<int>, cache: map<int, Block>)
    requires CommitReady(lay, d, lh, cache) && Writable(lay, Seen(d, cache), lh)
    ensures
      var t2 := Apply(Seen(d, cache), LogPlan(lay, Seen(d, cache), lh));
      forall i {:trigger lh[i]} :: 0 <= i < |lh| ==> t2[lay.start + 1 + i] == cache[lh[i]]
  {
    hide Apply, Copies;
    var t := Seen(d, cache);
    SlotPlanIs(lay, d, lh, cache);
    var ws := Copies(t, lh, Slots(lay, |lh|));
    ApplySnoc(t, ws, Write(lay.start, PutHeader(t[lay.start], lh)));
    forall i | 0 <= i < |lh| ensures Apply(t, ws)[lay.start + 1 + i] == cache[lh[i]] {
      ApplySlots(lay, t, ws, i);
    }
  }

  /** Writes to the slots in order: slot i holds write number i. */
  lemma {:induction false} ApplySlots(lay: Layout, t: Disk, ws: seq<Write>, i: nat)
    requires WritesFit(t, ws) && i < |ws| && forall k :: 0 <= k < |ws| ==> ws[k].bno == lay.start + 1 + k
    ensures lay.start + 1 + i < |t| && Apply(t, ws)[lay.start + 1 + i] == ws[i].data
  {
    assert ws[i].bno < |t|;
    if i < |ws| - 1 {
      ApplySlots(lay, t, ws[..|ws| - 1], i);
    }
  }

  lemma InstallPlanIs(lay: Layout, d: Disk, lh: seq<int>, cache: map<int, Block>, t2: Disk)
    requires CommitReady(lay, d, lh, cache) && |t2| == lay.size
    requires forall i {:trigger lh[i]} :: 0 <= i < |lh| ==> t2[lay.start + 1 + i] == cache[lh[i]]
    ensures InRange(t2, Slots(lay, |lh|)) && InRange(t2, lh)
    ensures Copies(t2, Slots(lay, |lh|), lh) == InstallWrites(lh, cache)
  {
    hide Copies, Apart;
    SlotsApart(lay, lh);
    forall i | 0 <= i < |lh| ensures Copies(t2, Slots(lay, |lh|), lh)[i] == InstallWrites(lh, cache)[i] {
      assert lh[i] in cache;
      CopiesApart(t2, Slots(lay, |lh|), lh, i);
    }
  }

  // ---------- the tests of begin_op and log_write ----------

  /** The test of begin_op: no commit under way and room for one more full reservation. */
  predicate MayBegin(n: int, outstanding: int, committing: bool) {
    !committing && n + (outstanding + 1) * MAXOPBLOCKS <= LOGSIZE
  }

  /** The tests at the top of log_write. */
  predicate LogWritePanics(lay: Layout, n: int, outstanding: int) {
    n >= LOGSIZE || n >= lay.nlog - 1 || outstanding < 1
  }

  /** Log absorption: a block already listed keeps its slot. */
  function Absorb(lh: seq<int>, b: int): (r: seq<int>)
    ensures b in r && (forall x :: x in lh ==> x in r) && (forall x :: x in r ==> x in lh || x == b)
    ensures Distinct(lh) ==> Distinct(r)
  {
    if b in lh then lh else lh + [b]
  }

  // ---------- crash atomicity ----------

  lemma PositionUnique(s: seq<int>, i: nat)
    requires Distinct(s) && i < |s|
    ensures Position(s, s[i]) == i
  {
    var j := Position(s, s[i]);
    assert s[j] == s[i];
  }

  /** Block b after k of commit's n + 1 + n + 1 writes. */
  ghost function CommitBlockAt(lay: Layout, d: Disk, lh: seq<int>, cache: map<int, Block>, k: nat, b: nat): Block
    requires CommitReady(lay, d, lh, cache) && b < |d|
  {
    var n := |lh|;
    if b == lay.start then
      if k <= n then d[b]
      else if k <= 2 * n + 1 then PutHeader(d[b], lh)
      else PutHeader(PutHeader(d[b], lh), [])
    else if lay.start < b <= lay.start + n && b - lay.start - 1 < k then cache[lh[b - lay.start - 1]]
    else if b in lh && n + 1 + Position(lh, b) < k then cache[b]
    else d[b]
  }

  ghost predicate CommitDisk(lay: Layout, d: Disk, lh: seq<int>, cache: map<int, Block>, k: nat, dk: Disk)
    requires CommitReady(lay, d, lh, cache)
  {
    |dk| == |d| && forall b :: 0 <= b < |d| ==> dk[b] == CommitBlockAt(lay, d, lh, cache, k, b)
  }

  lemma CommitWritesFit(lay: Layout, d: Disk, lh: seq<int>, cache: map<int, Block>)
    requires CommitReady(lay, d, lh, cache)
    ensures WritesFit(d, CommitWrites(lay, d, lh, cache))
    ensures lh != [] ==> |CommitWrites(lay, d, lh, cache)| == 2 * |lh| + 2
  {
  }

  lemma CommitStart(lay: Layout, d: Disk, lh: seq<int>, cache: map<int, Block>)
    requires CommitReady(lay, d, lh, cache)
    ensures CommitDisk(lay, d, lh, cache, 0, d)
  {
  }

  lemma {:induction false} CommitPrefix(lay: Layout, d: Disk, lh: seq<int>, cache: map<int, Block>, k: nat)
    requires CommitReady(lay, d, lh, cache) && lh != []
    requires k <= 2 * |lh| + 2
    ensures WritesFit(d, CommitWrites(lay, d, lh, cache))
    ensures |CommitWrites(lay, d, lh, cache)| == 2 * |lh| + 2
    ensures CommitDisk(lay, d, lh, cache, k, Apply(d, CommitWrites(lay, d, lh, cache)[..k]))
  {
    CommitWritesFit(lay, d, lh, cache);
    hide CommitReady, CommitBlockAt, CommitWrites;
    var ws := CommitWrites(lay, d, lh, cache);
    if k == 0 {
      CommitStart(lay, d, lh, cache);
      assert ws[..0] == [];
    } else {
      CommitPrefix(lay, d, lh, cache, k - 1);
      ApplyNext(d, ws, k - 1);
      var dk := Apply(d, ws[..k - 1]);
      forall b | 0 <= b < |d|
        ensures dk[ws[k - 1].bno := ws[k - 1].data][b] == CommitBlockAt(lay, d, lh, cache, k, b)
      {
        CommitStep(lay, d, lh, cache, k - 1, b);
      }
    }
  }

  lemma CommitWriteIs(lay: Layout, d: Disk, lh: seq<int>, cache: map<int, Block>, k: nat)
    requires CommitReady(lay, d, lh, cache) && lh != []
    requires k < 2 * |lh| + 2
    ensures |CommitWrites(lay, d, lh, cache)| == 2 * |lh| + 2
    ensures CommitWrites(lay, d, lh, cache)[k] ==
            (if k < |lh| then Write(lay.start + 1 + k, cache[lh[k]])
             else if k == |lh| then Write(lay.start, PutHeader(d[lay.start], lh))
             else if k < 2 * |lh| + 1 then Write(lh[k - |lh| - 1], cache[lh[k - |lh| - 1]])
             else Write(lay.start, PutHeader(PutHeader(d[lay.start], lh), [])))
  {
  }

  /** Write number k changes its own block and no other. */
  lemma CommitStep(lay: Layout, d: Disk, lh: seq<int>, cache: map<int, Block>, k: nat, b: nat)
    requires CommitReady(lay, d, lh, cache) && lh != []
    requires k < 2 * |lh| + 2 && b < |d|
    ensures |CommitWrites(lay, d, lh, cache)| == 2 * |lh| + 2
    ensures
      var w := CommitWrites(lay, d, lh, cache)[k];
      CommitBlockAt(lay, d, lh, cache, k + 1, b)
      == if b == w.bno then w.data else CommitBlockAt(lay, d, lh, cache, k, b)
  {
    hide CommitWrites;
    CommitWriteIs(lay, d, lh, cache, k);
    if b in lh {
      PositionUnique(lh, Position(lh, b));
      assert IsHome(lay, lh[Position(lh, b)]);
    }
    if |lh| < k < 2 * |lh| + 1 {
      PositionUnique(lh, k - |lh| - 1);
    }
  }

  /** Crash atomicity of commit: a crash after k of its writes loses the transaction if the
      header had not been written and keeps all of it if it had. */
  lemma CommitIsAtomic(lay: Layout, d: Disk, lh: seq<int>, cache: map<int, Block>, k: nat)
    requires CommitReady(lay, d, lh, cache)
    requires k <= |CommitWrites(lay, d, lh, cache)|
    requires Pins(lh, cache)
    ensures WritesFit(d, CommitWrites(lay, d, lh, cache))
    ensures
      var dk := Apply(d, CommitWrites(lay, d, lh, cache)[..k]);
      && GoodDisk(lay, dk)
      && Durable(lay, dk) == (if k <= |lh| then Home(lay, d) else Home(lay, d) + cache)
      && (k == |CommitWrites(lay, d, lh, cache)| ==>
            HeaderN(dk[lay.start]) == 0 && Home(lay, dk) == Durable(lay, dk))
  {
    CommitWritesFit(lay, d, lh, cache);
    var ws := CommitWrites(lay, d, lh, cache);
    var dk := Apply(d, ws[..k]);
    if lh == [] {
      assert ws[..k] == [] && dk == d;
      assert Durable(lay, dk) == Home(lay, d);
      assert cache == map[];
    } else {
      CommitPrefix(lay, d, lh, cache, k);
      CommitMeaning(lay, d, lh, cache, k, dk);
    }
  }

  lemma CommitMeaning(lay: Layout, d: Disk, lh: seq<int>, cache: map<int, Block>, k: nat, dk: Disk)
    requires CommitReady(lay, d, lh, cache) && lh != []
    requires k <= 2 * |lh| + 2
    requires CommitDisk(lay, d, lh, cache, k, dk)
    requires Pins(lh, cache)
    ensures GoodDisk(lay, dk)
    ensures Durable(lay, dk) == (if k <= |lh| then Home(lay, d) else Home(lay, d) + cache)
    ensures k == 2 * |lh| + 2 ==> HeaderN(dk[lay.start]) == 0 && Home(lay, dk) == Durable(lay, dk)
  {
    hide CommitDisk, CommitReady, GoodDisk, DurableBlock;
    CommitHeader(lay, d, lh, cache, k, dk);
    CachedAreHome(lay, d, lh, cache);
    var want := if k <= |lh| then Home(lay, d) else Home(lay, d) + cache;
    forall b | IsHome(lay, b)
      ensures b in want && DurableBlock(lay, dk, b) == want[b]
    {
      CommitMeaningAt(lay, d, lh, cache, k, dk, b);
    }
    assert Durable(lay, dk) == want;
    if k == 2 * |lh| + 2 {
      EmptyLogIsDurable(lay, dk);
    }
  }

  lemma CachedAreHome(lay: Layout, d: Disk, lh: seq<int>, cache: map<int, Block>)
    requires CommitReady(lay, d, lh, cache)
    requires Pins(lh, cache)
    ensures forall b :: b in cache ==> IsHome(lay, b)
  {
  }

  lemma CommitHeader(lay: Layout, d: Disk, lh: seq<int>, cache: map<int, Block>, k: nat, dk: Disk)
    requires CommitReady(lay, d, lh, cache) && lh != []
    requires CommitDisk(lay, d, lh, cache, k, dk)
    ensures |d| == |dk| == lay.size && lay.start < lay.size && GoodDisk(lay, dk) && HasHeader(dk[lay.start])
    ensures HeaderList(dk[lay.start]) == if |lh| < k <= 2 * |lh| + 1 then lh else []
  {
    assert dk[lay.start] == CommitBlockAt(lay, d, lh, cache, k, lay.start);
  }

  /** A home block: before the header write its old contents are durable; after it a logged
      block's cached contents are, whether they are still only in the log or already at home. */
  lemma CommitMeaningAt(lay: Layout, d: Disk, lh: seq<int>, cache: map<int, Block>, k: nat, dk: Disk, b: nat)
    requires CommitReady(lay, d, lh, cache) && lh != []
    requires k <= 2 * |lh| + 2
    requires CommitDisk(lay, d, lh, cache, k, dk)
    requires IsHome(lay, b)
    requires GoodDisk(lay, dk)
    ensures b in lh ==> b in cache
    ensures DurableBlock(lay, dk, b) == if k <= |lh| || b !in lh then d[b] else cache[b]
  {
    CommitHeader(lay, d, lh, cache, k, dk);
    assert dk[b] == CommitBlockAt(lay, d, lh, cache, k, b);
    if b in lh {
      var i := Position(lh, b);
      assert lh[i] in cache;
      assert dk[lay.start + 1 + i] == CommitBlockAt(lay, d, lh, cache, k, lay.start + 1 + i);
    }
  }

  lemma EmptyLogIsDurable(lay: Layout, d: Disk)
    requires GoodDisk(lay, d) && HeaderN(d[lay.start]) == 0
    ensures Home(lay, d) == Durable(lay, d)
  {
  }

  /** Block b after k of recovery's writes. */
  ghost function RecoveryBlockAt(lay: Layout, d: Disk, k: nat, b: nat): Block
    requires GoodDisk(lay, d) && b < |d|
  {
    var lh := HeaderList(d[lay.start]);
    if b == lay.start then if k <= |lh| then d[b] else PutHeader(d[b], [])
    else if b in lh && Position(lh, b) < k then d[lay.start + 1 + Position(lh, b)]
    else d[b]
  }

  ghost predicate RecoveryDisk(lay: Layout, d: Disk, k: nat, dk: Disk)
    requires GoodDisk(lay, d)
  {
    |dk| == |d| && forall b :: 0 <= b < |d| ==> dk[b] == RecoveryBlockAt(lay, d, k, b)
  }

  lemma RecoveryStep(lay: Layout, d: Disk, k: nat, b: nat)
    requires GoodDisk(lay, d)
    requires k < |RecoveryWrites(lay, d)| && b < |d|
    ensures
      var w := RecoveryWrites(lay, d)[k];
      RecoveryBlockAt(lay, d, k + 1, b)
      == if b == w.bno then w.data else RecoveryBlockAt(lay, d, k, b)
  {
    var lh := HeaderList(d[lay.start]);
    var w := RecoveryWrites(lay, d)[k];
    if k < |lh| {
      assert w == Write(lh[k], d[lay.start + 1 + k]);
      PositionUnique(lh, k);
      assert IsHome(lay, lh[k]);
    } else {
      assert w == Write(lay.start, PutHeader(d[lay.start], []));
    }
  }

  lemma RecoveryStart(lay: Layout, d: Disk)
    requires GoodDisk(lay, d)
    ensures RecoveryDisk(lay, d, 0, d)
  {
  }

  lemma RecoveryWritesFit(lay: Layout, d: Disk)
    requires GoodDisk(lay, d)
    ensures WritesFit(d, RecoveryWrites(lay, d))
  {
  }

  lemma {:induction false} RecoveryPrefix(lay: Layout, d: Disk, k: nat)
    requires GoodDisk(lay, d)
    requires k <= |RecoveryWrites(lay, d)|
    ensures WritesFit(d, RecoveryWrites(lay, d))
    ensures RecoveryDisk(lay, d, k, Apply(d, RecoveryWrites(lay, d)[..k]))
  {
    RecoveryWritesFit(lay, d);
    hide GoodDisk, RecoveryBlockAt, RecoveryWrites;
    var ws := RecoveryWrites(lay, d);
    if k == 0 {
      RecoveryStart(lay, d);
      assert ws[..0] == [];
    } else {
      RecoveryPrefix(lay, d, k - 1);
      ApplyNext(d, ws, k - 1);
      var dk := Apply(d, ws[..k - 1]);
      forall b | 0 <= b < |d|
        ensures dk[ws[k - 1].bno := ws[k - 1].data][b] == RecoveryBlockAt(lay, d, k, b)
      {
        RecoveryStep(lay, d, k - 1, b);
      }
    }
  }

  lemma RecoveryMeaningAt(lay: Layout, d: Disk, k: nat, dk: Disk, b: nat)
    requires GoodDisk(lay, d) && GoodDisk(lay, dk)
    requires RecoveryDisk(lay, d, k, dk)
    requires IsHome(lay, b)
    ensures DurableBlock(lay, dk, b) == DurableBlock(lay, d, b)
  {
    var lh := HeaderList(d[lay.start]);
    assert dk[lay.start] == RecoveryBlockAt(lay, d, k, lay.start);
    assert dk[b] == RecoveryBlockAt(lay, d, k, b);
    if b in lh {
      var slot := lay.start + 1 + Position(lh, b);
      assert dk[slot] == RecoveryBlockAt(lay, d, k, slot);
      assert forall i :: 0 <= i < |lh| ==> IsHome(lay, lh[i]) && lh[i] != slot;
    }
  }

  /** A recovery that crashes after k of its writes has changed nothing that matters, and one
      that finishes leaves the durable contents in the home blocks and the log empty. */
  lemma RecoveryIsIdempotent(lay: Layout, d: Disk, k: nat)
    requires GoodDisk(lay, d)
    requires k <= |RecoveryWrites(lay, d)|
    ensures WritesFit(d, RecoveryWrites(lay, d))
    ensures
      var dk := Apply(d, RecoveryWrites(lay, d)[..k]);
      && GoodDisk(lay, dk)
      && Durable(lay, dk) == Durable(lay, d)
      && (k == |RecoveryWrites(lay, d)| ==> HeaderN(dk[lay.start]) == 0 && Home(lay, dk) == Durable(lay, d))
  {
    RecoveryPrefix(lay, d, k);
    var dk := Apply(d, RecoveryWrites(lay, d)[..k]);
    RecoveryMeaning(lay, d, k, dk);
  }

  lemma RecoveryMeaning(lay: Layout, d: Disk, k: nat, dk: Disk)
    requires GoodDisk(lay, d)
    requires RecoveryDisk(lay, d, k, dk)
    ensures GoodDisk(lay, dk) && Durable(lay, dk) == Durable(lay, d)
    ensures k > HeaderN(d[lay.start]) ==> HeaderN(dk[lay.start]) == 0 && Home(lay, dk) == Durable(lay, d)
  {
    RecoveryKeepsHeader(lay, d, k, dk);
    hide RecoveryDisk, DurableBlock;
    forall b | IsHome(lay, b)
      ensures DurableBlock(lay, dk, b) == DurableBlock(lay, d, b)
    {
      RecoveryMeaningAt(lay, d, k, dk, b);
    }
    assert Durable(lay, dk) == Durable(lay, d);
    if k > HeaderN(d[lay.start]) {
      EmptyLogIsDurable(lay, dk);
    }
  }

  lemma RecoveryKeepsHeader(lay: Layout, d: Disk, k: nat, dk: Disk)
    requires GoodDisk(lay, d)
    requires RecoveryDisk(lay, d, k, dk)
    ensures GoodDisk(lay, dk)
    ensures HeaderList(dk[lay.start]) == if k <= HeaderN(d[lay.start]) then HeaderList(d[lay.start]) else []
  {
    assert dk[lay.start] == RecoveryBlockAt(lay, d, k, lay.start);
  }

  // ---------- the write-ahead rule ----------

  /** The header on disk lists the block that w overwrites, and its slot holds what w writes. */
  ghost predicate Ahead(lay: Layout, d: Disk, w: Write) {
    && GoodDisk(lay, d)
    && w.bno in HeaderList(d[lay.start])
    && d[lay.start + 1 + Position(HeaderList(d[lay.start]), w.bno)] == w.data
  }

  /** Commit overwrites a home block only when the header and the slot on disk are ahead of it. */
  lemma CommitWritesAhead(lay: Layout, d: Disk, lh: seq<int>, cache: map<int, Block>, k: nat)
    requires CommitReady(lay, d, lh, cache) && k < |CommitWrites(lay, d, lh, cache)|
    requires IsHome(lay, CommitWrites(lay, d, lh, cache)[k].bno)
    ensures WritesFit(d, CommitWrites(lay, d, lh, cache))
    ensures Ahead(lay, Apply(d, CommitWrites(lay, d, lh, cache)[..k]), CommitWrites(lay, d, lh, cache)[k])
  {
    hide CommitWrites, Apply, CommitReady, CommitDisk;
    NothingIsWritten(lay, d, lh, cache);
    CommitPrefix(lay, d, lh, cache, k);
    CommitWriteIs(lay, d, lh, cache, k);
    var dk := Apply(d, CommitWrites(lay, d, lh, cache)[..k]);
    CommitHeader(lay, d, lh, cache, k, dk);
    HomeWritesAreInstalls(lay, d, lh, cache, k);
    PositionUnique(lh, k - |lh| - 1);
    SlotIsCache(lay, d, lh, cache, k, dk, k - |lh| - 1);
  }

  lemma NothingIsWritten(lay: Layout, d: Disk, lh: seq<int>, cache: map<int, Block>)
    requires CommitReady(lay, d, lh, cache)
    ensures Distinct(lh) && (lh == [] ==> CommitWrites(lay, d, lh, cache) == [])
    ensures lh != [] ==> |CommitWrites(lay, d, lh, cache)| == 2 * |lh| + 2
  {
  }

  lemma HomeWritesAreInstalls(lay: Layout, d: Disk, lh: seq<int>, cache: map<int, Block>, k: nat)
    requires CommitReady(lay, d, lh, cache) && lh != [] && k < 2 * |lh| + 2
    requires k < |CommitWrites(lay, d, lh, cache)| && IsHome(lay, CommitWrites(lay, d, lh, cache)[k].bno)
    ensures |lh| < k < 2 * |lh| + 1
  {
    hide CommitWrites;
    CommitWriteIs(lay, d, lh, cache, k);
  }

  lemma SlotIsCache(lay: Layout, d: Disk, lh: seq<int>, cache: map<int, Block>, k: nat, dk: Disk, i: nat)
    requires CommitReady(lay, d, lh, cache) && CommitDisk(lay, d, lh, cache, k, dk) && i < |lh| < k
    ensures lh[i] in cache && lay.start + 1 + i < |dk| && dk[lay.start + 1 + i] == cache[lh[i]]
  {
    assert dk[lay.start + 1 + i] == CommitBlockAt(lay, d, lh, cache, k, lay.start + 1 + i);
  }

  /** So does recovery. */
  lemma RecoveryWritesAhead(lay: Layout, d: Disk, k: nat)
    requires GoodDisk(lay, d) && k < |RecoveryWrites(lay, d)| && IsHome(lay, RecoveryWrites(lay, d)[k].bno)
    ensures WritesFit(d, RecoveryWrites(lay, d))
    ensures Ahead(lay, Apply(d, RecoveryWrites(lay, d)[..k]), RecoveryWrites(lay, d)[k])
  {
    hide Apply, RecoveryWrites, RecoveryDisk, Listing, HeaderList;
    RecoveryPrefix(lay, d, k);
    RecoveryHomeWrite(lay, d, k);
    DistinctHeader(lay, d);
    var dk := Apply(d, RecoveryWrites(lay, d)[..k]);
    RecoveryKeepsHeader(lay, d, k, dk);
    PositionUnique(HeaderList(d[lay.start]), k);
    RecoveryKeepsSlot(lay, d, k, dk, k);
  }

  lemma DistinctHeader(lay: Layout, d: Disk)
    requires GoodDisk(lay, d)
    ensures Distinct(HeaderList(d[lay.start])) && |HeaderList(d[lay.start])| == HeaderN(d[lay.start])
  {
  }

  lemma RecoveryHomeWrite(lay: Layout, d: Disk, k: nat)
    requires GoodDisk(lay, d) && k < |RecoveryWrites(lay, d)| && IsHome(lay, RecoveryWrites(lay, d)[k].bno)
    ensures
      var lh := HeaderList(d[lay.start]);
      k < |lh| && lay.start + 1 + k < |d| && RecoveryWrites(lay, d)[k] == Write(lh[k], d[lay.start + 1 + k])
  {
  }

  lemma RecoveryKeepsSlot(lay: Layout, d: Disk, k: nat, dk: Disk, i: nat)
    requires GoodDisk(lay, d) && RecoveryDisk(lay, d, k, dk) && i < |HeaderList(d[lay.start])|
    ensures lay.start + 1 + i < |dk| == |d| && dk[lay.start + 1 + i] == d[lay.start + 1 + i]
  {
    var lh := HeaderList(d[lay.start]);
    assert forall j :: 0 <= j < |lh| ==> IsHome(lay, lh[j]) && lh[j] != lay.start + 1 + i;
    assert dk[lay.start + 1 + i] == RecoveryBlockAt(lay, d, k, lay.start + 1 + i);
  }

  /** The disk after a series of recoveries, the i-th of which crashes after crashes[i] writes. */
  ghost predicate CrashedRecoveries(lay: Layout, d: Disk, crashes: seq<nat>, dk: Disk) {
    if crashes == [] then dk == d
    else
      var init, last := crashes[..|crashes| - 1], crashes[|crashes| - 1];
      exists mid :: CrashedRecoveries(lay, d, init, mid) && OneCrashedRecovery(lay, mid, last, dk)
  }

  ghost predicate OneCrashedRecovery(lay: Layout, d: Disk, k: nat, dk: Disk) {
    && GoodDisk(lay, d)
    && k <= |RecoveryWrites(lay, d)|
    && WritesFit(d, RecoveryWrites(lay, d))
    && dk == Apply(d, RecoveryWrites(lay, d)[..k])
  }

  lemma {:induction false} RecoveriesKeepDurable(lay: Layout, d: Disk, crashes: seq<nat>, dk: Disk)
    requires GoodDisk(lay, d)
    requires CrashedRecoveries(lay, d, crashes, dk)
    ensures GoodDisk(lay, dk) && Durable(lay, dk) == Durable(lay, d)
    decreases |crashes|
  {
    if crashes != [] {
      var init := crashes[..|crashes| - 1];
      var mid :| CrashedRecoveries(lay, d, init, mid) && OneCrashedRecovery(lay, mid, crashes[|crashes| - 1], dk);
      RecoveriesKeepDurable(lay, d, init, mid);
      RecoveryIsIdempotent(lay, mid, crashes[|crashes| - 1]);
    }
  }

  /** Crash atomicity end to end: commit crashes after k writes, then any number of recoveries
      crash, then one finishes.  The home blocks are the old ones or the new ones as a whole. */
  lemma CommitCrashRecover(lay: Layout, d: Disk, lh: seq<int>, cache: map<int, Block>,
                           k: nat, crashes: seq<nat>, crashed: Disk, mid: Disk)
    requires CommitReady(lay, d, lh, cache)
    requires k <= |CommitWrites(lay, d, lh, cache)|
    requires WritesFit(d, CommitWrites(lay, d, lh, cache))
    requires Pins(lh, cache)
    requires crashed == Apply(d, CommitWrites(lay, d, lh, cache)[..k])
    requires CrashedRecoveries(lay, crashed, crashes, mid)
    ensures GoodDisk(lay, mid) && WritesFit(mid, RecoveryWrites(lay, mid))
    ensures
      var done := Apply(mid, RecoveryWrites(lay, mid));
      && Home(lay, done) == (if k <= |lh| then Home(lay, d) else Home(lay, d) + cache)
      && HasHeader(done[lay.start]) && HeaderN(done[lay.start]) == 0
  {
    CommitIsAtomic(lay, d, lh, cache, k);
    RecoveriesKeepDurable(lay, crashed, crashes, mid);
    var ws := RecoveryWrites(lay, mid);
    RecoveryIsIdempotent(lay, mid, |ws|);
    assert ws[..|ws|] == ws;
  }

  // ---------- where the procedures of log.c stand in these sequences ----------

  lemma RecoveryEnds(lay: Layout, d: Disk)
    requires GoodDisk(lay, d)
    ensures
      var ws := RecoveryWrites(lay, d);
      && WritesFit(d, ws)
      && GoodDisk(lay, Apply(d, ws))
      && Home(lay, Apply(d, ws)) == Durable(lay, d) && HeaderN(Apply(d, ws)[lay.start]) == 0
  {
    var ws := RecoveryWrites(lay, d);
    RecoveryIsIdempotent(lay, d, |ws|);
    assert ws[..|ws|] == ws;
  }

  lemma CommitEnds(lay: Layout, d: Disk, lh: seq<int>, cache: map<int, Block>)
    requires CommitReady(lay, d, lh, cache)
    requires Pins(lh, cache)
    ensures
      var ws := CommitWrites(lay, d, lh, cache);
      && WritesFit(d, ws)
      && GoodDisk(lay, Apply(d, ws))
      && Home(lay, Apply(d, ws)) == Home(lay, d) + cache && HeaderN(Apply(d, ws)[lay.start]) == 0
  {
    var ws := CommitWrites(lay, d, lh, cache);
    CommitIsAtomic(lay, d, lh, cache, |ws|);
    assert ws[..|ws|] == ws;
    if lh == [] {
      assert cache == map[];
    }
  }
}
