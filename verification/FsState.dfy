/** The state of the file system between and inside operations, and what each step does to it. */
module FsState {
  import opened Blocks
  import opened Params

  const IPB := 32

  /** The file system: block contents as the buffer cache shows them, the free bitmap bit by bit,
      the inodes in memory and on disk, and who refers to each block. */
  datatype St = St(nmeta: nat, disk: seq<Block>, used: seq<bool>, icache: seq<Inode>, dinode: seq<Inode>,
                   owner: map<int, Slot>)

  /** A bit is set exactly for the metadata blocks and the blocks some slot refers to. */
  ghost predicate UsedOk(used: seq<bool>, owner: map<int, Slot>, nmeta: nat) {
    forall b :: 0 <= b < |used| ==> (used[b] <==> b < nmeta || b in owner)
  }

  /** No block is free. */
  ghost predicate Full(used: seq<bool>) {
    forall c :: 0 <= c < |used| ==> used[c]
  }

  ghost predicate Base(st: St) {
    && Owned(st.disk, st.icache, st.owner, st.nmeta)
    && UsedOk(st.used, st.owner, st.nmeta)
    && |st.used| == |st.disk| && |st.dinode| == |st.icache|
  }

  ghost predicate FileOk(st: St, i: nat)
    requires ShapedFs(st.disk, st.icache) && i < |st.icache| == |st.dinode|
  {
    && st.icache[i].size <= MAXFILE * BSIZE
    && HoleFree(st.disk, st.icache, i, NBlocks(st.icache[i].size))
    && st.dinode[i] == st.icache[i]
  }

  ghost predicate OthersOk(st: St, ip: nat)
    requires ShapedFs(st.disk, st.icache) && |st.icache| == |st.dinode|
  {
    forall i :: 0 <= i < |st.icache| && i != ip ==> FileOk(st, i)
  }

  /** Between operations: the inodes on disk are up to date and no file has a hole. */
  ghost predicate Ok(st: St) {
    Base(st) && forall i :: 0 <= i < |st.icache| ==> FileOk(st, i)
  }

  /** Inside an operation on file ip, which has nb blocks so far. */
  ghost predicate Working(st: St, ip: nat, nb: nat) {
    Base(st) && ip < |st.icache| && HoleFree(st.disk, st.icache, ip, nb) && OthersOk(st, ip)
  }

  /** Inside bmap, between the two ballocs that the first indirect block needs. */
  ghost predicate Tabled(st: St, ip: nat) {
    Base(st) && ip < |st.icache| && TabledOnly(st.disk, st.icache, ip) && OthersOk(st, ip)
  }

  /** Every byte of every file is the same, except in block bn of file ip; and no inode but ip
      has changed, and ip's size has not. */
  ghost predicate SameBytes(st: St, st': St, ip: nat, bn: nat) {
    && ShapedFs(st.disk, st.icache) && ShapedFs(st'.disk, st'.icache)
    && |st'.icache| == |st.icache| && |st'.disk| == |st.disk| && st'.dinode == st.dinode && st'.nmeta == st.nmeta
    && (forall i :: 0 <= i < |st.icache| && i != ip ==> st'.icache[i] == st.icache[i])
    && (forall i :: 0 <= i < |st.icache| ==> st'.icache[i].size == st.icache[i].size)
    && (forall i, k :: 0 <= i < |st.icache| && 0 <= k < MAXFILE * BSIZE && !(i == ip && k / BSIZE == bn) ==>
          ByteAt(st'.disk, st'.icache, i, k) == ByteAt(st.disk, st.icache, i, k))
  }

  lemma SameBytesRefl(st: St, ip: nat, bn: nat)
    requires Base(st)
    ensures SameBytes(st, st, ip, bn)
  {
  }

  lemma SameBytesTrans(a: St, b: St, c: St, ip: nat, bn: nat)
    requires SameBytes(a, b, ip, bn) && SameBytes(b, c, ip, bn)
    ensures SameBytes(a, c, ip, bn)
  {
  }

  // ---------- one allocation ----------

  /** A fresh zeroed block b in slot s of inode ip; the inode on disk is not yet told. */
  ghost function Filled(st: St, s: Slot, b: int): St
    requires Base(st) && SlotOk(st.icache, s) && !s.Entry? && 0 <= b < |st.disk|
  {
    st.(disk := st.disk[b := Zeroed()], used := st.used[b := true],
        icache := SetAddr(st.icache, s.inum, AddrIndex(s), b), owner := st.owner[b := s])
  }

  ghost function FilledEntry(st: St, ip: nat, j: nat, b: int): St
    requires Base(st) && ip < |st.icache| && j < NINDIRECT && 0 <= b < |st.disk|
    requires 0 < st.icache[ip].addrs[NDIRECT] < |st.disk|
  {
    var a := st.icache[ip].addrs[NDIRECT];
    st.(disk := st.disk[b := Zeroed()][a := PutWord(st.disk[a], j, b)], used := st.used[b := true],
        owner := st.owner[b := Entry(ip, j)])
  }

  lemma UsedFill(used: seq<bool>, owner: map<int, Slot>, nmeta: nat, b: nat, s: Slot)
    requires UsedOk(used, owner, nmeta) && b < |used| && !used[b]
    ensures nmeta <= b && b !in owner
    ensures UsedOk(used[b := true], owner[b := s], nmeta)
  {
  }

  lemma OthersStay(st: St, st': St, s: Slot)
    requires OnlySlot(st.disk, st.icache, st'.disk, st'.icache, s)
    requires |st.dinode| == |st.icache| && st'.dinode == st.dinode
    requires forall i :: 0 <= i < |st.icache| && i != s.inum ==> st'.icache[i] == st.icache[i]
    requires OthersOk(st, s.inum)
    ensures OthersOk(st', s.inum)
  {
    hide ShapedFs, Ref, HoleFree;
    forall i | 0 <= i < |st.icache| && i != s.inum ensures FileOk(st', i) {
      assert FileOk(st, i);
      OthersHoleFree(st.disk, st.icache, st'.disk, st'.icache, s, i, NBlocks(st.icache[i].size));
    }
  }

  lemma StepSameBytes(st: St, st': St, s: Slot, bn: nat)
    requires OnlySlot(st.disk, st.icache, st'.disk, st'.icache, s) && SameData(st.disk, st.icache, st'.disk, s)
    requires s == SlotOf(s.inum, bn) || s.Table?
    requires st'.dinode == st.dinode && st'.nmeta == st.nmeta
    requires forall i :: 0 <= i < |st.icache| && i != s.inum ==> st'.icache[i] == st.icache[i]
    requires forall i :: 0 <= i < |st.icache| ==> st'.icache[i].size == st.icache[i].size
    ensures SameBytes(st, st', s.inum, bn)
  {
  }

  /** What filling an inode slot does to the whole state. */
  lemma FillSlot(st: St, s: Slot, b: nat, bn: nat)
    requires Base(st) && SlotOk(st.icache, s) && !s.Entry? && OthersOk(st, s.inum)
    requires Ref(st.disk, st.icache, s) == 0 && b < |st.disk| && !st.used[b]
    requires s == SlotOf(s.inum, bn) || s.Table?
    ensures Base(Filled(st, s, b)) && OthersOk(Filled(st, s, b), s.inum)
    ensures OnlySlot(st.disk, st.icache, Filled(st, s, b).disk, Filled(st, s, b).icache, s)
    ensures Ref(Filled(st, s, b).disk, Filled(st, s, b).icache, s) == b > 0
    ensures SameBytes(st, Filled(st, s, b), s.inum, bn)
  {
    hide Word, Zeroed, HoleFree, SameBytes, OthersOk, OnlySlot, SameData, UsedOk;
    var st' := Filled(st, s, b);
    UsedFill(st.used, st.owner, st.nmeta, b, s);
    FillAddr(st.disk, st.icache, st.owner, st.nmeta, s, b);
    FillAddrKeepsData(st.disk, st.icache, st.owner, st.nmeta, s, b);
    OthersStay(st, st', s);
    StepSameBytes(st, st', s, bn);
  }

  lemma FillDirect(st: St, ip: nat, nb: nat, b: nat)
    requires Working(st, ip, nb) && nb < NDIRECT && b < |st.disk| && !st.used[b]
    ensures var st' := Filled(st, Direct(ip, nb), b);
      Working(st', ip, nb + 1) && SameBytes(st, st', ip, nb)
      && b in st'.owner && st'.owner[b] == SlotOf(ip, nb) && BlockAt(st'.disk, st'.icache, ip, nb) == b
  {
    hide Word, Zeroed, SameBytes, OthersOk, OnlySlot, Shaped;
    var s := Direct(ip, nb);
    assert BlockAt(st.disk, st.icache, ip, nb) == 0;
    FillSlot(st, s, b, nb);
    var st' := Filled(st, s, b);
    GrowHoleFree(st.disk, st.icache, st'.disk, st'.icache, ip, nb);
  }

  lemma FillTable(st: St, ip: nat, b: nat)
    requires Working(st, ip, NDIRECT) && b < |st.disk| && !st.used[b]
    ensures var st' := Filled(st, Table(ip), b);
      Tabled(st', ip) && SameBytes(st, st', ip, NDIRECT) && st'.icache[ip].addrs[NDIRECT] == b
  {
    hide Zeroed, SameBytes, OthersOk, OnlySlot, ShapedFs;
    FillSlot(st, Table(ip), b, NDIRECT);
    var st' := Filled(st, Table(ip), b);
    TableHoleFree(st.disk, st.icache, st'.disk, st'.icache, ip);
  }

  lemma FillEntryStep(st: St, ip: nat, nb: nat, b: nat)
    requires NDIRECT <= nb < MAXFILE && (Working(st, ip, nb) || (nb == NDIRECT && Tabled(st, ip)))
    requires nb == NDIRECT ==> Tabled(st, ip)
    requires b < |st.disk| && !st.used[b]
    ensures 0 < st.icache[ip].addrs[NDIRECT] < |st.disk|
    ensures var st' := FilledEntry(st, ip, nb - NDIRECT, b);
      Working(st', ip, nb + 1) && SameBytes(st, st', ip, nb)
      && b in st'.owner && st'.owner[b] == SlotOf(ip, nb) && BlockAt(st'.disk, st'.icache, ip, nb) == b
  {
    hide Word, PutWord, Zeroed, SameBytes, OthersOk, OnlySlot, SameData, UsedOk;
    var j, s, a := nb - NDIRECT, Entry(ip, nb - NDIRECT), st.icache[ip].addrs[NDIRECT];
    assert SlotOf(ip, nb) == s && BlockAt(st.disk, st.icache, ip, nb) == 0;
    UsedFill(st.used, st.owner, st.nmeta, b, s);
    FillEntry(st.disk, st.icache, st.owner, st.nmeta, ip, j, b);
    TableOwned(st.disk, st.icache, st.owner, st.nmeta, ip);
    FillEntryKeepsData(st.disk, st.icache, st.owner, st.nmeta, s, b, a, PutWord(st.disk[a], j, b));
    var st' := FilledEntry(st, ip, j, b);
    OthersStay(st, st', s);
    StepSameBytes(st, st', s, nb);
    NewEntryRef(st.disk, st.icache, ip, j, b);
    GrowHoleFree(st.disk, st.icache, st'.disk, st'.icache, ip, nb);
  }

  lemma TableOwned(disk: seq<Block>, inodes: seq<Inode>, owner: map<int, Slot>, nmeta: nat, i: nat)
    requires Owned(disk, inodes, owner, nmeta) && i < |inodes| && inodes[i].addrs[NDIRECT] != 0
    ensures inodes[i].addrs[NDIRECT] in owner && owner[inodes[i].addrs[NDIRECT]] == Table(i)
  {
    var t := Table(i);
    assert SlotOk(inodes, t) && Ref(disk, inodes, t) != 0;
    assert RefOwned(disk, inodes, owner, t);
  }

  lemma NewEntryRef(disk: seq<Block>, inodes: seq<Inode>, i: nat, j: nat, b: nat)
    requires ShapedFs(disk, inodes) && i < |inodes| && j < NINDIRECT && b < |disk|
    requires 0 < inodes[i].addrs[NDIRECT] < |disk|
    requires
      var a := inodes[i].addrs[NDIRECT];
      ShapedFs(disk[b := Zeroed()][a := PutWord(disk[a], j, b)], inodes)
    ensures
      var a := inodes[i].addrs[NDIRECT];
      Ref(disk[b := Zeroed()][a := PutWord(disk[a], j, b)], inodes, Entry(i, j)) == b
  {
    WordAfterPut(disk[inodes[i].addrs[NDIRECT]], j, b, j);
  }

  /** Writing into block bn of file ip. */
  lemma WriteBlock(st: St, ip: nat, nb: nat, bn: nat, data: Block)
    requires Working(st, ip, nb) && bn < nb && Shaped(data)
    ensures
      var b := BlockAt(st.disk, st.icache, ip, bn);
      && 0 < b < |st.disk| && b in st.owner
      && var st' := st.(disk := st.disk[b := data]);
         Working(st', ip, nb) && SameBytes(st, st', ip, bn) && BlockAt(st'.disk, st'.icache, ip, bn) == b
  {
    hide Ref, Shaped, SameBytes, SameData, OthersOk, UsedOk;
    var s := SlotOf(ip, bn);
    assert SlotOk(st.icache, s);
    var b := BlockAt(st.disk, st.icache, ip, bn);
    assert RefOwned(st.disk, st.icache, st.owner, s);
    WriteKeepsOwned(st.disk, st.icache, st.owner, st.nmeta, b, data);
    WriteKeepsData(st.disk, st.icache, st.owner, st.nmeta, s, data);
    var st' := st.(disk := st.disk[b := data]);
    assert OnlySlot(st.disk, st.icache, st'.disk, st'.icache, s);
    OthersStay(st, st', s);
    StepSameBytes(st, st', s, bn);
    assert forall n :: 0 <= n < MAXFILE ==> BlockAt(st'.disk, st'.icache, ip, n) == BlockAt(st.disk, st.icache, ip, n);
  }

  // ---------- writei, one block at a time ----------

  function Max(a: nat, b: nat): nat {
    if a < b then b else a
  }

  function Min(a: nat, b: nat): nat {
    if a < b then a else b
  }

  /** writei has written src from off0 up to off. */
  ghost predicate Written(st0: St, st: St, ip: nat, off0: nat, off: nat, src: seq<int>) {
    && ShapedFs(st0.disk, st0.icache) && ShapedFs(st.disk, st.icache)
    && ip < |st0.icache| == |st.icache| && |st.disk| == |st0.disk| && st.dinode == st0.dinode && st.nmeta == st0.nmeta
    && off0 <= off <= off0 + |src|
    && (forall i :: 0 <= i < |st.icache| && i != ip ==> st.icache[i] == st0.icache[i])
    && st.icache[ip].size == st0.icache[ip].size
    && (forall i, k :: 0 <= i < |st.icache| && 0 <= k < MAXFILE * BSIZE && i != ip ==>
          ByteAt(st.disk, st.icache, i, k) == ByteAt(st0.disk, st0.icache, i, k))
    && (forall k :: 0 <= k < Max(st0.icache[ip].size, off) && k < MAXFILE * BSIZE ==>
          ByteAt(st.disk, st.icache, ip, k) == if off0 <= k < off then src[k - off0]
            else ByteAt(st0.disk, st0.icache, ip, k))
  }

  lemma WrittenNothing(st: St, ip: nat, off: nat, src: seq<int>)
    requires Base(st) && ip < |st.icache| && off <= st.icache[ip].size
    ensures Written(st, st, ip, off, off, src)
  {
  }

  /** The block with src[..m] in it from position o on. */
  function Patch(b: Block, o: nat, src: seq<int>): (r: Block)
    requires o + |src| <= |b.byte|
    ensures |r.byte| == |b.byte|
    ensures forall k :: 0 <= k < |r.byte| ==> r.byte[k] == if o <= k < o + |src| then src[k - o] else b.byte[k]
  {
    Block(b.byte[..o] + src + b.byte[o + |src|..])
  }

  ghost predicate IsBytes(s: seq<int>) {
    forall i :: 0 <= i < |s| ==> 0 <= s[i] < 256
  }

  lemma PatchShaped(b: Block, o: nat, src: seq<int>)
    requires Shaped(b) && o + |src| <= BSIZE && IsBytes(src)
    ensures Shaped(Patch(b, o, src))
  {
  }

  /** One iteration of writei: bmap takes st to st1 and the memmove takes st1 to st2. */
  lemma WriteStep(st0: St, st: St, st1: St, st2: St, ip: nat, off0: nat, off: nat, m: nat, src: seq<int>, nb: nat)
    requires Written(st0, st, ip, off0, off, src)
    requires off + m <= off0 + |src| && off + m <= MAXFILE * BSIZE && 0 < m && off % BSIZE + m <= BSIZE
    requires nb == NBlocks(Max(st0.icache[ip].size, off)) && off / BSIZE <= nb
    requires if off / BSIZE < nb then st1 == st else SameBytes(st, st1, ip, off / BSIZE)
    requires SameBytes(st1, st2, ip, off / BSIZE)
    requires
      var b := BlockAt(st1.disk, st1.icache, ip, off / BSIZE);
      && 0 < b < |st1.disk|
      && st2.disk == st1.disk[b := Patch(st1.disk[b], off % BSIZE, src[off - off0..off - off0 + m])]
      && BlockAt(st2.disk, st2.icache, ip, off / BSIZE) == b
    ensures Written(st0, st2, ip, off0, off + m, src)
    ensures |st2.icache| == |st0.icache| && ip < |st0.icache| && st2.icache[ip].size == st0.icache[ip].size
  {
    hide BlockAt, ShapedFs;
    var bn := off / BSIZE;
    forall i, k | 0 <= i < |st.icache| && 0 <= k < MAXFILE * BSIZE && i != ip
      ensures ByteAt(st2.disk, st2.icache, i, k) == ByteAt(st0.disk, st0.icache, i, k)
    {
      assert ByteAt(st2.disk, st2.icache, i, k) == ByteAt(st1.disk, st1.icache, i, k);
    }
    forall k | 0 <= k < Max(st0.icache[ip].size, off + m) && k < MAXFILE * BSIZE
      ensures ByteAt(st2.disk, st2.icache, ip, k)
           == if off0 <= k < off + m then src[k - off0] else ByteAt(st0.disk, st0.icache, ip, k)
    {
      WriteStepAt(st0, st, st1, st2, ip, off0, off, m, src, nb, k);
    }
  }

  lemma WriteStepAt(st0: St, st: St, st1: St, st2: St, ip: nat, off0: nat, off: nat, m: nat, src: seq<int>, nb: nat,
                    k: nat)
    requires Written(st0, st, ip, off0, off, src)
    requires off + m <= off0 + |src| && off + m <= MAXFILE * BSIZE && 0 < m && off % BSIZE + m <= BSIZE
    requires nb == NBlocks(Max(st0.icache[ip].size, off)) && off / BSIZE <= nb
    requires if off / BSIZE < nb then st1 == st else SameBytes(st, st1, ip, off / BSIZE)
    requires SameBytes(st1, st2, ip, off / BSIZE)
    requires
      var b := BlockAt(st1.disk, st1.icache, ip, off / BSIZE);
      && 0 < b < |st1.disk|
      && st2.disk == st1.disk[b := Patch(st1.disk[b], off % BSIZE, src[off - off0..off - off0 + m])]
      && BlockAt(st2.disk, st2.icache, ip, off / BSIZE) == b
    requires k < Max(st0.icache[ip].size, off + m) && k < MAXFILE * BSIZE
    ensures ByteAt(st2.disk, st2.icache, ip, k)
         == if off0 <= k < off + m then src[k - off0] else ByteAt(st0.disk, st0.icache, ip, k)
  {
    hide BlockAt;
    var bn := off / BSIZE;
    if k / BSIZE != bn {
      assert ByteAt(st2.disk, st2.icache, ip, k) == ByteAt(st1.disk, st1.icache, ip, k);
      assert ByteAt(st1.disk, st1.icache, ip, k) == ByteAt(st.disk, st.icache, ip, k);
      assert k < off || k >= off + m;
    } else {
      var b := BlockAt(st1.disk, st1.icache, ip, bn);
      assert k == bn * BSIZE + k % BSIZE && off == bn * BSIZE + off % BSIZE;
      assert ByteAt(st2.disk, st2.icache, ip, k) == st2.disk[b].byte[k % BSIZE];
      if off <= k < off + m {
        assert ByteAt(st2.disk, st2.icache, ip, k) == src[off - off0..off - off0 + m][k - off];
      } else {
        assert bn < nb;
        assert ByteAt(st2.disk, st2.icache, ip, k) == ByteAt(st.disk, st.icache, ip, k);
      }
    }
  }

  // ---------- facts the procedures use ----------

  lemma BlockExists(st: St, ip: nat, nb: nat, bn: nat)
    requires Working(st, ip, nb) && bn < MAXFILE
    ensures |st.icache[ip].addrs| == NDIRECT + 1
    ensures bn < NDIRECT ==> st.icache[ip].addrs[bn] == BlockAt(st.disk, st.icache, ip, bn)
    ensures BlockAt(st.disk, st.icache, ip, bn) != 0 <==> bn < nb
    ensures bn < nb ==>
              var b := BlockAt(st.disk, st.icache, ip, bn);
              st.nmeta <= b < |st.disk| && b in st.owner && st.owner[b] == SlotOf(ip, bn) && Shaped(st.disk[b])
    ensures bn < nb && bn >= NDIRECT ==>
              var a := st.icache[ip].addrs[NDIRECT];
              0 < a < |st.disk| && Shaped(st.disk[a])
              && Word(st.disk[a], bn - NDIRECT) == BlockAt(st.disk, st.icache, ip, bn)
    ensures st.icache[ip].addrs[NDIRECT] != 0 <==> nb > NDIRECT
  {
  }

  /** The indirect block of an inode, if it has one. */
  ghost function TableSet(ino: Inode): (r: set<int>)
    ensures |r| <= 1
  {
    if |ino.addrs| == NDIRECT + 1 && ino.addrs[NDIRECT] != 0 then {ino.addrs[NDIRECT]} else {}
  }

  lemma FirstUsed(st: St)
    requires Base(st)
    ensures |st.used| == |st.disk| && (|st.used| > 0 ==> st.used[0])
  {
  }

  lemma WorkingBase(st: St, ip: nat, nb: nat)
    requires Working(st, ip, nb)
    ensures Base(st) && ip < |st.icache| && |st.icache[ip].addrs| == NDIRECT + 1
  {
  }

  lemma FilledIs(st: St, s: Slot, b: int)
    requires Base(st) && SlotOk(st.icache, s) && !s.Entry? && 0 <= b < |st.disk|
    ensures Filled(st, s, b) == St(st.nmeta, st.disk[b := Zeroed()], st.used[b := true],
                                   SetAddr(st.icache, s.inum, AddrIndex(s), b), st.dinode, st.owner[b := s])
  {
  }

  lemma FilledEntryIs(st: St, ip: nat, j: nat, b: int)
    requires Base(st) && ip < |st.icache| && j < NINDIRECT && 0 <= b < |st.disk|
    requires 0 < st.icache[ip].addrs[NDIRECT] < |st.disk|
    ensures
      var a := st.icache[ip].addrs[NDIRECT];
      Shaped(st.disk[a]) &&
      FilledEntry(st, ip, j, b) == St(st.nmeta, st.disk[b := Zeroed()][a := PutWord(st.disk[a], j, b)],
        st.used[b := true],
                                      st.icache, st.dinode, st.owner[b := Entry(ip, j)])
  {
  }

  /** What bmap finds in the indirect block. */
  lemma EntryLogged(l0: set<int>, l1: set<int>, l: set<int>, addr: int, r: int, t: set<int>, e: set<int>, ino: Inode)
    requires l1 <= l0 + {addr} + t && l <= l1 + {r, addr} + e
    requires |ino.addrs| == NDIRECT + 1 && addr == ino.addrs[NDIRECT] != 0
    ensures l <= l0 + {r} + TableSet(ino) + (t + e) && |t + e| <= |t| + |e|
  {
  }

  lemma NoTableYet(st: St, ip: nat, nb: nat)
    requires Working(st, ip, nb) && NDIRECT <= nb && st.icache[ip].addrs[NDIRECT] == 0
    ensures nb == NDIRECT
  {
  }

  lemma TableThere(st: St, ip: nat, nb: nat)
    requires Working(st, ip, nb) && NDIRECT <= nb && st.icache[ip].addrs[NDIRECT] != 0
    ensures nb > NDIRECT
  {
  }

  lemma EntryWord(st: St, ip: nat, nb: nat, bn: nat)
    requires NDIRECT <= bn < MAXFILE && bn <= nb
    requires if nb == NDIRECT then Tabled(st, ip) else Working(st, ip, nb)
    ensures
      && Base(st) && ip < |st.icache| && |st.icache[ip].addrs| == NDIRECT + 1
      && var a := st.icache[ip].addrs[NDIRECT];
         0 < a < |st.disk| && |st.disk[a].byte| == BSIZE
         && Word(st.disk[a], bn - NDIRECT) == BlockAt(st.disk, st.icache, ip, bn)
         && (BlockAt(st.disk, st.icache, ip, bn) != 0 <==> bn < nb)
  {
    hide Word, UsedOk, OthersOk;
    TableApart(st.disk, st.icache, st.owner, st.nmeta, ip, 0);
  }

  // ---------- what writei leaves ----------

  /** A byte sequence with src written at off, which is at most its length. */
  function Splice(c: seq<int>, off: nat, src: seq<int>): seq<int>
    requires off <= |c|
  {
    c[..off] + src + if off + |src| < |c| then c[off + |src|..] else []
  }

  ghost function SizeOf(st: St, i: nat): nat
    requires i < |st.icache|
  {
    st.icache[i].size
  }

  /** iupdate after writei: the size goes up and the inode reaches the disk, when off > size. */
  ghost function Updated(st: St, ip: nat, off: nat): St
    requires ip < |st.icache| == |st.dinode|
  {
    if off > st.icache[ip].size then
      var ino := st.icache[ip].(size := off);
      st.(icache := st.icache[ip := ino], dinode := st.dinode[ip := ino])
    else st
  }

  lemma SizeDoesNotMatter(disk: seq<Block>, inodes: seq<Inode>, ip: nat, sz: nat)
    requires ShapedFs(disk, inodes) && ip < |inodes|
    ensures
      var inodes' := inodes[ip := inodes[ip].(size := sz)];
      && ShapedFs(disk, inodes')
      && (forall s :: SlotOk(inodes, s) ==> Ref(disk, inodes', s) == Ref(disk, inodes, s))
  {
  }

  lemma UpdateKeepsBase(st: St, ip: nat, off: nat)
    requires Base(st) && ip < |st.icache|
    ensures Base(Updated(st, ip, off)) && ShapedFs(Updated(st, ip, off).disk, Updated(st, ip, off).icache)
    ensures forall i, k :: 0 <= i < |st.icache| && 0 <= k < MAXFILE * BSIZE ==>
              ByteAt(Updated(st, ip, off).disk, Updated(st, ip, off).icache, i, k) == ByteAt(st.disk, st.icache, i, k)
    ensures forall i, nb :: 0 <= i < |st.icache| && 0 <= nb && HoleFree(st.disk, st.icache, i, nb) ==>
              HoleFree(st.disk, Updated(st, ip, off).icache, i, nb)
  {
    hide Word, Ref, Shaped, UsedOk;
    var st' := Updated(st, ip, off);
    SizeDoesNotMatter(st.disk, st.icache, ip, off);
    forall s | SlotOk(st'.icache, s) && Ref(st'.disk, st'.icache, s) != 0
      ensures RefOwned(st'.disk, st'.icache, st'.owner, s)
    {
      assert RefOwned(st.disk, st.icache, st.owner, s);
    }
    assert forall i, bn :: 0 <= i < |st.icache| && 0 <= bn < MAXFILE ==>
             && SlotOk(st.icache, SlotOf(i, bn))
             && BlockAt(st'.disk, st'.icache, i, bn) == BlockAt(st.disk, st.icache, i, bn);
  }

  /** The end of writei.  If the file did not grow, bmap allocated nothing, so the inode on disk
      is up to date although iupdate does not run. */
  lemma WriteDone(st0: St, st: St, ip: nat, off0: nat, src: seq<int>)
    requires Ok(st0) && Written(st0, st, ip, off0, off0 + |src|, src)
    requires off0 <= SizeOf(st0, ip) && off0 + |src| <= MAXFILE * BSIZE
    requires Working(st, ip, NBlocks(Max(SizeOf(st0, ip), off0 + |src|)))
    requires off0 + |src| <= SizeOf(st0, ip) ==> st.icache == st0.icache
    ensures Ok(Updated(st, ip, off0 + |src|))
    ensures SizeOf(Updated(st, ip, off0 + |src|), ip) == Max(SizeOf(st0, ip), off0 + |src|)
  {
    hide ByteAt, ShapedFs, HoleFree, Owned, UsedOk;
    var st' := Updated(st, ip, off0 + |src|);
    UpdateKeepsBase(st, ip, off0 + |src|);
    forall i | 0 <= i < |st.icache| ensures FileOk(st', i) {
      assert FileOk(st0, i);
      if i != ip {
        assert FileOk(st, i);
      }
    }
  }

  lemma WriteContents(st0: St, st: St, ip: nat, off0: nat, src: seq<int>, i: nat)
    requires Ok(st0) && Written(st0, st, ip, off0, off0 + |src|, src)
    requires off0 <= SizeOf(st0, ip) && off0 + |src| <= MAXFILE * BSIZE
    requires Base(st) && Ok(Updated(st, ip, off0 + |src|)) && i < |st.icache|
    ensures
      var st' := Updated(st, ip, off0 + |src|);
      && FileOk(st0, i) && FileOk(st', i)
      && Contents(st'.disk, st'.icache, i)
         == if i == ip then Splice(Contents(st0.disk, st0.icache, ip), off0, src) else Contents(st0.disk, st0.icache, i)
  {
    hide ByteAt, Shaped, HoleFree, UsedOk, Updated, Written, Ref;
    UpdatedSize(st0, st, ip, off0, src, i);
    var st' := Updated(st, ip, off0 + |src|);
    assert FileOk(st0, i) && FileOk(st', i) && FileOk(st0, ip);
    var c := Contents(st'.disk, st'.icache, i);
    var want := if i == ip then Splice(Contents(st0.disk, st0.icache, ip), off0, src)
        else Contents(st0.disk, st0.icache, i);
    assert |c| == |want|;
    forall k | 0 <= k < |c| ensures c[k] == want[k] {
      UpdatedByte(st0, st, ip, off0, src, i, k);
    }
  }

  lemma UpdatedSize(st0: St, st: St, ip: nat, off0: nat, src: seq<int>, i: nat)
    requires Ok(st0) && Written(st0, st, ip, off0, off0 + |src|, src) && Base(st)
    requires off0 <= SizeOf(st0, ip) && i < |st.icache|
    ensures ip < |st.icache| == |st.dinode| && ip < |st0.icache| && ShapedFs(st0.disk, st0.icache)
    ensures
      var st' := Updated(st, ip, off0 + |src|);
      i < |st0.icache| == |st'.icache| && st'.icache[i].size == if i == ip then Max(SizeOf(st0, ip), off0 + |src|)
        else SizeOf(st0, i)
  {
  }

  lemma UpdatedByte(st0: St, st: St, ip: nat, off0: nat, src: seq<int>, i: nat, k: nat)
    requires Ok(st0) && Written(st0, st, ip, off0, off0 + |src|, src) && Base(st)
    requires off0 <= SizeOf(st0, ip) && i < |st.icache| && k < MAXFILE * BSIZE
    requires i == ip ==> k < Max(SizeOf(st0, ip), off0 + |src|)
    ensures
      var st' := Updated(st, ip, off0 + |src|);
      && ShapedFs(st'.disk, st'.icache) && ShapedFs(st0.disk, st0.icache) && |st'.icache| == |st.icache| == |st0.icache|
      && ByteAt(st'.disk, st'.icache, i, k)
         == if i == ip && off0 <= k < off0 + |src| then src[k - off0] else ByteAt(st0.disk, st0.icache, i, k)
  {
    hide ByteAt, ShapedFs, HoleFree, Owned, UsedOk;
    UpdateKeepsBase(st, ip, off0 + |src|);
    var st' := Updated(st, ip, off0 + |src|);
    assert ByteAt(st'.disk, st'.icache, i, k) == ByteAt(st.disk, st.icache, i, k);
  }

  datatype IoResult = Halted | Failed | Done(n: nat)

  /** The number of blocks that n bytes from off on touch. */
  function Span(off: nat, n: nat): nat {
    if n == 0 then 0 else (off + n - 1) / BSIZE - off / BSIZE + 1
  }

  /** Before an iteration: the block exists, or it is the next one and starts at off. */
  lemma BlockToWrite(off: nat, size0: nat, n: nat)
    requires 0 < n && off + n <= MAXFILE * BSIZE
    ensures off / BSIZE <= NBlocks(Max(size0, off)) && off / BSIZE < MAXFILE
    ensures off / BSIZE == NBlocks(Max(size0, off)) ==> off % BSIZE == 0 && size0 <= off
  {
  }

  lemma AfterPiece(off: nat, size0: nat, m: nat, nb: nat)
    requires nb == NBlocks(Max(size0, off)) && off / BSIZE <= nb && 0 < m && off % BSIZE + m <= BSIZE
    requires off / BSIZE == nb ==> off % BSIZE == 0 && size0 <= off
    ensures NBlocks(Max(size0, off + m)) == if off / BSIZE < nb then nb else nb + 1
    ensures NBlocks(size0) <= nb
  {
  }

  lemma OkStart(st: St, ip: nat)
    requires Ok(st) && ip < |st.icache|
    ensures Base(st) && Working(st, ip, NBlocks(st.icache[ip].size)) && |st.dinode| == |st.icache|
  {
    assert FileOk(st, ip);
  }

  /** What file i contains. */
  ghost function FileData(st: St, i: nat): (r: seq<int>)
    requires Ok(st) && i < |st.icache|
    ensures |r| == st.icache[i].size
  {
    assert FileOk(st, i);
    Contents(st.disk, st.icache, i)
  }

  /** writei as an operation on abstract files: a splice in ip, nothing in the others. */
  ghost predicate Wrote(st0: St, st: St, ip: nat, off: nat, src: seq<int>) {
    && Ok(st0) && Ok(st) && ip < |st0.icache| == |st.icache|
    && off <= |FileData(st0, ip)|
    && FileData(st, ip) == Splice(FileData(st0, ip), off, src)
    && (forall i :: 0 <= i < |st0.icache| && i != ip ==>
        FileData(st, i) == FileData(st0, i) && st.icache[i] == st0.icache[i])
  }

  lemma WroteIs(st0: St, st: St, ip: nat, off0: nat, src: seq<int>)
    requires Ok(st0) && Written(st0, st, ip, off0, off0 + |src|, src)
    requires off0 <= SizeOf(st0, ip) && off0 + |src| <= MAXFILE * BSIZE
    requires Base(st) && Ok(Updated(st, ip, off0 + |src|))
    ensures Wrote(st0, Updated(st, ip, off0 + |src|), ip, off0, src)
  {
    hide ByteAt, ShapedFs, HoleFree, Owned, UsedOk, Contents, Splice;
    var st' := Updated(st, ip, off0 + |src|);
    WriteContents(st0, st, ip, off0, src, ip);
    forall i | 0 <= i < |st0.icache| && i != ip
      ensures FileData(st', i) == FileData(st0, i) && st'.icache[i] == st0.icache[i]
    {
      WriteContents(st0, st, ip, off0, src, i);
    }
  }

  // ---------- counting what is logged ----------

  ghost predicate Within(l0: set<int>, l: set<int>, data: set<int>, bits: set<int>, rest: set<int>) {
    l <= l0 + data + bits + rest
  }

  lemma SizeOfUnion(a: set<int>, b: set<int>)
    ensures |a + b| <= |a| + |b|
  {
  }

  lemma SubsetSize(a: set<int>, b: set<int>)
    requires a <= b
    ensures |a| <= |b|
  {
    assert b == a + (b - a);
  }

  /** A write of at most one filewrite chunk logs at most seven distinct blocks. */
  lemma ChunkLogsFew(l0: set<int>, l: set<int>, data: set<int>, bits: set<int>, t: set<int>, ib: int, off: nat, n: nat)
    requires Within(l0, l, data, bits, t + {ib}) && |t| <= 1
    requires |data| <= Span(off, n) && |bits| <= Span(off, n) + 1
    requires n <= CHUNK
    ensures |l - l0| <= 7 <= MAXOPBLOCKS
  {
    assert Span(off, n) <= 2;
    SizeOfUnion(data, bits);
    SizeOfUnion(data + bits, t);
    SizeOfUnion(data + bits + t, {ib});
    SubsetSize(l - l0, data + bits + t + {ib});
  }

  /** filewrite's max. */
  const CHUNK := ((MAXOPBLOCKS - 1 - 1 - 2) / 2) * 512

  // ---------- the loop invariant of writei ----------

  ghost predicate Going(st0: St, st: St, ip: nat, off0: nat, off: nat, src: seq<int>) {
    && Ok(st0) && ip < |st0.icache| && off0 <= SizeOf(st0, ip)
    && Working(st, ip, NBlocks(Max(SizeOf(st0, ip), off)))
    && Written(st0, st, ip, off0, off, src)
    && (NBlocks(Max(SizeOf(st0, ip), off)) == NBlocks(SizeOf(st0, ip)) ==> st.icache == st0.icache)
  }

  lemma GoingStarts(st: St, ip: nat, off: nat, src: seq<int>)
    requires Ok(st) && ip < |st.icache| && off <= SizeOf(st, ip)
    ensures Going(st, st, ip, off, off, src)
  {
    hide Written;
    OkStart(st, ip);
    WrittenNothing(st, ip, off, src);
  }

  lemma GoingBlocks(st0: St, st: St, ip: nat, off0: nat, off: nat, src: seq<int>, left: nat) returns (nb: nat)
    requires Going(st0, st, ip, off0, off, src) && 0 < left && off + left <= MAXFILE * BSIZE
    ensures Working(st, ip, nb) && nb == NBlocks(Max(SizeOf(st0, ip), off)) && ip < |st.icache|
    ensures off / BSIZE <= nb && off / BSIZE < MAXFILE
    ensures off / BSIZE == nb ==> off % BSIZE == 0
  {
    hide Written;
    nb := NBlocks(Max(SizeOf(st0, ip), off));
    BlockToWrite(off, SizeOf(st0, ip), left);
  }

  lemma GoingStep(st0: St, st: St, st1: St, st2: St, ip: nat, off0: nat, off: nat, m: nat, src: seq<int>, nb: nat)
    requires Going(st0, st, ip, off0, off, src)
    requires off + m <= off0 + |src| && off + m <= MAXFILE * BSIZE && 0 < m && off % BSIZE + m <= BSIZE
    requires nb == NBlocks(Max(SizeOf(st0, ip), off)) && off / BSIZE <= nb
    requires if off / BSIZE < nb then st1 == st else SameBytes(st, st1, ip, off / BSIZE)
    requires SameBytes(st1, st2, ip, off / BSIZE) && st2.icache == st1.icache
    requires Working(st2, ip, if off / BSIZE < nb then nb else nb + 1)
    requires
      var b := BlockAt(st1.disk, st1.icache, ip, off / BSIZE);
      && 0 < b < |st1.disk|
      && st2.disk == st1.disk[b := Patch(st1.disk[b], off % BSIZE, src[off - off0..off - off0 + m])]
      && BlockAt(st2.disk, st2.icache, ip, off / BSIZE) == b
    ensures Going(st0, st2, ip, off0, off + m, src) && ip < |st2.icache|
  {
    WriteStep(st0, st, st1, st2, ip, off0, off, m, src, nb);
    BlockToWrite(off, SizeOf(st0, ip), m);
    AfterPiece(off, SizeOf(st0, ip), m, nb);
    hide Written, Working, Ok, SameBytes, BlockAt, Patch, NBlocks;
  }

  lemma GoingEnds(st0: St, st: St, ip: nat, off0: nat, src: seq<int>)
    requires Going(st0, st, ip, off0, off0 + |src|, src) && off0 + |src| <= MAXFILE * BSIZE
    ensures ip < |st.icache| == |st.dinode| == |st0.icache| && st.icache[ip].size == SizeOf(st0, ip)
    ensures Ok(Updated(st, ip, off0 + |src|))
    ensures Wrote(st0, Updated(st, ip, off0 + |src|), ip, off0, src)
  {
    GoingShape(st0, st, ip, off0, src);
    hide Working, Ok, Written, Updated, Wrote, Base;
    WorkingBase(st, ip, NBlocks(Max(SizeOf(st0, ip), off0 + |src|)));
    WriteDone(st0, st, ip, off0, src);
    WroteIs(st0, st, ip, off0, src);
  }

  lemma GoingShape(st0: St, st: St, ip: nat, off0: nat, src: seq<int>)
    requires Going(st0, st, ip, off0, off0 + |src|, src)
    ensures ip < |st.icache| == |st.dinode| == |st0.icache| && st.icache[ip].size == SizeOf(st0, ip)
  {
  }

  lemma UpdatedIs(st: St, ip: nat, off: nat)
    requires ip < |st.icache| == |st.dinode|
    ensures Updated(st, ip, off) ==
            if off > st.icache[ip].size then
              St(st.nmeta, st.disk, st.used, st.icache[ip := st.icache[ip].(size := off)],
                 st.dinode[ip := st.icache[ip].(size := off)], st.owner)
            else st
  {
  }

  ghost predicate Logging(l0: set<int>, l: set<int>, data: set<int>, bits: set<int>, t: set<int>, off0: nat, tot: nat) {
    && Within(l0, l, data, bits, t)
    && |data| <= Span(off0, tot)
    && |bits| <= Allocs(off0, tot)
  }

  /** The blocks that writing tot bytes from off0 on may allocate: those it touches and the table. */
  function Allocs(off0: nat, tot: nat): nat {
    Span(off0, tot) + if off0 + tot > NDIRECT * BSIZE then 1 else 0
  }

  lemma LoggingStarts(l: set<int>, t: set<int>, off0: nat)
    ensures Logging(l, l, {}, {}, t, off0, 0)
  {
  }

  lemma LoggingStep(l0: set<int>, l: set<int>, data: set<int>, bits: set<int>, t: set<int>, off0: nat, tot: nat, m: nat,
                    l': set<int>, b: int, bs: set<int>, t': set<int>, nb: nat)
    requires Logging(l0, l, data, bits, t, off0, tot)
    requires 0 < m && (off0 + tot) % BSIZE + m <= BSIZE && (tot > 0 ==> (off0 + tot) % BSIZE == 0)
    requires l' <= l + {b} + t' + bs && t <= t'
    requires (off0 + tot) / BSIZE == nb ==> (off0 + tot) % BSIZE == 0
    requires |bs| <= if (off0 + tot) / BSIZE < nb then 0 else if (off0 + tot) / BSIZE == NDIRECT then 2 else 1
    requires (off0 + tot) / BSIZE <= nb
    ensures Logging(l0, l', data + {b}, bits + bs, t', off0, tot + m)
  {
    hide Span, Allocs;
    SpanStep(off0, tot, m);
    AllocsStep(off0, tot, m, nb, |bs|);
    SizeOfUnion(data, {b});
    SizeOfUnion(bits, bs);
    WithinStep(l0, l, data, bits, t, l', b, bs, t');
  }

  lemma SpanStep(off0: nat, tot: nat, m: nat)
    requires 0 < m && (off0 + tot) % BSIZE + m <= BSIZE && (tot > 0 ==> (off0 + tot) % BSIZE == 0)
    ensures Span(off0, tot + m) == Span(off0, tot) + 1
  {
    assert (off0 + tot + m - 1) / BSIZE == (off0 + tot) / BSIZE;
  }

  lemma AllocsStep(off0: nat, tot: nat, m: nat, nb: nat, k: nat)
    requires 0 < m && (off0 + tot) % BSIZE + m <= BSIZE && (tot > 0 ==> (off0 + tot) % BSIZE == 0)
    requires (off0 + tot) / BSIZE == nb ==> (off0 + tot) % BSIZE == 0
    requires k <= if (off0 + tot) / BSIZE < nb then 0 else if (off0 + tot) / BSIZE == NDIRECT then 2 else 1
    requires (off0 + tot) / BSIZE <= nb
    ensures Allocs(off0, tot) + k <= Allocs(off0, tot + m)
  {
    hide Span;
    SpanStep(off0, tot, m);
  }

  lemma WithinStep(l0: set<int>, l: set<int>, data: set<int>, bits: set<int>, t: set<int>,
                   l': set<int>, b: int, bs: set<int>, t': set<int>)
    requires Within(l0, l, data, bits, t) && l' <= l + {b} + t' + bs && t <= t'
    ensures Within(l0, l', data + {b}, bits + bs, t')
  {
  }

  lemma LoggingEnds(l0: set<int>, l: set<int>, data: set<int>, bits: set<int>, ino: Inode, off0: nat, n: nat,
                    l': set<int>, ib: int, sz: nat)
    requires Logging(l0, l, data, bits, TableSet(ino), off0, n) && (l' == l || l' == l + {ib})
    ensures Within(l0, l', data, bits, TableSet(ino) + {ib})
    ensures TableSet(ino.(size := sz)) == TableSet(ino)
    ensures |data| <= Span(off0, n) && |bits| <= Span(off0, n) + 1
  {
  }

  // ---------- readi ----------

  lemma ReadsInside(st: St, ip: nat, off: nat)
    requires Ok(st) && ip < |st.icache| && off < st.icache[ip].size
    ensures off / BSIZE < NBlocks(st.icache[ip].size) <= MAXFILE
  {
    assert FileOk(st, ip);
  }

  /** What one turn of readi copies is that stretch of the file. */
  lemma ReadPiece(st: St, ip: nat, off: nat, m: nat)
    requires Ok(st) && ip < |st.icache| && off + m <= st.icache[ip].size && 0 < m && off % BSIZE + m <= BSIZE
    ensures
      var bn := off / BSIZE;
      && bn < MAXFILE && ShapedFs(st.disk, st.icache)
      && var b := BlockAt(st.disk, st.icache, ip, bn);
         && 0 < b < |st.disk| && |st.disk[b].byte| == BSIZE
         && st.disk[b].byte[off % BSIZE..off % BSIZE + m] == FileData(st, ip)[off..off + m]
  {
    hide Shaped, UsedOk, BlockAt, FileOk, Working, NBlocks, FileData;
    OkStart(st, ip);
    ReadsInside(st, ip, off);
    var bn := off / BSIZE;
    BlockExists(st, ip, NBlocks(st.icache[ip].size), bn);
    var b := BlockAt(st.disk, st.icache, ip, bn);
    ShapedHas(st, b);
    var got, want := st.disk[b].byte[off % BSIZE..off % BSIZE + m], FileData(st, ip)[off..off + m];
    forall k | 0 <= k < m ensures got[k] == want[k] {
      ReadByte(st, ip, off + k);
    }
  }

  lemma ReadByte(st: St, ip: nat, k: nat)
    requires Ok(st) && ip < |st.icache| && k < st.icache[ip].size
    ensures
      && k / BSIZE < MAXFILE && ShapedFs(st.disk, st.icache)
      && var b := BlockAt(st.disk, st.icache, ip, k / BSIZE);
         && 0 < b < |st.disk| ==> FileData(st, ip)[k] == st.disk[b].byte[k % BSIZE]
  {
    hide Shaped, UsedOk, BlockAt, HoleFree;
    assert FileOk(st, ip);
  }

  lemma ShapedHas(st: St, b: int)
    requires Base(st) && 0 <= b < |st.disk|
    ensures |st.disk[b].byte| == BSIZE
  {
  }

  /** Reading back what was written, and reading around it. */
  lemma ReadBack(st0: St, st: St, ip: nat, off: nat, src: seq<int>)
    requires Wrote(st0, st, ip, off, src)
    ensures off + |src| <= |FileData(st, ip)| && FileData(st, ip)[off..off + |src|] == src
    ensures |FileData(st, ip)| == Max(|FileData(st0, ip)|, off + |src|)
    ensures forall k :: 0 <= k < |FileData(st0, ip)| && !(off <= k < off + |src|) ==>
            FileData(st, ip)[k] == FileData(st0, ip)[k]
  {
  }

  // ---------- filewrite ----------

  lemma SpliceTwice(c: seq<int>, off: nat, a: seq<int>, b: seq<int>)
    requires off <= |c|
    ensures off + |a| <= |Splice(c, off, a)|
    ensures Splice(Splice(c, off, a), off + |a|, b) == Splice(c, off, a + b)
  {
  }

  lemma WroteNothing(st: St, ip: nat, off: nat)
    requires Ok(st) && ip < |st.icache|
    ensures off <= st.icache[ip].size ==> Wrote(st, st, ip, off, [])
  {
  }

  /** One more chunk of src. */
  lemma WroteOn(st0: St, st: St, st': St, ip: nat, off: nat, src: seq<int>, i: nat, n: nat)
    requires i + n <= |src| && Ok(st0) && ip < |st0.icache|
    requires if i == 0 then st == st0 else Wrote(st0, st, ip, off, src[..i])
    requires Wrote(st, st', ip, off + i, src[i..i + n])
    ensures Wrote(st0, st', ip, off, src[..i + n])
    ensures off + i + n <= st'.icache[ip].size <= MAXFILE * BSIZE && off <= st0.icache[ip].size
  {
    hide Ok, Splice, FileData;
    assert i == 0 ==> src[..i] == [] && src[..i + n] == src[i..i + n];
    if i > 0 {
      assert src[..i] + src[i..i + n] == src[..i + n];
      SpliceTwice(FileData(st0, ip), off, src[..i], src[i..i + n]);
    }
    WroteSize(st, st', ip, off + i, src[i..i + n]);
  }

  lemma WroteSize(st0: St, st: St, ip: nat, off: nat, src: seq<int>)
    requires Wrote(st0, st, ip, off, src)
    ensures off + |src| <= st.icache[ip].size <= MAXFILE * BSIZE && off <= st0.icache[ip].size
  {
    assert FileOk(st, ip);
  }
}
