/** itrunc step by step: which blocks have been given back, and what the file system is in between. */
module FsTruncate {
  import opened Blocks
  import opened FsState

  /** itrunc on ip is past the first i direct slots and the first j indirect entries; t says that
      the indirect block itself is gone. */
  ghost predicate Gone(s: Slot, ip: nat, i: nat, j: nat, t: bool) {
    s.inum == ip && match s { case Direct(_, k) => k < i case Entry(_, k) => k < j case Table(_) => t }
  }

  ghost predicate OwnerLess(owner0: map<int, Slot>, owner: map<int, Slot>, ip: nat, i: nat, j: nat, t: bool) {
    && (forall b :: b in owner ==> b in owner0 && owner[b] == owner0[b] && !Gone(owner0[b], ip, i, j, t))
    && (forall b :: b in owner0 && !Gone(owner0[b], ip, i, j, t) ==> b in owner)
  }

  ghost predicate AddrsLess(a0: seq<int>, a: seq<int>, i: nat, t: bool)
    requires |a0| == NDIRECT + 1
  {
    && |a| == NDIRECT + 1
    && (forall k :: 0 <= k < NDIRECT ==> a[k] == if k < i then 0 else a0[k])
    && a[NDIRECT] == if t then 0 else a0[NDIRECT]
  }

  ghost predicate SameButInode(st0: St, st: St, ip: nat) {
    && Ok(st0) && ip < |st0.icache| == |st.icache| && |st0.dinode| == |st0.icache|
    && st.disk == st0.disk && st.nmeta == st0.nmeta && st.dinode == st0.dinode && |st.used| == |st0.used|
    && (forall k :: 0 <= k < |st0.icache| && k != ip ==> st.icache[k] == st0.icache[k])
  }

  ghost predicate Truncating(st0: St, st: St, ip: nat, i: nat, j: nat, t: bool) {
    && SameButInode(st0, st, ip)
    && st.icache[ip].size == st0.icache[ip].size
    && AddrsLess(st0.icache[ip].addrs, st.icache[ip].addrs, i, t)
    && UsedOk(st.used, st.owner, st.nmeta)
    && OwnerLess(st0.owner, st.owner, ip, i, j, t)
  }

  lemma TruncStart(st: St, ip: nat)
    requires Ok(st) && ip < |st.icache|
    ensures Truncating(st, st, ip, 0, 0, false)
  {
  }

  /** Block b is the one that slot s, next in line, refers to: it is in use, and owned by s alone. */
  lemma NextInUse(st0: St, st: St, ip: nat, i: nat, j: nat, t: bool, s: Slot)
    requires Truncating(st0, st, ip, i, j, t)
    requires SlotOk(st0.icache, s) && s.inum == ip && !Gone(s, ip, i, j, t) && Ref(st0.disk, st0.icache, s) != 0
    ensures
      var b := Ref(st0.disk, st0.icache, s);
      && 0 <= b < |st.used| && st.used[b] && b in st.owner && st.owner[b] == s && b >= st.nmeta
      && b in st0.owner && st0.owner[b] == s
  {
  }

  lemma UsedDrop(used: seq<bool>, owner: map<int, Slot>, nmeta: nat, b: int)
    requires UsedOk(used, owner, nmeta) && nmeta <= b < |used|
    ensures UsedOk(used[b := false], owner - {b}, nmeta)
  {
  }

  lemma OwnerDrops(st0: St, owner: map<int, Slot>, ip: nat, i: nat, j: nat, t: bool, i': nat, j': nat, t': bool,
                   s: Slot, b: int)
    requires Base(st0) && OwnerLess(st0.owner, owner, ip, i, j, t)
    requires b in st0.owner && st0.owner[b] == s
    requires forall z :: Gone(z, ip, i', j', t') <==> Gone(z, ip, i, j, t) || z == s
    ensures OwnerLess(st0.owner, owner - {b}, ip, i', j', t')
  {
  }

  /** A slot with no address is no block's owner: nothing to free. */
  lemma OwnerKeeps(st0: St, owner: map<int, Slot>, ip: nat, i: nat, j: nat, t: bool, i': nat, j': nat, t': bool,
                   s: Slot)
    requires Base(st0) && OwnerLess(st0.owner, owner, ip, i, j, t)
    requires SlotOk(st0.icache, s) && Ref(st0.disk, st0.icache, s) == 0
    requires forall z :: Gone(z, ip, i', j', t') <==> Gone(z, ip, i, j, t) || z == s
    ensures OwnerLess(st0.owner, owner, ip, i', j', t')
  {
  }

  /** One turn of the loop over the direct slots. */
  lemma DirectStep(st0: St, st: St, ip: nat, i: nat)
    requires Truncating(st0, st, ip, i, 0, false) && i < NDIRECT
    ensures |st.icache[ip].addrs| == NDIRECT + 1
    ensures
      var b := st.icache[ip].addrs[i];
      if b == 0 then Truncating(st0, st, ip, i + 1, 0, false)
      else
        && 0 <= b < |st.used| && st.used[b]
        && Truncating(st0, st.(used := st.used[b := false], icache := SetAddr(st.icache, ip, i, 0),
           owner := st.owner - {b}),
                      ip, i + 1, 0, false)
  {
    hide OwnerLess, FileOk, UsedOk, Owned;
    var s, b := Direct(ip, i), st.icache[ip].addrs[i];
    OwnedShaped(st0);
    assert Ref(st0.disk, st0.icache, s) == b;
    if b == 0 {
      OwnerKeeps(st0, st.owner, ip, i, 0, false, i + 1, 0, false, s);
    } else {
      NextInUse(st0, st, ip, i, 0, false, s);
      UsedDrop(st.used, st.owner, st.nmeta, b);
      OwnerDrops(st0, st.owner, ip, i, 0, false, i + 1, 0, false, s, b);
    }
  }

  lemma OwnedShaped(st: St)
    requires Base(st)
    ensures ShapedFs(st.disk, st.icache)
  {
  }

  lemma TableOnDisk(st: St, ip: nat)
    requires Base(st) && ip < |st.icache| && st.icache[ip].addrs[NDIRECT] != 0
    ensures 0 < st.icache[ip].addrs[NDIRECT] < |st.disk|
  {
    TableApart(st.disk, st.icache, st.owner, st.nmeta, ip, 0);
  }

  /** One turn of the loop over the indirect block, which keeps its words. */
  lemma EntryStep(st0: St, st: St, ip: nat, j: nat)
    requires Truncating(st0, st, ip, NDIRECT, j, false) && j < NINDIRECT && st0.icache[ip].addrs[NDIRECT] != 0
    ensures |st.icache[ip].addrs| == NDIRECT + 1 && 0 < st.icache[ip].addrs[NDIRECT] < |st.disk|
    ensures |st.disk[st.icache[ip].addrs[NDIRECT]].byte| == BSIZE
    ensures
      var b := Word(st.disk[st.icache[ip].addrs[NDIRECT]], j);
      if b == 0 then Truncating(st0, st, ip, NDIRECT, j + 1, false)
      else
        && 0 <= b < |st.used| && st.used[b]
        && Truncating(st0, st.(used := st.used[b := false], owner := st.owner - {b}), ip, NDIRECT, j + 1, false)
  {
    hide OwnerLess, FileOk, UsedOk, Owned, Word;
    OwnedShaped(st0);
    TableOnDisk(st0, ip);
    var s, b := Entry(ip, j), Word(st.disk[st.icache[ip].addrs[NDIRECT]], j);
    assert Ref(st0.disk, st0.icache, s) == b;
    if b == 0 {
      OwnerKeeps(st0, st.owner, ip, NDIRECT, j, false, NDIRECT, j + 1, false, s);
    } else {
      NextInUse(st0, st, ip, NDIRECT, j, false, s);
      UsedDrop(st.used, st.owner, st.nmeta, b);
      OwnerDrops(st0, st.owner, ip, NDIRECT, j, false, NDIRECT, j + 1, false, s, b);
    }
  }

  lemma TableStep(st0: St, st: St, ip: nat)
    requires Truncating(st0, st, ip, NDIRECT, NINDIRECT, false) && st0.icache[ip].addrs[NDIRECT] != 0
    ensures |st.icache[ip].addrs| == NDIRECT + 1
    ensures
      var b := st.icache[ip].addrs[NDIRECT];
      && 0 <= b < |st.used| && st.used[b]
      && Truncating(st0, st.(used := st.used[b := false], icache := SetAddr(st.icache, ip, NDIRECT, 0),
         owner := st.owner - {b}),
                    ip, NDIRECT, NINDIRECT, true)
  {
    hide OwnerLess, FileOk, UsedOk, Owned;
    var s, b := Table(ip), st.icache[ip].addrs[NDIRECT];
    OwnedShaped(st0);
    assert Ref(st0.disk, st0.icache, s) == b;
    NextInUse(st0, st, ip, NDIRECT, NINDIRECT, false, s);
    UsedDrop(st.used, st.owner, st.nmeta, b);
    OwnerDrops(st0, st.owner, ip, NDIRECT, NINDIRECT, false, NDIRECT, NINDIRECT, true, s, b);
  }

  /** Without an indirect block there is nothing left to free. */
  lemma NoTable(st0: St, st: St, ip: nat)
    requires Truncating(st0, st, ip, NDIRECT, 0, false) && st0.icache[ip].addrs[NDIRECT] == 0
    ensures Truncating(st0, st, ip, NDIRECT, NINDIRECT, true)
  {
  }

  // ---------- the end ----------

  /** Two inode tables that agree on inode i agree on what its slots hold. */
  lemma SameInode(disk: seq<Block>, inodes: seq<Inode>, inodes': seq<Inode>, i: nat)
    requires ShapedFs(disk, inodes) && ShapedFs(disk, inodes') && i < |inodes| == |inodes'| && inodes'[i] == inodes[i]
    ensures forall s :: SlotOk(inodes, s) && s.inum == i ==> Ref(disk, inodes', s) == Ref(disk, inodes, s)
    ensures forall nb :: 0 <= nb && HoleFree(disk, inodes, i, nb) ==> HoleFree(disk, inodes', i, nb)
    ensures inodes[i].size <= MAXFILE * BSIZE ==> Contents(disk, inodes', i) == Contents(disk, inodes, i)
  {
    hide Word, ShapedFs;
    assert forall bn :: 0 <= bn < MAXFILE ==> BlockAt(disk, inodes', i, bn) == BlockAt(disk, inodes, i, bn);
  }

  ghost function Emptied(st: St, ip: nat): St
    requires ip < |st.icache| == |st.dinode|
  {
    var ino := st.icache[ip].(size := 0);
    st.(icache := st.icache[ip := ino], dinode := st.dinode[ip := ino])
  }

  lemma EmptyRefs(disk: seq<Block>, inodes: seq<Inode>, ip: nat)
    requires ShapedFs(disk, inodes) && ip < |inodes|
    requires forall k :: 0 <= k <= NDIRECT ==> inodes[ip].addrs[k] == 0
    ensures forall s :: SlotOk(inodes, s) && s.inum == ip ==> Ref(disk, inodes, s) == 0
    ensures HoleFree(disk, inodes, ip, 0)
  {
  }

  lemma EmptiedShape(st0: St, st: St, ip: nat)
    requires Truncating(st0, st, ip, NDIRECT, NINDIRECT, true)
    ensures var st' := Emptied(st, ip);
            ShapedFs(st'.disk, st'.icache) && forall k :: 0 <= k <= NDIRECT ==> st'.icache[ip].addrs[k] == 0
  {
  }

  lemma EmptiedBase(st0: St, st: St, ip: nat)
    requires Truncating(st0, st, ip, NDIRECT, NINDIRECT, true)
    ensures Base(Emptied(st, ip))
  {
    hide Ref, ShapedFs, FileOk, HoleFree;
    var st' := Emptied(st, ip);
    EmptiedShape(st0, st, ip);
    EmptyRefs(st'.disk, st'.icache, ip);
    forall s | SlotOk(st'.icache, s) && Ref(st'.disk, st'.icache, s) != 0
      ensures RefOwned(st'.disk, st'.icache, st'.owner, s)
    {
      SameInode(st0.disk, st0.icache, st'.icache, s.inum);
      assert RefOwned(st0.disk, st0.icache, st0.owner, s);
    }
    forall b | b in st'.owner
      ensures st'.nmeta <= b < |st'.disk| && SlotOk(st'.icache, st'.owner[b])
      ensures Ref(st'.disk, st'.icache, st'.owner[b]) == b
    {
      assert Ref(st0.disk, st0.icache, st0.owner[b]) == b && SlotOk(st0.icache, st0.owner[b]);
      assert st0.owner[b].inum != ip;
      SameInode(st0.disk, st0.icache, st'.icache, st0.owner[b].inum);
    }
  }

  /** itrunc empties ip, gives back exactly its blocks and leaves every other file alone. */
  ghost predicate Truncated(st0: St, st: St, ip: nat) {
    && Ok(st0) && Ok(st) && ip < |st0.icache| == |st.icache| && |st.used| == |st0.used|
    && FileData(st, ip) == []
    && (forall k :: 0 <= k <= NDIRECT && k < |st.icache[ip].addrs| ==> st.icache[ip].addrs[k] == 0)
    && (forall i :: 0 <= i < |st0.icache| && i != ip ==>
        FileData(st, i) == FileData(st0, i) && st.icache[i] == st0.icache[i])
    && (forall b :: 0 <= b < |st.used| ==>
          (st.used[b] <==> st0.used[b] && !(b in st0.owner && st0.owner[b].inum == ip)))
  }

  lemma TruncDone(st0: St, st: St, ip: nat)
    requires Truncating(st0, st, ip, NDIRECT, NINDIRECT, true)
    ensures Truncated(st0, Emptied(st, ip), ip)
  {
    hide Ref, Owned, HoleFree, FileOk, Contents, OwnerLess, AddrsLess, Shaped, UsedOk;
    var st' := Emptied(st, ip);
    EmptiedBase(st0, st, ip);
    EmptiedShape(st0, st, ip);
    forall i | 0 <= i < |st'.icache| ensures FileOk(st', i) {
      EmptiedFile(st0, st, ip, i);
    }
    forall i | 0 <= i < |st'.icache| && i != ip ensures FileData(st', i) == FileData(st0, i) {
      EmptiedFile(st0, st, ip, i);
    }
    EmptiedBits(st0, st, ip);
  }

  lemma EmptiedFile(st0: St, st: St, ip: nat, i: nat)
    requires Truncating(st0, st, ip, NDIRECT, NINDIRECT, true) && i < |st.icache|
    ensures
      var st' := Emptied(st, ip);
      && ShapedFs(st'.disk, st'.icache) && FileOk(st', i)
      && (i != ip ==> FileOk(st0, i) && Contents(st'.disk, st'.icache, i) == Contents(st0.disk, st0.icache, i))
  {
    hide Ref, HoleFree, Contents, OwnerLess, AddrsLess, Shaped, UsedOk;
    var st' := Emptied(st, ip);
    EmptiedShape(st0, st, ip);
    EmptyRefs(st'.disk, st'.icache, ip);
    assert FileOk(st0, i);
    if i != ip {
      SameInode(st0.disk, st0.icache, st'.icache, i);
    }
  }

  lemma EmptiedBits(st0: St, st: St, ip: nat)
    requires Truncating(st0, st, ip, NDIRECT, NINDIRECT, true)
    ensures forall b :: 0 <= b < |st.used| ==>
              (st.used[b] <==> st0.used[b] && !(b in st0.owner && st0.owner[b].inum == ip))
  {
  }

  lemma TruncShape(st0: St, st: St, ip: nat, i: nat, j: nat)
    requires Truncating(st0, st, ip, i, j, false) && i <= NDIRECT
    ensures ip < |st.icache| == |st.dinode| && |st.icache[ip].addrs| == NDIRECT + 1
    ensures ip < |st0.icache| && |st0.icache[ip].addrs| == NDIRECT + 1
    ensures st.icache[ip].addrs[NDIRECT] == st0.icache[ip].addrs[NDIRECT]
  {
  }

  lemma TruncEnds(st0: St, st: St, ip: nat)
    requires Truncating(st0, st, ip, NDIRECT, NINDIRECT, true)
    ensures ip < |st.icache| == |st.dinode|
    ensures Emptied(st, ip) == St(st.nmeta, st.disk, st.used, st.icache[ip := st.icache[ip].(size := 0)],
                                  st.dinode[ip := st.icache[ip].(size := 0)], st.owner)
    ensures Ok(Emptied(st, ip)) && Truncated(st0, Emptied(st, ip), ip)
  {
    TruncDone(st0, st, ip);
  }
}
