/** The block and inode layer of fs.c: block addresses through direct and indirect slots, the
    free bitmap, file contents. */
module Blocks {

  const BSIZE := 4096
  const BPB := BSIZE * 8         // bits of a bitmap block
  const NDIRECT := 12
  const NINDIRECT := 1024
  const MAXFILE := NDIRECT + NINDIRECT

  /** A disk block: BSIZE bytes.  An indirect block is read as NINDIRECT little-endian words. */
  datatype Block = Block(byte: seq<int>)

  function Zeroed(): Block {
    Block(seq(BSIZE, i => 0))
  }

  predicate Shaped(b: Block) {
    |b.byte| == BSIZE && forall i :: 0 <= i < BSIZE ==> 0 <= b.byte[i] < 256
  }

  function Word(b: Block, j: nat): int
    requires |b.byte| == BSIZE && j < NINDIRECT
  {
    b.byte[4 * j] + 256 * (b.byte[4 * j + 1] + 256 * (b.byte[4 * j + 2] + 256 * b.byte[4 * j + 3]))
  }

  function PutWord(b: Block, j: nat, v: int): (r: Block)
    requires |b.byte| == BSIZE && j < NINDIRECT
    ensures |r.byte| == BSIZE
  {
    Block(b.byte[4 * j := v % 256][4 * j + 1 := v / 256 % 256]
            [4 * j + 2 := v / 65536 % 256][4 * j + 3 := v / 16777216 % 256])
  }

  lemma WordAfterPut(b: Block, j: nat, v: int, i: nat)
    requires Shaped(b) && j < NINDIRECT && i < NINDIRECT && 0 <= v < 0x1_0000_0000
    ensures Shaped(PutWord(b, j, v))
    ensures Word(PutWord(b, j, v), i) == if i == j then v else Word(b, i)
  {
    if i == j {
      var a, c, d, e := v % 256, v / 256 % 256, v / 65536 % 256, v / 16777216 % 256;
      assert v / 65536 == v / 256 / 256 && v / 16777216 == v / 256 / 256 / 256;
      assert v == a + 256 * (v / 256);
    }
  }

  lemma ZeroWord(j: nat)
    requires j < NINDIRECT
    ensures Word(Zeroed(), j) == 0 && Shaped(Zeroed())
  {
  }

  // ---------- who refers to which block ----------

  /** An inode: NDIRECT addresses of data blocks and the address of the indirect block. */
  datatype Inode = Inode(size: nat, addrs: seq<int>)

  /** A place that can hold a block address. */
  datatype Slot = Direct(inum: nat, i: nat) | Table(inum: nat) | Entry(inum: nat, j: nat)

  predicate SlotOk(inodes: seq<Inode>, s: Slot) {
    && s.inum < |inodes|
    && (s.Direct? ==> s.i < NDIRECT)
    && (s.Entry? ==> s.j < NINDIRECT)
  }

  ghost predicate ShapedFs(disk: seq<Block>, inodes: seq<Inode>) {
    && |disk| < 0x1_0000_0000
    && (forall b :: 0 <= b < |disk| ==> Shaped(disk[b]))
    && (forall i :: 0 <= i < |inodes| ==> |inodes[i].addrs| == NDIRECT + 1)
  }

  /** The address a slot holds; 0 is no block. */
  ghost function Ref(disk: seq<Block>, inodes: seq<Inode>, s: Slot): int
    requires ShapedFs(disk, inodes) && SlotOk(inodes, s)
  {
    var a := inodes[s.inum].addrs;
    match s
    case Direct(_, i) => a[i]
    case Table(_) => a[NDIRECT]
    case Entry(_, j) => if 0 < a[NDIRECT] < |disk| then Word(disk[a[NDIRECT]], j) else 0
  }

  /** Every address in use is recorded in `owner` with the one slot that holds it, and is the
      address of a data block.  So no block is referred to twice. */
  ghost predicate Owned(disk: seq<Block>, inodes: seq<Inode>, owner: map<int, Slot>, nmeta: nat) {
    && 0 < nmeta
    && ShapedFs(disk, inodes)
    && (forall s :: SlotOk(inodes, s) && Ref(disk, inodes, s) != 0 ==> RefOwned(disk, inodes, owner, s))
    && (forall b :: b in owner ==> nmeta <= b < |disk| && SlotOk(inodes, owner[b]) && Ref(disk, inodes, owner[b]) == b)
  }

  ghost predicate RefOwned(disk: seq<Block>, inodes: seq<Inode>, owner: map<int, Slot>, s: Slot)
    requires ShapedFs(disk, inodes) && SlotOk(inodes, s)
  {
    var b := Ref(disk, inodes, s);
    b in owner && owner[b] == s
  }

  /** No slot but s changes. */
  ghost predicate OnlySlot(disk: seq<Block>, inodes: seq<Inode>, disk': seq<Block>, inodes': seq<Inode>, s: Slot) {
    && ShapedFs(disk, inodes) && ShapedFs(disk', inodes')
    && |disk'| == |disk| && |inodes'| == |inodes|
    && forall t :: SlotOk(inodes, t) && t != s ==> Ref(disk', inodes', t) == Ref(disk, inodes, t)
  }

  /** An empty slot gets a fresh block. */
  lemma AdoptBlock(disk: seq<Block>, inodes: seq<Inode>, owner: map<int, Slot>, nmeta: nat,
                   disk': seq<Block>, inodes': seq<Inode>, s: Slot, b: int)
    requires Owned(disk, inodes, owner, nmeta)
    requires OnlySlot(disk, inodes, disk', inodes', s)
    requires SlotOk(inodes, s) && Ref(disk, inodes, s) == 0 && Ref(disk', inodes', s) == b
    requires nmeta <= b < |disk| && b !in owner
    ensures Owned(disk', inodes', owner[b := s], nmeta)
  {
  }

  /** A block is the indirect block of no other inode than the one whose slot holds it. */
  lemma TableApart(disk: seq<Block>, inodes: seq<Inode>, owner: map<int, Slot>, nmeta: nat, i: nat, b: int)
    requires Owned(disk, inodes, owner, nmeta) && i < |inodes|
    requires b in owner ==> owner[b] != Table(i)
    ensures inodes[i].addrs[NDIRECT] != b || b == 0
    ensures inodes[i].addrs[NDIRECT] == 0 || nmeta <= inodes[i].addrs[NDIRECT] < |disk|
  {
    var t := Table(i);
    assert SlotOk(inodes, t) && Ref(disk, inodes, t) == inodes[i].addrs[NDIRECT];
    if Ref(disk, inodes, t) != 0 {
      assert RefOwned(disk, inodes, owner, t);
    }
  }

  function SetAddr(inodes: seq<Inode>, i: nat, n: nat, b: int): (r: seq<Inode>)
    requires i < |inodes| && n < |inodes[i].addrs|
  {
    inodes[i := inodes[i].(addrs := inodes[i].addrs[n := b])]
  }

  lemma FillShape(disk: seq<Block>, inodes: seq<Inode>, i: nat, n: nat, b: int)
    requires ShapedFs(disk, inodes) && i < |inodes| && n <= NDIRECT && 0 <= b < |disk|
    ensures ShapedFs(disk[b := Zeroed()], SetAddr(inodes, i, n, b))
  {
  }

  function AddrIndex(s: Slot): nat {
    if s.Direct? then s.i else NDIRECT
  }

  /** bmap fills a direct slot or the indirect slot with a fresh zeroed block. */
  lemma FillAddr(disk: seq<Block>, inodes: seq<Inode>, owner: map<int, Slot>, nmeta: nat, s: Slot, b: int)
    requires Owned(disk, inodes, owner, nmeta)
    requires SlotOk(inodes, s) && !s.Entry? && Ref(disk, inodes, s) == 0
    requires nmeta <= b < |disk| && b !in owner
    ensures Owned(disk[b := Zeroed()], SetAddr(inodes, s.inum, AddrIndex(s), b), owner[b := s], nmeta)
    ensures OnlySlot(disk, inodes, disk[b := Zeroed()], SetAddr(inodes, s.inum, AddrIndex(s), b), s)
  {
    hide Word, Zeroed, Shaped;
    var disk', inodes' := disk[b := Zeroed()], SetAddr(inodes, s.inum, AddrIndex(s), b);
    FillShape(disk, inodes, s.inum, AddrIndex(s), b);
    forall t | SlotOk(inodes, t) && t != s ensures Ref(disk', inodes', t) == Ref(disk, inodes, t) {
      if t.Entry? {
        TableApart(disk, inodes, owner, nmeta, t.inum, b);
        ZeroWord(t.j);
      }
    }
    AdoptBlock(disk, inodes, owner, nmeta, disk', inodes', s, b);
  }

  /** bmap fills an entry of the indirect block with a fresh zeroed block. */
  lemma FillEntry(disk: seq<Block>, inodes: seq<Inode>, owner: map<int, Slot>, nmeta: nat, i: nat, j: nat, b: int)
    requires Owned(disk, inodes, owner, nmeta)
    requires i < |inodes| && j < NINDIRECT
    requires inodes[i].addrs[NDIRECT] != 0 && Ref(disk, inodes, Entry(i, j)) == 0
    requires nmeta <= b < |disk| && b !in owner
    ensures
      var a := inodes[i].addrs[NDIRECT];
      && nmeta <= a < |disk| && a != b
      && Owned(disk[b := Zeroed()][a := PutWord(disk[a], j, b)], inodes, owner[b := Entry(i, j)], nmeta)
      && OnlySlot(disk, inodes, disk[b := Zeroed()][a := PutWord(disk[a], j, b)], inodes, Entry(i, j))
  {
    hide Word, PutWord, Zeroed;
    TableApart(disk, inodes, owner, nmeta, i, b);
    var a, s := inodes[i].addrs[NDIRECT], Entry(i, j);
    WordAfterPut(disk[a], j, b, j);
    var disk' := disk[b := Zeroed()][a := PutWord(disk[a], j, b)];
    EntryShape(disk, inodes, a, j, b);
    forall t | SlotOk(inodes, t) && t != s ensures Ref(disk', inodes, t) == Ref(disk, inodes, t) {
      if t.Entry? {
        TableApart(disk, inodes, owner, nmeta, t.inum, b);
        if t.inum == i {
          WordAfterPut(disk[a], j, b, t.j);
        } else {
          assert RefOwned(disk, inodes, owner, Table(i));
          TableApart(disk, inodes, owner, nmeta, t.inum, a);
        }
      }
    }
    AdoptBlock(disk, inodes, owner, nmeta, disk', inodes, s, b);
  }

  lemma EntryShape(disk: seq<Block>, inodes: seq<Inode>, a: int, j: nat, b: int)
    requires ShapedFs(disk, inodes) && 0 <= a < |disk| && 0 <= b < |disk| && j < NINDIRECT
    ensures ShapedFs(disk[b := Zeroed()][a := PutWord(disk[a], j, b)], inodes)
  {
  }

  /** Writing into a data block changes no address. */
  lemma WriteKeepsOwned(disk: seq<Block>, inodes: seq<Inode>, owner: map<int, Slot>, nmeta: nat, b: int, data: Block)
    requires Owned(disk, inodes, owner, nmeta)
    requires b in owner && !owner[b].Table? && Shaped(data)
    ensures Owned(disk[b := data], inodes, owner, nmeta)
    ensures forall t :: SlotOk(inodes, t) ==> Ref(disk[b := data], inodes, t) == Ref(disk, inodes, t)
  {
    hide Word, Shaped;
    var disk' := disk[b := data];
    assert ShapedFs(disk', inodes);
    forall t | SlotOk(inodes, t) ensures Ref(disk', inodes, t) == Ref(disk, inodes, t) {
      if t.Entry? {
        TableApart(disk, inodes, owner, nmeta, t.inum, b);
      }
    }
    forall t | SlotOk(inodes, t) && Ref(disk', inodes, t) != 0 ensures RefOwned(disk', inodes, owner, t) {
      assert RefOwned(disk, inodes, owner, t);
    }
  }

  // ---------- files ----------

  /** The slot with the address of block bn of a file. */
  function SlotOf(i: nat, bn: nat): Slot {
    if bn < NDIRECT then Direct(i, bn) else Entry(i, bn - NDIRECT)
  }

  ghost function BlockAt(disk: seq<Block>, inodes: seq<Inode>, i: nat, bn: nat): int
    requires ShapedFs(disk, inodes) && i < |inodes| && bn < MAXFILE
  {
    Ref(disk, inodes, SlotOf(i, bn))
  }

  /** The number of blocks of a file of sz bytes. */
  function NBlocks(sz: nat): nat {
    (sz + BSIZE - 1) / BSIZE
  }

  /** Exactly the first nb blocks of the file exist, and the indirect block if it is needed. */
  ghost predicate HoleFree(disk: seq<Block>, inodes: seq<Inode>, i: nat, nb: nat)
    requires ShapedFs(disk, inodes) && i < |inodes|
  {
    && nb <= MAXFILE
    && (inodes[i].addrs[NDIRECT] != 0 <==> nb > NDIRECT)
    && forall bn :: 0 <= bn < MAXFILE ==> (BlockAt(disk, inodes, i, bn) != 0 <==> bn < nb)
  }

  ghost function ByteAt(disk: seq<Block>, inodes: seq<Inode>, i: nat, k: nat): int
    requires ShapedFs(disk, inodes) && i < |inodes| && k < MAXFILE * BSIZE
  {
    var b := BlockAt(disk, inodes, i, k / BSIZE);
    if 0 < b < |disk| then disk[b].byte[k % BSIZE] else 0
  }

  /** What a file contains, as a byte sequence. */
  ghost function Contents(disk: seq<Block>, inodes: seq<Inode>, i: nat): (r: seq<int>)
    requires ShapedFs(disk, inodes) && i < |inodes| && inodes[i].size <= MAXFILE * BSIZE
    ensures |r| == inodes[i].size
    ensures forall k :: 0 <= k < |r| ==> r[k] == ByteAt(disk, inodes, i, k)
  {
    seq(inodes[i].size, k requires 0 <= k < inodes[i].size => ByteAt(disk, inodes, i, k))
  }

  /** No block of data changes, in any slot but s. */
  ghost predicate SameData(disk: seq<Block>, inodes: seq<Inode>, disk': seq<Block>, s: Slot)
    requires ShapedFs(disk, inodes)
  {
    && |disk'| == |disk|
    && forall t :: SlotOk(inodes, t) && !t.Table? && t != s && 0 < Ref(disk, inodes, t) < |disk| ==>
         disk'[Ref(disk, inodes, t)] == disk[Ref(disk, inodes, t)]
  }

  lemma FillAddrKeepsData(disk: seq<Block>, inodes: seq<Inode>, owner: map<int, Slot>, nmeta: nat, s: Slot, b: int)
    requires Owned(disk, inodes, owner, nmeta) && 0 <= b < |disk| && b !in owner
    ensures SameData(disk, inodes, disk[b := Zeroed()], s)
  {
  }

  lemma FillEntryKeepsData(disk: seq<Block>, inodes: seq<Inode>, owner: map<int, Slot>, nmeta: nat,
                           s: Slot, b: int, a: int, data: Block)
    requires Owned(disk, inodes, owner, nmeta) && 0 <= b < |disk| && b !in owner
    requires a in owner && owner[a].Table?
    ensures SameData(disk, inodes, disk[b := Zeroed()][a := data], s)
  {
  }

  lemma WriteKeepsData(disk: seq<Block>, inodes: seq<Inode>, owner: map<int, Slot>, nmeta: nat, s: Slot, data: Block)
    requires Owned(disk, inodes, owner, nmeta) && SlotOk(inodes, s) && Ref(disk, inodes, s) != 0
    ensures SameData(disk, inodes, disk[Ref(disk, inodes, s) := data], s)
  {
  }

  // ---------- growing a file by one block ----------

  /** With its slot filled, a hole-free file has one block more. */
  lemma GrowHoleFree(disk: seq<Block>, inodes: seq<Inode>, disk': seq<Block>, inodes': seq<Inode>, i: nat, nb: nat)
    requires i < |inodes| && nb < MAXFILE
    requires OnlySlot(disk, inodes, disk', inodes', SlotOf(i, nb))
    requires HoleFree(disk, inodes, i, nb) || (nb == NDIRECT && TabledOnly(disk, inodes, i))
    requires Ref(disk', inodes', SlotOf(i, nb)) != 0
    requires nb >= NDIRECT ==> inodes[i].addrs[NDIRECT] != 0
    requires inodes'[i].addrs[NDIRECT] == inodes[i].addrs[NDIRECT]
    ensures HoleFree(disk', inodes', i, nb + 1)
  {
    hide Ref, ShapedFs;
    forall bn | 0 <= bn < MAXFILE ensures BlockAt(disk', inodes', i, bn) != 0 <==> bn < nb + 1 {
      assert SlotOk(inodes, SlotOf(i, bn));
      assert BlockAt(disk, inodes, i, bn) != 0 <==> bn < nb;
    }
  }

  /** All direct blocks and an empty indirect block: the state of bmap between its two ballocs. */
  ghost predicate TabledOnly(disk: seq<Block>, inodes: seq<Inode>, i: nat)
    requires ShapedFs(disk, inodes) && i < |inodes|
  {
    && inodes[i].addrs[NDIRECT] != 0
    && forall bn :: 0 <= bn < MAXFILE ==> (BlockAt(disk, inodes, i, bn) != 0 <==> bn < NDIRECT)
  }

  lemma TableHoleFree(disk: seq<Block>, inodes: seq<Inode>, disk': seq<Block>, inodes': seq<Inode>, i: nat)
    requires i < |inodes|
    requires OnlySlot(disk, inodes, disk', inodes', Table(i))
    requires HoleFree(disk, inodes, i, NDIRECT)
    requires inodes'[i].addrs[NDIRECT] != 0
    ensures TabledOnly(disk', inodes', i)
  {
    hide Ref, ShapedFs;
    forall bn | 0 <= bn < MAXFILE ensures BlockAt(disk', inodes', i, bn) != 0 <==> bn < NDIRECT {
      assert SlotOk(inodes, SlotOf(i, bn));
      assert BlockAt(disk, inodes, i, bn) != 0 <==> bn < NDIRECT;
    }
  }

  /** Other files keep their blocks. */
  lemma OthersHoleFree(disk: seq<Block>, inodes: seq<Inode>, disk': seq<Block>, inodes': seq<Inode>, s: Slot, i: nat,
                       nb: nat)
    requires i < |inodes| && i != s.inum
    requires OnlySlot(disk, inodes, disk', inodes', s) && inodes'[i] == inodes[i]
    requires HoleFree(disk, inodes, i, nb)
    ensures HoleFree(disk', inodes', i, nb)
  {
    hide Ref, ShapedFs;
    forall bn | 0 <= bn < MAXFILE ensures BlockAt(disk', inodes', i, bn) == BlockAt(disk, inodes, i, bn) {
      assert SlotOk(inodes, SlotOf(i, bn));
    }
  }
}
