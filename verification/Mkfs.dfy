/** mkfs: building the first file system image by appending, with a counter for an allocator. */
module Mkfs {
  import opened Blocks
  import opened FsState
  import Bitmap

  const ROOTINO := 1
  const T_DIR := 1
  const T_FILE := 2

  // ---------- where things are on the disk ----------

  datatype Super = Super(size: nat, nblocks: nat, ninodes: nat, nlog: nat, logstart: nat, inodestart: nat,
                         bmapstart: nat)

  /** Boot block, superblock, log, inode blocks and bitmap blocks. */
  function MetaBlocks(size: nat, ninodes: nat, nlog: nat): nat {
    2 + nlog + (ninodes / IPB + 1) + (size / BPB + 1)
  }

  function SuperOf(size: nat, ninodes: nat, nlog: nat): Super
    requires MetaBlocks(size, ninodes, nlog) <= size
  {
    Super(size, size - MetaBlocks(size, ninodes, nlog), ninodes, nlog, 2, 2 + nlog, 2 + nlog + ninodes / IPB + 1)
  }

  /** The regions follow each other; every inode has its block and every block its bit. */
  lemma RegionsApart(size: nat, ninodes: nat, nlog: nat)
    requires MetaBlocks(size, ninodes, nlog) <= size
    ensures
      var sb, nmeta := SuperOf(size, ninodes, nlog), MetaBlocks(size, ninodes, nlog);
      && 1 < sb.logstart && sb.logstart + nlog == sb.inodestart < sb.bmapstart < nmeta && nmeta + sb.nblocks == size
      && (forall i: nat :: i < ninodes ==> sb.inodestart <= i / IPB + sb.inodestart < sb.bmapstart)
      && (forall b: nat :: b < size ==> sb.bmapstart <= b / BPB + sb.bmapstart < nmeta)
  {
    forall i: nat | i < ninodes ensures i / IPB <= ninodes / IPB {
    }
    forall b: nat | b < size ensures b / BPB <= size / BPB {
    }
  }

  ghost function Bits(size: nat, freeblock: nat): seq<bool> {
    seq(size, b => b < freeblock)
  }

  /** The image as a file-system state: the blocks below freeblock are the ones in use.  `inodes`
      are the inodes with the copy that iappend is working on. */
  ghost function Img(nmeta: nat, disk: seq<Block>, freeblock: nat, inodes: seq<Inode>, dinode: seq<Inode>,
                     owner: map<int, Slot>): St {
    St(nmeta, disk, Bits(|disk|, freeblock), inodes, dinode, owner)
  }

  /** Blocks not handed out yet are zero, as mkfs first wrote them. */
  ghost predicate FreshZero(disk: seq<Block>, freeblock: nat) {
    forall b :: freeblock <= b < |disk| ==> disk[b] == Zeroed()
  }

  lemma TakeBlock(disk: seq<Block>, freeblock: nat)
    requires FreshZero(disk, freeblock) && freeblock < |disk|
    ensures disk[freeblock := Zeroed()] == disk
    ensures Bits(|disk|, freeblock)[freeblock := true] == Bits(|disk|, freeblock + 1)
    ensures FreshZero(disk, freeblock + 1)
  {
  }

  lemma PlaceDirect(nmeta: nat, disk: seq<Block>, fb: nat, inodes: seq<Inode>, dinode: seq<Inode>,
                    owner: map<int, Slot>, ip: nat, nb: nat)
    requires Working(Img(nmeta, disk, fb, inodes, dinode, owner), ip, nb) && nb < NDIRECT
    requires fb < |disk| && FreshZero(disk, fb)
    ensures
      && |inodes[ip].addrs| == NDIRECT + 1
      && var st' := Img(nmeta, disk, fb + 1, SetAddr(inodes, ip, nb, fb), dinode, owner[fb := Direct(ip, nb)]);
         Working(st', ip, nb + 1) && SameBytes(Img(nmeta, disk, fb, inodes, dinode, owner), st', ip, nb)
         && BlockAt(st'.disk, st'.icache, ip, nb) == fb > 0
  {
    hide Working, SameBytes, Zeroed, BlockAt, SetAddr;
    var st := Img(nmeta, disk, fb, inodes, dinode, owner);
    TakeBlock(disk, fb);
    WorkingBase(st, ip, nb);
    FillDirect(st, ip, nb, fb);
    BlockExists(Filled(st, Direct(ip, nb), fb), ip, nb + 1, nb);
  }

  lemma PlaceTable(nmeta: nat, disk: seq<Block>, fb: nat, inodes: seq<Inode>, dinode: seq<Inode>, owner: map<int, Slot>,
                   ip: nat)
    requires Working(Img(nmeta, disk, fb, inodes, dinode, owner), ip, NDIRECT)
    requires fb < |disk| && FreshZero(disk, fb)
    ensures
      && |inodes[ip].addrs| == NDIRECT + 1
      && var st' := Img(nmeta, disk, fb + 1, SetAddr(inodes, ip, NDIRECT, fb), dinode, owner[fb := Table(ip)]);
         Tabled(st', ip) && SameBytes(Img(nmeta, disk, fb, inodes, dinode, owner), st', ip, NDIRECT)
  {
    hide Working, Tabled, SameBytes, Zeroed, SetAddr;
    var st := Img(nmeta, disk, fb, inodes, dinode, owner);
    TakeBlock(disk, fb);
    WorkingBase(st, ip, NDIRECT);
    FillTable(st, ip, fb);
    FilledIs(st, Table(ip), fb);
  }

  lemma PlaceEntry(nmeta: nat, disk: seq<Block>, fb: nat, inodes: seq<Inode>, dinode: seq<Inode>, owner: map<int, Slot>,
                   ip: nat, nb: nat)
    requires NDIRECT <= nb < MAXFILE
    requires if nb == NDIRECT then Tabled(Img(nmeta, disk, fb, inodes, dinode, owner), ip)
             else Working(Img(nmeta, disk, fb, inodes, dinode, owner), ip, nb)
    requires fb < |disk| && FreshZero(disk, fb)
    ensures
      && ip < |inodes| && |inodes[ip].addrs| == NDIRECT + 1
      && var a := inodes[ip].addrs[NDIRECT];
         && 0 < a < fb && |disk[a].byte| == BSIZE
         && var st' := Img(nmeta, disk[a := PutWord(disk[a], nb - NDIRECT, fb)], fb + 1, inodes, dinode,
                           owner[fb := Entry(ip, nb - NDIRECT)]);
            Working(st', ip, nb + 1) && SameBytes(Img(nmeta, disk, fb, inodes, dinode, owner), st', ip, nb)
            && BlockAt(st'.disk, st'.icache, ip, nb) == fb > 0
            && FreshZero(st'.disk, fb + 1)
  {
    hide Working, Tabled, SameBytes, Zeroed, BlockAt, PutWord, Word;
    var st := Img(nmeta, disk, fb, inodes, dinode, owner);
    TakeBlock(disk, fb);
    EntryWord(st, ip, nb, nb);
    TableInUse(st, ip);
    FillEntryStep(st, ip, nb, fb);
    FilledEntryIs(st, ip, nb - NDIRECT, fb);
    BlockExists(FilledEntry(st, ip, nb - NDIRECT, fb), ip, nb + 1, nb);
  }

  lemma TableInUse(st: St, ip: nat)
    requires Base(st) && ip < |st.icache| && st.icache[ip].addrs[NDIRECT] != 0
    ensures 0 < st.icache[ip].addrs[NDIRECT] < |st.used| && st.used[st.icache[ip].addrs[NDIRECT]]
  {
    hide Ref;
    TableOwned(st.disk, st.icache, st.owner, st.nmeta, ip);
  }

  /** The bytes of file ip from off up to the end of its last block are zero. */
  ghost predicate TailZero(st: St, ip: nat, off: nat)
    requires ShapedFs(st.disk, st.icache) && ip < |st.icache|
  {
    forall k :: off <= k < NBlocks(off) * BSIZE && k < MAXFILE * BSIZE ==> ByteAt(st.disk, st.icache, ip, k) == 0
  }

  ghost predicate Tails(st: St)
    requires ShapedFs(st.disk, st.icache)
  {
    forall i :: 0 <= i < |st.icache| ==> TailZero(st, i, st.icache[i].size)
  }

  /** Appending m bytes inside one block keeps the tail zero. */
  lemma TailStep(st: St, st1: St, st2: St, ip: nat, off: nat, m: nat, piece: seq<int>)
    requires ShapedFs(st.disk, st.icache) && ShapedFs(st1.disk, st1.icache) && ShapedFs(st2.disk, st2.icache)
    requires ip < |st.icache| == |st1.icache| == |st2.icache|
    requires |piece| == m > 0 && off % BSIZE + m <= BSIZE && off + m <= MAXFILE * BSIZE
    requires TailZero(st, ip, off)
    requires off / BSIZE < NBlocks(off) ==> st1 == st
    requires
      var b := BlockAt(st1.disk, st1.icache, ip, off / BSIZE);
      && 0 < b < |st1.disk| && (off / BSIZE == NBlocks(off) ==> st1.disk[b] == Zeroed())
      && st2.disk == st1.disk[b := Patch(st1.disk[b], off % BSIZE, piece)]
      && BlockAt(st2.disk, st2.icache, ip, off / BSIZE) == b
    ensures TailZero(st2, ip, off + m)
  {
    hide BlockAt, ShapedFs, Shaped;
    forall k | off + m <= k < NBlocks(off + m) * BSIZE && k < MAXFILE * BSIZE
      ensures ByteAt(st2.disk, st2.icache, ip, k) == 0
    {
      TailAt(off, m, k);
      var b := BlockAt(st1.disk, st1.icache, ip, off / BSIZE);
      ShapedAt(st1, b);
      assert ByteAt(st2.disk, st2.icache, ip, k) == st1.disk[b].byte[k % BSIZE];
      if off / BSIZE < NBlocks(off) {
        assert ByteAt(st.disk, st.icache, ip, k) == 0;
      }
    }
  }

  lemma ShapedAt(st: St, b: int)
    requires ShapedFs(st.disk, st.icache) && 0 <= b < |st.disk|
    ensures |st.disk[b].byte| == BSIZE
  {
  }

  lemma TailAt(off: nat, m: nat, k: nat)
    requires m > 0 && off % BSIZE + m <= BSIZE && off + m <= k < NBlocks(off + m) * BSIZE
    ensures k / BSIZE == off / BSIZE && k % BSIZE >= off % BSIZE + m
    ensures off / BSIZE <= NBlocks(off)
    ensures off / BSIZE < NBlocks(off) ==> k < NBlocks(off) * BSIZE
  {
  }

  lemma TailsDone(st0: St, st: St, ip: nat, off0: nat, src: seq<int>)
    requires Going(st0, st, ip, off0, off0 + |src|, src) && off0 == SizeOf(st0, ip) && off0 + |src| <= MAXFILE * BSIZE
    requires ShapedFs(st0.disk, st0.icache) && Tails(st0)
    requires ShapedFs(st.disk, st.icache) && ip < |st.icache| == |st.dinode| && TailZero(st, ip, off0 + |src|)
    ensures
      var st' := Updated(st, ip, off0 + |src|);
      ShapedFs(st'.disk, st'.icache) && Tails(st')
  {
    hide ByteAt, ShapedFs, HoleFree, Owned, UsedOk, NBlocks, Ok;
    UpdateKeepsBase(st, ip, off0 + |src|);
    var st' := Updated(st, ip, off0 + |src|);
    forall i | 0 <= i < |st'.icache| ensures TailZero(st', i, st'.icache[i].size) {
      assert i != ip ==> TailZero(st0, i, st0.icache[i].size);
    }
  }

  class Image {
    const sb: Super
    const nmeta: nat
    var disk: seq<Block>
    var bitmap: seq<seq<bv8>>  // the bitmap blocks, which mkfs writes last
    var kind: seq<int>         // din.type
    var nlink: seq<int>        // din.nlink
    var dinode: seq<Inode>
    var freeblock: nat
    var freeinode: nat
    ghost var owner: map<int, Slot>

    ghost function State(): St
      reads this
    {
      Img(nmeta, disk, freeblock, dinode, dinode, owner)
    }

    /** With `din` as the inode that iappend is working on. */
    ghost function With(ip: nat, din: Inode): St
      requires ip < |dinode|
      reads this
    {
      Img(nmeta, disk, freeblock, dinode[ip := din], dinode, owner)
    }

    ghost predicate Valid()
      reads this
    {
      && Ok(State()) && Tails(State()) && freeblock <= |disk| && FreshZero(disk, freeblock)
      && forall i :: freeinode <= i < |dinode| ==> Blank(dinode[i])
    }

    /** The superblock, and a disk of zeroes. */
    constructor (size: nat, ninodes: nat, nlog: nat)
      requires MetaBlocks(size, ninodes, nlog) <= size < 0x1_0000_0000
      ensures Valid() && |disk| == size && |dinode| == ninodes && AllBlank(dinode)
      ensures nmeta == MetaBlocks(size, ninodes, nlog) && sb == SuperOf(size, ninodes, nlog)
      ensures freeblock == nmeta && freeinode == 1
      ensures NoBits(bitmap, size) && |kind| == |nlink| == ninodes
    {
      var nmeta := MetaBlocks(size, ninodes, nlog);
      this.nmeta, this.sb := nmeta, SuperOf(size, ninodes, nlog);
      bitmap := seq(size / BPB + 1, i => seq(BSIZE, j => 0));
      kind, nlink := seq(ninodes, i => 0), seq(ninodes, i => 0);
      disk := seq(size, b => Zeroed());
      dinode := seq(ninodes, i => Inode(0, seq(NDIRECT + 1, k => 0)));
      freeblock, freeinode, owner := nmeta, 1, map[];
      new;
      EmptyImage(nmeta, disk, dinode);
    }

    /** iappend's search for the block to write, for a direct block; false stands for an image
        with no more blocks. */
    method DirectBlock(ip: nat, fbn: nat, din: Inode, ghost nb: nat) returns (ok: bool, din': Inode, x: int)
      requires ip < |dinode| && Working(With(ip, din), ip, nb) && fbn <= nb && fbn < NDIRECT
      requires freeblock <= |disk| && FreshZero(disk, freeblock)
      modifies this`disk, this`freeblock, this`owner
      ensures !ok ==> freeblock == |disk|
      ensures |disk| == |old(disk)|
      ensures ok ==> freeblock <= |disk| && FreshZero(disk, freeblock)
      ensures ok ==> Working(With(ip, din'), ip, if fbn < nb then nb else nb + 1)
      ensures ok && fbn < nb ==> With(ip, din') == old(With(ip, din))
      ensures ok && fbn == nb ==> SameBytes(old(With(ip, din)), With(ip, din'), ip, fbn)
      ensures ok ==> x == BlockAt(disk, dinode[ip := din'], ip, fbn) && 0 < x < |disk|
      ensures ok && fbn == nb ==> disk[x] == Zeroed()
    {
      hide Working, SameBytes, BlockAt, FreshZero, Bits, Zeroed;
      BlockExists(With(ip, din), ip, nb, fbn);
      din', ok, x := din, true, din.addrs[fbn];
      if x == 0 {
        if freeblock == |disk| {
          return false, din, 0;
        }
        PlaceDirect(nmeta, disk, freeblock, dinode[ip := din], dinode, owner, ip, nb);
        TakeBlock(disk, freeblock);
        FreshAt(disk, freeblock);
        x := freeblock;
        din' := din.(addrs := din.addrs[fbn := x]);
        owner := owner[x := Direct(ip, fbn)];
        freeblock := freeblock + 1;
        SetIs(dinode, ip, din, fbn, x);
      }
    }

    /** The same behind the indirect block. */
    method IndirectBlock(ip: nat, fbn: nat, din: Inode, ghost nb: nat) returns (ok: bool, din': Inode, x: int)
      requires ip < |dinode| && Working(With(ip, din), ip, nb) && fbn <= nb && NDIRECT <= fbn < MAXFILE
      requires freeblock <= |disk| && FreshZero(disk, freeblock)
      modifies this`disk, this`freeblock, this`owner
      ensures !ok ==> freeblock == |disk|
      ensures |disk| == |old(disk)|
      ensures ok ==> freeblock <= |disk| && FreshZero(disk, freeblock)
      ensures ok ==> Working(With(ip, din'), ip, if fbn < nb then nb else nb + 1)
      ensures ok && fbn < nb ==> With(ip, din') == old(With(ip, din))
      ensures ok && fbn == nb ==> SameBytes(old(With(ip, din)), With(ip, din'), ip, fbn)
      ensures ok ==> x == BlockAt(disk, dinode[ip := din'], ip, fbn) && 0 < x < |disk|
      ensures ok && fbn == nb ==> disk[x] == Zeroed()
    {
      hide Working, Tabled, SameBytes, BlockAt, FreshZero, Bits, Zeroed, Word, PutWord;
      ghost var st := With(ip, din);
      WorkingBase(st, ip, nb);
      BlockExists(st, ip, nb, fbn);
      SameBytesRefl(st, ip, fbn);
      din', ok := din, true;
      if din.addrs[NDIRECT] == 0 {
        if freeblock == |disk| {
          return false, din, 0;
        }
        PlaceTable(nmeta, disk, freeblock, dinode[ip := din], dinode, owner, ip);
        TakeBlock(disk, freeblock);
        din' := din.(addrs := din.addrs[NDIRECT := freeblock]);
        owner := owner[freeblock := Table(ip)];
        SetIs(dinode, ip, din, NDIRECT, freeblock);
        freeblock := freeblock + 1;
      }
      ghost var st1 := With(ip, din');
      EntryWord(st1, ip, nb, fbn);
      var a := din'.addrs[NDIRECT];
      var indirect := disk[a];
      x := Word(indirect, fbn - NDIRECT);
      if x == 0 {
        if freeblock == |disk| {
          return false, din, 0;
        }
        PlaceEntry(nmeta, disk, freeblock, dinode[ip := din'], dinode, owner, ip, nb);
        FreshAt(disk, freeblock);
        x := freeblock;
        disk := disk[a := PutWord(indirect, fbn - NDIRECT, x)];
        owner := owner[x := Entry(ip, fbn - NDIRECT)];
        freeblock := freeblock + 1;
        SameBytesTrans(st, st1, With(ip, din'), ip, fbn);
      } else {
        BlockExists(st, ip, nb, fbn);
      }
    }

    /** One turn of iappend's loop, at offset off; no bytes copied stands for a stop: the file is at
        its largest, or the image has no more blocks. */
    method AppendNext(ghost st0: St, ip: nat, src: seq<int>, off0: nat, off: nat, din: Inode)
      returns (m: nat, din': Inode)
      requires ip < |dinode| && off0 <= off < off0 + |src| && IsBytes(src)
      requires Appending(st0, With(ip, din), ip, off0, off, src)
      requires freeblock <= |disk| && FreshZero(disk, freeblock)
      modifies this`disk, this`freeblock, this`owner
      ensures |disk| == |old(disk)|
      ensures m == 0 ==> freeblock == |disk| || off >= MAXFILE * BSIZE
      ensures m > 0 ==> off + m <= off0 + |src| && off + m <= MAXFILE * BSIZE
      ensures m > 0 ==> Appending(st0, With(ip, din'), ip, off0, off + m, src)
      ensures m > 0 ==> freeblock <= |disk| && FreshZero(disk, freeblock)
    {
      hide Working, Appending, Going, SameBytes, BlockAt, Patch, NBlocks, FreshZero, Bits, Zeroed;
      var fbn := off / BSIZE;
      if fbn >= MAXFILE {
        return 0, din;
      }
      m := Min(off0 + |src| - off, (fbn + 1) * BSIZE - off);
      ghost var st := With(ip, din);
      ghost var nb := AppendBlocks(st0, st, ip, off0, off, src, m);
      var ok, x;
      if fbn < NDIRECT {
        ok, din', x := DirectBlock(ip, fbn, din, nb);
      } else {
        ok, din', x := IndirectBlock(ip, fbn, din, nb);
      }
      if !ok {
        return 0, din;
      }
      ghost var st1 := With(ip, din');
      ghost var nb' := if fbn < nb then nb else nb + 1;
      BlockExists(st1, ip, nb', fbn);
      var piece := src[off - off0..off - off0 + m];
      var data := Patch(disk[x], off % BSIZE, piece);
      PatchShaped(disk[x], off % BSIZE, piece);
      WriteBlock(st1, ip, nb', fbn, data);
      BelowFree(st1, ip, nb', x, disk, freeblock, data);
      disk := disk[x := data];
      AppendStep(st0, st, st1, With(ip, din'), ip, off0, off, m, src, nb);
    }

    /** iappend: src goes to the end of file ip. */
    method IAppend(ip: nat, src: seq<int>) returns (ok: bool)
      requires Valid() && ip < freeinode <= |dinode| && IsBytes(src)
      modifies this`disk, this`freeblock, this`owner, this`dinode
      ensures |disk| == |old(disk)|
      ensures !ok ==> freeblock == |disk| || old(dinode[ip].size) + |src| > MAXFILE * BSIZE
      ensures ok ==> Valid() && |dinode| == |old(dinode)|
      ensures ok ==> Wrote(old(State()), State(), ip, old(dinode[ip].size), src)
    {
      hide Ok, Appending, FreshZero, Wrote, Tails, Blank, Bits;
      ghost var st0 := State();
      var din := dinode[ip];
      var off0, off := din.size, din.size;
      AppendStarts(st0, ip, off, src);
      ghost var din0 := dinode;
      assert dinode[ip := din] == dinode;
      while off < off0 + |src|
        invariant off0 <= off <= off0 + |src| && ip < |dinode| && dinode == din0
        invariant Appending(st0, With(ip, din), ip, off0, off, src)
        invariant freeblock <= |disk| == |old(disk)| && FreshZero(disk, freeblock)
        invariant off == off0 ==> din == dinode[ip]
      {
        var m;
        m, din := AppendNext(st0, ip, src, off0, off, din);
        if m == 0 {
          return false;
        }
        off := off + m;
      }
      ghost var st := With(ip, din);
      AppendEnds(st0, st, ip, off0, src);
      din := din.(size := off);
      dinode := dinode[ip := din];
      WrittenBack(st, nmeta, disk, freeblock, dinode, din0, owner, ip, off);
      ok := true;
    }

    /** ialloc: the next inode number, with an empty inode; false stands for the end of the table. */
    method IAlloc(t: int) returns (ok: bool, inum: nat)
      requires Valid() && freeinode <= |dinode| == |kind| == |nlink|
      modifies this`freeinode, this`dinode, this`kind, this`nlink
      ensures ok <==> old(freeinode) < |old(dinode)|
      ensures Valid() && dinode == old(dinode) && State() == old(State())
      ensures ok ==> inum == old(freeinode) && freeinode == inum + 1 && Blank(dinode[inum])
      ensures ok ==> kind == old(kind)[inum := t] && nlink == old(nlink)[inum := 1]
    {
      hide Ok, FreshZero, Tails, Bits;
      if freeinode == |dinode| {
        return false, 0;
      }
      inum := freeinode;
      BlankIs(dinode[inum]);
      dinode := dinode[inum := Inode(0, seq(NDIRECT + 1, k => 0))];
      assert dinode == old(dinode);
      kind, nlink := kind[inum := t], nlink[inum := 1];
      freeinode := freeinode + 1;
      ok := true;
    }
  }

  /** Bitmap blocks for a disk of this size, all zero. */
  ghost predicate NoBits(bitmap: seq<seq<bv8>>, size: nat) {
    && Bitmap.Mapped(bitmap, size) && |bitmap| > 0
    && forall i :: 0 <= i < |bitmap| ==> forall j :: 0 <= j < BSIZE ==> bitmap[i][j] == 0
  }

  ghost predicate Blank(ino: Inode) {
    ino.size == 0 && |ino.addrs| == NDIRECT + 1 && forall k :: 0 <= k <= NDIRECT ==> ino.addrs[k] == 0
  }

  lemma FreshAt(disk: seq<Block>, b: nat)
    requires FreshZero(disk, b) && b < |disk|
    ensures disk[b] == Zeroed()
  {
  }

  lemma SetIs(dinode: seq<Inode>, ip: nat, din: Inode, n: nat, b: int)
    requires ip < |dinode| && n < |din.addrs|
    ensures SetAddr(dinode[ip := din], ip, n, b) == dinode[ip := din.(addrs := din.addrs[n := b])]
  {
  }

  /** iappend has appended src up to off. */
  ghost predicate Appending(st0: St, st: St, ip: nat, off0: nat, off: nat, src: seq<int>) {
    && Going(st0, st, ip, off0, off, src) && off0 == SizeOf(st0, ip) && off <= MAXFILE * BSIZE
    && ShapedFs(st.disk, st.icache) && ip < |st.icache| && TailZero(st, ip, off)
  }

  lemma AppendBlocks(st0: St, st: St, ip: nat, off0: nat, off: nat, src: seq<int>, m: nat) returns (nb: nat)
    requires Appending(st0, st, ip, off0, off, src) && 0 < m && off + m <= MAXFILE * BSIZE
    ensures Working(st, ip, nb) && nb == NBlocks(off) && off / BSIZE <= nb && off / BSIZE < MAXFILE
  {
    hide Working, TailZero, Written, Ok;
    nb := GoingBlocks(st0, st, ip, off0, off, src, m);
    GoingAt(st0, st, ip, off0, off, src);
  }

  lemma GoingAt(st0: St, st: St, ip: nat, off0: nat, off: nat, src: seq<int>)
    requires Going(st0, st, ip, off0, off, src)
    ensures off0 <= off && ip < |st0.icache|
  {
  }

  lemma AppendStep(st0: St, st: St, st1: St, st2: St, ip: nat, off0: nat, off: nat, m: nat, src: seq<int>, nb: nat)
    requires Appending(st0, st, ip, off0, off, src)
    requires off0 <= off && off + m <= off0 + |src| && off + m <= MAXFILE * BSIZE && 0 < m && off % BSIZE + m <= BSIZE
    requires nb == NBlocks(off) && off / BSIZE <= nb
    requires if off / BSIZE < nb then st1 == st else SameBytes(st, st1, ip, off / BSIZE)
    requires SameBytes(st1, st2, ip, off / BSIZE) && st2.icache == st1.icache
    requires Working(st2, ip, if off / BSIZE < nb then nb else nb + 1)
    requires
      var b := BlockAt(st1.disk, st1.icache, ip, off / BSIZE);
      && 0 < b < |st1.disk| && (off / BSIZE == nb ==> st1.disk[b] == Zeroed())
      && st2.disk == st1.disk[b := Patch(st1.disk[b], off % BSIZE, src[off - off0..off - off0 + m])]
      && BlockAt(st2.disk, st2.icache, ip, off / BSIZE) == b
    ensures Appending(st0, st2, ip, off0, off + m, src)
  {
    hide TailZero, Going, Working, BlockAt, Patch, NBlocks, ByteAt, Zeroed, Shaped;
    GoingAt(st0, st, ip, off0, off, src);
    GoingStep(st0, st, st1, st2, ip, off0, off, m, src, nb);
    TailStep(st, st1, st2, ip, off, m, src[off - off0..off - off0 + m]);
  }

  /** A block of a file lies below freeblock, so writing it leaves the fresh blocks zero. */
  lemma BelowFree(st: St, ip: nat, nb: nat, x: int, disk: seq<Block>, freeblock: nat, data: Block)
    requires Working(st, ip, nb) && x in st.owner && 0 <= x < |disk|
    requires st.used == Bits(|disk|, freeblock) && FreshZero(disk, freeblock)
    ensures FreshZero(disk[x := data], freeblock)
  {
  }

  lemma BlankIs(ino: Inode)
    requires Blank(ino)
    ensures ino == Inode(0, seq(NDIRECT + 1, k => 0))
  {
  }

  lemma AppendStarts(st: St, ip: nat, off: nat, src: seq<int>)
    requires Ok(st) && ip < |st.icache| && off == st.icache[ip].size
    requires ShapedFs(st.disk, st.icache) ==> Tails(st)
    ensures Appending(st, st, ip, off, off, src)
  {
    hide HoleFree, Owned, UsedOk, TailZero;
    GoingStarts(st, ip, off, src);
    assert FileOk(st, ip);
    GoingStarted(st, ip, off, src);
  }

  lemma GoingStarted(st: St, ip: nat, off: nat, src: seq<int>)
    requires Going(st, st, ip, off, off, src)
    ensures ShapedFs(st.disk, st.icache)
  {
  }

  lemma AppendEnds(st0: St, st: St, ip: nat, off0: nat, src: seq<int>)
    requires Appending(st0, st, ip, off0, off0 + |src|, src)
    requires ShapedFs(st0.disk, st0.icache) ==> Tails(st0)
    ensures ip < |st.icache| == |st.dinode| && st.icache[ip].size == off0
    ensures
      var st' := Updated(st, ip, off0 + |src|);
      Ok(st') && Wrote(st0, st', ip, off0, src) && ShapedFs(st'.disk, st'.icache) && Tails(st')
  {
    hide Ok, Tails, TailZero, Wrote, Updated, Working, Written;
    GoingEnds(st0, st, ip, off0, src);
    StartShaped(st0, st, ip, off0, off0 + |src|, src);
    TailsDone(st0, st, ip, off0, src);
  }

  lemma StartShaped(st0: St, st: St, ip: nat, off0: nat, off: nat, src: seq<int>)
    requires Going(st0, st, ip, off0, off, src)
    ensures ShapedFs(st0.disk, st0.icache)
  {
  }

  /** winode at the end of iappend. */
  lemma WrittenBack(st: St, nmeta: nat, disk: seq<Block>, freeblock: nat, dinode: seq<Inode>, dinode0: seq<Inode>,
                    owner: map<int, Slot>, ip: nat, off: nat)
    requires ip < |dinode0| == |dinode| == |st.icache|
    requires st == Img(nmeta, disk, freeblock, dinode0[ip := st.icache[ip]], dinode0, owner)
    requires st.icache[ip].size <= off && (st.icache[ip].size == off ==> st.icache[ip] == dinode0[ip])
    requires dinode == dinode0[ip := st.icache[ip].(size := off)]
    ensures Updated(st, ip, off) == Img(nmeta, disk, freeblock, dinode, dinode, owner)
  {
  }

  ghost predicate AllBlank(dinode: seq<Inode>) {
    forall i :: 0 <= i < |dinode| ==> Blank(dinode[i])
  }

  lemma EmptyImage(nmeta: nat, disk: seq<Block>, dinode: seq<Inode>)
    requires 0 < nmeta <= |disk| < 0x1_0000_0000 && FreshZero(disk, 0) && AllBlank(dinode)
    ensures var st := Img(nmeta, disk, nmeta, dinode, dinode, map[]); Ok(st) && Tails(st)
  {
  }
}
