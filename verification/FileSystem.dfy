/** balloc, bfree, bmap, itrunc, readi, writei and filewrite. */
module FileSystem {
  import opened Blocks
  import opened Params
  import opened FsState
  import opened FsLogging
  import opened FsTruncate
  import Bitmap

  class Fs {
    const nmeta: nat
    const inodestart: nat
    const bmapstart: nat
    var disk: seq<Block>
    var bitmap: seq<seq<bv8>>  // the bitmap blocks
    var icache: seq<Inode>
    var dinode: seq<Inode>
    var logged: set<int>       // blocks passed to log_write
    ghost var owner: map<int, Slot>

    /** A file system found on disk: nothing is cached yet that differs from it. */
    constructor (nmeta: nat, inodestart: nat, bmapstart: nat, disk: seq<Block>, bitmap: seq<seq<bv8>>,
                 dinode: seq<Inode>, ghost owner: map<int, Slot>)
      requires Bitmap.Mapped(bitmap, |disk|)
      requires Ok(St(nmeta, disk, Bitmap.UsedBits(bitmap, |disk|), dinode, dinode, owner))
      ensures Valid() && State() == St(nmeta, disk, Bitmap.UsedBits(bitmap, |disk|), dinode, dinode, owner)
    {
      this.nmeta, this.inodestart, this.bmapstart := nmeta, inodestart, bmapstart;
      this.disk, this.bitmap, this.icache, this.dinode := disk, bitmap, dinode, dinode;
      this.logged, this.owner := {}, owner;
    }

    ghost function State(): St
      reads this
    {
      St(nmeta, disk, Used(), icache, dinode, owner)
    }

    /** The blocks in use, as the bitmap says. */
    ghost function Used(): (r: seq<bool>)
      reads this
    {
      Bitmap.UsedBits(bitmap, |disk|)
    }

    ghost predicate Mapped()
      reads this
    {
      Bitmap.Mapped(bitmap, |disk|)
    }

    ghost predicate Valid()
      reads this
    {
      Mapped() && Ok(State())
    }

    ghost function OnDisk(): Media
      reads this
    {
      Media(bmapstart, inodestart, disk, bitmap, dinode)
    }

    function BBlock(b: int): int {
      b / BPB + bmapstart
    }

    function IBlock(i: int): int {
      i / IPB + inodestart
    }

    /** balloc: the first free block, marked and zeroed; 0 stands for the panic. */
    method Balloc() returns (b: int)
      requires Mapped() && (|disk| > 0 ==> Used()[0])
      modifies this`disk, this`bitmap, this`logged
      ensures Mapped()
      ensures b == 0 <==> Full(old(Used()))
      ensures b == 0 ==> disk == old(disk) && bitmap == old(bitmap) && logged == old(logged)
      ensures b != 0 ==>
                && 0 < b < |old(Used())| && !old(Used())[b] && (forall c :: 0 <= c < b ==> old(Used())[c])
                && Used() == old(Used())[b := true] && disk == old(disk)[b := Zeroed()]
                && logged == old(logged) + {BBlock(b), b}
      ensures Logs(old(OnDisk()), old(logged), OnDisk(), logged)
    {
      hide Zeroed, Bitmap.UsedBits, Bitmap.Bit, Bitmap.Mapped, Logs;
      ghost var u, m0 := Used(), OnDisk();
      LogsSelf(m0, logged);
      var base := 0;
      while base < |disk|
        invariant 0 <= base && base % BPB == 0
        invariant forall c :: 0 <= c < base && c < |u| ==> u[c]
        invariant disk == old(disk) && bitmap == old(bitmap) && logged == old(logged)
      {
        var bi := 0;
        while bi < BPB && base + bi < |disk|
          invariant 0 <= bi <= BPB
          invariant forall c :: 0 <= c < base + bi && c < |u| ==> u[c]
          invariant disk == old(disk) && bitmap == old(bitmap) && logged == old(logged)
        {
          assert base / BPB * BPB + bi == base + bi;
          Bitmap.UsedIs(bitmap, |disk|, base / BPB, bi);
          if !Bitmap.Bit(bitmap[base / BPB], bi) {
            b := base + bi;
            Bitmap.MarkUsed(bitmap, |disk|, base / BPB, bi);
            LogsAlloc(m0, logged, base / BPB, Bitmap.Mark(bitmap[base / BPB], bi), b, Zeroed());
            bitmap := bitmap[base / BPB := Bitmap.Mark(bitmap[base / BPB], bi)];
            disk := disk[b := Zeroed()];
            logged := logged + {BBlock(b), b};
            return;
          }
          bi := bi + 1;
        }
        base := base + BPB;
      }
      b := 0;
    }

    /** bmap for a direct block; nb is the number of blocks the file has. */
    method BmapDirect(ip: nat, bn: nat, ghost nb: nat) returns (r: int, ghost bits: set<int>)
      requires Working(State(), ip, nb) && bn <= nb && bn < NDIRECT
      requires Mapped()
      modifies this`disk, this`bitmap, this`icache, this`logged, this`owner
      ensures Mapped()
      ensures bn < nb ==> State() == old(State()) && logged == old(logged) && r != 0
      ensures r == 0 ==> Full(Used())
      ensures r != 0 ==> Working(State(), ip, if bn < nb then nb else nb + 1)
      ensures r != 0 ==> SameBytes(old(State()), State(), ip, bn)
      ensures r != 0 ==> r == BlockAt(disk, icache, ip, bn)
      ensures r != 0 ==> logged <= old(logged) + {r} + bits && |bits| <= if bn < nb then 0 else 1
      ensures r != 0 ==> TableSet(old(icache[ip])) <= TableSet(icache[ip])
      ensures Logs(old(OnDisk()), old(logged), OnDisk(), logged)
    {
      hide Full, Working, SameBytes, Filled, BlockAt, SetAddr, Zeroed, Bitmap.UsedBits, Bitmap.Mapped, Logs;
      ghost var st := State();
      LogsSelf(OnDisk(), logged);
      WorkingBase(st, ip, nb);
      BlockExists(st, ip, nb, bn);
      SameBytesRefl(st, ip, bn);
      bits := {};
      r := icache[ip].addrs[bn];
      if r == 0 {
        FirstUsed(st);
        r := Balloc();
        if r == 0 {
          return;
        }
        FillDirect(st, ip, nb, r);
        icache := SetAddr(icache, ip, bn, r);
        owner := owner[r := Direct(ip, bn)];
        FilledIs(st, Direct(ip, bn), r);
        bits := {BBlock(r)};
      }
    }

    /** bmap's first half for a block behind the indirect block: the indirect block. */
    method BmapTable(ip: nat, bn: nat, ghost nb: nat) returns (addr: int, ghost bits: set<int>)
      requires Working(State(), ip, nb) && bn <= nb && NDIRECT <= bn < MAXFILE
      requires Mapped()
      modifies this`disk, this`bitmap, this`icache, this`logged, this`owner
      ensures Mapped()
      ensures nb > NDIRECT ==> State() == old(State()) && logged == old(logged) && addr != 0
      ensures addr == 0 ==> Full(Used())
      ensures addr != 0 ==> if nb == NDIRECT then Tabled(State(), ip) else Working(State(), ip, nb)
      ensures addr != 0 ==> SameBytes(old(State()), State(), ip, bn)
      ensures addr != 0 ==> ip < |icache| && |icache[ip].addrs| == NDIRECT + 1 && addr == icache[ip].addrs[NDIRECT]
      ensures addr != 0 ==> logged <= old(logged) + {addr} + bits && |bits| <= if nb == NDIRECT then 1 else 0
      ensures addr != 0 ==> TableSet(old(icache[ip])) <= TableSet(icache[ip])
      ensures Logs(old(OnDisk()), old(logged), OnDisk(), logged)
    {
      hide Full, Working, Tabled, SameBytes, Filled, BlockAt, SetAddr, Zeroed, Word, Bitmap.UsedBits, Bitmap.Mapped;
      hide Logs;
      ghost var st := State();
      WorkingBase(st, ip, nb);
      BlockExists(st, ip, nb, NDIRECT);
      SameBytesRefl(st, ip, bn);
      LogsSelf(OnDisk(), logged);
      bits := {};
      addr := icache[ip].addrs[NDIRECT];
      if addr == 0 {
        NoTableYet(st, ip, nb);
        FirstUsed(st);
        addr := Balloc();
        if addr == 0 {
          return;
        }
        FillTable(st, ip, addr);
        icache := SetAddr(icache, ip, NDIRECT, addr);
        owner := owner[addr := Table(ip)];
        FilledIs(st, Table(ip), addr);
        bits := {BBlock(addr)};
      } else {
        TableThere(st, ip, nb);
      }
      EntryWord(State(), ip, nb, bn);
    }

    /** Its second half: the entry in the indirect block. */
    method BmapEntry(ip: nat, bn: nat, ghost nb: nat) returns (r: int, ghost bits: set<int>)
      requires if nb == NDIRECT then Tabled(State(), ip) else Working(State(), ip, nb)
      requires bn <= nb && NDIRECT <= bn < MAXFILE && ip < |icache| && |icache[ip].addrs| == NDIRECT + 1
      requires Mapped()
      modifies this`disk, this`bitmap, this`logged, this`owner
      ensures Mapped()
      ensures bn < nb ==> State() == old(State()) && logged == old(logged) && r != 0
      ensures r == 0 ==> Full(Used())
      ensures r != 0 ==> Working(State(), ip, if bn < nb then nb else nb + 1)
      ensures r != 0 ==> SameBytes(old(State()), State(), ip, bn)
      ensures r != 0 ==> r == BlockAt(disk, icache, ip, bn)
      ensures r != 0 ==> logged <= old(logged) + {r, icache[ip].addrs[NDIRECT]} + bits
      ensures r != 0 ==> |bits| <= if bn < nb then 0 else 1
      ensures Logs(old(OnDisk()), old(logged), OnDisk(), logged)
    {
      hide Full, Working, Tabled, SameBytes, FilledEntry, BlockAt, Zeroed, Word, PutWord, Bitmap.UsedBits;
      hide Bitmap.Mapped, Logs;
      ghost var st, m0 := State(), OnDisk();
      LogsSelf(m0, logged);
      EntryWord(st, ip, nb, bn);
      SameBytesRefl(st, ip, bn);
      bits := {};
      var addr := icache[ip].addrs[NDIRECT];
      var a := disk[addr];
      r := Word(a, bn - NDIRECT);
      if r == 0 {
        FirstUsed(st);
        r := Balloc();
        if r == 0 {
          return;
        }
        FillEntryStep(st, ip, nb, r);
        FilledEntryIs(st, ip, bn - NDIRECT, r);
        ghost var m1, l1 := OnDisk(), logged;
        LogsBlock(m1, l1, addr, PutWord(a, bn - NDIRECT, r));
        disk := disk[addr := PutWord(a, bn - NDIRECT, r)];
        owner := owner[r := Entry(ip, bn - NDIRECT)];
        logged := logged + {addr};
        LogsThen(m0, old(logged), m1, l1, OnDisk(), logged);
        bits := {BBlock(r)};
      }
    }

    /** bmap for a block behind the indirect block. */
    method BmapIndirect(ip: nat, bn: nat, ghost nb: nat) returns (r: int, ghost bits: set<int>)
      requires Working(State(), ip, nb) && bn <= nb && NDIRECT <= bn < MAXFILE
      requires Mapped()
      modifies this`disk, this`bitmap, this`icache, this`logged, this`owner
      ensures Mapped()
      ensures bn < nb ==> State() == old(State()) && logged == old(logged) && r != 0
      ensures r == 0 ==> Full(Used())
      ensures r != 0 ==> Working(State(), ip, if bn < nb then nb else nb + 1)
      ensures r != 0 ==> SameBytes(old(State()), State(), ip, bn)
      ensures r != 0 ==> r == BlockAt(disk, icache, ip, bn)
      ensures r != 0 ==> logged <= old(logged) + {r} + TableSet(icache[ip]) + bits
      ensures r != 0 ==> TableSet(old(icache[ip])) <= TableSet(icache[ip])
      ensures r != 0 ==> |bits| <= if bn < nb then 0 else if bn == NDIRECT then 2 else 1
      ensures Logs(old(OnDisk()), old(logged), OnDisk(), logged)
    {
      hide Full, Working, Tabled, SameBytes, BlockAt, TableSet, Bitmap.UsedBits, Bitmap.Mapped, Logs;
      ghost var st := State();
      var addr;
      ghost var t, e;
      addr, t := BmapTable(ip, bn, nb);
      bits := t;
      if addr == 0 {
        return 0, bits;
      }
      ghost var st1, m1, l1 := State(), OnDisk(), logged;
      r, e := BmapEntry(ip, bn, nb);
      bits := t + e;
      LogsThen(old(OnDisk()), old(logged), m1, l1, OnDisk(), logged);
      if r != 0 {
        SameBytesTrans(st, st1, State(), ip, bn);
        EntryLogged(old(logged), l1, logged, addr, r, t, e, icache[ip]);
      }
    }

    method Bmap(ip: nat, bn: nat, ghost nb: nat) returns (r: int, ghost bits: set<int>)
      requires Working(State(), ip, nb) && bn <= nb && bn < MAXFILE
      requires Mapped()
      modifies this`disk, this`bitmap, this`icache, this`logged, this`owner
      ensures Mapped()
      ensures bn < nb ==> State() == old(State()) && logged == old(logged) && r != 0
      ensures r == 0 ==> Full(Used())
      ensures r != 0 ==> Working(State(), ip, if bn < nb then nb else nb + 1)
      ensures r != 0 ==> SameBytes(old(State()), State(), ip, bn)
      ensures r != 0 ==> r == BlockAt(disk, icache, ip, bn)
      ensures r != 0 ==> logged <= old(logged) + {r} + TableSet(icache[ip]) + bits
      ensures r != 0 ==> TableSet(old(icache[ip])) <= TableSet(icache[ip])
      ensures r != 0 ==> |bits| <= if bn < nb then 0 else if bn == NDIRECT then 2 else 1
      ensures Logs(old(OnDisk()), old(logged), OnDisk(), logged)
    {
      hide Full, Working, SameBytes, BlockAt, Bitmap.UsedBits, Bitmap.Mapped, Logs;
      if bn < NDIRECT {
        r, bits := BmapDirect(ip, bn, nb);
      } else {
        r, bits := BmapIndirect(ip, bn, nb);
      }
    }

    /** The loop body of writei: bmap, memmove, log_write.  st1 is the state after bmap. */
    method WritePiece(ip: nat, piece: seq<int>, off: nat, ghost nb: nat)
      returns (b: int, ghost bits: set<int>, ghost st1: St)
      requires Working(State(), ip, nb) && off / BSIZE <= nb && off / BSIZE < MAXFILE
      requires off % BSIZE + |piece| <= BSIZE && IsBytes(piece)
      requires Mapped()
      modifies this`disk, this`bitmap, this`icache, this`logged, this`owner
      ensures Mapped()
      ensures b == 0 ==> Full(Used())
      ensures b != 0 ==>
                && Working(State(), ip, if off / BSIZE < nb then nb else nb + 1)
                && (if off / BSIZE < nb then st1 == old(State()) else SameBytes(old(State()), st1, ip, off / BSIZE))
                && SameBytes(st1, State(), ip, off / BSIZE)
                && b == BlockAt(st1.disk, st1.icache, ip, off / BSIZE) == BlockAt(disk, icache, ip, off / BSIZE)
                && 0 < b < |st1.disk| && disk == st1.disk[b := Patch(st1.disk[b], off % BSIZE, piece)]
                && icache == st1.icache
      ensures b != 0 ==> logged <= old(logged) + {b} + TableSet(icache[ip]) + bits
      ensures b != 0 ==> TableSet(old(icache[ip])) <= TableSet(icache[ip])
      ensures b != 0 ==> |bits| <= if off / BSIZE < nb then 0 else if off / BSIZE == NDIRECT then 2 else 1
      ensures Logs(old(OnDisk()), old(logged), OnDisk(), logged)
    {
      hide Full, Working, SameBytes, BlockAt, Patch, TableSet, Bitmap.UsedBits, Bitmap.Mapped, Logs;
      ghost var nb' := if off / BSIZE < nb then nb else nb + 1;
      b, bits := Bmap(ip, off / BSIZE, nb);
      st1 := State();
      ghost var m1, l1 := OnDisk(), logged;
      if b == 0 {
        return;
      }
      BlockExists(st1, ip, nb', off / BSIZE);
      PatchShaped(disk[b], off % BSIZE, piece);
      WriteBlock(st1, ip, nb', off / BSIZE, Patch(disk[b], off % BSIZE, piece));
      LogsBlock(m1, l1, b, Patch(disk[b], off % BSIZE, piece));
      disk := disk[b := Patch(disk[b], off % BSIZE, piece)];
      logged := logged + {b};
      LogsThen(old(OnDisk()), old(logged), m1, l1, OnDisk(), logged);
    }

    /** writei.  Failed stands for -1 and Halted for the out-of-blocks panic.  `data`, `bits`:
        the data blocks and bitmap blocks it logs, besides the indirect block and the inode. */
    method Writei(ip: nat, src: seq<int>, off0: nat, n: nat)
      returns (r: IoResult, ghost data: set<int>, ghost bits: set<int>)
      requires Valid() && ip < |icache|
      requires off0 < 0x1_0000_0000 && n < 0x1_0000_0000 && n == |src| && IsBytes(src)
      modifies this`disk, this`bitmap, this`icache, this`dinode, this`logged, this`owner
      ensures Mapped()
      ensures r.Failed? <==> off0 > old(icache[ip].size) || off0 + n >= 0x1_0000_0000 || off0 + n > MAXFILE * BSIZE
      ensures r.Failed? ==> State() == old(State()) && logged == old(logged)
      ensures r.Halted? ==> Full(Used())
      ensures r.Done? ==> r.n == n && Valid() && |icache| == |old(icache)|
      ensures r.Done? ==> Wrote(old(State()), State(), ip, off0, src)
      ensures r.Done? ==> Within(old(logged), logged, data, bits, TableSet(icache[ip]) + {IBlock(ip)})
      ensures r.Done? ==> |data| <= Span(off0, n) && |bits| <= Span(off0, n) + 1
      ensures Logs(old(OnDisk()), old(logged), OnDisk(), logged)
    {
      hide Full, Ok, Going, Logging, Base, Within, TableSet, Wrote, Span, Updated, Bitmap.UsedBits, Bitmap.Mapped;
      hide Logs;
      LogsSelf(OnDisk(), logged);
      data, bits := {}, {};
      ghost var st0 := State();
      OkStart(st0, ip);
      if off0 > icache[ip].size || (off0 + n) % 0x1_0000_0000 < off0 {
        return Failed, data, bits;
      }
      if off0 + n > MAXFILE * BSIZE {
        return Failed, data, bits;
      }
      var ok;
      ok, data, bits := WriteAll(ip, src, off0, n);
      if !ok {
        return Halted, data, bits;
      }
      ghost var last, lg := State(), logged;
      GoingEnds(st0, last, ip, off0, src);
      var off := off0 + n;
      if n > 0 && off > icache[ip].size {
        icache := icache[ip := icache[ip].(size := off)];
        LogsInode(OnDisk(), lg, ip, icache[ip]);
        ghost var m1 := OnDisk();
        dinode := dinode[ip := icache[ip]];
        logged := logged + {IBlock(ip)};
        LogsThen(old(OnDisk()), old(logged), m1, lg, OnDisk(), logged);
      }
      UpdatedIs(last, ip, off);
      LoggingEnds(old(logged), lg, data, bits, last.icache[ip], off0, n, logged, IBlock(ip), off);
      r := Done(n);
    }

    /** The loop of writei. */
    method WriteAll(ip: nat, src: seq<int>, off0: nat, n: nat)
      returns (ok: bool, ghost data: set<int>, ghost bits: set<int>)
      requires Valid() && ip < |icache| && n == |src| && IsBytes(src)
      requires off0 <= icache[ip].size && off0 + n <= MAXFILE * BSIZE
      modifies this`disk, this`bitmap, this`icache, this`logged, this`owner
      ensures Mapped()
      ensures !ok ==> Full(Used())
      ensures ok ==> Going(old(State()), State(), ip, off0, off0 + n, src)
      ensures ok ==> ip < |icache| && Logging(old(logged), logged, data, bits, TableSet(icache[ip]), off0, n)
      ensures Logs(old(OnDisk()), old(logged), OnDisk(), logged)
    {
      hide Full, Ok, Going, Logging, TableSet, Bitmap.UsedBits, Bitmap.Mapped, Logs;
      LogsSelf(OnDisk(), logged);
      data, bits, ok := {}, {}, true;
      ghost var st0 := State();
      GoingStarts(st0, ip, off0, src);
      LoggingStarts(logged, TableSet(icache[ip]), off0);
      var tot := 0;
      while tot < n
        invariant 0 <= tot <= n && Mapped()
        invariant tot > 0 && tot < n ==> (off0 + tot) % BSIZE == 0
        invariant ip < |icache| && Going(st0, State(), ip, off0, off0 + tot, src)
        invariant Logging(old(logged), logged, data, bits, TableSet(icache[ip]), off0, tot)
        invariant Logs(old(OnDisk()), old(logged), OnDisk(), logged)
      {
        var m;
        ghost var m1, l1 := OnDisk(), logged;
        m, data, bits := WriteNext(st0, old(logged), ip, src, off0, tot, data, bits);
        LogsThen(old(OnDisk()), old(logged), m1, l1, OnDisk(), logged);
        if m == 0 {
          return false, data, bits;
        }
        tot := tot + m;
      }
    }

    /** One turn of that loop, at offset off0 + tot; no bytes copied stands for the panic. */
    method WriteNext(ghost st0: St, ghost l0: set<int>, ip: nat, src: seq<int>, off0: nat, tot: nat,
                     ghost data0: set<int>, ghost bits0: set<int>)
      returns (m: nat, ghost data: set<int>, ghost bits: set<int>)
      requires IsBytes(src) && off0 + |src| <= MAXFILE * BSIZE
      requires tot < |src| && (tot > 0 ==> (off0 + tot) % BSIZE == 0)
      requires ip < |icache| && Going(st0, State(), ip, off0, off0 + tot, src)
      requires Logging(l0, logged, data0, bits0, TableSet(icache[ip]), off0, tot)
      requires Mapped()
      modifies this`disk, this`bitmap, this`icache, this`logged, this`owner
      ensures Mapped()
      ensures m <= |src| - tot && (0 < m < |src| - tot ==> (off0 + tot + m) % BSIZE == 0)
      ensures m == 0 ==> Full(Used())
      ensures m > 0 ==> ip < |icache| && Going(st0, State(), ip, off0, off0 + tot + m, src)
      ensures m > 0 ==> Logging(l0, logged, data, bits, TableSet(icache[ip]), off0, tot + m)
      ensures Logs(old(OnDisk()), old(logged), OnDisk(), logged)
    {
      hide Full, Ok, Working, Going, Logging, SameBytes, BlockAt, Patch, TableSet, NBlocks, Bitmap.UsedBits;
      hide Bitmap.Mapped, Logs;
      var off := off0 + tot;
      ghost var st, lg := State(), logged;
      ghost var nb := GoingBlocks(st0, st, ip, off0, off, src, |src| - tot);
      m := Min(|src| - tot, BSIZE - off % BSIZE);
      var b;
      ghost var bs, st1;
      b, bs, st1 := WritePiece(ip, src[tot..tot + m], off, nb);
      data, bits := data0 + {b}, bits0 + bs;
      if b == 0 {
        return 0, data, bits;
      }
      GoingStep(st0, st, st1, State(), ip, off0, off, m, src, nb);
      LoggingStep(l0, lg, data0, bits0, TableSet(st.icache[ip]), off0, tot, m, logged, b, bs, TableSet(icache[ip]), nb);
    }

    /** readi.  It never allocates: the file has no holes. */
    method Readi(ip: nat, off0: nat, n0: nat) returns (r: IoResult, dst: seq<int>)
      requires Valid() && ip < |icache| && off0 < 0x1_0000_0000 && n0 < 0x1_0000_0000
      modifies this`disk, this`bitmap, this`icache, this`logged, this`owner
      ensures Mapped()
      ensures State() == old(State()) && logged == old(logged)
      ensures if off0 > icache[ip].size || off0 + n0 >= 0x1_0000_0000 then r == Failed
              else r == Done(Min(n0, icache[ip].size - off0)) && dst == FileData(State(), ip)[off0..off0 + r.n]
    {
      hide Full, Ok, Working, SameBytes, BlockAt, FileData, TableSet, NBlocks, Bitmap.UsedBits, Bitmap.Mapped;
      ghost var st := State();
      OkStart(st, ip);
      dst := [];
      if off0 > icache[ip].size || (off0 + n0) % 0x1_0000_0000 < off0 {
        return Failed, [];
      }
      var n := if off0 + n0 > icache[ip].size then icache[ip].size - off0 else n0;
      ghost var nb := NBlocks(icache[ip].size);
      var off, tot := off0, 0;
      while tot < n
        invariant 0 <= tot <= n && off == off0 + tot && Mapped()
        invariant State() == st && logged == old(logged)
        invariant dst == FileData(st, ip)[off0..off]
      {
        ReadsInside(st, ip, off);
        var b;
        ghost var bits;
        b, bits := Bmap(ip, off / BSIZE, nb);
        var m := Min(n - tot, BSIZE - off % BSIZE);
        ReadPiece(st, ip, off, m);
        Joined(FileData(st, ip), off0, off, m);
        dst := dst + disk[b].byte[off % BSIZE..off % BSIZE + m];
        tot, off := tot + m, off + m;
      }
      r := Done(n);
    }

    /** bfree; false stands for the "freeing free block" panic. */
    method Bfree(b: nat) returns (ok: bool)
      requires Mapped() && b < |disk|
      modifies this`bitmap, this`logged
      ensures Mapped()
      ensures ok <==> old(Used())[b]
      ensures Used() == old(Used())[b := false]
      ensures logged == if ok then old(logged) + {BBlock(b)} else old(logged)
      ensures Logs(old(OnDisk()), old(logged), OnDisk(), logged)
    {
      hide Bitmap.UsedBits, Bitmap.Bit, Bitmap.Mapped, Logs;
      LogsSelf(OnDisk(), logged);
      var bi := b % BPB;
      assert b / BPB * BPB + bi == b;
      Bitmap.UsedIs(bitmap, |disk|, b / BPB, bi);
      ok := Bitmap.Bit(bitmap[b / BPB], bi);
      if ok {
        Bitmap.MarkUsed(bitmap, |disk|, b / BPB, bi);
        LogsBits(OnDisk(), logged, b / BPB, Bitmap.Unmark(bitmap[b / BPB], bi));
        bitmap := bitmap[b / BPB := Bitmap.Unmark(bitmap[b / BPB], bi)];
        logged := logged + {BBlock(b)};
      } else {
        assert Used() == Used()[b := false];
      }
    }

    /** itrunc; false stands for a panic in bfree, which does not happen. */
    method Itrunc(ip: nat) returns (ok: bool)
      requires Valid() && ip < |icache|
      modifies this`bitmap, this`icache, this`dinode, this`logged, this`owner
      ensures Mapped()
      ensures ok && Valid() && Truncated(old(State()), State(), ip)
      ensures Logs(old(OnDisk()), old(logged), OnDisk(), logged)
    {
      hide Ok, Truncating, Truncated, SetAddr, Emptied, Word, Bitmap.UsedBits, Bitmap.Mapped, Logs;
      ghost var st0, m0 := State(), OnDisk();
      TruncStart(st0, ip);
      ok := TruncDirect(ip);
      if !ok {
        return false;
      }
      TruncShape(st0, State(), ip, NDIRECT, 0);
      ghost var m1, l1 := OnDisk(), logged;
      if icache[ip].addrs[NDIRECT] != 0 {
        ok := TruncEntries(st0, ip);
        LogsThen(m0, old(logged), m1, l1, OnDisk(), logged);
        if !ok {
          return false;
        }
        TableStep(st0, State(), ip);
        var b := icache[ip].addrs[NDIRECT];
        m1, l1 := OnDisk(), logged;
        ok := Bfree(b);
        LogsThen(m0, old(logged), m1, l1, OnDisk(), logged);
        icache := SetAddr(icache, ip, NDIRECT, 0);
        owner := owner - {b};
      } else {
        NoTable(st0, State(), ip);
      }
      TruncEnds(st0, State(), ip);
      icache := icache[ip := icache[ip].(size := 0)];
      m1, l1 := OnDisk(), logged;
      LogsInode(m1, l1, ip, icache[ip]);
      dinode := dinode[ip := icache[ip]];
      logged := logged + {IBlock(ip)};
      LogsThen(m0, old(logged), m1, l1, OnDisk(), logged);
    }

    method TruncDirect(ip: nat) returns (ok: bool)
      requires Valid() && ip < |icache|
      modifies this`bitmap, this`icache, this`logged, this`owner
      ensures Mapped()
      ensures ok && Truncating(old(State()), State(), ip, NDIRECT, 0, false)
      ensures Logs(old(OnDisk()), old(logged), OnDisk(), logged)
    {
      hide Ok, Truncating, SetAddr, Bitmap.UsedBits, Bitmap.Mapped, Logs;
      ghost var st0 := State();
      LogsSelf(OnDisk(), logged);
      TruncStart(st0, ip);
      var i := 0;
      while i < NDIRECT
        invariant 0 <= i <= NDIRECT && Mapped()
        invariant Truncating(st0, State(), ip, i, 0, false)
        invariant Logs(old(OnDisk()), old(logged), OnDisk(), logged)
      {
        DirectStep(st0, State(), ip, i);
        TruncShape(st0, State(), ip, i, 0);
        var b := icache[ip].addrs[i];
        if b != 0 {
          ghost var m1, l1 := OnDisk(), logged;
          ok := Bfree(b);
          LogsThen(old(OnDisk()), old(logged), m1, l1, OnDisk(), logged);
          if !ok {
            return false;
          }
          icache := SetAddr(icache, ip, i, 0);
          owner := owner - {b};
        }
        i := i + 1;
      }
      ok := true;
    }

    method TruncEntries(ghost st0: St, ip: nat) returns (ok: bool)
      requires Truncating(st0, State(), ip, NDIRECT, 0, false)
      requires ip < |icache| && |icache[ip].addrs| == NDIRECT + 1 && icache[ip].addrs[NDIRECT] != 0
      requires Mapped()
      modifies this`bitmap, this`logged, this`owner
      ensures Mapped()
      ensures ok && Truncating(st0, State(), ip, NDIRECT, NINDIRECT, false)
      ensures Logs(old(OnDisk()), old(logged), OnDisk(), logged)
    {
      hide Truncating, Word, Bitmap.UsedBits, Bitmap.Mapped, Logs;
      LogsSelf(OnDisk(), logged);
      var j := 0;
      while j < NINDIRECT
        invariant 0 <= j <= NINDIRECT && Mapped()
        invariant Truncating(st0, State(), ip, NDIRECT, j, false)
        invariant Logs(old(OnDisk()), old(logged), OnDisk(), logged)
      {
        TruncShape(st0, State(), ip, NDIRECT, j);
        EntryStep(st0, State(), ip, j);
        var b := Word(disk[icache[ip].addrs[NDIRECT]], j);
        if b != 0 {
          ghost var m1, l1 := OnDisk(), logged;
          ok := Bfree(b);
          LogsThen(old(OnDisk()), old(logged), m1, l1, OnDisk(), logged);
          if !ok {
            return false;
          }
          owner := owner - {b};
        }
        j := j + 1;
      }
      ok := true;
    }

    /** filewrite on an inode: chunks of at most CHUNK bytes, each one file-system operation.
        Returns n, or -1 as Failed, and the new f->off.  `ops` holds the blocks each operation logged, and
        `media` what was on the disk before, between and after the operations. */
    method Filewrite(ip: nat, off0: nat, src: seq<int>, n: int)
      returns (r: IoResult, off: nat, ghost ops: seq<set<int>>, ghost media: seq<Media>)
      requires Valid() && ip < |icache| && off0 < 0x1_0000_0000 && n < 0x8000_0000
      requires |src| == (if n > 0 then n else 0) && IsBytes(src)
      modifies this`disk, this`bitmap, this`icache, this`dinode, this`logged, this`owner
      ensures Mapped()
      ensures forall k :: 0 <= k < |ops| ==> |ops[k]| <= 7 <= MAXOPBLOCKS
      ensures AllLog(media, ops) && media[0] == old(OnDisk()) && (!r.Halted? ==> media[|ops|] == OnDisk())
      ensures r.Halted? ==> Full(Used())
      ensures !r.Halted? ==> Valid() && |icache| == |old(icache)| && off0 <= off <= off0 + |src|
      ensures !r.Halted? && (off > off0 || off0 <= old(icache[ip].size)) ==>
                Wrote(old(State()), State(), ip, off0, src[..off - off0])
      ensures !r.Halted? && off0 > old(icache[ip].size) ==> State() == old(State()) && off == off0
      ensures r.Done? ==> r.n == n && off == off0 + n
      ensures !r.Halted? ==>
                (r.Failed? <==> n < 0 || (n > 0 && (off0 > old(icache[ip].size) || off0 + n > MAXFILE * BSIZE)))
    {
      hide Full, Ok, Wrote, Within, Span, TableSet, Bitmap.UsedBits, Bitmap.Mapped, Logs, AllLog;
      ghost var st0 := State();
      off, ops, media := off0, [], [OnDisk()];
      AllLogNone(OnDisk());
      var i := 0;
      WroteNothing(st0, ip, off0);
      while i < n
        invariant 0 <= i <= |src| && off == off0 + i
        invariant Valid() && |icache| == |old(icache)|
        invariant i > 0 ==> off <= icache[ip].size && off <= MAXFILE * BSIZE && off0 <= old(icache[ip].size)
        invariant i == 0 ==> State() == st0
        invariant off0 <= old(icache[ip].size) ==> Wrote(st0, State(), ip, off0, src[..i])
        invariant forall k :: 0 <= k < |ops| ==> |ops[k]| <= 7
        invariant AllLog(media, ops) && |media| == |ops| + 1 && media[0] == old(OnDisk()) && media[|ops|] == OnDisk()
      {
        var n1 := if n - i > CHUNK then CHUNK else n - i;
        ghost var st := State();
        logged := {};
        var c;
        ghost var data, bits;
        c, data, bits := Writei(ip, src[i..i + n1], off, n1);
        if c.Halted? {
          return Halted, off, ops, media;
        }
        AllLogSnoc(media, ops, OnDisk(), logged);
        media := media + [OnDisk()];
        if c.Failed? {
          ops := ops + [logged];
          return Failed, off, ops, media;
        }
        ChunkLogsFew({}, logged, data, bits, TableSet(icache[ip]), IBlock(ip), off, n1);
        assert logged - {} == logged;
        ops := ops + [logged];
        WroteOn(st0, st, State(), ip, off0, src, i, n1);
        i, off := i + n1, off + n1;
      }
      assert n >= 0 ==> src[..i] == src;
      r := if i == n then Done(n) else Failed;
    }
  }

  lemma Joined(data: seq<int>, a: nat, b: nat, m: nat)
    requires a <= b && b + m <= |data|
    ensures data[a..b] + data[b..b + m] == data[a..b + m]
  {
  }
}
