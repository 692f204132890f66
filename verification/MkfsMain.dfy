/** mkfs's main: the root directory and the files given to it. */
module MkfsMain {
  import opened Blocks
  import opened Params
  import opened FsState
  import opened Mkfs
  import Bitmap
  import FileSystem
  import Names
  import WriteAheadLog
  import LogProtocol

  const DIRSIZ := Names.DIRSIZ
  const DIRENT := DIRSIZ + 2

  function Zeroes(n: nat): seq<int> {
    seq(n, i => 0)
  }

  /** A directory entry as bytes: the inode number and the name, cut or padded to DIRSIZ. */
  function Dirent(inum: nat, name: seq<int>): (r: seq<int>)
    ensures |r| == DIRENT
  {
    [inum % 256, inum / 256 % 256] + if |name| >= DIRSIZ then name[..DIRSIZ] else name + Zeroes(DIRSIZ - |name|)
  }

  function Concat(chunks: seq<seq<int>>): seq<int> {
    if chunks == [] then [] else Concat(chunks[..|chunks| - 1]) + chunks[|chunks| - 1]
  }

  /** What the root directory holds for the first n names: ".", ".." and an entry for each name. */
  function Entries(names: seq<seq<int>>, n: nat): (r: seq<int>)
    requires n <= |names|
    ensures |r| == (n + 2) * DIRENT
  {
    if n == 0 then Dirent(ROOTINO, [46]) + Dirent(ROOTINO, [46, 46])
    else Entries(names, n - 1) + Dirent(n + 1, names[n - 1])
  }

  ghost predicate AllBytes(s: seq<seq<int>>) {
    forall i :: 0 <= i < |s| ==> IsBytes(s[i])
  }

  /** data[i] is what file i contains. */
  ghost predicate Holds(st: St, data: seq<seq<int>>) {
    Ok(st) && |data| == |st.icache| && forall i :: 0 <= i < |data| ==> FileData(st, i) == data[i]
  }

  ghost function Plus(data: seq<seq<int>>, i: nat, x: seq<int>): (r: seq<seq<int>>)
    requires i < |data|
    ensures |r| == |data|
  {
    data[i := data[i] + x]
  }

  lemma PlusPlus(data: seq<seq<int>>, i: nat, x: seq<int>, y: seq<int>)
    requires i < |data|
    ensures Plus(Plus(data, i, x), i, y) == Plus(data, i, x + y)
    ensures Plus(data, i, []) == data
  {
    assert data[i] + x + y == data[i] + (x + y);
    assert data[i] + [] == data[i];
  }

  lemma ConcatMore(chunks: seq<seq<int>>, j: nat)
    requires j < |chunks|
    ensures Concat(chunks[..j + 1]) == Concat(chunks[..j]) + chunks[j]
  {
    assert chunks[..j + 1][..j] == chunks[..j];
  }

  lemma HoldsAppend(st0: St, st: St, data: seq<seq<int>>, ip: nat, src: seq<int>)
    requires Holds(st0, data) && ip < |data| && Wrote(st0, st, ip, |data[ip]|, src)
    ensures Holds(st, Plus(data, ip, src))
  {
  }

  lemma HoldsSize(st: St, data: seq<seq<int>>, ip: nat)
    requires Holds(st, data) && ip < |data|
    ensures st.icache[ip].size == |data[ip]|
  {
  }

  method Append(img: Image, ip: nat, src: seq<int>, ghost data: seq<seq<int>>) returns (ok: bool)
    requires img.Valid() && ip < img.freeinode <= |img.dinode| && IsBytes(src) && Holds(img.State(), data)
    modifies img`disk, img`freeblock, img`owner, img`dinode
    ensures |img.disk| == |old(img.disk)|
    ensures ok ==>
              img.Valid() && |img.dinode| == |old(img.dinode)| && ip < |data| && Holds(img.State(), Plus(data, ip, src))
  {
    hide Ok, Holds, Wrote, FreshZero, Tails, Blank, Bits;
    ghost var st0 := img.State();
    HoldsAt(st0, data);
    HoldsSize(st0, data, ip);
    ok := img.IAppend(ip, src);
    if ok {
      HoldsAppend(st0, img.State(), data, ip, src);
    }
  }

  lemma HoldsAt(st: St, data: seq<seq<int>>)
    requires Holds(st, data)
    ensures |data| == |st.icache|
  {
  }

  /** One file of mkfs's argument list: a new inode, its root entry, and its bytes in the chunks
      that read returns. */
  method AddFile(img: Image, name: seq<int>, chunks: seq<seq<int>>, ghost data: seq<seq<int>>) returns (ok: bool)
    requires img.Valid() && ROOTINO < img.freeinode <= |img.dinode| && Holds(img.State(), data)
    requires IsBytes(name) && AllBytes(chunks) && |img.kind| == |img.nlink| == |img.dinode|
    modifies img`disk, img`freeblock, img`owner, img`dinode, img`freeinode, img`kind, img`nlink
    ensures |img.disk| == |old(img.disk)|
    ensures ok ==>
              && img.Valid() && |img.dinode| == |old(img.dinode)| == |data|
              && img.freeinode == old(img.freeinode) + 1 <= |data|
    ensures ok ==>
              var inum := old(img.freeinode);
              && Holds(img.State(), Plus(Plus(data, ROOTINO, Dirent(inum, name)), inum, Concat(chunks)))
              && img.kind == old(img.kind)[inum := T_FILE] && img.nlink == old(img.nlink)[inum := 1]
  {
    hide Ok, Holds, FreshZero, Tails, Blank, Bits, Dirent, Plus;
    HoldsAt(img.State(), data);
    var inum;
    ok, inum := img.IAlloc(T_FILE);
    if !ok {
      return false;
    }
    DirentBytes(inum, name);
    ok := Append(img, ROOTINO, Dirent(inum, name), data);
    if !ok {
      return false;
    }
    ghost var data1 := Plus(data, ROOTINO, Dirent(inum, name));
    var j := 0;
    PlusPlus(data1, inum, [], []);
    while j < |chunks|
      invariant 0 <= j <= |chunks|
      invariant img.Valid() && |img.dinode| == |old(img.dinode)| && img.freeinode == inum + 1
      invariant |img.disk| == |old(img.disk)| && img.kind == old(img.kind)[inum := T_FILE]
      invariant img.nlink == old(img.nlink)[inum := 1]
      invariant Holds(img.State(), Plus(data1, inum, Concat(chunks[..j])))
    {
      ok := Append(img, inum, chunks[j], Plus(data1, inum, Concat(chunks[..j])));
      if !ok {
        return false;
      }
      PlusPlus(data1, inum, Concat(chunks[..j]), chunks[j]);
      ConcatMore(chunks, j);
      j := j + 1;
    }
    assert chunks[..j] == chunks;
  }

  lemma DirentBytes(inum: nat, name: seq<int>)
    requires IsBytes(name)
    ensures IsBytes(Dirent(inum, name))
  {
  }

  /** The files the image should hold: the root directory, the given files, and empty ones. */
  ghost function Wanted(ninodes: nat, names: seq<seq<int>>, files: seq<seq<seq<int>>>, n: nat): (r: seq<seq<int>>)
    requires n <= |names| == |files|
    ensures |r| == ninodes
  {
    seq(ninodes, i requires 0 <= i => if i == ROOTINO then Entries(names, n)
        else if 2 <= i < n + 2 then Concat(files[i - 2]) else [])
  }

  lemma WantedMore(ninodes: nat, names: seq<seq<int>>, files: seq<seq<seq<int>>>, n: nat)
    requires n < |names| == |files| && n + 2 < ninodes
    ensures Wanted(ninodes, names, files, n + 1)
         == Plus(Plus(Wanted(ninodes, names, files, n), ROOTINO, Dirent(n + 2, names[n])), n + 2, Concat(files[n]))
  {
    hide Dirent, Concat;
    var a := Wanted(ninodes, names, files, n + 1);
    var b := Plus(Plus(Wanted(ninodes, names, files, n), ROOTINO, Dirent(n + 2, names[n])), n + 2, Concat(files[n]));
    assert Entries(names, n + 1) == Entries(names, n) + Dirent(n + 2, names[n]);
    assert [] + Concat(files[n]) == Concat(files[n]);
    forall i | 0 <= i < ninodes ensures a[i] == b[i] {
    }
  }

  /** The root inode's size is rounded up to the end of a block -- or, when it ends a block, to the
      end of the next one, which does not exist.  The image is sound exactly when it does not. */
  lemma RootSize(st: St, ip: nat)
    requires Ok(st) && ip < |st.icache| == |st.dinode|
    ensures Ok(Rounded(st, ip)) <==> st.icache[ip].size % BSIZE != 0
  {
    hide ByteAt, ShapedFs, Owned, UsedOk, Ref;
    var off := (st.icache[ip].size / BSIZE + 1) * BSIZE;
    var st' := Rounded(st, ip);
    UpdateKeepsBase(st, ip, off);
    OkShaped(st);
    SizeDoesNotMatter(st.disk, st.icache, ip, off);
    assert FileOk(st, ip);
    if st.icache[ip].size % BSIZE != 0 {
      forall i | 0 <= i < |st.icache| ensures FileOk(st', i) {
        assert FileOk(st, i);
      }
    } else {
      var bn := st.icache[ip].size / BSIZE;
      assert bn < MAXFILE ==> SlotOk(st.icache, SlotOf(ip, bn)) && BlockAt(st'.disk, st'.icache, ip, bn) == 0;
      assert !FileOk(st', ip);
    }
  }

  lemma OkShaped(st: St)
    requires Ok(st)
    ensures ShapedFs(st.disk, st.icache)
  {
  }

  ghost function Rounded(st: St, ip: nat): St
    requires ip < |st.icache| == |st.dinode|
  {
    Updated(st, ip, (st.icache[ip].size / BSIZE + 1) * BSIZE)
  }

  /** When it is sound, the root directory ends in zeroes, that is in free entries. */
  lemma RootPadded(st: St, data: seq<seq<int>>, ip: nat)
    requires Holds(st, data) && ip < |data| && |st.icache| == |st.dinode|
    requires ShapedFs(st.disk, st.icache) && TailZero(st, ip, st.icache[ip].size)
    requires Ok(Rounded(st, ip))
    ensures Holds(Rounded(st, ip), Plus(data, ip, Zeroes(BSIZE - |data[ip]| % BSIZE)))
  {
    RootSize(st, ip);
    hide ByteAt, ShapedFs, HoleFree, Owned, UsedOk, Ok, FileData;
    HoldsSize(st, data, ip);
    var sz := st.icache[ip].size;
    var st', data' := Rounded(st, ip), Plus(data, ip, Zeroes(BSIZE - sz % BSIZE));
    forall i | 0 <= i < |data'| ensures FileData(st', i) == data'[i] {
      assert |FileData(st', i)| == |data'[i]|;
      forall k | 0 <= k < |data'[i]| ensures FileData(st', i)[k] == data'[i][k] {
        PaddedByte(st, ip, i, k);
      }
    }
  }

  lemma PaddedByte(st: St, ip: nat, i: nat, k: nat)
    requires Ok(st) && ip < |st.icache| && |st.icache| == |st.dinode|
    requires ShapedFs(st.disk, st.icache) && TailZero(st, ip, st.icache[ip].size)
    requires Ok(Rounded(st, ip)) && st.icache[ip].size % BSIZE != 0
    requires i < |st.icache| && k < |FileData(Rounded(st, ip), i)|
    ensures FileData(Rounded(st, ip), i)[k] == if k < |FileData(st, i)| then FileData(st, i)[k] else 0
  {
    hide ByteAt, ShapedFs, HoleFree, Owned, UsedOk, Ok, FileData;
    var sz, st' := st.icache[ip].size, Rounded(st, ip);
    UpdateKeepsBaseOk(st, ip, (sz / BSIZE + 1) * BSIZE);
    FileDataAt(st, i);
    FileDataAt(st', i);
    assert ByteAt(st'.disk, st'.icache, i, k) == ByteAt(st.disk, st.icache, i, k);
    assert i == ip && k >= sz ==> ByteAt(st.disk, st.icache, i, k) == 0;
  }

  lemma UpdateKeepsBaseOk(st: St, ip: nat, off: nat)
    requires Ok(st) && ip < |st.icache|
    ensures |st.dinode| == |st.icache| && ShapedFs(st.disk, st.icache)
    ensures ShapedFs(Updated(st, ip, off).disk, Updated(st, ip, off).icache)
    ensures forall i, k :: 0 <= i < |st.icache| && 0 <= k < MAXFILE * BSIZE ==>
              ByteAt(Updated(st, ip, off).disk, Updated(st, ip, off).icache, i, k) == ByteAt(st.disk, st.icache, i, k)
  {
  }

  lemma FileDataAt(st: St, i: nat)
    requires Ok(st) && i < |st.icache|
    ensures ShapedFs(st.disk, st.icache) && st.icache[i].size <= MAXFILE * BSIZE
    ensures forall k :: 0 <= k < |FileData(st, i)| ==> FileData(st, i)[k] == ByteAt(st.disk, st.icache, i, k)
  {
    hide ByteAt, HoleFree, UsedOk;
    assert FileOk(st, i);
  }

  /** mkfs's main.  False stands for a stop: no more inodes or blocks, a file too large, or more
      blocks in use than one bitmap block has bits. */
  method Build(img: Image, names: seq<seq<int>>, files: seq<seq<seq<int>>>) returns (ok: bool)
    requires img.Valid() && img.freeinode == 1 <= |img.dinode| && AllBlank(img.dinode)
    requires NoBits(img.bitmap, |img.disk|) && |img.kind| == |img.nlink| == |img.dinode|
    requires |names| == |files| && AllBytes(names) && forall i :: 0 <= i < |files| ==> AllBytes(files[i])
    modifies img
    ensures ok ==> |names| + 2 <= |img.dinode| == |old(img.dinode)|
    ensures ok ==> (Ok(img.State()) <==> (|names| + 2) * DIRENT % BSIZE != 0)
    ensures ok && |img.dinode| < BSIZE / DIRENT ==> Ok(img.State())
    ensures ok && Ok(img.State()) ==>
              Holds(img.State(), Plus(Wanted(|img.dinode|, names, files, |names|), ROOTINO,
                                      Zeroes(BSIZE - (|names| + 2) * DIRENT % BSIZE)))
    ensures ok ==> Kinds(img.kind, img.nlink, |img.dinode|, |names|)
    ensures ok ==> Bitmap.Mapped(img.bitmap, |img.disk|) && Bitmap.UsedBits(img.bitmap, |img.disk|) == img.State().used
  {
    hide Ok, Holds, Dirent, Plus, Wanted, Bits, Bitmap.UsedBits, Bitmap.Bit, Kinds;
    ok := Populate(img, names, files);
    if !ok {
      return false;
    }
    var buf;
    ok, buf := Bitmap.FirstUsed(img.freeblock);
    if ok {
      BitmapWritten(img.bitmap, |img.disk|, buf[..], img.freeblock);
      img.bitmap := img.bitmap[0 := buf[..]];
    }
  }

  /** The root is a directory and the files are files, with one link each. */
  ghost predicate Kinds(kind: seq<int>, nlink: seq<int>, ninodes: nat, n: nat) {
    && |kind| == |nlink| == ninodes && n + 2 <= ninodes
    && kind[ROOTINO] == T_DIR && nlink[ROOTINO] == 1
    && forall i :: 2 <= i < n + 2 ==> kind[i] == T_FILE && nlink[i] == 1
  }

  lemma KindsFirst(kind: seq<int>, nlink: seq<int>, ninodes: nat)
    requires |kind| == |nlink| == ninodes && 2 <= ninodes && kind[ROOTINO] == T_DIR && nlink[ROOTINO] == 1
    ensures Kinds(kind, nlink, ninodes, 0)
  {
  }

  lemma KindsMore(kind: seq<int>, nlink: seq<int>, ninodes: nat, n: nat)
    requires Kinds(kind, nlink, ninodes, n) && n + 2 < ninodes
    ensures Kinds(kind[n + 2 := T_FILE], nlink[n + 2 := 1], ninodes, n + 1)
  {
  }

  /** Everything that main writes but the bitmap. */
  method Populate(img: Image, names: seq<seq<int>>, files: seq<seq<seq<int>>>) returns (ok: bool)
    requires img.Valid() && img.freeinode == 1 <= |img.dinode| && AllBlank(img.dinode)
    requires |img.kind| == |img.nlink| == |img.dinode|
    requires |names| == |files| && AllBytes(names) && forall i :: 0 <= i < |files| ==> AllBytes(files[i])
    modifies img`disk, img`freeblock, img`owner, img`dinode, img`freeinode, img`kind, img`nlink
    ensures |img.disk| == |old(img.disk)|
    ensures ok ==> |names| + 2 <= |img.dinode| == |old(img.dinode)|
    ensures ok ==> (Ok(img.State()) <==> (|names| + 2) * DIRENT % BSIZE != 0)
    ensures ok && |img.dinode| < BSIZE / DIRENT ==> Ok(img.State())
    ensures ok && Ok(img.State()) ==>
              Holds(img.State(), Plus(Wanted(|img.dinode|, names, files, |names|), ROOTINO,
                                      Zeroes(BSIZE - (|names| + 2) * DIRENT % BSIZE)))
    ensures ok ==> Kinds(img.kind, img.nlink, |img.dinode|, |names|)
  {
    hide Ok, Holds, FreshZero, Tails, Blank, Bits, Dirent, Plus, Wanted, Concat, Entries, Rounded, Kinds;
    var n := |img.dinode|;
    var root;
    ok, root := img.IAlloc(T_DIR);
    if !ok {
      return false;
    }
    ghost var none := seq(n, i => []);
    HoldsNothing(img.State(), none);
    DirentBytes(root, [46]);
    ok := Append(img, root, Dirent(root, [46]), none);
    if !ok {
      return false;
    }
    DirentBytes(root, [46, 46]);
    ok := Append(img, root, Dirent(root, [46, 46]), Plus(none, ROOTINO, Dirent(ROOTINO, [46])));
    if !ok {
      return false;
    }
    WantedFirst(n, names, files);
    KindsFirst(img.kind, img.nlink, n);
    var i := 0;
    while i < |names|
      invariant 0 <= i <= |names|
      invariant img.Valid() && |img.dinode| == n && img.freeinode == i + 2 <= n
      invariant Holds(img.State(), Wanted(n, names, files, i))
      invariant |img.kind| == |img.nlink| == n && Kinds(img.kind, img.nlink, n, i) && |img.disk| == |old(img.disk)|
    {
      ghost var kind, nlink := img.kind, img.nlink;
      ok := AddFile(img, names[i], files[i], Wanted(n, names, files, i));
      if !ok {
        return false;
      }
      KindsMore(kind, nlink, n, i);
      WantedMore(n, names, files, i);
      i := i + 1;
    }
    ghost var st := img.State();
    WantedRoot(st, n, names, files);
    TailAtRoot(st, root);
    RootSize(st, root);
    RoundedIs(st, root);
    var din := img.dinode[root];
    img.dinode := img.dinode[root := din.(size := (din.size / BSIZE + 1) * BSIZE)];
    if Ok(img.State()) {
      RootPadded(st, Wanted(n, names, files, |names|), root);
    }
  }

  lemma BitmapWritten(bitmap: seq<seq<bv8>>, size: nat, buf: seq<bv8>, used: nat)
    requires NoBits(bitmap, size) && |buf| == BSIZE && used < BPB
    requires forall b :: 0 <= b < BPB ==> (Bitmap.Bit(buf, b) <==> b < used)
    ensures Bitmap.Mapped(bitmap[0 := buf], size) && Bitmap.UsedBits(bitmap[0 := buf], size) == Bits(size, used)
  {
    hide Bitmap.Bit, Bitmap.UsedBits;
    Bitmap.FirstUsedIs(bitmap[0 := buf], size, used);
    assert Bits(size, used) == seq(size, b => b < used);
  }

  /** The kernel's view of the image, from the bytes of its bitmap. */
  method Mount(img: Image) returns (fs: FileSystem.Fs)
    requires Bitmap.Mapped(img.bitmap, |img.disk|) && Bitmap.UsedBits(img.bitmap, |img.disk|) == img.State().used
    requires Ok(img.State())
    ensures fresh(fs) && fs.Valid() && fs.State() == img.State()
  {
    fs := new FileSystem.Fs(img.nmeta, img.sb.inodestart, img.sb.bmapstart, img.disk, img.bitmap, img.dinode,
      img.owner);
  }

  const NINODES := 200

  /** The image as shipped gives the log LOGSIZE blocks from block 2 on.  That is crash safe; but an
      operation within its reservation may be refused, and a commit may halt for want of a buffer. */
  lemma ShippedLog()
    ensures
      var sb := SuperOf(FSSIZE, NINODES, LOGSIZE);
      var lay := WriteAheadLog.Layout(sb.logstart, sb.nlog, sb.size);
      LogProtocol.CrashSafe(lay) && !LogProtocol.NeverRefuses(lay) && LogProtocol.SomeCommitHalts(lay)
  {
    hide LogProtocol.CrashSafe, LogProtocol.NeverRefuses, LogProtocol.SlotsFit, LogProtocol.SomeCommitHalts;
    LogProtocol.LogSizeMatters(WriteAheadLog.Layout(2, LOGSIZE, FSSIZE));
    LogProtocol.HaltsWhenLarge(WriteAheadLog.Layout(2, LOGSIZE, FSSIZE));
  }

  lemma HoldsNothing(st: St, none: seq<seq<int>>)
    requires Ok(st) && AllBlank(st.icache) && |none| == |st.icache| && forall i :: 0 <= i < |none| ==> none[i] == []
    ensures Holds(st, none)
  {
  }

  lemma WantedFirst(n: nat, names: seq<seq<int>>, files: seq<seq<seq<int>>>)
    requires |names| == |files| && ROOTINO < n
    ensures Wanted(n, names, files, 0)
         == Plus(Plus(seq(n, i => []), ROOTINO, Dirent(ROOTINO, [46])), ROOTINO, Dirent(ROOTINO, [46, 46]))
  {
    hide Dirent;
    var none: seq<seq<int>> := seq(n, i => []);
    PlusPlus(none, ROOTINO, Dirent(ROOTINO, [46]), Dirent(ROOTINO, [46, 46]));
    var a, b := Wanted(n, names, files, 0), Plus(none, ROOTINO, Dirent(ROOTINO, [46]) + Dirent(ROOTINO, [46, 46]));
    assert [] + Entries(names, 0) == Entries(names, 0);
    forall i | 0 <= i < n ensures a[i] == b[i] {
    }
  }

  lemma WantedRoot(st: St, n: nat, names: seq<seq<int>>, files: seq<seq<seq<int>>>)
    requires |names| == |files| && ROOTINO < n && Holds(st, Wanted(n, names, files, |names|))
    ensures |st.icache| == n
    ensures st.icache[ROOTINO].size == |Wanted(n, names, files, |names|)[ROOTINO]| == (|names| + 2) * DIRENT
  {
    hide Ok, Dirent, Concat;
    HoldsSize(st, Wanted(n, names, files, |names|), ROOTINO);
    assert Wanted(n, names, files, |names|)[ROOTINO] == Entries(names, |names|);
  }

  lemma TailAtRoot(st: St, ip: nat)
    requires Ok(st) && (ShapedFs(st.disk, st.icache) ==> Tails(st)) && ip < |st.icache|
    ensures |st.icache| == |st.dinode| && ShapedFs(st.disk, st.icache) && TailZero(st, ip, st.icache[ip].size)
  {
  }

  lemma RoundedIs(st: St, ip: nat)
    requires ip < |st.icache| == |st.dinode|
    ensures
      var ino := st.icache[ip].(size := (st.icache[ip].size / BSIZE + 1) * BSIZE);
      Rounded(st, ip) == St(st.nmeta, st.disk, st.used, st.icache[ip := ino], st.dinode[ip := ino], st.owner)
  {
  }
}
