/** The root directory that mkfs writes, read back as the kernel reads it. */
module MkfsRoot {
  import opened MkfsMain
  import opened Mkfs
  import Blocks
  import Directory
  import FsState
  import Names

  /** The bytes of a directory as entries: inode number, low byte first, and name. */
  function ReadDir(b: seq<int>): seq<Directory.Dirent>
    decreases |b|
  {
    if |b| < DIRENT then []
    else [Directory.Dirent(b[0] + 256 * b[1], b[2..DIRENT])] + ReadDir(b[DIRENT..])
  }

  lemma {:induction false} ReadDirCat(a: seq<int>, b: seq<int>)
    requires |a| % DIRENT == 0
    ensures ReadDir(a + b) == ReadDir(a) + ReadDir(b)
    decreases |a|
  {
    if a == [] {
      assert a + b == b;
    } else {
      ReadDirCat(a[DIRENT..], b);
      assert (a + b)[DIRENT..] == a[DIRENT..] + b && (a + b)[2..DIRENT] == a[2..DIRENT];
    }
  }

  /** What an entry for this name reads as. */
  ghost predicate Reads(de: Directory.Dirent, inum: int, name: seq<int>) {
    de.inum == inum && |de.name| == DIRSIZ && Directory.Key(de.name) == Names.Cut(name)
  }

  /** mkfs's entry reads back as the inode number and the name, cut to DIRSIZ bytes. */
  lemma DirentReads(inum: nat, name: seq<int>)
    requires inum < 0x1_0000 && 0 !in name
    ensures |ReadDir(Dirent(inum, name))| == 1 && Reads(ReadDir(Dirent(inum, name))[0], inum, name)
  {
    var b := Dirent(inum, name);
    var field := b[2..DIRENT];
    assert ReadDir(b[DIRENT..]) == [];
    if |name| >= DIRSIZ {
      assert field == name[..DIRSIZ];
    } else {
      assert field == name + Zeroes(DIRSIZ - |name|);
    }
    Names.CanonOfPrefix(Names.Cut(name), field, DIRSIZ);
  }

  lemma {:induction false} ZeroesRead(n: nat)
    ensures |ReadDir(Zeroes(n * DIRENT))| == n && forall k :: 0 <= k < n ==> IsFree(ReadDir(Zeroes(n * DIRENT))[k])
  {
    if n > 0 {
      ZeroesRead(n - 1);
      var b := Zeroes(n * DIRENT);
      assert b[DIRENT..] == Zeroes((n - 1) * DIRENT);
    }
  }

  predicate IsFree(de: Directory.Dirent) {
    de.inum == 0 && |de.name| == DIRSIZ
  }

  /** The names of the root: its dots, then the given ones. */
  function NameAt(names: seq<seq<int>>, k: nat): seq<int>
    requires k < |names| + 2
  {
    if k == 0 then Directory.DOT else if k == 1 then Directory.DOTDOT else names[k - 2]
  }

  function InumAt(k: nat): nat {
    if k < 2 then ROOTINO else k
  }

  lemma {:induction false} EntriesRead(names: seq<seq<int>>, n: nat, k: nat)
    requires n <= |names| && k < n + 2 && |names| + 2 < 0x1_0000 && forall i :: 0 <= i < |names| ==> 0 !in names[i]
    ensures |ReadDir(Entries(names, n))| == n + 2
    ensures Reads(ReadDir(Entries(names, n))[k], InumAt(k), NameAt(names, k))
  {
    hide ReadDir, Dirent, Reads;
    if n == 0 {
      DirentReads(ROOTINO, [46]);
      DirentReads(ROOTINO, [46, 46]);
      ReadDirCat(Dirent(ROOTINO, [46]), Dirent(ROOTINO, [46, 46]));
    } else {
      EntriesRead(names, n - 1, if k < n + 1 then k else 0);
      DirentReads(n + 1, names[n - 1]);
      ReadDirCat(Entries(names, n - 1), Dirent(n + 1, names[n - 1]));
    }
  }

  /** Names that mkfs can enter side by side: no two alike, and none like a dot, in DIRSIZ bytes. */
  ghost predicate Apart(names: seq<seq<int>>) {
    && (forall i :: 0 <= i < |names| ==> 0 !in names[i])
    && (forall i, j :: 0 <= i < j < |names| + 2 ==> Names.Cut(NameAt(names, i)) != Names.Cut(NameAt(names, j)))
  }

  /** The names in their order, then free entries. */
  ghost predicate Laid(d: seq<Directory.Dirent>, names: seq<seq<int>>) {
    && |names| + 2 <= |d|
    && (forall i :: 0 <= i < |names| + 2 ==> Reads(d[i], InumAt(i), NameAt(names, i)))
    && (forall i :: |names| + 2 <= i < |d| ==> IsFree(d[i]))
  }

  lemma RootLaid(names: seq<seq<int>>, pad: nat)
    requires |names| + 2 < 0x1_0000 && Apart(names)
    ensures Laid(ReadDir(Entries(names, |names|) + Zeroes(pad * DIRENT)), names)
  {
    hide ReadDir, Reads, NameAt, InumAt, Entries, Zeroes;
    var n := |names|;
    var a, z := ReadDir(Entries(names, n)), ReadDir(Zeroes(pad * DIRENT));
    ReadDirCat(Entries(names, n), Zeroes(pad * DIRENT));
    ZeroesRead(pad);
    EntriesRead(names, n, 0);
    forall i | 0 <= i < n + 2 ensures Reads((a + z)[i], InumAt(i), NameAt(names, i)) {
      EntriesRead(names, n, i);
    }
  }

  lemma LaidOk(d: seq<Directory.Dirent>, names: seq<seq<int>>)
    requires Laid(d, names) && Apart(names) && |names| + 2 < 0x1_0000
    ensures Directory.DirOk(d)
  {
    hide Directory.Key, NameAt, Names.Cut;
    forall i, j | 0 <= i < j < |d| && d[i].inum != 0 ensures !Directory.Is(d[j], Directory.Key(d[i].name)) {
      assert i < |names| + 2 && Reads(d[i], InumAt(i), NameAt(names, i));
      if j < |names| + 2 {
        assert Reads(d[j], InumAt(j), NameAt(names, j));
      }
    }
  }

  /** The root of the image: what mkfs has entered, and free entries to the end of the block. */
  lemma RootReads(names: seq<seq<int>>, pad: nat, k: nat)
    requires Apart(names) && |names| + 2 < 0x1_0000 && k < |names| + 2
    ensures
      var d := ReadDir(Entries(names, |names|) + Zeroes(pad * DIRENT));
      Directory.DirOk(d) && Directory.Lookup(d, Names.Cut(NameAt(names, k))) == InumAt(k)
  {
    hide *;
    RootLaid(names, pad);
    LaidFinds(ReadDir(Entries(names, |names|) + Zeroes(pad * DIRENT)), names, k);
  }

  lemma LaidFinds(d: seq<Directory.Dirent>, names: seq<seq<int>>, k: nat)
    requires Laid(d, names) && Apart(names) && |names| + 2 < 0x1_0000 && k < |names| + 2
    ensures Directory.DirOk(d) && Directory.Lookup(d, Names.Cut(NameAt(names, k))) == InumAt(k)
  {
    LaidOk(d, names);
    hide Directory.DirOk, Directory.Lookup, Directory.Key, NameAt, Names.Cut;
    assert Reads(d[k], InumAt(k), NameAt(names, k));
    Directory.ScanIs(d, Names.Cut(NameAt(names, k)), k);
  }

  /** So in the image that Build leaves, a lookup of a given name in the root finds its file. */
  lemma RootFinds(img: Image, names: seq<seq<int>>, files: seq<seq<seq<int>>>, i: nat)
    requires |names| == |files| && |names| + 2 <= |img.dinode| && |names| + 2 < 0x1_0000 && Apart(names) && i < |names|
    requires FsState.Ok(img.State())
    requires Holds(img.State(), Plus(Wanted(|img.dinode|, names, files, |names|), ROOTINO,
                                     Zeroes(Blocks.BSIZE - (|names| + 2) * DIRENT % Blocks.BSIZE)))
    ensures
      var root := ReadDir(FsState.FileData(img.State(), ROOTINO));
      && Directory.DirOk(root) && Directory.Lookup(root, Names.Cut(names[i])) == i + 2
      && Directory.Lookup(root, Directory.DOT) == Directory.Lookup(root, Directory.DOTDOT) == ROOTINO
  {
    hide ReadDir, Directory.Lookup, Directory.DirOk, FsState.FileData, FsState.Ok;
    var size := (|names| + 2) * DIRENT;
    var pad := (Blocks.BSIZE - size % Blocks.BSIZE) / DIRENT;
    assert pad * DIRENT == Blocks.BSIZE - size % Blocks.BSIZE;
    RootReads(names, pad, 0);
    RootReads(names, pad, 1);
    RootReads(names, pad, i + 2);
  }
}
