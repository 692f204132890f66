/** Directories and the name cache together: dirlookup, dirlink, create, unlink and namex. */
module Directory {
  import opened Names
  import opened NameCache

  /** An inode, by device and number. */
  datatype Id = Id(dev: int, inum: int)

  datatype Dirent = Dirent(inum: int, name: seq<int>)

  const DIRENT := DIRSIZ + 2

  function Key(name: seq<int>): seq<int> {
    if IsName(name, DIRSIZ) then Canon(name, DIRSIZ) else []
  }

  lemma {:induction false} LongIsName(s: seq<int>, n: nat)
    requires |s| >= n
    ensures IsName(s, n)
  {
    if n > 0 {
      LongIsName(s[1..], n - 1);
    }
  }

  predicate Is(de: Dirent, key: seq<int>) {
    de.inum != 0 && Key(de.name) == key
  }

  /** The plain scan: the index of the entry with this name, or the length of the directory. */
  function Scan(d: seq<Dirent>, key: seq<int>): (r: nat)
    ensures r <= |d| && (r < |d| ==> Is(d[r], key))
    ensures forall i :: 0 <= i < r ==> !Is(d[i], key)
  {
    if d == [] || Is(d[0], key) then 0 else 1 + Scan(d[1..], key)
  }

  /** The inode the plain scan finds, 0 if none. */
  function Lookup(d: seq<Dirent>, key: seq<int>): int {
    if Scan(d, key) < |d| then d[Scan(d, key)].inum else 0
  }

  ghost predicate DirOk(d: seq<Dirent>) {
    && (forall i :: 0 <= i < |d| ==> 0 <= d[i].inum < 0x1_0000 && |d[i].name| == DIRSIZ)
    && (forall i, j :: 0 <= i < j < |d| && d[i].inum != 0 ==> !Is(d[j], Key(d[i].name)))
  }

  lemma ScanIs(d: seq<Dirent>, key: seq<int>, i: nat)
    requires DirOk(d) && i < |d| && Is(d[i], key)
    ensures Scan(d, key) == i && Lookup(d, key) == d[i].inum
  {
  }

  // ---------- the state ----------

  /** The cache with the slot it will replace next, and the directories.  `removed`: directories with
      link count 0 whose inode has not been freed yet. */
  datatype Space = Space(links: seq<Link>, next: nat, dirs: map<Id, seq<Dirent>>, removed: set<Id>)

  function ParentOf(l: Link): Id
    requires l.Link?
  {
    Id(l.dev, l.parent)
  }

  /** A cached link is an entry of its directory. */
  ghost predicate LinkOk(l: Link, dirs: map<Id, seq<Dirent>>) {
    l.Link? ==> ParentOf(l) in dirs && Lookup(dirs[ParentOf(l)], l.key) == l.inum
  }

  /** The cache agrees with the directories. */
  ghost predicate Agree(s: Space) {
    forall i :: 0 <= i < |s.links| ==> LinkOk(s.links[i], s.dirs)
  }

  ghost predicate NoneUnder(links: seq<Link>, removed: set<Id>) {
    forall i :: 0 <= i < |links| && links[i].Link? ==> ParentOf(links[i]) !in removed
  }

  ghost predicate DirsOk(dirs: map<Id, seq<Dirent>>) {
    forall d :: d in dirs ==> DirOk(dirs[d])
  }

  ghost predicate Nonzero(links: seq<Link>) {
    forall i :: 0 <= i < |links| && links[i].Link? ==> links[i].inum != 0
  }

  /** Holds whatever happens; the cache may still be wrong about the directories. */
  ghost predicate Base(s: Space) {
    && s.next < |s.links| == NAMECACHE_SIZE
    && Unique(s.links) && Nonzero(s.links) && DirsOk(s.dirs)
    && forall i :: i in s.removed ==> i in s.dirs
  }

  ghost predicate Inv(s: Space) {
    Base(s) && Agree(s)
  }

  /** No link under a removed directory is cached. */
  ghost predicate Clean(s: Space) {
    NoneUnder(s.links, s.removed)
  }

  /** What dirlookup returns: the cached inode, else what the scan finds. */
  function CachedLookup(s: Space, dp: Id, key: seq<int>): int
    requires dp in s.dirs
  {
    var n := Find(s.links, dp.dev, dp.inum, key);
    if n != 0 then n else Lookup(s.dirs[dp], key)
  }

  /** The cache makes no difference to the inode that dirlookup finds. */
  lemma CacheAgrees(s: Space, dp: Id, key: seq<int>)
    requires Inv(s) && dp in s.dirs
    ensures CachedLookup(s, dp, key) == Lookup(s.dirs[dp], key)
  {
  }

  function Remembered(s: Space, dp: Id, key: seq<int>, n: int): (r: Space)
    requires s.next < |s.links| == NAMECACHE_SIZE
    ensures r.next < |r.links| == NAMECACHE_SIZE
  {
    var l := Link(dp.dev, dp.inum, key, n);
    s.(links := Put(s.links, s.next, l), next := NextSlot(s.links, s.next, l))
  }

  /** dirlookup caches what a scan finds. */
  function AfterLookup(s: Space, dp: Id, key: seq<int>): (r: Space)
    requires dp in s.dirs && s.next < |s.links| == NAMECACHE_SIZE
    ensures r.next < |r.links| == NAMECACHE_SIZE
  {
    if Find(s.links, dp.dev, dp.inum, key) == 0 && Lookup(s.dirs[dp], key) != 0
    then Remembered(s, dp, key, Lookup(s.dirs[dp], key)) else s
  }

  lemma AddKeeps(s: Space, dp: Id, key: seq<int>, n: int)
    requires Base(s) && n != 0
    ensures
      var s' := Remembered(s, dp, key, n);
      && Base(s') && (Clean(s) && dp !in s.removed ==> Clean(s'))
      && (Agree(s) && dp in s.dirs && Lookup(s.dirs[dp], key) == n ==> Agree(s'))
  {
    hide Lookup, DirOk;
  }

  lemma LookupKeeps(s: Space, dp: Id, key: seq<int>)
    requires Base(s) && dp in s.dirs
    ensures
      var s' := AfterLookup(s, dp, key);
      && Base(s') && s'.dirs == s.dirs && s'.removed == s.removed && (Agree(s) ==> Agree(s'))
      && (Clean(s) && dp !in s.removed ==> Clean(s'))
  {
    hide Agree, Clean, Lookup, Find, Put;
    if Lookup(s.dirs[dp], key) != 0 {
      AddKeeps(s, dp, key, Lookup(s.dirs[dp], key));
    }
  }

  lemma DropKeeps(s: Space, dev: int, inum: int)
    requires Base(s)
    ensures
      var s' := s.(links := Drop(s.links, dev, inum));
      Base(s') && (Agree(s) ==> Agree(s')) && (Clean(s) ==> Clean(s')) && NoneUnder(s'.links, {Id(dev, inum)})
  {
  }

  // ---------- dirlink ----------

  /** The first entry not in use; the length of the directory if there is none. */
  function FreeSlot(d: seq<Dirent>): (r: nat)
    ensures r <= |d| && (r < |d| ==> d[r].inum == 0)
    ensures forall i :: 0 <= i < r ==> d[i].inum != 0
  {
    if d == [] || d[0].inum == 0 then 0 else 1 + FreeSlot(d[1..])
  }

  function Inserted(d: seq<Dirent>, de: Dirent): seq<Dirent> {
    var i := FreeSlot(d);
    if i < |d| then d[i := de] else d + [de]
  }

  /** dirlink adds the name and changes no other; every entry in use stays where it is, and the directory
      grows only if it has no free entry. */
  lemma InsertedIs(d: seq<Dirent>, de: Dirent)
    requires DirOk(d) && 0 < de.inum < 0x1_0000 && |de.name| == DIRSIZ && Lookup(d, Key(de.name)) == 0
    ensures DirOk(Inserted(d, de)) && Lookup(Inserted(d, de), Key(de.name)) == de.inum
    ensures forall key :: key != Key(de.name) ==> Lookup(Inserted(d, de), key) == Lookup(d, key)
    ensures |Inserted(d, de)| == |d| + if exists i :: 0 <= i < |d| && d[i].inum == 0 then 0 else 1
    ensures forall i :: 0 <= i < |d| && d[i].inum != 0 ==> Inserted(d, de)[i] == d[i]
  {
    hide Key;
    var i, d' := FreeSlot(d), Inserted(d, de);
    assert d'[i] == de && forall j :: 0 <= j < |d| && j != i ==> d'[j] == d[j];
    assert DirOk(d');
    ScanIs(d', Key(de.name), i);
    forall key | key != Key(de.name) ensures Lookup(d', key) == Lookup(d, key) {
      var k := Scan(d, key);
      if k < |d| {
        assert k != i;
        ScanIs(d', key, k);
      } else {
        assert forall j :: 0 <= j < |d'| ==> !Is(d'[j], key);
      }
    }
  }

  lemma DirsStay(s: Space, dirs': map<Id, seq<Dirent>>, dp: Id)
    requires Agree(s) && dp in s.dirs && dp in dirs'
    requires forall d :: d != dp ==> (d in dirs' <==> d in s.dirs) && (d in dirs' ==> dirs'[d] == s.dirs[d])
    requires forall i :: 0 <= i < |s.links| && s.links[i].Link? && ParentOf(s.links[i]) == dp ==>
               Lookup(dirs'[dp], s.links[i].key) == Lookup(s.dirs[dp], s.links[i].key)
    ensures Agree(s.(dirs := dirs'))
  {
  }

  lemma LinkKeeps(s: Space, dp: Id, de: Dirent)
    requires Base(s) && dp in s.dirs && 0 < de.inum < 0x1_0000 && |de.name| == DIRSIZ
    requires Lookup(s.dirs[dp], Key(de.name)) == 0
    ensures
      var s' := s.(dirs := s.dirs[dp := Inserted(s.dirs[dp], de)]);
      Base(s') && (Agree(s) ==> Agree(s'))
  {
    hide Lookup, Unique, Key, Inserted, DirOk;
    var d := s.dirs[dp];
    assert DirOk(d);
    InsertedIs(d, de);
    if Agree(s) {
      forall i | 0 <= i < |s.links| && s.links[i].Link? && ParentOf(s.links[i]) == dp
        ensures Lookup(Inserted(d, de), s.links[i].key) == Lookup(d, s.links[i].key)
      {
        assert LinkOk(s.links[i], s.dirs);
      }
      DirsStay(s, s.dirs[dp := Inserted(d, de)], dp);
    }
  }

  // ---------- unlink ----------

  function ZeroEntry(): Dirent {
    Dirent(0, seq(DIRSIZ, i => 0))
  }

  /** The slot that unlink clears: the entry's own on a cache miss, the first one on a hit. */
  function UnlinkSlot(s: Space, dp: Id, key: seq<int>): nat
    requires dp in s.dirs
  {
    if Find(s.links, dp.dev, dp.inum, key) != 0 then 0 else Scan(s.dirs[dp], key)
  }

  /** A zero entry written over a slot; at the end it is appended. */
  function Cleared(d: seq<Dirent>, slot: nat): seq<Dirent>
    requires slot <= |d|
  {
    if slot < |d| then d[slot := ZeroEntry()] else d + [ZeroEntry()]
  }

  /** Clearing a slot takes away the name in it and no other. */
  lemma ClearedIs(d: seq<Dirent>, slot: nat, key: seq<int>)
    requires DirOk(d) && slot <= |d|
    ensures DirOk(Cleared(d, slot))
    ensures Lookup(Cleared(d, slot), key) == if Scan(d, key) == slot then 0 else Lookup(d, key)
  {
    hide Key;
    var d' := Cleared(d, slot);
    assert forall j :: 0 <= j < |d| && j != slot ==> d'[j] == d[j];
    assert DirOk(d');
    var k := Scan(d, key);
    if k < |d| && k != slot {
      ScanIs(d', key, k);
    } else {
      forall j | 0 <= j < |d'| ensures !Is(d'[j], key) {
        if k == slot && k < j {
          assert !Is(d[j], Key(d[k].name));
        }
      }
    }
  }

  /** Unlinking takes the name out of the directory exactly when the cache missed, or the name was
      in the first slot. */
  lemma UnlinkRemoves(s: Space, dp: Id, key: seq<int>)
    requires Base(s) && dp in s.dirs && Lookup(s.dirs[dp], key) != 0
    ensures UnlinkSlot(s, dp, key) < |s.dirs[dp]|
    ensures Lookup(Cleared(s.dirs[dp], UnlinkSlot(s, dp, key)), key) == 0
        <==> Find(s.links, dp.dev, dp.inum, key) == 0 || Scan(s.dirs[dp], key) == 0
  {
    assert DirOk(s.dirs[dp]);
    ClearedIs(s.dirs[dp], UnlinkSlot(s, dp, key), key);
  }

  /** The root directory with one file, "a", whose name is in the cache. */
  function Example(): Space {
    Space([Link(1, 1, [97], 2)] + seq(NAMECACHE_SIZE - 1, i => Free), 1,
          map[Id(1, 1) := [Dirent(1, Padded(DOT, DIRSIZ)), Dirent(1, Padded(DOTDOT, DIRSIZ)),
                           Dirent(2, Padded([97], DIRSIZ))]],
          {})
  }

  /** There unlink clears "." and leaves "a". */
  lemma UnlinkMisses()
    ensures
      var s, root := Example(), Id(1, 1);
      && Inv(s) && root in s.dirs && UnlinkSlot(s, root, [97]) == 0
      && Lookup(Cleared(s.dirs[root], 0), [97]) == 2 && Lookup(Cleared(s.dirs[root], 0), DOT) == 0
  {
    hide Key, Padded;
    var s, root := Example(), Id(1, 1);
    var d := s.dirs[root];
    PaddedKey(DOT);
    PaddedKey(DOTDOT);
    PaddedKey([97]);
    assert DirOk(d);
    ScanIs(d, [97], 2);
    ScanIs(d, DOT, 0);
    assert LinkOk(s.links[0], s.dirs);
    assert forall i :: 0 < i < |s.links| ==> s.links[i] == Free;
    ClearedIs(d, 0, [97]);
    ClearedIs(d, 0, DOT);
  }

  lemma PaddedKey(name: seq<int>)
    requires |name| <= DIRSIZ && 0 !in name
    ensures Key(Padded(name, DIRSIZ)) == name
  {
    CanonOfPadded(name, DIRSIZ);
  }

  ghost function Unlinked(s: Space, dp: Id, ip: Id, slot: nat): Space
    requires dp in s.dirs && slot <= |s.dirs[dp]|
  {
    Space(Drop(Drop(s.links, ip.dev, ip.inum), dp.dev, dp.inum), s.next, s.dirs[dp := Cleared(s.dirs[dp], slot)],
          if ip in s.dirs then s.removed + {ip} else s.removed)
  }

  lemma UnlinkKeeps(s: Space, dp: Id, ip: Id, slot: nat)
    requires Base(s) && dp in s.dirs && slot <= |s.dirs[dp]|
    ensures
      var s' := Unlinked(s, dp, ip, slot);
      Base(s') && (Agree(s) ==> Agree(s')) && (Clean(s) ==> Clean(s'))
  {
    hide Lookup, Unique, DirOk, Drop;
    DropKeeps(s, ip.dev, ip.inum);
    var s1 := s.(links := Drop(s.links, ip.dev, ip.inum));
    DropKeeps(s1, dp.dev, dp.inum);
    DropUnder(s1.links, dp.dev, dp.inum, {ip});
    var s2 := s1.(links := Drop(s1.links, dp.dev, dp.inum));
    assert DirOk(s.dirs[dp]);
    ClearedIs(s.dirs[dp], slot, []);
    assert forall i :: 0 <= i < |s2.links| && s2.links[i].Link? ==> ParentOf(s2.links[i]) != dp;
    if Agree(s) {
      DirsStay(s2, s.dirs[dp := Cleared(s.dirs[dp], slot)], dp);
    }
  }

  lemma DropUnder(links: seq<Link>, dev: int, inum: int, gone: set<Id>)
    requires NoneUnder(links, gone)
    ensures NoneUnder(Drop(links, dev, inum), gone)
  {
  }

  // ---------- inodes come and go ----------

  /** A directory inode with no entries yet. */
  lemma NewDirKeeps(s: Space, i: Id)
    requires Base(s) && i !in s.dirs
    ensures var s' := s.(dirs := s.dirs[i := []]); Base(s') && (Agree(s) ==> Agree(s'))
  {
  }

  /** When the number of a directory inode goes to a new, empty directory, dirlookup finds there what
      the scan finds, for every name, exactly if no link under the number is cached. */
  lemma FreeAgrees(s: Space, i: Id)
    requires Base(s)
    ensures
      var s' := s.(dirs := s.dirs[i := []]);
      (forall key :: CachedLookup(s', i, key) == Lookup(s'.dirs[i], key)) <==> NoneUnder(s.links, {i})
  {
    hide DirOk, Lookup;
    var s' := s.(dirs := s.dirs[i := []]);
    forall key ensures Lookup(s'.dirs[i], key) == 0 {
      NothingIn(key);
    }
    if k :| 0 <= k < |s.links| && s.links[k].Link? && ParentOf(s.links[k]) == i {
      UniqueIs(s.links, k);
      assert CachedLookup(s', i, s.links[k].key) != 0;
    }
  }

  lemma UniqueIs(links: seq<Link>, k: nat)
    requires Unique(links) && k < |links| && links[k].Link?
    ensures Find(links, links[k].dev, links[k].parent, links[k].key) == links[k].inum
  {
  }

  lemma FreeKeeps(s: Space, i: Id)
    requires Base(s)
    ensures
      var s' := s.(dirs := s.dirs - {i}, removed := s.removed - {i});
      Base(s') && (Agree(s) ==> (Agree(s') <==> NoneUnder(s.links, {i}))) && (Clean(s) ==> Clean(s'))
  {
    hide DirOk, Unique, Lookup;
    var s' := s.(dirs := s.dirs - {i}, removed := s.removed - {i});
    if k :| 0 <= k < |s.links| && s.links[k].Link? && ParentOf(s.links[k]) == i {
      assert !LinkOk(s.links[k], s'.dirs);
    } else if Agree(s) {
      forall k | 0 <= k < |s.links| ensures LinkOk(s.links[k], s'.dirs) {
        assert LinkOk(s.links[k], s.dirs);
      }
    }
  }

  /** A lookup in a directory that was already removed leaves a link behind.  When the inode is freed
      and its number goes to a new directory, the link is wrong. */
  lemma StaleLink(s: Space, dp: Id, key: seq<int>)
    requires Base(s) && dp in s.removed && Lookup(s.dirs[dp], key) != 0
    ensures
      var s' := AfterLookup(s, dp, key).(dirs := s.dirs[dp := []]);
      CachedLookup(s', dp, key) != 0 && Lookup(s'.dirs[dp], key) == 0
  {
    hide DirOk;
    PutFinds(s.links, s.next, Link(dp.dev, dp.inum, key, Lookup(s.dirs[dp], key)), dp.dev, dp.inum, key);
  }

  /** The cache has a link that makes dirlink refuse a dot of a new directory with this inode number.
      The link for "." replaces the one in the next slot, so a link for ".." there does no harm. */
  predicate DotsBlocked(s: Space, dev: int, i: int)
    requires s.next < |s.links|
  {
    Find(s.links, dev, i, DOT) != 0 || Find(s.links[s.next := Free], dev, i, DOTDOT) != 0
  }

  lemma AgreeIsUnblocked(s: Space, i: Id)
    requires Inv(s) && i !in s.dirs
    ensures !DotsBlocked(s, i.dev, i.inum)
  {
    hide Lookup, DirOk;
    assert forall k :: 0 <= k < |s.links| ==> LinkOk(s.links[k], s.dirs);
  }

  /** A lookup of ".." in a removed directory, if the cache has no link for it yet, blocks the dots of
      the next directory that gets the inode number. */
  lemma StaleDots(s: Space, dp: Id)
    requires Base(s) && dp in s.removed
    requires Find(s.links, dp.dev, dp.inum, DOTDOT) == 0 && Lookup(s.dirs[dp], DOTDOT) != 0
    ensures
      var s' := AfterLookup(s, dp, DOTDOT);
      DotsBlocked(s'.(dirs := s'.dirs - {dp}, removed := s'.removed - {dp}), dp.dev, dp.inum)
  {
    hide DirOk, Lookup;
    var s' := AfterLookup(s, dp, DOTDOT);
    assert IndexOf(s.links, dp.dev, dp.inum, DOTDOT) == |s.links|;
    var b := s'.links[s'.next := Free];
    assert s'.next != s.next && b[s.next] == Link(dp.dev, dp.inum, DOTDOT, Lookup(s.dirs[dp], DOTDOT));
    IndexIs(b, s.next, dp.dev, dp.inum, DOTDOT);
  }

  /** What caching "." does to the lookup of "..". */
  lemma DotCached(s: Space, ip: Id, n: int)
    requires Base(s) && Find(s.links, ip.dev, ip.inum, DOT) == 0
    ensures Find(Remembered(s, ip, DOT, n).links, ip.dev, ip.inum, DOTDOT)
         == Find(s.links[s.next := Free], ip.dev, ip.inum, DOTDOT)
  {
    hide DirOk;
    var a, b := s.links[s.next := Link(ip.dev, ip.inum, DOT, n)], s.links[s.next := Free];
    assert IndexOf(s.links, ip.dev, ip.inum, DOT) == |s.links|;
    var k := IndexOf(b, ip.dev, ip.inum, DOTDOT);
    assert forall j :: 0 <= j < |a| && j != s.next ==> a[j] == b[j];
    assert |DOT| != |DOTDOT|;
    IndexIs(a, k, ip.dev, ip.inum, DOTDOT);
  }

  // ---------- runs ----------

  datatype Step =
    | Remember(dp: Id, key: seq<int>)     // dirlookup
    | Add(dp: Id, de: Dirent)             // dirlink
    | Remove(dp: Id, ip: Id, at: nat)     // unlink
    | MakeDir(dir: Id)                    // ialloc for a directory
    | FreeInode(dir: Id)                  // iput of a removed directory

  ghost predicate NextStep(s: Space, step: Step, s': Space) {
    match step
    case Remember(dp, key) => dp in s.dirs && s.next < |s.links| == NAMECACHE_SIZE && s' == AfterLookup(s, dp, key)
    case Add(dp, de) =>
      && dp in s.dirs && s.next < |s.links| == NAMECACHE_SIZE
      && 0 < de.inum < 0x1_0000 && |de.name| == DIRSIZ && CachedLookup(s, dp, Key(de.name)) == 0
      && s' == Remembered(s.(dirs := s.dirs[dp := Inserted(s.dirs[dp], de)]), dp, Key(de.name), de.inum)
    case Remove(dp, ip, at) => dp in s.dirs && at <= |s.dirs[dp]| && s' == Unlinked(s, dp, ip, at)
    case MakeDir(dir) => dir !in s.dirs && s' == s.(dirs := s.dirs[dir := []])
    case FreeInode(dir) => dir in s.removed && s' == s.(dirs := s.dirs - {dir}, removed := s.removed - {dir})
  }

  /** From a cache without links and directories without duplicate names, any steps in any order. */
  ghost predicate Run(run: seq<Space>, steps: seq<Step>) {
    && |run| == |steps| + 1
    && run[0].next == 0 && |run[0].links| == NAMECACHE_SIZE
    && (forall i :: 0 <= i < NAMECACHE_SIZE ==> run[0].links[i] == Free)
    && DirsOk(run[0].dirs) && run[0].removed == {}
    && forall k :: 0 <= k < |steps| ==> NextStep(run[k], steps[k], run[k + 1])
  }

  /** Up to state k no directory is freed while a link under it is cached. */
  ghost predicate TidyUpTo(run: seq<Space>, steps: seq<Step>, k: nat) {
    forall m :: 0 <= m < k && m < |steps| && m < |run| && steps[m].FreeInode? ==>
           NoneUnder(run[m].links, {steps[m].dir})
  }

  /** Up to state k no name is looked up or added in a removed directory. */
  ghost predicate LiveUpTo(run: seq<Space>, steps: seq<Step>, k: nat) {
    forall m :: 0 <= m < k && m < |steps| && m < |run| && (steps[m].Remember? || steps[m].Add?) ==>
      steps[m].dp !in run[m].removed
  }

  lemma NextKeeps(s: Space, step: Step, s': Space)
    requires Base(s) && NextStep(s, step, s')
    ensures Base(s')
    ensures Agree(s) && (step.FreeInode? ==> NoneUnder(s.links, {step.dir})) ==> Agree(s')
    ensures Clean(s) && (step.Remember? || step.Add? ==> step.dp !in s.removed) ==> Clean(s')
  {
    hide Base, Agree, Lookup, Inserted, Key, Put, Drop, DirOk, Find, NoneUnder, AfterLookup, Remembered;
    match step
    case Remember(dp, key) => LookupKeeps(s, dp, key);
    case Add(dp, de) =>
      LinkKeeps(s, dp, de);
      BaseDir(s, dp);
      InsertedIs(s.dirs[dp], de);
      AddKeeps(s.(dirs := s.dirs[dp := Inserted(s.dirs[dp], de)]), dp, Key(de.name), de.inum);
    case Remove(dp, ip, at) => UnlinkKeeps(s, dp, ip, at);
    case MakeDir(dir) => NewDirKeeps(s, dir);
    case FreeInode(dir) => FreeKeeps(s, dir);
  }

  /** In every state of every run, whatever is freed when. */
  lemma {:induction false} RunKeepsBase(run: seq<Space>, steps: seq<Step>, k: nat)
    requires Run(run, steps) && k < |run|
    ensures Base(run[k])
  {
    hide NextStep, DirOk;
    if k > 0 {
      RunKeepsBase(run, steps, k - 1);
      NextKeeps(run[k - 1], steps[k - 1], run[k]);
    }
  }

  lemma {:induction false} RunKeepsInv(run: seq<Space>, steps: seq<Step>, k: nat)
    requires Run(run, steps) && k < |run| && TidyUpTo(run, steps, k)
    ensures Inv(run[k])
  {
    hide NextStep, DirOk, NoneUnder;
    if k > 0 {
      RunKeepsInv(run, steps, k - 1);
      NextKeeps(run[k - 1], steps[k - 1], run[k]);
    }
  }

  /** A run that leaves removed directories alone is tidy. */
  lemma {:induction false} LiveIsTidy(run: seq<Space>, steps: seq<Step>, k: nat)
    requires Run(run, steps) && k < |run| && LiveUpTo(run, steps, k)
    ensures TidyUpTo(run, steps, k) && Inv(run[k]) && Clean(run[k])
  {
    hide NextStep, DirOk, Unique, Agree;
    if k == 0 {
      RunKeepsInv(run, steps, 0);
    } else {
      LiveIsTidy(run, steps, k - 1);
      var s, step := run[k - 1], steps[k - 1];
      assert NextStep(s, step, run[k]);
      FreedIsRemoved(s, step, run[k]);
      assert step.FreeInode? ==> NoneUnder(s.links, {step.dir});
      NextKeeps(s, step, run[k]);
    }
  }

  lemma FreedIsRemoved(s: Space, step: Step, s': Space)
    requires NextStep(s, step, s')
    ensures step.FreeInode? ==> step.dir in s.removed
  {
  }

  /** In every state of every run, as long as no directory is freed while a link under it is cached, a
      lookup through the cache finds what the scan finds. */
  lemma RunAgrees(run: seq<Space>, steps: seq<Step>, k: nat, dp: Id, key: seq<int>)
    requires Run(run, steps) && k < |run| && dp in run[k].dirs && (TidyUpTo(run, steps, k) || LiveUpTo(run, steps, k))
    ensures CachedLookup(run[k], dp, key) == Lookup(run[k].dirs[dp], key)
  {
    hide Inv, Run, Lookup, Find, NoneUnder;
    if LiveUpTo(run, steps, k) {
      LiveIsTidy(run, steps, k);
    }
    RunKeepsInv(run, steps, k);
    CacheAgrees(run[k], dp, key);
  }

  /** As long as no directory is freed while a link under it is cached, no new directory is refused
      its dots. */
  lemma RunUnblocked(run: seq<Space>, steps: seq<Step>, k: nat, i: Id)
    requires Run(run, steps) && k < |run| && i !in run[k].dirs && (TidyUpTo(run, steps, k) || LiveUpTo(run, steps, k))
    ensures run[k].next < |run[k].links| && !DotsBlocked(run[k], i.dev, i.inum)
  {
    hide Run, Lookup, Find, NoneUnder, Agree, DotsBlocked;
    if LiveUpTo(run, steps, k) {
      LiveIsTidy(run, steps, k);
    }
    RunKeepsInv(run, steps, k);
    AgreeIsUnblocked(run[k], i);
  }

  // A run that blocks the dots: a process removes its current directory, goes to "..", and the freed
  // inode number is given to a new directory.

  const ROOT := Id(1, 1)
  const WORK := Id(1, 2)

  function TopDir(): seq<Dirent> {
    [Dirent(1, Padded(DOT, DIRSIZ)), Dirent(1, Padded(DOTDOT, DIRSIZ)), Dirent(2, Padded([100], DIRSIZ))]
  }

  function WorkDir(): seq<Dirent> {
    [Dirent(2, Padded(DOT, DIRSIZ)), Dirent(1, Padded(DOTDOT, DIRSIZ))]
  }

  lemma BothDirs()
    ensures DirOk(TopDir()) && Scan(TopDir(), [100]) == 2 && Lookup(TopDir(), [100]) == 2
    ensures DirOk(WorkDir()) && Lookup(WorkDir(), DOTDOT) == 1
  {
    hide Key, Padded;
    PaddedKey(DOT);
    PaddedKey(DOTDOT);
    PaddedKey([100]);
    ScanIs(TopDir(), [100], 2);
    ScanIs(WorkDir(), DOTDOT, 1);
  }

  /** The steps of that run: unlink of "d" looks it up and clears its entry; chdir looks up ".." and
      gives up the old directory; mkdir gets its inode. */
  function LeaveSteps(): seq<Step> {
    [Remember(ROOT, [100]), Remove(ROOT, WORK, 2), Remember(WORK, DOTDOT), FreeInode(WORK), MakeDir(WORK)]
  }

  lemma LeavingBlocksDots() returns (run: seq<Space>)
    ensures Run(run, LeaveSteps())
    ensures run[4].next < |run[4].links| && DotsBlocked(run[4], WORK.dev, WORK.inum)
    ensures WORK !in run[4].dirs && WORK in run[5].dirs && run[5].dirs[WORK] == []
    ensures CachedLookup(run[5], WORK, DOTDOT) == ROOT.inum
  {
    hide DirOk, Lookup, Scan, TopDir, WorkDir;
    BothDirs();
    var s0 := Space(seq(NAMECACHE_SIZE, i => Free), 0, map[ROOT := TopDir(), WORK := WorkDir()], {});
    var s1 := AfterLookup(s0, ROOT, [100]);
    var s2 := Unlinked(s1, ROOT, WORK, 2);
    assert forall i :: 0 <= i < NAMECACHE_SIZE ==> s2.links[i] == Free;
    var s3 := AfterLookup(s2, WORK, DOTDOT);
    var s4 := s3.(dirs := s3.dirs - {WORK}, removed := s3.removed - {WORK});
    var s5 := s4.(dirs := s4.dirs[WORK := []]);
    run := [s0, s1, s2, s3, s4, s5];
    RunKeepsBase(run, LeaveSteps(), 2);
    StaleDots(s2, WORK);
    PutFinds(s2.links, s2.next, Link(1, 2, DOTDOT, 1), 1, 2, DOTDOT);
  }

  // ---------- the operations ----------

  /** What create does: finds the name, makes an inode, or panics with "create dots". */
  datatype Created = Existing(found: int) | Made | DotsPanic

  class Namespace {
    const cache: Cache
    var dirs: map<Id, seq<Dirent>>
    var removed: set<Id>

    ghost function State(): Space
      requires cache.Valid()
      reads this, cache, cache.entries
    {
      Space(cache.Links(), cache.nextSlot, dirs, removed)
    }

    /** The cache need not agree with the directories. */
    ghost predicate Valid()
      reads this, cache, cache.entries
    {
      cache.Valid() && Base(State())
    }

    /** The directories found on disk at boot, and an empty cache. */
    constructor (onDisk: map<Id, seq<Dirent>>)
      requires DirsOk(onDisk)
      ensures Valid() && fresh(cache) && fresh(cache.entries) && dirs == onDisk && removed == {}
      ensures Agree(State()) && Clean(State())
    {
      cache := new Cache();
      dirs, removed := onDisk, {};
    }

    /** dirlookup: the inode, 0 if none, and *poff.  On a cache hit *poff is 0. */
    method Dirlookup(dp: Id, name: seq<int>) returns (inum: int, off: nat)
      requires Valid() && dp in dirs && IsName(name, DIRSIZ)
      modifies cache, cache.entries
      ensures Valid() && State() == old(AfterLookup(State(), dp, Key(name)))
      ensures old(Agree(State())) ==> Agree(State()) && inum == Lookup(dirs[dp], Key(name))
      ensures old(Clean(State())) && dp !in removed ==> Clean(State())
      ensures inum == old(CachedLookup(State(), dp, Key(name)))
      ensures inum != 0 ==> off == DIRENT * old(UnlinkSlot(State(), dp, Key(name)))
    {
      hide Base, Agree, Clean, Key, IsName, Lookup, Scan, Find, Put, DirOk, Counts, IndexOf;
      ghost var s, key := State(), Key(name);
      LookupKeeps(s, dp, key);
      if Agree(s) {
        CacheAgrees(s, dp, key);
      }
      off := 0;
      KeyIs(name);
      inum := cache.Lookup(dp.dev, dp.inum, name);
      if inum != 0 {
        return;
      }
      BaseDir(State(), dp);
      var i;
      inum, i := ScanDir(dp, name);
      off := DIRENT * i;
      if inum != 0 {
        cache.Add(dp.dev, dp.inum, name, inum);
      }
    }

    /** The loop of dirlookup. */
    method ScanDir(dp: Id, name: seq<int>) returns (inum: int, i: nat)
      requires dp in dirs && IsName(name, DIRSIZ) && DirOk(dirs[dp])
      ensures i == Scan(dirs[dp], Key(name)) && inum == Lookup(dirs[dp], Key(name))
    {
      hide IsName, Canon;
      i, inum := 0, 0;
      while i < |dirs[dp]|
        invariant 0 <= i <= |dirs[dp]|
        invariant forall k :: 0 <= k < i ==> !Is(dirs[dp][k], Key(name))
      {
        var de := dirs[dp][i];
        if de.inum != 0 {
          LongIsName(de.name, DIRSIZ);
          var c := Strncmp(name, de.name, DIRSIZ);
          if c == 0 {
            ScanIs(dirs[dp], Key(name), i);
            return de.inum, i;
          }
        }
        i := i + 1;
      }
      assert Scan(dirs[dp], Key(name)) == i;
    }

    /** dirlink: adds the name unless dirlookup finds it. */
    method Dirlink(dp: Id, name: seq<int>, inum: int) returns (ok: bool)
      requires Valid() && dp in dirs && IsName(name, DIRSIZ) && 0 < inum < 0x1_0000
      modifies this`dirs, cache, cache.entries
      ensures Valid() && (old(Agree(State())) ==> Agree(State()))
      ensures old(Clean(State())) && dp !in removed ==> Clean(State())
      ensures ok <==> old(CachedLookup(State(), dp, Key(name))) == 0
      ensures !ok ==> State() == old(AfterLookup(State(), dp, Key(name))) && dirs == old(dirs)
      ensures ok ==>
                && dirs == old(dirs)[dp := Inserted(old(dirs)[dp], Dirent(inum, Field(name)))]
                && State() == Remembered(old(State()).(dirs := dirs), dp, Key(name), inum)
      ensures ok ==> Lookup(old(dirs)[dp], Key(name)) == 0 && Lookup(dirs[dp], Key(name)) == inum
      ensures ok ==> forall key :: key != Key(name) ==> Lookup(dirs[dp], key) == Lookup(old(dirs)[dp], key)
    {
      hide Base, Agree, Clean, Key, IsName, Canon, Lookup, Scan, Find, Put, DirOk, Inserted, UnlinkSlot, Field;
      var found, off := Dirlookup(dp, name);
      if found != 0 {
        return false;
      }
      BaseDir(State(), dp);
      FieldIs(name);
      KeyIs(name);
      var de := Dirent(inum, []);
      var copy := Strncpy(name, DIRSIZ);
      de := de.(name := copy);
      InsertedIs(dirs[dp], de);
      LinkKeeps(State(), dp, de);
      LinkClean(State(), dirs[dp := Inserted(dirs[dp], de)]);
      var d := InsertAt(dirs[dp], de);
      dirs := dirs[dp := d];
      AddKeeps(State(), dp, Key(name), inum);
      cache.Add(dp.dev, dp.inum, name, inum);
      ok := true;
    }

    /** dirlink's search for a free entry, and its writei. */
    static method InsertAt(d: seq<Dirent>, de: Dirent) returns (r: seq<Dirent>)
      ensures r == Inserted(d, de)
    {
      var i := 0;
      while i < |d| && d[i].inum != 0
        invariant 0 <= i <= |d| && forall k :: 0 <= k < i ==> d[k].inum != 0
      {
        i := i + 1;
      }
      assert FreeSlot(d) == i;
      r := if i < |d| then d[i := de] else d + [de];
    }

    /** isdirempty. */
    static method IsDirEmpty(d: seq<Dirent>) returns (r: bool)
      ensures r <==> Empty(d)
    {
      var i := 2;
      while i < |d|
        invariant 2 <= i && forall k :: 2 <= k < i && k < |d| ==> d[k].inum == 0
      {
        if d[i].inum != 0 {
          return false;
        }
        i := i + 1;
      }
      r := true;
    }

    /** sys_unlink, from the lookup of the last path element on; false stands for -1. */
    method Unlink(dp: Id, name: seq<int>) returns (ok: bool)
      requires Valid() && dp in dirs && IsName(name, DIRSIZ)
      modifies this, cache, cache.entries
      ensures Valid() && (old(Agree(State())) ==> Agree(State()))
      ensures old(Clean(State())) && dp !in old(removed) ==> Clean(State())
      ensures
        var key, d := Key(name), old(dirs)[dp];
        var ip := Id(dp.dev, old(CachedLookup(State(), dp, key)));
        && (ok <==> key != DOT && key != DOTDOT && ip.inum != 0 && (ip in old(dirs) ==> Empty(old(dirs)[ip])))
        && (!ok ==> dirs == old(dirs) && removed == old(removed))
        && (ok ==> removed == old(removed) + if ip in old(dirs) then {ip} else {})
        && (ok ==> old(UnlinkSlot(State(), dp, key)) <= |d|
                   && dirs == old(dirs)[dp := Cleared(d, old(UnlinkSlot(State(), dp, key)))])
        && (ok ==> NoneUnder(cache.Links(), {ip, dp}))
        && (ok ==> State() == Unlinked(old(AfterLookup(State(), dp, key)), dp, ip, old(UnlinkSlot(State(), dp, key))))
    {
      hide Base, Agree, Clean, Key, IsName, Canon, Lookup, Scan, Find, Put, Drop, DirOk, UnlinkSlot, Empty;
      hide AfterLookup, NoneUnder;
      ghost var s, key := State(), Key(name);
      KeyIs(name);
      DotNames();
      var c := Strncmp(name, [46, 0], DIRSIZ);
      var cc := Strncmp(name, [46, 46, 0], DIRSIZ);
      if c == 0 || cc == 0 {
        return false;
      }
      LookupKeeps(s, dp, key);
      var inum, off := Dirlookup(dp, name);
      if inum == 0 {
        return false;
      }
      SlotInside(s, dp, key);
      var ip := Id(dp.dev, inum);
      if ip in dirs {
        var empty := IsDirEmpty(dirs[ip]);
        if !empty {
          return false;
        }
      }
      UnlinkKeeps(State(), dp, ip, off / DIRENT);
      DroppedBoth(cache.Links(), ip, dp);
      cache.Invalidate(ip.dev, ip.inum);
      cache.Invalidate(dp.dev, dp.inum);
      if ip in dirs {
        removed := removed + {ip};
      }
      dirs := dirs[dp := Cleared(dirs[dp], off / DIRENT)];
      ok := true;
    }

    /** iput on a directory: with the last reference to a directory of link count 0 goes the inode, and
        the cache stays in agreement exactly if it holds no link under it. */
    method Iput(i: Id, valid: bool, ref: int) returns (freed: bool)
      requires Valid() && i in dirs
      modifies this
      ensures Valid() && (freed <==> valid && i in old(removed) && ref == 1)
      ensures dirs == (if freed then old(dirs) - {i} else old(dirs))
      ensures removed == (if freed then old(removed) - {i} else old(removed))
      ensures old(Agree(State())) ==> (Agree(State()) <==> !freed || NoneUnder(cache.Links(), {i}))
      ensures old(Clean(State())) ==> Clean(State()) && (old(Agree(State())) ==> Agree(State()))
    {
      hide Base, Agree, DirOk;
      freed := false;
      if valid && i in removed {
        if ref == 1 {
          FreeKeeps(State(), i);
          dirs, removed := dirs - {i}, removed - {i};
          freed := true;
        }
      }
    }

    /** create, with the inode number ialloc gives.  "create dots" happens exactly if a directory is
        made and the cache has a link for one of its dots; "create: dirlink" does not happen. */
    method Create(dp: Id, name: seq<int>, newi: int, isDir: bool) returns (r: Created)
      requires Valid() && dp in dirs && IsName(name, DIRSIZ)
      requires 0 < newi < 0x1_0000 && Id(dp.dev, newi) !in dirs && 0 < dp.inum < 0x1_0000
      modifies this`dirs, cache, cache.entries
      ensures Valid() && (old(Agree(State())) ==> Agree(State()) && r != DotsPanic)
      ensures old(Clean(State())) && dp !in removed ==> Clean(State())
      ensures
        var n := old(CachedLookup(State(), dp, Key(name)));
        && (r.Existing? <==> n != 0)
        && (r.Existing? ==> r.found == n && dirs == old(dirs))
        && (r.DotsPanic? <==> n == 0 && isDir && old(DotsBlocked(State(), dp.dev, newi)))
      ensures r.Made? ==> dp in dirs && Lookup(dirs[dp], Key(name)) == newi
      ensures r.Made? ==> forall key :: key != Key(name) ==> Lookup(dirs[dp], key) == Lookup(old(dirs)[dp], key)
      ensures r.Made? && isDir ==>
                dirs.Keys == old(dirs).Keys + {Id(dp.dev, newi)} && Empty(dirs[Id(dp.dev, newi)])
                && Lookup(dirs[Id(dp.dev, newi)], DOT) == newi && Lookup(dirs[Id(dp.dev, newi)], DOTDOT) == dp.inum
      ensures r.Made? ==> forall d :: d in old(dirs) && d != dp ==> d in dirs && dirs[d] == old(dirs)[d]
    {
      hide Base, Agree, Clean, Key, IsName, Canon, Lookup, Scan, Find, Put, DirOk, UnlinkSlot, Inserted, Field, Empty;
      hide DotsBlocked;
      ghost var s := State();
      var found, off := Dirlookup(dp, name);
      if found != 0 {
        return Existing(found);
      }
      if isDir {
        if Inv(s) {
          AgreeIsUnblocked(s, Id(dp.dev, newi));
        }
        var ok := MakeDots(dp, newi, Key(name));
        if !ok {
          return DotsPanic;
        }
      }
      var linked := Dirlink(dp, name, newi);
      assert linked;
      r := Made;
    }

    /** The "." and ".." of a new directory. */
    method MakeDots(dp: Id, newi: int, ghost key: seq<int>) returns (ok: bool)
      requires Valid() && dp in dirs
      requires 0 < newi < 0x1_0000 && Id(dp.dev, newi) !in dirs && 0 < dp.inum < 0x1_0000
      modifies this`dirs, cache, cache.entries
      ensures Valid() && (old(Agree(State())) ==> Agree(State())) && (old(Clean(State())) ==> Clean(State()))
      ensures ok <==> !old(DotsBlocked(State(), dp.dev, newi))
      ensures dirs.Keys == old(dirs).Keys + {Id(dp.dev, newi)}
      ensures forall d :: d in old(dirs) ==> dirs[d] == old(dirs)[d]
      ensures old(CachedLookup(State(), dp, key)) == 0 ==> CachedLookup(State(), dp, key) == 0
      ensures ok ==> Empty(dirs[Id(dp.dev, newi)])
      ensures ok ==>
                Lookup(dirs[Id(dp.dev, newi)], DOT) == newi && Lookup(dirs[Id(dp.dev, newi)], DOTDOT) == dp.inum
    {
      hide Base, Agree, Clean, Key, IsName, Canon, Lookup, Scan, Find, Put, DirOk, UnlinkSlot, Inserted, Field, Empty;
      var ip := Id(dp.dev, newi);
      ghost var s := State();
      NotRemoved(s, ip);
      NewDirKeeps(s, ip);
      LinkClean(s, dirs[ip := []]);
      dirs := dirs[ip := []];
      DotNames();
      NothingIn(DOT);
      NothingIn(DOTDOT);
      var one := Dirlink(ip, [46, 0], newi);
      if !one {
        return false;
      }
      DotCached(s, ip, newi);
      OtherLookup(s, ip, DOT, newi, dp, key);
      ghost var s1 := State();
      var two := Dirlink(ip, [46, 46, 0], dp.inum);
      if !two {
        return false;
      }
      OtherLookup(s1, ip, DOTDOT, dp.inum, dp, key);
      TwoEntries(Dirent(newi, Field([46, 0])), Dirent(dp.inum, Field([46, 46, 0])));
      ok := true;
    }

    /** namex: the walk from the root or the current directory along the elements of a path. */
    method Namex(path: seq<int>, root: Id, cwd: Id, nameiparent: bool, name0: seq<int>)
      returns (r: Found, name: seq<int>)
      requires Valid() && 0 !in path && |name0| == DIRSIZ
      modifies cache, cache.entries
      ensures Valid() && (old(Agree(State())) ==> Agree(State()))
      ensures r == old(CachedWalk(State(), Start(path, root, cwd), Elements(path), nameiparent))
      ensures old(Agree(State())) ==>
                r == if nameiparent then WalkParent(dirs, Start(path, root, cwd), Elements(path))
                     else Walk(dirs, Start(path, root, cwd), Elements(path))
      ensures old(Inv(State()) && Clean(State())) && Live(dirs, removed, Start(path, root, cwd), Elements(path))
              ==> Clean(State())
      ensures nameiparent && r.At? ==> |name| == DIRSIZ && Key(name) == Elements(path)[|Elements(path)| - 1]
    {
      hide Base, Agree, Clean, Key, IsName, Canon, Lookup, Scan, Find, Put, DirOk, UnlinkSlot, Elements, AfterLookup;
      hide CachedWalk, Walk, WalkParent, Live;
      var ip := if path != [] && path[0] == SLASH then root else cwd;
      ghost var s, from, es := State(), ip, Elements(path);
      if Agree(s) {
        CachedWalkAgrees(s, from, es, nameiparent);
      }
      ghost var live := Inv(s) && Clean(s) && Live(dirs, removed, from, es);
      var p, more := path, true;
      name := name0;
      while true
        invariant Valid() && 0 !in p && |name| == DIRSIZ && (Agree(s) ==> Agree(State()))
        invariant live ==> Clean(State()) && Live(dirs, removed, ip, Elements(p))
        invariant CachedWalk(s, from, es, nameiparent) == CachedWalk(State(), ip, Elements(p), nameiparent)
        invariant Elements(p) != [] ==> es != [] && es[|es| - 1] == Elements(p)[|Elements(p)| - 1]
        invariant nameiparent && es != [] ==> Elements(p) != []
        decreases |p|
      {
        ghost var q := p;
        more, p, name := Skipelem(p, name);
        if !more {
          WalkEnd(State(), ip, nameiparent);
          break;
        }
        KeyIs(name);
        WalkNext(State(), ip, Elements(q), nameiparent);
        LiveNext(dirs, removed, ip, Elements(q));
        assert Elements(q)[0] == Key(name) && Elements(q)[1..] == Elements(p);
        if ip !in dirs {
          return Nowhere, name;
        }
        if nameiparent && p == [] {
          return At(ip), name;
        }
        var inum, off := Dirlookup(ip, name);
        if inum == 0 {
          return Nowhere, name;
        }
        ip := Id(ip.dev, inum);
      }
      r := if nameiparent then Nowhere else At(ip);
    }
  }

  // ---------- path walks ----------

  datatype Found = Nowhere | At(id: Id)

  function Start(path: seq<int>, root: Id, cwd: Id): Id {
    if path != [] && path[0] == SLASH then root else cwd
  }

  /** Where an absolute path leads does not depend on the current directory, and where a relative one
      leads does not depend on the root. */
  lemma PathStarts(s: Space, path: seq<int>, root: Id, cwd: Id, other: Id, parent: bool)
    requires s.next < |s.links| == NAMECACHE_SIZE
    ensures
      var es := Elements(path);
      if path != [] && path[0] == SLASH then
        CachedWalk(s, Start(path, root, cwd), es, parent) == CachedWalk(s, Start(path, root, other), es, parent)
        == CachedWalk(s, root, es, parent)
      else
        CachedWalk(s, Start(path, root, cwd), es, parent) == CachedWalk(s, Start(path, other, cwd), es, parent)
        == CachedWalk(s, cwd, es, parent)
  {
    hide Elements, CachedWalk;
  }

  /** Where the elements lead by plain scans of the directories. */
  function Walk(dirs: map<Id, seq<Dirent>>, at: Id, es: seq<seq<int>>): Found
    decreases |es|
  {
    if es == [] then At(at)
    else if at !in dirs || Lookup(dirs[at], es[0]) == 0 then Nowhere
    else Walk(dirs, Id(at.dev, Lookup(dirs[at], es[0])), es[1..])
  }

  /** Where all elements but the last lead, if that is a directory. */
  function WalkParent(dirs: map<Id, seq<Dirent>>, at: Id, es: seq<seq<int>>): (r: Found)
    ensures r.At? ==> r.id in dirs
    decreases |es|
  {
    if es == [] || at !in dirs then Nowhere
    else if |es| == 1 then At(at)
    else if Lookup(dirs[at], es[0]) == 0 then Nowhere
    else WalkParent(dirs, Id(at.dev, Lookup(dirs[at], es[0])), es[1..])
  }

  /** What namex does, each dirlookup through the cache as the ones before it have left it. */
  function CachedWalk(s: Space, at: Id, es: seq<seq<int>>, parent: bool): Found
    requires s.next < |s.links| == NAMECACHE_SIZE
    decreases |es|
  {
    if es == [] then if parent then Nowhere else At(at)
    else if at !in s.dirs then Nowhere
    else if parent && |es| == 1 then At(at)
    else if CachedLookup(s, at, es[0]) == 0 then Nowhere
    else CachedWalk(AfterLookup(s, at, es[0]), Id(at.dev, CachedLookup(s, at, es[0])), es[1..], parent)
  }

  /** One turn of namex's loop. */
  lemma WalkNext(s: Space, at: Id, es: seq<seq<int>>, parent: bool)
    requires s.next < |s.links| == NAMECACHE_SIZE && es != []
    ensures
      CachedWalk(s, at, es, parent) ==
      if at !in s.dirs then Nowhere
      else if parent && |es| == 1 then At(at)
      else if CachedLookup(s, at, es[0]) == 0 then Nowhere
      else CachedWalk(AfterLookup(s, at, es[0]), Id(at.dev, CachedLookup(s, at, es[0])), es[1..], parent)
  {
  }

  lemma WalkEnd(s: Space, at: Id, parent: bool)
    requires s.next < |s.links| == NAMECACHE_SIZE
    ensures CachedWalk(s, at, [], parent) == if parent then Nowhere else At(at)
  {
  }

  lemma LiveNext(dirs: map<Id, seq<Dirent>>, removed: set<Id>, at: Id, es: seq<seq<int>>)
    requires es != []
    ensures Live(dirs, removed, at, es) && at in dirs ==>
              at !in removed && (Lookup(dirs[at], es[0]) != 0 ==>
                Live(dirs, removed, Id(at.dev, Lookup(dirs[at], es[0])), es[1..]))
  {
  }

  lemma {:induction false} CachedWalkAgrees(s: Space, at: Id, es: seq<seq<int>>, parent: bool)
    requires Inv(s)
    ensures CachedWalk(s, at, es, parent) == if parent then WalkParent(s.dirs, at, es) else Walk(s.dirs, at, es)
    decreases |es|
  {
    hide Base, Agree, Lookup, Find, AfterLookup;
    BaseLinks(s);
    if es != [] && at in s.dirs && CachedLookup(s, at, es[0]) != 0 {
      CacheAgrees(s, at, es[0]);
      LookupKeeps(s, at, es[0]);
      CachedWalkAgrees(AfterLookup(s, at, es[0]), Id(at.dev, CachedLookup(s, at, es[0])), es[1..], parent);
    }
  }

  lemma {:induction false} ParentThenLast(dirs: map<Id, seq<Dirent>>, at: Id, es: seq<seq<int>>)
    requires es != []
    decreases |es|
    ensures var p := WalkParent(dirs, at, es);
            Walk(dirs, at, es) == if p.At? && Lookup(dirs[p.id], es[|es| - 1]) != 0
                                  then At(Id(p.id.dev, Lookup(dirs[p.id], es[|es| - 1]))) else Nowhere
  {
    if |es| > 1 && at in dirs && Lookup(dirs[at], es[0]) != 0 {
      ParentThenLast(dirs, Id(at.dev, Lookup(dirs[at], es[0])), es[1..]);
    }
  }

  /** None of the directories searched on the way has been removed. */
  ghost predicate Live(dirs: map<Id, seq<Dirent>>, removed: set<Id>, at: Id, es: seq<seq<int>>)
    decreases |es|
  {
    es != [] && at in dirs ==>
      at !in removed && (Lookup(dirs[at], es[0]) != 0 ==>
        Live(dirs, removed, Id(at.dev, Lookup(dirs[at], es[0])), es[1..]))
  }

  // ---------- facts the procedures use ----------

  const DOT := [46]
  const DOTDOT := [46, 46]

  /** No entries but the first two. */
  predicate Empty(d: seq<Dirent>) {
    forall i :: 2 <= i < |d| ==> d[i].inum == 0
  }

  /** A directory that begins with its dots is empty exactly if it has no other name. */
  lemma EmptyMeans(d: seq<Dirent>)
    requires DirOk(d) && |d| >= 2 && Is(d[0], DOT) && Is(d[1], DOTDOT)
    ensures Empty(d) <==> forall key :: key != DOT && key != DOTDOT ==> Lookup(d, key) == 0
  {
    hide Key;
    if Empty(d) {
      forall key | key != DOT && key != DOTDOT ensures Lookup(d, key) == 0 {
        assert forall i :: 0 <= i < |d| ==> !Is(d[i], key);
      }
    } else {
      var i :| 2 <= i < |d| && d[i].inum != 0;
      var key := Key(d[i].name);
      assert !Is(d[i], Key(d[0].name)) && !Is(d[i], Key(d[1].name));
      ScanIs(d, key, i);
    }
  }

  /** A name as a directory entry holds it. */
  function Field(name: seq<int>): seq<int> {
    if |Key(name)| <= DIRSIZ then Padded(Key(name), DIRSIZ) else []
  }

  lemma FieldIs(name: seq<int>)
    requires IsName(name, DIRSIZ)
    ensures |Canon(name, DIRSIZ)| <= DIRSIZ && Field(name) == Padded(Canon(name, DIRSIZ), DIRSIZ)
    ensures |Field(name)| == DIRSIZ
    ensures Key(Field(name)) == Key(name)
  {
    CanonSmall(name, DIRSIZ);
    CanonOfPadded(Canon(name, DIRSIZ), DIRSIZ);
  }

  lemma DotNames()
    ensures IsName([46, 0], DIRSIZ) && Canon([46, 0], DIRSIZ) == DOT == Key([46, 0])
    ensures IsName([46, 46, 0], DIRSIZ) && Canon([46, 46, 0], DIRSIZ) == DOTDOT == Key([46, 46, 0])
  {
  }

  lemma NothingIn(key: seq<int>)
    ensures Lookup([], key) == 0
  {
  }

  lemma BaseLinks(s: Space)
    requires Base(s)
    ensures s.next < |s.links| == NAMECACHE_SIZE
  {
  }

  lemma BaseDir(s: Space, dp: Id)
    requires Base(s) && dp in s.dirs
    ensures DirOk(s.dirs[dp])
  {
  }

  lemma NotRemoved(s: Space, i: Id)
    requires Base(s) && i !in s.dirs
    ensures i !in s.removed
  {
  }

  lemma SlotInside(s: Space, dp: Id, key: seq<int>)
    requires dp in s.dirs && CachedLookup(s, dp, key) != 0
    ensures UnlinkSlot(s, dp, key) <= |s.dirs[dp]|
  {
  }

  lemma LinkClean(s: Space, dirs': map<Id, seq<Dirent>>)
    ensures Clean(s) ==> Clean(s.(dirs := dirs'))
  {
  }

  lemma DroppedBoth(links: seq<Link>, ip: Id, dp: Id)
    ensures NoneUnder(Drop(Drop(links, ip.dev, ip.inum), dp.dev, dp.inum), {ip, dp})
  {
  }

  /** Caching a name of one directory brings up no name in another. */
  lemma OtherLookup(s: Space, ip: Id, name: seq<int>, n: int, dp: Id, key: seq<int>)
    requires Base(s) && ip != dp
    ensures Find(s.links, dp.dev, dp.inum, key) == 0 ==>
              Find(Remembered(s, ip, name, n).links, dp.dev, dp.inum, key) == 0
  {
    PutFinds(s.links, s.next, Link(ip.dev, ip.inum, name, n), dp.dev, dp.inum, key);
  }

  lemma TwoEntries(a: Dirent, b: Dirent)
    requires a.inum != 0 && b.inum != 0
    ensures Empty(Inserted(Inserted([], a), b))
  {
  }

  lemma KeyIs(name: seq<int>)
    requires IsName(name, DIRSIZ)
    ensures Key(name) == Canon(name, DIRSIZ)
  {
  }
}
