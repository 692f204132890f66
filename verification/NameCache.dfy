/** namecache.c: a table of directory entries seen lately, with round-robin replacement. */
module NameCache {
  import opened Names

  const NAMECACHE_SIZE := 32

  datatype Entry = Entry(valid: bool, dev: int, parent: int, name: seq<int>, inum: int, hits: nat)

  /** What an entry says: in directory `parent` of `dev`, the name `key` is inode `inum`. */
  datatype Link = Free | Link(dev: int, parent: int, key: seq<int>, inum: int)

  predicate Named(l: Link, dev: int, parent: int, key: seq<int>) {
    l.Link? && l.dev == dev && l.parent == parent && l.key == key
  }

  /** The first link for a name; the length of the table if there is none. */
  function IndexOf(ls: seq<Link>, dev: int, parent: int, key: seq<int>): (r: nat)
    ensures r <= |ls| && (r < |ls| ==> Named(ls[r], dev, parent, key))
    ensures forall i :: 0 <= i < r ==> !Named(ls[i], dev, parent, key)
  {
    if ls == [] || Named(ls[0], dev, parent, key) then 0 else 1 + IndexOf(ls[1..], dev, parent, key)
  }

  function Find(ls: seq<Link>, dev: int, parent: int, key: seq<int>): int {
    var i := IndexOf(ls, dev, parent, key);
    if i < |ls| then ls[i].inum else 0
  }

  /** namecache_add: update the link for the name, or replace the one in the next slot. */
  function Put(ls: seq<Link>, next: nat, l: Link): (r: seq<Link>)
    requires next < |ls| && l.Link?
    ensures |r| == |ls|
  {
    var i := IndexOf(ls, l.dev, l.parent, l.key);
    if i < |ls| then ls[i := l] else ls[next := l]
  }

  /** The slot to replace after that. */
  function NextSlot(ls: seq<Link>, next: nat, l: Link): nat
    requires l.Link?
  {
    if IndexOf(ls, l.dev, l.parent, l.key) < |ls| then next else (next + 1) % NAMECACHE_SIZE
  }

  predicate Touches(l: Link, dev: int, inum: int) {
    l.Link? && l.dev == dev && (l.inum == inum || l.parent == inum)
  }

  /** namecache_invalidate: no link from or to the inode is left. */
  function Drop(ls: seq<Link>, dev: int, inum: int): (r: seq<Link>)
    ensures |r| == |ls|
    ensures forall i :: 0 <= i < |r| ==>
              !Touches(r[i], dev, inum) && (r[i] == ls[i] || (r[i] == Free && Touches(ls[i], dev, inum)))
  {
    seq(|ls|, i requires 0 <= i < |ls| => if Touches(ls[i], dev, inum) then Free else ls[i])
  }

  /** No two links for one name. */
  ghost predicate Unique(ls: seq<Link>) {
    forall i, j :: 0 <= i < j < |ls| && ls[i].Link? ==> !Named(ls[j], ls[i].dev, ls[i].parent, ls[i].key)
  }

  lemma UniqueIs(ls: seq<Link>, i: nat, j: nat, dev: int, parent: int, key: seq<int>)
    requires Unique(ls) && i < |ls| && j < |ls| && Named(ls[i], dev, parent, key) && Named(ls[j], dev, parent, key)
    ensures i == j
  {
  }

  lemma PutUnique(ls: seq<Link>, next: nat, l: Link)
    requires Unique(ls) && next < |ls| && l.Link?
    ensures Unique(Put(ls, next, l))
  {
  }

  /** What was added is found, and what is found for any other name was there before. */
  lemma PutFinds(ls: seq<Link>, next: nat, l: Link, dev: int, parent: int, key: seq<int>)
    requires Unique(ls) && next < |ls| && l.Link?
    ensures Named(l, dev, parent, key) ==> Find(Put(ls, next, l), dev, parent, key) == l.inum
    ensures !Named(l, dev, parent, key) && Find(Put(ls, next, l), dev, parent, key) != 0 ==>
              Find(Put(ls, next, l), dev, parent, key) == Find(ls, dev, parent, key)
  {
    hide Unique;
    PutUnique(ls, next, l);
    var r := Put(ls, next, l);
    var i := IndexOf(r, dev, parent, key);
    if Named(l, dev, parent, key) {
      var k := if IndexOf(ls, l.dev, l.parent, l.key) < |ls| then IndexOf(ls, l.dev, l.parent, l.key) else next;
      assert r[k] == l;
      UniqueIs(r, i, k, dev, parent, key);
    } else if i < |r| {
      assert r[i] == ls[i];
      UniqueIs(ls, i, IndexOf(ls, dev, parent, key), dev, parent, key);
    }
  }

  function View(e: Entry): Link
    requires e.valid ==> IsName(e.name, DIRSIZ)
  {
    if e.valid then Link(e.dev, e.parent, Canon(e.name, DIRSIZ), e.inum) else Free
  }

  ghost predicate EntriesOk(es: seq<Entry>) {
    forall i :: 0 <= i < |es| && es[i].valid ==> IsName(es[i].name, DIRSIZ)
  }

  ghost function Views(es: seq<Entry>): (r: seq<Link>)
    requires EntriesOk(es)
    ensures |r| == |es| && forall i :: 0 <= i < |r| ==> r[i] == View(es[i])
  {
    seq(|es|, i requires 0 <= i < |es| => View(es[i]))
  }

  lemma ViewsUpdate(es: seq<Entry>, i: nat, e: Entry)
    requires EntriesOk(es) && i < |es| && (e.valid ==> IsName(e.name, DIRSIZ))
    ensures EntriesOk(es[i := e]) && Views(es[i := e]) == Views(es)[i := View(e)]
  {
  }

  lemma IndexIs(ls: seq<Link>, i: nat, dev: int, parent: int, key: seq<int>)
    requires i <= |ls| && (i < |ls| ==> Named(ls[i], dev, parent, key))
    requires forall k :: 0 <= k < i ==> !Named(ls[k], dev, parent, key)
    ensures IndexOf(ls, dev, parent, key) == i
  {
  }

  /** A 32-bit counter, one up if the event has happened. */
  predicate Counts(now: nat, before: nat, event: bool) {
    now == if event then (before + 1) % 0x1_0000_0000 else before
  }

  class Cache {
    const entries: array<Entry>
    var nextSlot: nat
    var totalLookups: nat
    var cacheHits: nat
    var cacheMisses: nat

    ghost predicate Valid()
      reads this, entries
    {
      entries.Length == NAMECACHE_SIZE && nextSlot < NAMECACHE_SIZE && EntriesOk(entries[..])
    }

    ghost function Links(): (r: seq<Link>)
      reads this, entries
      requires Valid()
      ensures |r| == NAMECACHE_SIZE
    {
      Views(entries[..])
    }

    /** namecache_init. */
    constructor ()
      ensures Valid() && fresh(entries) && Unique(Links())
      ensures forall i :: 0 <= i < NAMECACHE_SIZE ==> Links()[i] == Free
    {
      entries := new Entry[NAMECACHE_SIZE](i => Entry(false, 0, 0, [], 0, 0));
      nextSlot, totalLookups, cacheHits, cacheMisses := 0, 0, 0, 0;
    }

    /** The loop that lookup and add share: the first entry for a name. */
    method Search(dev: int, parent: int, name: seq<int>) returns (i: nat)
      requires Valid() && IsName(name, DIRSIZ)
      ensures i == IndexOf(Links(), dev, parent, Canon(name, DIRSIZ))
    {
      hide Canon, IsName;
      i := 0;
      while i < NAMECACHE_SIZE
        invariant 0 <= i <= NAMECACHE_SIZE
        invariant forall k :: 0 <= k < i ==> !Named(Links()[k], dev, parent, Canon(name, DIRSIZ))
      {
        var e := entries[i];
        if e.valid && e.dev == dev && e.parent == parent {
          var c := Strncmp(e.name, name, DIRSIZ);
          if c == 0 {
            break;
          }
        }
        i := i + 1;
      }
      IndexIs(Links(), i, dev, parent, Canon(name, DIRSIZ));
    }

    /** namecache_lookup. */
    method Lookup(dev: int, parent: int, name: seq<int>) returns (r: int)
      requires Valid() && IsName(name, DIRSIZ)
      modifies entries, this`totalLookups, this`cacheHits, this`cacheMisses
      ensures Valid() && Links() == old(Links())
      ensures r == Find(Links(), dev, parent, Canon(name, DIRSIZ))
      ensures Counts(totalLookups, old(totalLookups), true)
      ensures
        var hit := IndexOf(Links(), dev, parent, Canon(name, DIRSIZ)) < NAMECACHE_SIZE;
        Counts(cacheHits, old(cacheHits), hit) && Counts(cacheMisses, old(cacheMisses), !hit)
      ensures forall k :: 0 <= k < NAMECACHE_SIZE ==>
                Counts(entries[k].hits, old(entries[k].hits), k == IndexOf(Links(), dev, parent, Canon(name, DIRSIZ)))
    {
      hide Canon, IsName, EntriesOk, Views, IndexOf;
      totalLookups := (totalLookups + 1) % 0x1_0000_0000;
      var i := Search(dev, parent, name);
      if i < NAMECACHE_SIZE {
        ghost var es := entries[..];
        var e := entries[i];
        ViewsAt(es, i);
        ViewsUpdate(es, i, e.(hits := (e.hits + 1) % 0x1_0000_0000));
        entries[i] := e.(hits := (e.hits + 1) % 0x1_0000_0000);
        assert entries[..] == es[i := entries[i]];
        cacheHits := (cacheHits + 1) % 0x1_0000_0000;
        return e.inum;
      }
      cacheMisses := (cacheMisses + 1) % 0x1_0000_0000;
      return 0;
    }

    /** namecache_add. */
    method Add(dev: int, parent: int, name: seq<int>, inum: int)
      requires Valid() && IsName(name, DIRSIZ)
      modifies entries, this`nextSlot
      ensures Valid()
      ensures Links() == Put(old(Links()), old(nextSlot), Link(dev, parent, Canon(name, DIRSIZ), inum))
      ensures nextSlot == NextSlot(old(Links()), old(nextSlot), Link(dev, parent, Canon(name, DIRSIZ), inum))
    {
      hide Canon, IsName, EntriesOk, Views, IndexOf;
      ghost var es := entries[..];
      var i := Search(dev, parent, name);
      if i < NAMECACHE_SIZE {
        ViewsAt(es, i);
        ViewsUpdate(es, i, entries[i].(inum := inum));
        entries[i] := entries[i].(inum := inum);
        assert entries[..] == es[i := entries[i]];
      } else {
        var copy := Strncpy(name, DIRSIZ);
        ViewsUpdate(es, nextSlot, Entry(true, dev, parent, copy, inum, 0));
        entries[nextSlot] := Entry(true, dev, parent, copy, inum, 0);
        assert entries[..] == es[nextSlot := entries[nextSlot]];
        nextSlot := (nextSlot + 1) % NAMECACHE_SIZE;
      }
    }

    /** namecache_invalidate. */
    method Invalidate(dev: int, inum: int)
      requires Valid()
      modifies entries
      ensures Valid() && Links() == Drop(old(Links()), dev, inum)
      ensures forall i :: 0 <= i < NAMECACHE_SIZE ==>
                var l := old(Links())[i];
                Links()[i] == if l.Link? && l.dev == dev && (l.inum == inum || l.parent == inum) then Free else l
    {
      hide Canon, IsName;
      ghost var ls := Links();
      var i := 0;
      while i < NAMECACHE_SIZE
        invariant 0 <= i <= NAMECACHE_SIZE && Valid()
        invariant forall k :: 0 <= k < i ==> Links()[k] == Drop(ls, dev, inum)[k]
        invariant forall k :: i <= k < NAMECACHE_SIZE ==> Links()[k] == ls[k]
      {
        var e := entries[i];
        if e.valid && e.dev == dev && (e.inum == inum || e.parent == inum) {
          entries[i] := e.(valid := false);
        }
        i := i + 1;
      }
    }

    /** namecache_clear. */
    method Clear()
      requires Valid()
      modifies entries, this`nextSlot
      ensures Valid() && nextSlot == 0 && forall i :: 0 <= i < NAMECACHE_SIZE ==> Links()[i] == Free
    {
      hide Canon, IsName;
      var i := 0;
      while i < NAMECACHE_SIZE
        invariant 0 <= i <= NAMECACHE_SIZE && Valid()
        invariant forall k :: 0 <= k < i ==> !entries[k].valid
      {
        entries[i] := entries[i].(valid := false);
        i := i + 1;
      }
      nextSlot := 0;
    }
  }

  lemma ViewsAt(es: seq<Entry>, i: nat)
    requires EntriesOk(es) && i < |es|
    ensures (es[i].valid ==> IsName(es[i].name, DIRSIZ)) && Views(es)[i] == View(es[i])
  {
  }
}
