/** The user-level allocator of umalloc.c: an address-ordered circular free list of blocks,
    coalesced on every free.  Addresses and sizes are counted in units of one Header. */
module Umalloc {
  import opened Sets
  import opened Wrappers

  // ---------- the free list as a ring ----------

  /** Following ptr from any element of s goes through s in order and then back to its start. */
  ghost predicate Ring(ptr: map<int, int>, s: seq<int>) {
    && |s| > 0
    && (forall i :: 0 <= i < |s| ==> s[i] in ptr)
    && (forall i :: 0 <= i < |s| - 1 ==> ptr[s[i]] == s[i + 1])
    && ptr[s[|s| - 1]] == s[0]
  }

  /** In address order, with a gap after every block: no two free blocks abut. */
  ghost predicate Spaced(size: map<int, int>, s: seq<int>) {
    && (forall i :: 0 <= i < |s| ==> s[i] in size && size[s[i]] >= 0)
    && (forall i, j :: 0 <= i < j < |s| ==> s[i] + size[s[i]] < s[j])
  }

  /** The blocks headed by `heads` partition the units in `owner`. */
  ghost predicate Owned(size: map<int, int>, heads: set<int>, owner: map<int, int>) {
    && (forall h :: h in heads ==> h in size && size[h] >= 1)
    && (forall h, u :: h in heads && h <= u < h + size[h] ==> u in owner && owner[u] == h)
    && (forall u :: u in owner ==> owner[u] in heads && owner[u] <= u < owner[u] + size[owner[u]])
  }

  ghost function Inserted(s: seq<int>, i: nat, x: int): seq<int>
    requires i < |s|
  {
    s[..i + 1] + [x] + s[i + 1..]
  }

  ghost function Removed(s: seq<int>, i: nat): seq<int>
    requires i < |s|
  {
    s[..i] + s[i + 1..]
  }

  lemma InsertedElements(s: seq<int>, i: nat, x: int)
    requires i < |s|
    ensures forall y :: y in Inserted(s, i, x) <==> y == x || y in s
    ensures |Inserted(s, i, x)| == |s| + 1 && Inserted(s, i, x)[i + 1] == x
    ensures i + 1 < |s| ==> Inserted(s, i, x)[i + 2] == s[i + 1]
    ensures Inserted(s, i, x)[0] == s[0] && Inserted(s, i, x)[i] == s[i]
  {
    assert s == s[..i + 1] + s[i + 1..];
  }

  lemma RemovedElements(s: seq<int>, i: nat)
    requires i < |s|
    requires forall a, b :: 0 <= a < b < |s| ==> s[a] < s[b]
    ensures forall y :: y in Removed(s, i) <==> y in s && y != s[i]
    ensures |Removed(s, i)| == |s| - 1
    ensures forall a :: 0 <= a < i ==> Removed(s, i)[a] == s[a]
  {
    assert s == s[..i] + [s[i]] + s[i + 1..];
  }

  lemma RingInsert(ptr: map<int, int>, s: seq<int>, i: nat, x: int)
    requires Ring(ptr, s) && i < |s| && x !in s
    requires forall a, b :: 0 <= a < b < |s| ==> s[a] != s[b]
    ensures Ring(ptr[x := ptr[s[i]]][s[i] := x], Inserted(s, i, x))
  {
  }

  lemma RingRemove(ptr: map<int, int>, s: seq<int>, i: nat)
    requires Ring(ptr, s) && 0 < i < |s|
    requires forall a, b :: 0 <= a < b < |s| ==> s[a] != s[b]
    ensures Ring(ptr[s[i - 1] := ptr[s[i]]], Removed(s, i))
  {
  }

  /** The ring seen from its k-th element. */
  ghost function Turned(s: seq<int>, k: nat): seq<int>
    requires k < |s|
  {
    s[k..] + s[..k]
  }

  lemma RingTurned(ptr: map<int, int>, s: seq<int>, k: nat)
    requires Ring(ptr, s) && k < |s|
    ensures Ring(ptr, Turned(s, k)) && |Turned(s, k)| == |s|
    ensures Turned(s, k)[0] == s[k]
    ensures forall x :: x in Turned(s, k) <==> x in s
  {
    var t := Turned(s, k);
    forall x ensures x in t <==> x in s {
      assert s == s[..k] + s[k..];
    }
  }

  /** Two adjacent blocks become one. */
  ghost function Merge(owner: map<int, int>, a: int, b: int): map<int, int> {
    map u | u in owner :: if owner[u] == b then a else owner[u]
  }

  lemma MergeKeys(owner: map<int, int>, a: int, b: int)
    ensures Merge(owner, a, b).Keys == owner.Keys
  {
  }

  /** One unit of a block, and back. */
  lemma OwnsUnit(size: map<int, int>, heads: set<int>, owner: map<int, int>, h: int, u: int)
    requires Owned(size, heads, owner) && h in heads
    ensures h in size && size[h] >= 1 && (h <= u < h + size[h] ==> u in owner && owner[u] == h)
  {
  }

  lemma UnitOwned(size: map<int, int>, heads: set<int>, owner: map<int, int>, u: int)
    requires Owned(size, heads, owner) && u in owner
    ensures owner[u] in heads && owner[u] in size && owner[u] <= u < owner[u] + size[owner[u]]
  {
  }

  lemma OwnedMerge(size: map<int, int>, heads: set<int>, owner: map<int, int>, a: int, b: int)
    requires Owned(size, heads, owner)
    requires a in heads && b in heads && a + size[a] == b
    ensures Owned(size[a := size[a] + size[b]], heads - {b}, Merge(owner, a, b))
    ensures Merge(owner, a, b).Keys == owner.Keys
  {
    hide Owned, Merge;
    MergeKeys(owner, a, b);
    OwnsUnit(size, heads, owner, a, a);
    OwnsUnit(size, heads, owner, b, b);
    var size', heads', owner' := size[a := size[a] + size[b]], heads - {b}, Merge(owner, a, b);
    forall h | h in heads' ensures h in size' && size'[h] >= 1 {
      OwnsUnit(size, heads, owner, h, h);
    }
    forall h, u | h in heads' && h <= u < h + size'[h] ensures u in owner' && owner'[u] == h {
      MergeForward(size, heads, owner, a, b, h, u);
    }
    forall u | u in owner' ensures owner'[u] in heads' && owner'[u] <= u < owner'[u] + size'[owner'[u]] {
      MergeBack(size, heads, owner, a, b, u);
    }
    OwnedIs(size', heads', owner');
  }

  lemma MergeForward(size: map<int, int>, heads: set<int>, owner: map<int, int>, a: int, b: int, h: int, u: int)
    requires Owned(size, heads, owner) && a in heads && b in heads && a + size[a] == b
    requires h in heads && h != b && h <= u < h + if h == a then size[a] + size[b] else size[h]
    ensures u in Merge(owner, a, b) && Merge(owner, a, b)[u] == h
  {
    hide Owned;
    OwnsUnit(size, heads, owner, h, u);
    OwnsUnit(size, heads, owner, b, u);
  }

  lemma MergeBack(size: map<int, int>, heads: set<int>, owner: map<int, int>, a: int, b: int, u: int)
    requires Owned(size, heads, owner) && a in heads && b in heads && a + size[a] == b && u in Merge(owner, a, b)
    ensures
      var g := Merge(owner, a, b)[u];
      g in heads && g != b && g in size && g <= u < g + if g == a then size[a] + size[b] else size[g]
  {
    hide Owned;
    UnitOwned(size, heads, owner, u);
    OwnsUnit(size, heads, owner, a, a);
    OwnsUnit(size, heads, owner, b, b);
  }

  lemma OwnedIs(size: map<int, int>, heads: set<int>, owner: map<int, int>)
    requires forall h :: h in heads ==> h in size && size[h] >= 1
    requires forall h, u :: h in heads && h <= u < h + size[h] ==> u in owner && owner[u] == h
    requires forall u :: u in owner ==> owner[u] in heads && owner[u] <= u < owner[u] + size[owner[u]]
    ensures Owned(size, heads, owner)
  {
  }

  /** Blocks do not overlap. */
  lemma Apart(size: map<int, int>, heads: set<int>, owner: map<int, int>, a: int, b: int)
    requires Owned(size, heads, owner)
    requires a in heads && b in heads && a < b
    ensures a + size[a] <= b
  {
    assert b in owner && owner[b] == b;
  }

  // ---------- the heap ----------

  /** The headers of all blocks that hold memory: the free ones but `base`, and the live ones. */
  ghost function Heads(base: int, fl: seq<int>, live: map<int, int>): set<int> {
    (set x | x in fl && x != base) + live.Keys
  }

  /** The allocator's invariant.  `fl` is the free list in address order, `live` gives the
      blocks handed out, and `owner` the block each unit obtained from sbrk belongs to. */
  ghost predicate HeapOk(base: int, ptr: map<int, int>, size: map<int, int>,
                         fl: seq<int>, live: map<int, int>, owner: map<int, int>) {
    && |fl| > 0
    && Ring(ptr, fl)
    && Spaced(size, fl)
    && fl[0] == base && size[base] == 0
    && (forall x :: x in live ==> x !in fl && x > base && x in size && size[x] == live[x] >= 1)
    && Owned(size, Heads(base, fl, live), owner)
  }

  lemma Distinctly(size: map<int, int>, s: seq<int>)
    requires Spaced(size, s)
    ensures forall a, b :: 0 <= a < b < |s| ==> s[a] < s[b]
  {
  }

  /** Where a block at address bp goes: after the last free block below it. */
  ghost predicate Fits(fl: seq<int>, i: nat, bp: int) {
    i < |fl| && fl[i] < bp && (i + 1 < |fl| ==> bp < fl[i + 1])
  }

  ghost function Slot(size: map<int, int>, fl: seq<int>, bp: int): (i: nat)
    requires Spaced(size, fl) && |fl| > 0 && fl[0] < bp && bp !in fl
    ensures Fits(fl, i, bp)
  {
    if |fl| == 1 || bp < fl[1] then 0
    else
      var tail := fl[1..];
      assert forall a, b :: 0 <= a < b < |tail| ==> tail[a] == fl[a + 1] && tail[b] == fl[b + 1];
      1 + Slot(size, tail, bp)
  }

  /** Spaced, but the blocks at k and k + 1 may abut. */
  ghost predicate AlmostSpaced(size: map<int, int>, s: seq<int>, k: nat) {
    && (forall i :: 0 <= i < |s| ==> s[i] in size && size[s[i]] >= 0)
    && (forall i, j :: 0 <= i < j < |s| ==>
          s[i] < s[j] && if i == k && j == k + 1 then s[i] + size[s[i]] <= s[j] else s[i] + size[s[i]] < s[j])
  }

  /** The state of free() after its first if statement: bp is in the list behind p, joined to
      the block above it if they abut. */
  ghost predicate Halfway(base: int, ptr: map<int, int>, size: map<int, int>,
                          fl: seq<int>, live: map<int, int>, owner: map<int, int>, k: nat) {
    && k + 1 < |fl|
    && Ring(ptr, fl)
    && AlmostSpaced(size, fl, k)
    && fl[0] == base && size[base] == 0
    && (forall x :: x in live ==> x !in fl && x > base && x in size && size[x] == live[x] >= 1)
    && Owned(size, Heads(base, fl, live), owner)
  }

  ghost function InsertedPtr(ptr: map<int, int>, fl: seq<int>, i: nat, bp: int): map<int, int>
    requires Ring(ptr, fl) && i < |fl|
  {
    ptr[bp := ptr[fl[i]]][fl[i] := bp]
  }

  lemma InsertBlock(base: int, ptr: map<int, int>, size: map<int, int>, fl: seq<int>,
                    live: map<int, int>, owner: map<int, int>, i: nat, bp: int)
    requires HeapOk(base, ptr, size, fl, live, owner)
    requires bp in live && Fits(fl, i, bp)
    ensures Ring(InsertedPtr(ptr, fl, i, bp), Inserted(fl, i, bp))
    ensures Owned(size, Heads(base, Inserted(fl, i, bp), live - {bp}), owner)
    ensures bp + size[bp] <= (if i + 1 < |fl| then fl[i + 1] else bp + size[bp])
    ensures fl[i] + size[fl[i]] <= bp
  {
    Distinctly(size, fl);
    RingInsert(ptr, fl, i, bp);
    assert Heads(base, Inserted(fl, i, bp), live - {bp}) == Heads(base, fl, live);
    if i + 1 < |fl| {
      assert fl[i + 1] != base;
      Apart(size, Heads(base, fl, live), owner, bp, fl[i + 1]);
    }
    if i > 0 {
      assert fl[i] != base;
      Apart(size, Heads(base, fl, live), owner, fl[i], bp);
    }
  }

  lemma JoinNothingAbove(base: int, ptr: map<int, int>, size: map<int, int>, fl: seq<int>,
                         live: map<int, int>, owner: map<int, int>, i: nat, bp: int)
    requires HeapOk(base, ptr, size, fl, live, owner)
    requires bp in live && Fits(fl, i, bp)
    requires bp + size[bp] != ptr[fl[i]]
    ensures Halfway(base, InsertedPtr(ptr, fl, i, bp), size, Inserted(fl, i, bp), live - {bp}, owner, i)
  {
    hide Ring, Owned, Inserted, AlmostSpaced;
    InsertBlock(base, ptr, size, fl, live, owner, i, bp);
    InsertedElements(fl, i, bp);
    if i + 1 < |fl| {
      RingNext(ptr, fl, i);
    }
    InsertSpacing(size, fl, i, bp);
  }

  lemma RingNext(ptr: map<int, int>, s: seq<int>, i: nat)
    requires Ring(ptr, s) && i < |s|
    ensures s[i] in ptr && ptr[s[i]] == if i + 1 < |s| then s[i + 1] else s[0]
  {
  }

  lemma InsertSpacing(size: map<int, int>, fl: seq<int>, i: nat, bp: int)
    requires Spaced(size, fl) && Fits(fl, i, bp) && bp in size && size[bp] >= 0
    requires fl[i] + size[fl[i]] <= bp
    requires i + 1 < |fl| ==> bp + size[bp] < fl[i + 1]
    ensures AlmostSpaced(size, Inserted(fl, i, bp), i)
  {
  }

  lemma JoinAbove(base: int, ptr: map<int, int>, size: map<int, int>, fl: seq<int>,
                  live: map<int, int>, owner: map<int, int>, i: nat, bp: int)
    requires HeapOk(base, ptr, size, fl, live, owner)
    requires bp in live && Fits(fl, i, bp)
    requires bp + size[bp] == ptr[fl[i]]
    ensures i + 1 < |fl|
    ensures var q := fl[i + 1];
      Halfway(base, ptr[bp := ptr[q]][fl[i] := bp], size[bp := size[bp] + size[q]],
              Removed(Inserted(fl, i, bp), i + 2), live - {bp}, Merge(owner, bp, q), i)
  {
    hide Ring, Owned, AlmostSpaced, Merge, Inserted, Removed;
    RingNext(ptr, fl, i);
    Distinctly(size, fl);
    assert i + 1 < |fl|;
    InsertBlock(base, ptr, size, fl, live, owner, i, bp);
    JoinAboveRing(ptr, size, fl, i, bp);
    JoinAboveOwned(base, size, fl, live, owner, i, bp);
    JoinSpacing(size, fl, i, bp);
    InsertedElements(fl, i, bp);
    InsertedSorted(size, fl, i, bp);
    RemovedElements(Inserted(fl, i, bp), i + 2);
  }

  lemma InsertedSorted(size: map<int, int>, fl: seq<int>, i: nat, bp: int)
    requires Spaced(size, fl) && Fits(fl, i, bp)
    ensures var s := Inserted(fl, i, bp); forall a, b :: 0 <= a < b < |s| ==> s[a] < s[b]
  {
  }

  lemma JoinAboveRing(ptr: map<int, int>, size: map<int, int>, fl: seq<int>, i: nat, bp: int)
    requires Ring(ptr, fl) && Spaced(size, fl) && Fits(fl, i, bp) && i + 1 < |fl|
    requires Ring(InsertedPtr(ptr, fl, i, bp), Inserted(fl, i, bp))
    ensures Ring(ptr[bp := ptr[fl[i + 1]]][fl[i] := bp], Removed(Inserted(fl, i, bp), i + 2))
  {
    hide Ring, Inserted, Removed;
    var s1, ptr1 := Inserted(fl, i, bp), InsertedPtr(ptr, fl, i, bp);
    InsertedElements(fl, i, bp);
    InsertedSorted(size, fl, i, bp);
    RingNext(ptr, fl, i + 1);
    Distinctly(size, fl);
    RingRemove(ptr1, s1, i + 2);
    assert ptr1[bp := ptr1[fl[i + 1]]] == ptr[bp := ptr[fl[i + 1]]][fl[i] := bp];
  }

  lemma JoinAboveOwned(base: int, size: map<int, int>, fl: seq<int>,
                       live: map<int, int>, owner: map<int, int>, i: nat, bp: int)
    requires Spaced(size, fl) && Fits(fl, i, bp) && i + 1 < |fl| && fl[0] == base
    requires bp in size && bp + size[bp] == fl[i + 1]
    requires forall x :: x in live ==> x !in fl
    requires Owned(size, Heads(base, Inserted(fl, i, bp), live - {bp}), owner)
    ensures var q := fl[i + 1];
      Owned(size[bp := size[bp] + size[q]],
            Heads(base, Removed(Inserted(fl, i, bp), i + 2), live - {bp}), Merge(owner, bp, q))
  {
    hide Owned, Merge, Inserted, Removed;
    var q, s1 := fl[i + 1], Inserted(fl, i, bp);
    InsertedElements(fl, i, bp);
    InsertedSorted(size, fl, i, bp);
    RemovedElements(s1, i + 2);
    Distinctly(size, fl);
    assert fl[0] < q && bp != base;
    OwnedMerge(size, Heads(base, s1, live - {bp}), owner, bp, q);
    HeadsWithout(base, s1, Removed(s1, i + 2), live - {bp}, q);
  }

  lemma JoinSpacing(size: map<int, int>, fl: seq<int>, i: nat, bp: int)
    requires Spaced(size, fl) && Fits(fl, i, bp) && bp in size && size[bp] >= 0 && i + 1 < |fl|
    requires fl[i] + size[fl[i]] <= bp
    requires bp + size[bp] == fl[i + 1]
    ensures AlmostSpaced(size[bp := size[bp] + size[fl[i + 1]]], Removed(Inserted(fl, i, bp), i + 2), i)
  {
    var s := fl[..i + 1] + [bp] + fl[i + 2..];
    assert Removed(Inserted(fl, i, bp), i + 2) == s;
    assert forall a :: 0 <= a < |fl| ==> fl[a] != bp;
    var size' := size[bp := size[bp] + size[fl[i + 1]]];
    assert forall a :: 0 <= a < |s| && a != i + 1 ==> size'[s[a]] == size[s[a]];
  }

  lemma JoinNothingBelow(base: int, ptr: map<int, int>, size: map<int, int>, fl: seq<int>,
                         live: map<int, int>, owner: map<int, int>, k: nat)
    requires Halfway(base, ptr, size, fl, live, owner, k)
    requires fl[k] + size[fl[k]] != fl[k + 1]
    ensures HeapOk(base, ptr, size, fl, live, owner)
  {
    hide Ring, Owned;
  }

  lemma JoinBelow(base: int, ptr: map<int, int>, size: map<int, int>, fl: seq<int>,
                  live: map<int, int>, owner: map<int, int>, k: nat)
    requires Halfway(base, ptr, size, fl, live, owner, k)
    requires fl[k] + size[fl[k]] == fl[k + 1]
    ensures var p, bp := fl[k], fl[k + 1];
      HeapOk(base, ptr[p := ptr[bp]], size[p := size[p] + size[bp]],
             Removed(fl, k + 1), live, Merge(owner, p, bp))
  {
    hide Ring, Owned, Merge, Spaced, Removed, AlmostSpaced, Heads;
    var p, bp, s1 := fl[k], fl[k + 1], Removed(fl, k + 1);
    AlmostSorted(base, size, fl, live, k);
    RingRemove(ptr, fl, k + 1);
    OwnedMerge(size, Heads(base, fl, live), owner, p, bp);
    RemovedElements(fl, k + 1);
    HeadsWithout(base, fl, s1, live, bp);
    BelowSpacing(size, fl, k);
  }

  lemma AlmostSorted(base: int, size: map<int, int>, fl: seq<int>, live: map<int, int>, k: nat)
    requires AlmostSpaced(size, fl, k) && k + 1 < |fl| && fl[0] == base && size[base] == 0
    requires fl[k] + size[fl[k]] == fl[k + 1]
    ensures fl[k] != base && fl[k + 1] != base && fl[k] in size && fl[k + 1] in size && size[fl[k + 1]] >= 0
    ensures fl[k] in Heads(base, fl, live) && fl[k + 1] in Heads(base, fl, live)
    ensures forall a, b :: 0 <= a < b < |fl| ==> fl[a] < fl[b]
  {
  }

  lemma HeadsWithout(base: int, fl: seq<int>, fl': seq<int>, live: map<int, int>, x: int)
    requires x !in live && forall y :: y in fl' <==> y in fl && y != x
    ensures Heads(base, fl', live) == Heads(base, fl, live) - {x}
  {
    Same(Heads(base, fl', live), Heads(base, fl, live) - {x});
  }

  lemma BelowSpacing(size: map<int, int>, fl: seq<int>, k: nat)
    requires AlmostSpaced(size, fl, k) && k + 1 < |fl|
    requires fl[k] + size[fl[k]] == fl[k + 1]
    ensures Spaced(size[fl[k] := size[fl[k]] + size[fl[k + 1]]], Removed(fl, k + 1))
  {
  }

  /** malloc's exact fit: the block leaves the list whole. */
  lemma TakeWhole(base: int, ptr: map<int, int>, size: map<int, int>, fl: seq<int>,
                  live: map<int, int>, owner: map<int, int>, i: nat)
    requires HeapOk(base, ptr, size, fl, live, owner)
    requires 0 < i < |fl|
    ensures HeapOk(base, ptr[fl[i - 1] := ptr[fl[i]]], size, Removed(fl, i), live[fl[i] := size[fl[i]]], owner)
    ensures base < fl[i] && fl[i] !in live
  {
    hide Ring, Owned, Removed;
    Distinctly(size, fl);
    var p := fl[i];
    RingRemove(ptr, fl, i);
    RemovedElements(fl, i);
    RemovedSpacing(size, fl, i);
    assert Heads(base, Removed(fl, i), live[p := size[p]]) == Heads(base, fl, live);
    assert p in Heads(base, fl, live);
    HeadSize(size, Heads(base, fl, live), owner, p);
  }

  lemma RemovedSpacing(size: map<int, int>, fl: seq<int>, i: nat)
    requires Spaced(size, fl) && i < |fl|
    ensures Spaced(size, Removed(fl, i))
  {
  }

  lemma HeadSize(size: map<int, int>, heads: set<int>, owner: map<int, int>, h: int)
    requires Owned(size, heads, owner) && h in heads
    ensures h in size && size[h] >= 1
  {
  }

  /** The units of a block's tail go to a new block. */
  ghost function Carve(owner: map<int, int>, h: int, n: int): map<int, int> {
    map u | u in owner :: if h <= u < h + n then h else owner[u]
  }

  ghost predicate Carves(owner: map<int, int>, h: int, n: int, owner': map<int, int>) {
    && (forall u :: u in owner' <==> u in owner)
    && (forall u :: u in owner' ==> owner'[u] == if h <= u < h + n then h else owner[u])
  }

  lemma CarveCarves(owner: map<int, int>, h: int, n: int)
    ensures Carves(owner, h, n, Carve(owner, h, n))
  {
  }

  lemma TailIsNoHead(size: map<int, int>, heads: set<int>, owner: map<int, int>, p: int, n: int)
    requires Owned(size, heads, owner)
    requires p in heads && 1 <= n < size[p]
    ensures p + size[p] - n !in heads
  {
    assert owner[p + size[p] - n] == p;
  }

  lemma OwnedCarve(size: map<int, int>, heads: set<int>, owner: map<int, int>, p: int, n: int, owner': map<int, int>)
    requires Owned(size, heads, owner)
    requires p in heads && 1 <= n < size[p]
    requires p + size[p] - n !in heads
    requires Carves(owner, p + size[p] - n, n, owner')
    ensures Owned(size[p := size[p] - n][p + size[p] - n := n], heads + {p + size[p] - n}, owner')
  {
    hide Owned, Carves;
    HeadSizes(size, heads, owner);
    var h := p + size[p] - n;
    var size', heads' := size[p := size[p] - n][h := n], heads + {h};
    forall g, u | g in heads' && g <= u < g + size'[g] ensures u in owner' && owner'[u] == g {
      CarveForward(size, heads, owner, p, n, owner', g, u);
    }
    forall u | u in owner' ensures owner'[u] in heads' && owner'[u] <= u < owner'[u] + size'[owner'[u]] {
      CarveBack(size, heads, owner, p, n, owner', u);
    }
    OwnedIs(size', heads', owner');
  }

  lemma HeadSizes(size: map<int, int>, heads: set<int>, owner: map<int, int>)
    requires Owned(size, heads, owner)
    ensures forall h :: h in heads ==> h in size && size[h] >= 1
  {
  }

  lemma CarveForward(size: map<int, int>, heads: set<int>, owner: map<int, int>, p: int, n: int, owner': map<int, int>,
                     g: int, u: int)
    requires Owned(size, heads, owner) && p in heads && 1 <= n < size[p] && p + size[p] - n !in heads
    requires Carves(owner, p + size[p] - n, n, owner')
    requires g in heads || g == p + size[p] - n
    requires g <= u < if g == p then p + size[p] - n else if g == p + size[p] - n then p + size[p] else g + size[g]
    ensures u in owner' && owner'[u] == g
  {
    assert u in owner && owner[u] == if g == p + size[p] - n then p else g;
  }

  lemma CarveBack(size: map<int, int>, heads: set<int>, owner: map<int, int>, p: int, n: int, owner': map<int, int>,
                  u: int)
    requires Owned(size, heads, owner) && p in heads && 1 <= n < size[p] && p + size[p] - n !in heads
    requires Carves(owner, p + size[p] - n, n, owner') && u in owner'
    ensures
      var g := owner'[u];
      && (g in heads || g == p + size[p] - n)
      && g <= u < if g == p then p + size[p] - n else if g == p + size[p] - n then p + size[p] else g + size[g]
  {
    assert p <= u < p + size[p] ==> owner[u] == p;
  }

  /** malloc's other case: the tail of the block is handed out. */
  lemma TakeTail(base: int, ptr: map<int, int>, size: map<int, int>, fl: seq<int>,
                 live: map<int, int>, owner: map<int, int>, i: nat, n: int)
    requires HeapOk(base, ptr, size, fl, live, owner)
    requires 0 < i < |fl| && 1 <= n < size[fl[i]]
    ensures var p := fl[i];
      var h := p + size[p] - n;
      && h !in live && base < h
      && HeapOk(base, ptr, size[p := size[p] - n][h := n], fl, live[h := n], Carve(owner, h, n))
  {
    hide Ring, Owned, Carve, Carves, Spaced;
    TailFacts(size, fl, i);
    var p := fl[i];
    var h := p + size[p] - n;
    assert p in Heads(base, fl, live);
    TailIsNoHead(size, Heads(base, fl, live), owner, p, n);
    CarveCarves(owner, h, n);
    OwnedCarve(size, Heads(base, fl, live), owner, p, n, Carve(owner, h, n));
    assert Heads(base, fl, live[h := n]) == Heads(base, fl, live) + {h};
    TailSpacing(size, fl, i, n);
  }

  lemma TailFacts(size: map<int, int>, fl: seq<int>, i: nat)
    requires Spaced(size, fl) && 0 < i < |fl|
    ensures fl[0] < fl[i] && fl[i] in size
  {
  }

  lemma TailSpacing(size: map<int, int>, fl: seq<int>, i: nat, n: int)
    requires Spaced(size, fl) && i < |fl| && 1 <= n < size[fl[i]]
    requires fl[i] + size[fl[i]] - n !in fl
    ensures Spaced(size[fl[i] := size[fl[i]] - n][fl[i] + size[fl[i]] - n := n], fl)
  {
    Distinctly(size, fl);
  }

  /** The n units from address h on. */
  ghost function Units(h: int, n: int): (r: set<int>)
    ensures forall u :: u in r <==> h <= u < h + n
    ensures |r| == if n > 0 then n else 0
    decreases n
  {
    if n <= 0 then {} else Units(h, n - 1) + {h + n - 1}
  }

  ghost function Granted(owner: map<int, int>, hp: int, nu: int): map<int, int> {
    map u | u in owner.Keys + Units(hp, nu) :: if hp <= u < hp + nu then hp else owner[u]
  }

  /** owner' holds the units of owner and n fresh ones from hp on. */
  ghost predicate Supplied(owner: map<int, int>, hp: int, n: int, owner': map<int, int>) {
    owner'.Keys == owner.Keys + Units(hp, n)
  }

  /** Memory from sbrk, above everything seen so far, becomes a block. */
  lemma Grow(base: int, ptr: map<int, int>, size: map<int, int>, fl: seq<int>,
             live: map<int, int>, owner: map<int, int>, hp: int, nu: int)
    requires HeapOk(base, ptr, size, fl, live, owner)
    requires base < hp && 1 <= nu && Below(owner, hp)
    ensures hp !in live && hp !in fl
    ensures HeapOk(base, ptr, size[hp := nu], fl, live[hp := nu], Granted(owner, hp, nu))
  {
    hide Ring, Owned, Units, Granted, Grants, Spaced, Heads;
    BaseInSize(size, fl);
    NewIsNoHead(size, Heads(base, fl, live), owner, hp);
    HeadsGrow(base, fl, live, hp, nu);
    SpacedElsewhere(size, fl, hp, nu);
    GrantedGrants(owner, hp, nu);
    OwnedGrow(size, Heads(base, fl, live), owner, hp, nu, Granted(owner, hp, nu));
  }

  lemma HeadsGrow(base: int, fl: seq<int>, live: map<int, int>, hp: int, nu: int)
    requires hp != base && hp !in Heads(base, fl, live)
    ensures hp !in fl && hp !in live
    ensures Heads(base, fl, live[hp := nu]) == Heads(base, fl, live) + {hp}
  {
  }

  lemma BaseInSize(size: map<int, int>, fl: seq<int>)
    requires Spaced(size, fl) && |fl| > 0
    ensures fl[0] in size
  {
  }

  lemma SpacedElsewhere(size: map<int, int>, fl: seq<int>, hp: int, nu: int)
    requires Spaced(size, fl) && hp !in fl
    ensures Spaced(size[hp := nu], fl)
  {
  }

  lemma NewIsNoHead(size: map<int, int>, heads: set<int>, owner: map<int, int>, hp: int)
    requires Owned(size, heads, owner)
    requires Below(owner, hp)
    ensures hp !in heads
  {
    assert hp in heads ==> hp in owner;
  }

  ghost predicate Grants(owner: map<int, int>, hp: int, nu: int, owner': map<int, int>) {
    && (forall u :: u in owner' <==> u in owner || hp <= u < hp + nu)
    && (forall u :: u in owner' ==> owner'[u] == if hp <= u < hp + nu then hp else owner[u])
  }

  lemma SuppliedAgain(owner: map<int, int>, hp: int, n: int, owner1: map<int, int>, owner2: map<int, int>)
    requires Supplied(owner, hp, n, owner1) && owner2.Keys == owner1.Keys
    ensures Supplied(owner, hp, n, owner2)
  {
  }

  lemma GrantedGrants(owner: map<int, int>, hp: int, nu: int)
    ensures Grants(owner, hp, nu, Granted(owner, hp, nu))
    ensures Supplied(owner, hp, nu, Granted(owner, hp, nu))
  {
    hide Units;
  }

  lemma OwnedGrow(size: map<int, int>, heads: set<int>, owner: map<int, int>, hp: int, nu: int, owner': map<int, int>)
    requires Owned(size, heads, owner)
    requires 1 <= nu && Below(owner, hp)
    requires hp !in heads
    requires Grants(owner, hp, nu, owner')
    ensures Owned(size[hp := nu], heads + {hp}, owner')
  {
    hide Owned, Grants, Below;
    HeadSizes(size, heads, owner);
    var size', heads' := size[hp := nu], heads + {hp};
    forall h, u | h in heads' && h <= u < h + size'[h] ensures u in owner' && owner'[u] == h {
      GrowForward(size, heads, owner, hp, nu, owner', h, u);
    }
    forall u | u in owner' ensures owner'[u] in heads' && owner'[u] <= u < owner'[u] + size'[owner'[u]] {
      GrowBack(size, heads, owner, hp, nu, owner', u);
    }
    OwnedIs(size', heads', owner');
  }

  lemma GrowForward(size: map<int, int>, heads: set<int>, owner: map<int, int>, hp: int, nu: int, owner': map<int, int>,
                    h: int, u: int)
    requires Owned(size, heads, owner) && 1 <= nu && Below(owner, hp) && hp !in heads && Grants(owner, hp, nu, owner')
    requires h in heads || h == hp
    requires h <= u < if h == hp then hp + nu else h + size[h]
    ensures u in owner' && owner'[u] == h
  {
    assert h != hp ==> u in owner && owner[u] == h;
  }

  lemma GrowBack(size: map<int, int>, heads: set<int>, owner: map<int, int>, hp: int, nu: int, owner': map<int, int>,
                 u: int)
    requires Owned(size, heads, owner) && 1 <= nu && Below(owner, hp) && hp !in heads && Grants(owner, hp, nu, owner')
    requires u in owner'
    ensures
      var h := owner'[u];
      (h in heads || h == hp) && h <= u < if h == hp then hp + nu else h + size[h]
  {
  }

  // ---------- what the invariant says ----------

  /** The units that are in no live block. */
  ghost predicate IsFree(live: map<int, int>, owner: map<int, int>, u: int) {
    u in owner && owner[u] !in live
  }

  /** The free list is determined by which units are free: its blocks are the maximal runs of
      free units.  Coalescing is complete. */
  lemma FreeBlocksAreMaximalRuns(base: int, ptr: map<int, int>, size: map<int, int>, fl: seq<int>,
                                 live: map<int, int>, owner: map<int, int>, i: nat)
    requires HeapOk(base, ptr, size, fl, live, owner) && 0 < i < |fl|
    ensures forall u :: fl[i] <= u < fl[i] + size[fl[i]] ==> IsFree(live, owner, u)
    ensures !IsFree(live, owner, fl[i] - 1) && !IsFree(live, owner, fl[i] + size[fl[i]])
  {
    hide Ring, Spaced;
    var h := fl[i];
    BeyondBlock(size, fl, i);
    SpacedHead(size, fl, i);
    assert h in Heads(base, fl, live);
    var end := h + size[h];
    if IsFree(live, owner, h - 1) {
      FreeUnitsAreListed(base, ptr, size, fl, live, owner, h - 1);
    }
    if IsFree(live, owner, end) {
      FreeUnitsAreListed(base, ptr, size, fl, live, owner, end);
    }
  }

  lemma SpacedHead(size: map<int, int>, fl: seq<int>, i: nat)
    requires Spaced(size, fl) && 0 < i < |fl|
    ensures fl[i] != fl[0]
  {
  }

  ghost predicate Listed(size: map<int, int>, fl: seq<int>, u: int) {
    exists j :: 0 < j < |fl| && fl[j] in size && fl[j] <= u < fl[j] + size[fl[j]]
  }

  lemma BeyondBlock(size: map<int, int>, fl: seq<int>, i: nat)
    requires Spaced(size, fl) && i < |fl|
    ensures !Listed(size, fl, fl[i] - 1) && !Listed(size, fl, fl[i] + size[fl[i]])
  {
  }

  /** Every free unit lies in a block of the list. */
  lemma FreeUnitsAreListed(base: int, ptr: map<int, int>, size: map<int, int>, fl: seq<int>,
                           live: map<int, int>, owner: map<int, int>, u: int)
    requires HeapOk(base, ptr, size, fl, live, owner) && IsFree(live, owner, u)
    ensures Listed(size, fl, u)
  {
    hide Ring;
    var h := owner[u];
    assert h in fl && h != base;
    var j :| 0 <= j < |fl| && fl[j] == h;
  }

  ghost function TotalSize(size: map<int, int>, heads: set<int>): int
    requires heads <= size.Keys
  {
    if heads == {} then 0
    else
      var h := Pick(heads);
      size[h] + TotalSize(size, heads - {h})
  }

  ghost predicate Drops(owner: map<int, int>, h: int, n: int, rest: map<int, int>) {
    && (forall u :: u in rest <==> u in owner && !(h <= u < h + n))
    && (forall u :: u in rest ==> rest[u] == owner[u])
  }

  lemma MinusDrops(owner: map<int, int>, h: int, n: int)
    ensures Drops(owner, h, n, owner - Units(h, n))
  {
    hide Units;
  }

  lemma DropBlock(size: map<int, int>, heads: set<int>, owner: map<int, int>, h: int, rest: map<int, int>)
    requires Owned(size, heads, owner) && h in heads
    requires Drops(owner, h, size[h], rest)
    ensures Owned(size, heads - {h}, rest)
  {
    hide Owned, Drops;
    var heads' := heads - {h};
    forall g | g in heads' ensures g in size && size[g] >= 1 {
      OwnsUnit(size, heads, owner, g, g);
    }
    forall g, u | g in heads' && g <= u < g + size[g] ensures u in rest && rest[u] == g {
      DropForward(size, heads, owner, h, rest, g, u);
    }
    forall u | u in rest ensures rest[u] in heads' && rest[u] <= u < rest[u] + size[rest[u]] {
      DropBack(size, heads, owner, h, rest, u);
    }
    OwnedIs(size, heads', rest);
  }

  lemma DropForward(size: map<int, int>, heads: set<int>, owner: map<int, int>, h: int, rest: map<int, int>, g: int,
                    u: int)
    requires Owned(size, heads, owner) && h in heads && Drops(owner, h, size[h], rest)
    requires g in heads && g != h && g <= u < g + size[g]
    ensures u in rest && rest[u] == g
  {
    hide Owned;
    OwnsUnit(size, heads, owner, g, u);
    OwnsUnit(size, heads, owner, h, u);
  }

  lemma DropBack(size: map<int, int>, heads: set<int>, owner: map<int, int>, h: int, rest: map<int, int>, u: int)
    requires Owned(size, heads, owner) && h in heads && Drops(owner, h, size[h], rest) && u in rest
    ensures rest[u] in heads && rest[u] != h && rest[u] in size && rest[u] <= u < rest[u] + size[rest[u]]
  {
    hide Owned;
    UnitOwned(size, heads, owner, u);
  }

  lemma BlockIsOwned(size: map<int, int>, heads: set<int>, owner: map<int, int>, h: int)
    requires Owned(size, heads, owner) && h in heads
    ensures Units(h, size[h]) <= owner.Keys
  {
    hide Units;
  }

  /** Conservation: the sizes of the free and the live blocks add up to what sbrk supplied. */
  lemma {:induction false} SizesAddUp(size: map<int, int>, heads: set<int>, owner: map<int, int>)
    requires Owned(size, heads, owner)
    requires heads <= size.Keys
    ensures TotalSize(size, heads) == |owner.Keys|
    decreases heads
  {
    hide Owned, Units, Drops;
    if heads == {} {
      if owner.Keys != {} {
        NoUnit(size, owner, Pick(owner.Keys));
      }
    } else {
      var h := Pick(heads);
      var units := Units(h, size[h]);
      HeadSize(size, heads, owner, h);
      BlockIsOwned(size, heads, owner, h);
      var rest := owner - units;
      MinusDrops(owner, h, size[h]);
      DropBlock(size, heads, owner, h, rest);
      SizesAddUp(size, heads - {h}, rest);
      assert owner.Keys == rest.Keys + units;
    }
  }

  lemma NoUnit(size: map<int, int>, owner: map<int, int>, u: int)
    requires Owned(size, {}, owner)
    ensures u !in owner.Keys
  {
  }

  // ---------- the search of free() ----------

  ghost function FindSlot(base: int, ptr: map<int, int>, size: map<int, int>, fl: seq<int>,
                          live: map<int, int>, owner: map<int, int>, bp: int): (i: nat)
    requires HeapOk(base, ptr, size, fl, live, owner) && bp in live
    ensures Fits(fl, i, bp)
  {
    Slot(size, fl, bp)
  }

  lemma NextOf(base: int, ptr: map<int, int>, size: map<int, int>, fl: seq<int>,
               live: map<int, int>, owner: map<int, int>, i: nat)
    requires HeapOk(base, ptr, size, fl, live, owner) && i < |fl|
    ensures fl[i] in ptr && fl[i] in size && size[fl[i]] >= 0
    ensures ptr[fl[i]] == if i + 1 < |fl| then fl[i + 1] else fl[0]
    ensures base == fl[0] <= fl[i]
  {
    Distinctly(size, fl);
  }

  lemma LiveSize(base: int, ptr: map<int, int>, size: map<int, int>, fl: seq<int>,
                 live: map<int, int>, owner: map<int, int>, x: int)
    requires HeapOk(base, ptr, size, fl, live, owner) && x in live
    ensures x in size && size[x] == live[x] >= 1 && x > base
  {
  }

  lemma HalfwayFacts(base: int, ptr: map<int, int>, size: map<int, int>, fl: seq<int>,
                     live: map<int, int>, owner: map<int, int>, k: nat)
    requires Halfway(base, ptr, size, fl, live, owner, k)
    ensures k + 1 < |fl| && fl[k] in size && fl[k + 1] in size && fl[k] < fl[k + 1]
    ensures fl[k + 1] in ptr
    ensures fl[k] + size[fl[k]] == fl[k + 1] ==> k > 0
    ensures base <= fl[k]
    ensures forall a, b :: 0 <= a < b < |fl| ==> fl[a] < fl[b]
  {
  }

  /** Where bp is after the first if statement of free(). */
  lemma JoinedAt(base: int, ptr: map<int, int>, size: map<int, int>, fl: seq<int>,
                 live: map<int, int>, owner: map<int, int>, i: nat, bp: int)
    requires HeapOk(base, ptr, size, fl, live, owner) && Fits(fl, i, bp)
    ensures |Inserted(fl, i, bp)| == |fl| + 1
    ensures Inserted(fl, i, bp)[i] == fl[i] && Inserted(fl, i, bp)[i + 1] == bp
    ensures i + 1 < |fl| ==>
              var s := Removed(Inserted(fl, i, bp), i + 2);
              |s| == |fl| && s[i] == fl[i] && s[i + 1] == bp
  {
  }

  /** As long as neither exit of the loop is taken, the place for bp lies ahead. */
  lemma SearchGoesOn(base: int, ptr: map<int, int>, size: map<int, int>, fl: seq<int>,
                     live: map<int, int>, owner: map<int, int>, i: nat, goal: nat, bp: int)
    requires HeapOk(base, ptr, size, fl, live, owner) && Fits(fl, goal, bp) && i < |fl|
    requires
      var next := if i + 1 < |fl| then fl[i + 1] else fl[0];
      !(bp > fl[i] && bp < next) && !(fl[i] >= next && (bp > fl[i] || bp < next))
    ensures i != goal
  {
    hide Ring, Owned, Heads;
  }

  /** Either exit is taken at the place for bp and nowhere else. */
  lemma SearchEnds(base: int, ptr: map<int, int>, size: map<int, int>, fl: seq<int>,
                   live: map<int, int>, owner: map<int, int>, i: nat, goal: nat, bp: int)
    requires HeapOk(base, ptr, size, fl, live, owner) && Fits(fl, goal, bp) && i < |fl|
    requires
      var next := if i + 1 < |fl| then fl[i + 1] else fl[0];
      (bp > fl[i] && bp < next) || (fl[i] >= next && (bp > fl[i] || bp < next))
    ensures i == goal && Fits(fl, i, bp)
  {
    hide Ring, Owned, Heads;
    Distinctly(size, fl);
  }

  // ---------- the search of malloc() ----------

  function Max(a: int, b: int): int {
    if a > b then a else b
  }

  /** No free block has n units. */
  ghost predicate NoneFits(size: map<int, int>, fl: seq<int>, n: int) {
    forall x :: x in fl ==> x in size && size[x] < n
  }

  /** malloc has gone c steps round the ring t, which starts at freep; the blocks it has passed
      are too small. */
  ghost predicate Scan(ptr: map<int, int>, size: map<int, int>, t: seq<int>, c: nat, n: int, prevp: int, p: int) {
    && Ring(ptr, t)
    && 1 <= c <= |t|
    && prevp == t[c - 1]
    && p == (if c < |t| then t[c] else t[0])
    && forall j :: 1 <= j < c ==> t[j] in size && size[t[j]] < n
  }

  lemma ScanStart(base: int, ptr: map<int, int>, size: map<int, int>, fl: seq<int>,
                  live: map<int, int>, owner: map<int, int>, k: nat, n: int)
    requires HeapOk(base, ptr, size, fl, live, owner) && k < |fl|
    ensures fl[k] in ptr
    ensures Scan(ptr, size, Turned(fl, k), 1, n, fl[k], ptr[fl[k]])
    ensures Turned(fl, k)[0] == fl[k]
    ensures forall x :: x in Turned(fl, k) <==> x in fl
    ensures forall a, b :: 0 <= a < b < |fl| ==> Turned(fl, k)[a] != Turned(fl, k)[b]
    ensures |Turned(fl, k)| == |fl|
  {
    hide Owned, Spaced;
    RingTurned(ptr, fl, k);
    Distinctly(size, fl);
  }

  lemma ScanNext(ptr: map<int, int>, size: map<int, int>, t: seq<int>, c: nat, n: int, prevp: int, p: int)
    requires Scan(ptr, size, t, c, n, prevp, p)
    requires p in size && size[p] < n && c < |t|
    ensures p in ptr && Scan(ptr, size, t, c + 1, n, p, ptr[p])
  {
  }

  lemma ScanLap(ptr: map<int, int>, size: map<int, int>, t: seq<int>, c: nat, n: int, prevp: int, p: int)
    requires Scan(ptr, size, t, c, n, prevp, p)
    requires forall a, b :: 0 <= a < b < |t| ==> t[a] != t[b]
    ensures p == t[0] <==> c == |t|
    ensures prevp in t && p in t && prevp in ptr && ptr[prevp] == p
  {
  }

  /** A full lap has seen every block. */
  lemma ScanDone(ptr: map<int, int>, size: map<int, int>, t: seq<int>, n: int, prevp: int, p: int)
    requires Scan(ptr, size, t, |t|, n, prevp, p)
    requires p in size && size[p] < n
    ensures NoneFits(size, t, n)
  {
    hide Ring;
    forall x | x in t ensures x in size && size[x] < n {
      var j :| 0 <= j < |t| && t[j] == x;
    }
  }

  lemma PredecessorIs(base: int, ptr: map<int, int>, size: map<int, int>, fl: seq<int>,
                      live: map<int, int>, owner: map<int, int>, prevp: int, i: nat)
    requires HeapOk(base, ptr, size, fl, live, owner)
    requires 0 < i < |fl| && prevp in fl && ptr[prevp] == fl[i]
    ensures prevp == fl[i - 1]
  {
    hide Owned;
    Distinctly(size, fl);
    var j :| 0 <= j < |fl| && fl[j] == prevp;
    RingNext(ptr, fl, j);
  }

  /** A block large enough for n units is not base. */
  lemma FoundIndex(base: int, ptr: map<int, int>, size: map<int, int>, fl: seq<int>,
                   live: map<int, int>, owner: map<int, int>, p: int, n: int) returns (i: nat)
    requires HeapOk(base, ptr, size, fl, live, owner) && p in fl && p in size && 1 <= n <= size[p]
    ensures 0 < i < |fl| && fl[i] == p
  {
    i :| i < |fl| && fl[i] == p;
  }

  lemma StillListed(base: int, ptr: map<int, int>, size: map<int, int>, fl: seq<int>,
                    live: map<int, int>, owner: map<int, int>, i: nat)
    requires HeapOk(base, ptr, size, fl, live, owner) && 0 < i < |fl|
    ensures fl[i - 1] in Removed(fl, i)
  {
    assert Removed(fl, i)[i - 1] == fl[i - 1];
  }

  lemma CarveKeys(owner: map<int, int>, h: int, n: int)
    ensures Carve(owner, h, n).Keys == owner.Keys
  {
  }

  lemma InSize(base: int, ptr: map<int, int>, size: map<int, int>, fl: seq<int>,
               live: map<int, int>, owner: map<int, int>, p: int)
    requires HeapOk(base, ptr, size, fl, live, owner) && p in fl
    ensures p in size && p in ptr && p >= base
  {
    var i :| 0 <= i < |fl| && fl[i] == p;
    NextOf(base, ptr, size, fl, live, owner, i);
  }

  lemma FitsSomewhere(size: map<int, int>, fl: seq<int>, n: int, p: int)
    requires p in fl && p in size && size[p] >= n
    ensures !NoneFits(size, fl, n)
  {
  }

  lemma SameElements(size: map<int, int>, t: seq<int>, fl: seq<int>, n: int)
    requires forall x :: x in t <==> x in fl
    requires NoneFits(size, t, n)
    ensures NoneFits(size, fl, n)
  {
  }

  /** The list malloc makes on its first call holds base alone. */
  lemma FirstList(base: int, ptr: map<int, int>, size: map<int, int>)
    requires base in ptr && ptr[base] == base && base in size && size[base] == 0
    ensures HeapOk(base, ptr, size, [base], map[], map[])
  {
    assert Heads(base, [base], map[]) == {};
  }

  lemma FirstFits(base: int, size0: map<int, int>, fl0: seq<int>, size: map<int, int>, fl: seq<int>, n: int)
    requires 1 <= n
    requires (size0 == size && fl0 == fl) || (fl0 == [] && fl == [base] && base in size && size[base] == 0)
    ensures NoneFits(size0, fl0, n) <==> NoneFits(size, fl, n)
  {
  }

  lemma NUnitsPositive(nbytes: int)
    requires 0 <= nbytes
    ensures 1 <= NUnits(nbytes)
  {
  }

  lemma AddThenDrop(live: map<int, int>, hp: int, n: int)
    requires hp !in live
    ensures live[hp := n] - {hp} == live
  {
  }

  ghost predicate Below(owner: map<int, int>, brk: int) {
    forall u :: u in owner ==> u < brk
  }

  lemma BelowAgain(owner: map<int, int>, owner': map<int, int>, brk: int)
    requires Below(owner, brk) && owner'.Keys == owner.Keys
    ensures Below(owner', brk)
  {
    assert forall u :: u in owner' ==> u in owner.Keys;
  }

  lemma GrantedBelow(owner: map<int, int>, hp: int, nu: int, brk: int)
    requires Below(owner, brk) && brk <= hp && 1 <= nu
    ensures Below(owner, hp)
    ensures Below(Granted(owner, hp, nu), hp + nu)
  {
    hide Units;
  }

  // ---------- the procedures ----------

  const MINCORE := 4096

  const WORD := 0x1_0000_0000

  /** The size of a request in units, one of them for the header; the sum is a uint and wraps. */
  function NUnits(nbytes: int): int {
    (nbytes + 8 - 1) % WORD / 8 + 1
  }

  /** What sbrk is asked for when nu units are wanted: a product of uints, passed as an int. */
  function SbrkBytes(nu: int): int {
    var bytes := nu * 8 % WORD;
    if bytes < WORD / 2 then bytes else bytes - WORD
  }

  /** The block holds the bytes requested, and sbrk would be asked for the whole block. */
  predicate Honoured(nbytes: int) {
    && nbytes <= 8 * (NUnits(nbytes) - 1)
    && SbrkBytes(Max(NUnits(nbytes), MINCORE)) == 8 * Max(NUnits(nbytes), MINCORE)
  }

  const MAXREQUEST := 0x7FFF_FFF0

  /** The arithmetic of malloc is right for the requests up to MAXREQUEST and for no others. */
  lemma RequestHonoured(nbytes: int)
    requires 0 <= nbytes < WORD
    ensures Honoured(nbytes) <==> nbytes <= MAXREQUEST
  {
  }

  class Heap {
    const base: int            // the address of the static header `base`
    var freep: int             // 0 before the first call of malloc
    var ptr: map<int, int>     // s.ptr of the header at an address
    var size: map<int, int>    // s.size
    var brk: int               // the end of the memory sbrk has granted
    ghost var fl: seq<int>
    ghost var live: map<int, int>
    ghost var owner: map<int, int>

    ghost predicate Valid()
      reads this
    {
      && 0 < base < brk
      && Below(owner, brk)
      && if freep == 0 then fl == [] && live == map[] && owner == map[]
         else HeapOk(base, ptr, size, fl, live, owner) && freep in fl
    }

    constructor (base: int)
      requires 0 < base
      ensures Valid() && live == map[] && owner == map[] && this.base == base
    {
      this.base := base;
      freep, brk := 0, base + 1;
      ptr, size := map[], map[];
      fl, live, owner := [], map[], map[];
    }

    /** free: bp leaves the live blocks and its units become free; the search ends within one
        lap.  `k` is the free block that now contains it. */
    method Free(ap: int) returns (ghost k: nat)
      requires Valid() && ap - 1 in live
      modifies this`freep, this`ptr, this`size, this`fl, this`live, this`owner
      ensures Valid() && freep != 0
      ensures live == old(live) - {ap - 1}
      ensures owner.Keys == old(owner.Keys)
      ensures 0 < k < |fl| && fl[k] in size
      ensures fl[k] <= ap - 1 && ap - 1 + old(live[ap - 1]) <= fl[k] + size[fl[k]]
    {
      hide Ring, Spaced, Owned, HeapOk, Inserted, Removed, Merge, Slot, Halfway, Below;
      var bp := ap - 1;
      var p := freep;
      ghost var s, goal := fl, FindSlot(base, ptr, size, fl, live, owner, bp);
      ghost var i: nat :| i < |s| && s[i] == p;
      NextOf(base, ptr, size, fl, live, owner, i);
      while !(bp > p && bp < ptr[p])
        modifies {}
        invariant i < |s| && s[i] == p && p in ptr
        invariant ptr[p] == if i + 1 < |s| then s[i + 1] else s[0]
        decreases if i <= goal then goal - i else goal + |s| - i
      {
        if p >= ptr[p] && (bp > p || bp < ptr[p]) {
          break;
        }
        SearchGoesOn(base, ptr, size, fl, live, owner, i, goal, bp);
        p := ptr[p];
        i := if i + 1 < |s| then i + 1 else 0;
        NextOf(base, ptr, size, fl, live, owner, i);
      }
      SearchEnds(base, ptr, size, fl, live, owner, i, goal, bp);
      JoinUpper(bp, p, i);
      k := JoinLower(bp, p, i);
      BelowAgain(old(owner), owner, brk);
      freep := p;
    }

    /** The first if statement of free: link bp to what follows p, or join it to that block. */
    method JoinUpper(bp: int, p: int, ghost i: nat)
      requires HeapOk(base, ptr, size, fl, live, owner) && bp in live && Fits(fl, i, bp) && p == fl[i]
      modifies this`ptr, this`size, this`fl, this`live, this`owner
      ensures Halfway(base, ptr[p := bp], size, fl, live, owner, i)
      ensures i + 1 < |fl| && fl[i] == p && fl[i + 1] == bp
      ensures live == old(live) - {bp} && owner.Keys == old(owner.Keys)
      ensures bp in ptr && bp in size && size[bp] >= old(live[bp])
    {
      hide Ring, Spaced, Owned, HeapOk, Halfway, Inserted, Removed, Merge;
      LiveSize(base, ptr, size, fl, live, owner, bp);
      JoinedAt(base, ptr, size, fl, live, owner, i, bp);
      NextOf(base, ptr, size, fl, live, owner, i);
      if bp + size[bp] == ptr[p] {
        JoinAbove(base, ptr, size, fl, live, owner, i, bp);
        NextOf(base, ptr, size, fl, live, owner, i + 1);
        MergeKeys(owner, bp, fl[i + 1]);
        fl, owner := Removed(Inserted(fl, i, bp), i + 2), Merge(owner, bp, fl[i + 1]);
        size := size[bp := size[bp] + size[ptr[p]]];
        ptr := ptr[bp := ptr[ptr[p]]];
      } else {
        JoinNothingAbove(base, ptr, size, fl, live, owner, i, bp);
        fl := Inserted(fl, i, bp);
        ptr := ptr[bp := ptr[p]];
      }
      live := live - {bp};
    }

    /** The second if statement of free: link p to bp, or join bp to p. */
    method JoinLower(bp: int, p: int, ghost i: nat) returns (ghost k: nat)
      requires Halfway(base, ptr[p := bp], size, fl, live, owner, i)
      requires fl[i] == p && fl[i + 1] == bp && bp in ptr
      modifies this`ptr, this`size, this`fl, this`owner
      ensures HeapOk(base, ptr, size, fl, live, owner) && p in fl && p >= base
      ensures owner.Keys == old(owner.Keys)
      ensures 0 < k < |fl| && fl[k] in size && bp in old(size)
      ensures fl[k] <= bp && bp + old(size[bp]) <= fl[k] + size[fl[k]]
    {
      hide Ring, Spaced, Owned, HeapOk, Halfway, Inserted, Removed, Merge;
      HalfwayFacts(base, ptr[p := bp], size, fl, live, owner, i);
      if p + size[p] == bp {
        JoinBelow(base, ptr[p := bp], size, fl, live, owner, i);
        RemovedElements(fl, i + 1);
        MergeKeys(owner, p, bp);
        assert ptr[p := bp][p := ptr[bp]] == ptr[p := ptr[bp]];
        fl, owner, k := Removed(fl, i + 1), Merge(owner, p, bp), i;
        size := size[p := size[p] + size[bp]];
        ptr := ptr[p := ptr[bp]];
      } else {
        JoinNothingBelow(base, ptr[p := bp], size, fl, live, owner, i);
        ptr := ptr[p := bp];
        k := i + 1;
      }
      assert fl[i] == p;
    }

    /** morecore: `grant` is what sbrk answers, the start of fresh memory or a refusal. */
    method Morecore(nu: int, grant: Option<int>) returns (p: int, ghost k: nat)
      requires Valid() && freep != 0 && 1 <= nu
      requires grant.Some? ==> grant.value >= brk
      modifies this
      ensures Valid() && freep != 0 && live == old(live)
      ensures grant.None? ==> p == 0 && unchanged(this)
      ensures grant.Some? ==> p == freep && Supplied(old(owner), grant.value, Max(nu, MINCORE), owner)
      ensures grant.Some? ==> 0 < k < |fl| && fl[k] in size && size[fl[k]] >= nu
    {
      hide HeapOk, Units, Below, Supplied;
      var n := if nu < MINCORE then MINCORE else nu;
      if grant.None? {
        return 0, 0;
      }
      k := Adopt(grant.value, n);
      p := freep;
    }

    /** Make fresh memory a block and free it. */
    method Adopt(hp: int, n: int) returns (ghost k: nat)
      requires Valid() && freep != 0 && 1 <= n && brk <= hp
      modifies this
      ensures Valid() && freep != 0 && live == old(live)
      ensures Supplied(old(owner), hp, n, owner)
      ensures 0 < k < |fl| && fl[k] in size && size[fl[k]] >= n
    {
      hide HeapOk, Units, Granted, Grants, Below, Supplied;
      GrantedBelow(owner, hp, n, brk);
      Grow(base, ptr, size, fl, live, owner, hp, n);
      AddThenDrop(live, hp, n);
      GrantedGrants(owner, hp, n);
      ghost var granted := Granted(owner, hp, n);
      size, live, owner, brk := size[hp := n], live[hp := n], granted, hp + n;
      k := Free(hp + 1);
      SuppliedAgain(old(owner), hp, n, granted, owner);
    }

    /** malloc returns 0 exactly when no free block was large enough and sbrk refused; sbrk is
        asked at most once, and exactly when no free block was large enough.  `astray` says that sbrk
        would be asked for another amount than the block needs, because the product of uints wrapped
        or became a negative int: the method stops there.  It does not happen up to MAXREQUEST. */
    method Malloc(nbytes: int, grant: Option<int>) returns (r: int, ghost asked: bool, astray: bool)
      requires Valid() && 0 <= nbytes < WORD
      requires grant.Some? ==> grant.value >= brk
      modifies this
      ensures Valid()
      ensures asked <==> NoneFits(old(size), old(fl), NUnits(nbytes))
      ensures astray <==> asked && SbrkBytes(Max(NUnits(nbytes), MINCORE)) != 8 * Max(NUnits(nbytes), MINCORE)
      ensures nbytes <= MAXREQUEST ==> !astray && nbytes <= 8 * (NUnits(nbytes) - 1)
      ensures r == 0 <==> asked && (astray || grant.None?)
      ensures r == 0 ==> live == old(live)
      ensures r != 0 ==> r - 1 !in old(live) && live == old(live)[r - 1 := NUnits(nbytes)]
      ensures r == 0 || !asked ==> owner.Keys == old(owner.Keys)
      ensures r != 0 && asked ==> Supplied(old(owner), grant.value, Max(NUnits(nbytes), MINCORE), owner)
    {
      hide HeapOk, Scan, Turned, Units, Max, NUnits, Below, Supplied, SbrkBytes;
      var nunits := NUnits(nbytes);
      NUnitsPositive(nbytes);
      RequestHonoured(nbytes);
      asked, astray := false, false;
      if freep == 0 {
        ptr, size := ptr[base := base], size[base := 0];
        freep, fl := base, [base];
        FirstList(base, ptr, size);
      }
      assert freep != 0 && HeapOk(base, ptr, size, fl, live, owner) && freep in fl;
      FirstFits(base, old(size), old(fl), size, fl, nunits);
      ghost var s, kk := fl, 0;
      kk :| 0 <= kk < |s| && s[kk] == freep;
      ghost var t, c := Turned(s, kk), 1;
      ScanStart(base, ptr, size, fl, live, owner, kk, nunits);
      var prevp := freep;
      var p := ptr[prevp];
      while true
        invariant Valid() && freep != 0 && live == old(live)
        invariant !astray && Scan(ptr, size, t, c, nunits, prevp, p)
        invariant |t| > 0 && t[0] == freep && c <= |t|
        invariant forall x :: x in t <==> x in fl
        invariant forall a, b :: 0 <= a < b < |t| ==> t[a] != t[b]
        invariant asked ==> grant.Some? && NoneFits(old(size), old(fl), nunits) && !NoneFits(size, fl, nunits)
        invariant !asked ==> (NoneFits(old(size), old(fl), nunits) <==> NoneFits(size, fl, nunits))
        invariant !asked ==> owner == old(owner) && brk == old(brk)
        invariant asked ==> Supplied(old(owner), grant.value, Max(nunits, MINCORE), owner)
        invariant asked ==> SbrkBytes(Max(nunits, MINCORE)) == 8 * Max(nunits, MINCORE)
        decreases if asked then 0 else 1, |t| - c
      {
        ScanLap(ptr, size, t, c, nunits, prevp, p);
        InSize(base, ptr, size, fl, live, owner, p);
        if size[p] >= nunits {
          FitsSomewhere(size, fl, nunits, p);
          ghost var before := owner;
          r := Take(p, prevp, nunits);
          if asked {
            SuppliedAgain(old(owner), grant.value, Max(nunits, MINCORE), before, owner);
          }
          return;
        }
        if p == freep {
          ScanDone(ptr, size, t, nunits, prevp, p);
          SameElements(size, t, fl, nunits);
          asked := true;
          if SbrkBytes(Max(nunits, MINCORE)) != 8 * Max(nunits, MINCORE) {
            return 0, true, true;
          }
          ghost var k;
          p, k := Morecore(nunits, grant);
          if p == 0 {
            return 0, true, false;
          }
          FitsSomewhere(size, fl, nunits, fl[k]);
          s := fl;
          kk :| 0 <= kk < |s| && s[kk] == freep;
          t, c := Turned(s, kk), 1;
          ScanStart(base, ptr, size, fl, live, owner, kk, nunits);
        } else {
          ScanNext(ptr, size, t, c, nunits, prevp, p);
          c := c + 1;
        }
        prevp := p;
        p := ptr[p];
      }
    }

    /** Hand out n units of the block p, whose predecessor is prevp. */
    method Take(p: int, prevp: int, n: int) returns (r: int)
      requires Valid() && freep != 0
      requires p in fl && prevp in fl && prevp in ptr && ptr[prevp] == p
      requires p in size && 1 <= n <= size[p]
      modifies this`freep, this`ptr, this`size, this`fl, this`live, this`owner
      ensures Valid() && freep == prevp
      ensures r != 0 && r - 1 !in old(live) && live == old(live)[r - 1 := n]
      ensures owner.Keys == old(owner.Keys)
    {
      hide HeapOk, Carve, Removed, Below;
      ghost var i := FoundIndex(base, ptr, size, fl, live, owner, p, n);
      PredecessorIs(base, ptr, size, fl, live, owner, prevp, i);
      NextOf(base, ptr, size, fl, live, owner, i);
      NextOf(base, ptr, size, fl, live, owner, i - 1);
      if size[p] == n {
        TakeWhole(base, ptr, size, fl, live, owner, i);
        StillListed(base, ptr, size, fl, live, owner, i);
        ptr := ptr[prevp := ptr[p]];
        fl, live := Removed(fl, i), live[p := n];
        r := p + 1;
      } else {
        TakeTail(base, ptr, size, fl, live, owner, i, n);
        ghost var h := p + size[p] - n;
        CarveKeys(owner, h, n);
        BelowAgain(owner, Carve(owner, h, n), brk);
        live, owner := live[h := n], Carve(owner, h, n);
        size := size[p := size[p] - n];
        var q := p + size[p];
        size := size[q := n];
        r := q + 1;
      }
      freep := prevp;
    }
  }
}
