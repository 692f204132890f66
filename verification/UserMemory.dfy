/** allocuvm, deallocuvm, freevm, setupkvm, copyuvm and growproc. */
module UserMemory {
  import opened Paging
  import opened VmState
  import opened Kernel
  import opened VmRange
  import opened VmTeardown
  import opened VmSetup
  import opened VmBuild

  /** deallocuvm.  The loop steps over a whole page table where there is none; the result is that of
      looking at every page. */
  method Deallocuvm(m: Memory, d: int, oldsz: int, newsz: int) returns (r: int)
    requires m.Valid() && d in m.dirs && 0 <= newsz && 0 <= oldsz <= KERNBASE
    modifies m`mem, m`freelist, m`frees, m`owner
    ensures m.Valid()
    ensures newsz >= oldsz ==> r == oldsz && m.State() == old(m.State())
    ensures newsz < oldsz ==> r == newsz && Shrunk(old(m.State()), m.State(), d, Pages(newsz), Pages(oldsz))
  {
    hide Inv, Shrinking, Shrunk, Pte, Pde, Apart, SamePtes, Unmapping, Walked;
    if newsz >= oldsz {
      return oldsz;
    }
    ghost var s0, a, b := m.State(), Pages(newsz), Pages(oldsz);
    ShrinkStart(s0, d, a, b);
    var v := Pages(newsz);
    while v * PGSIZE < oldsz
      invariant a <= v && m.Valid() && d in m.dirs && m.dirs == s0.dirs && Shrinking(s0, m.State(), d, a, b, v)
      decreases oldsz - v * PGSIZE
    {
      ghost var s := m.State();
      var t := m.Walkpgdir(d, v, false);
      if t == 0 {
        NoTable(m.mem, d, v);
        ShrinkSkip(s0, s, d, a, b, v, (Pdx(v) + 1) * NPTE);
        v := (Pdx(v) + 1) * NPTE - 1;
      } else {
        TableShape(s, d, v);
        if On(m.mem[t][Ptx(v)]) {
          var ok := m.UnmapPage(d, v, t);
          UnmapDirs(s, m.State(), d, v);
          ShrinkStep(s0, s, m.State(), d, a, b, v);
        } else {
          ShrinkSkip(s0, s, d, a, b, v, v + 1);
        }
      }
      v := v + 1;
    }
    ShrinkEnd(s0, m.State(), d, a, b, v);
    r := newsz;
  }

  lemma UnmapDirs(s: Vm, s': Vm, d: int, v: int)
    requires Unmapping(s, s', d, v)
    ensures s'.dirs == s.dirs
  {
  }

  /** allocuvm: 0 stands for failure. */
  method Allocuvm(m: Memory, d: int, oldsz: int, newsz: int) returns (r: int)
    requires m.Valid() && d in m.dirs && 0 <= oldsz && 0 <= newsz && UserExact(m.mem, d, Pages(oldsz))
    modifies m`mem, m`freelist, m`frees, m`owner
    ensures m.Valid()
    ensures newsz >= KERNBASE ==> r == 0
    ensures newsz < KERNBASE && newsz < oldsz ==> r == oldsz
    ensures newsz >= KERNBASE || newsz < oldsz ==> m.State() == old(m.State())
    ensures oldsz <= newsz < KERNBASE ==> r == newsz || r == 0
    ensures oldsz <= newsz < KERNBASE && r == newsz && newsz > 0 ==>
              && Growing(old(m.State()), m.State(), d, Pages(oldsz), Pages(newsz), Pages(newsz), {})
              && UserWritable(m.mem, d, Pages(oldsz), Pages(newsz))
    ensures oldsz <= newsz < KERNBASE && r != newsz ==> |old(m.frees)| < 2 * (Pages(newsz) - Pages(oldsz))
    ensures oldsz <= newsz < KERNBASE && r != newsz ==>
            Undone(old(m.State()), m.State(), d, Pages(oldsz), Pages(newsz), {})
  {
    hide Inv, Shrinking, Shrunk, Growing, Undone, Pte, Pde, Apart, SamePtes, Mapping, UserExact, Zeros, Entry;
    hide UserWritable;
    if newsz >= KERNBASE {
      return 0;
    }
    if newsz < oldsz {
      return oldsz;
    }
    ghost var s0, a, b := m.State(), Pages(oldsz), Pages(newsz);
    GrowStart(s0, d, a, b);
    var v := Pages(oldsz);
    while v * PGSIZE < newsz
      invariant a <= v <= b && m.Valid() && d in m.dirs && m.dirs == s0.dirs && Growing(s0, m.State(), d, a, b, v, {})
      invariant |m.frees| >= |old(m.frees)| - 2 * (v - a)
      decreases newsz - v * PGSIZE
    {
      ghost var s := m.State();
      var f := m.Kalloc();
      if f == 0 {
        var x := Deallocuvm(m, d, newsz, oldsz);
        GrowUndone(s0, s, m.State(), d, a, b, v, {});
        return 0;
      }
      StoredKeeps(m.State(), f, Zeros());
      m.mem := m.mem[f := Zeros()];
      ghost var s1 := m.State();
      GrowHeld(s0, s, d, a, b, v, f);
      NotPresent(s0, s1, d, a, b, v, f);
      var res := m.MapPage(d, v, Entry(f, UPTE));
      if res != Done {
        var x := Deallocuvm(m, d, newsz, oldsz);
        GrowUndone(s0, s1, m.State(), d, a, b, v, {f});
        StillHeld(s1, m.State(), d, a, b, f);
        ghost var s2 := m.State();
        InUse(s2, f);
        var ok := m.Kfree(f);
        FreshPage(s0, s, d, a, b, v, f);
        UndoneFree(s0, s2, m.State(), d, a, b, f);
        return 0;
      }
      MapDirs(s1, m.State(), d, v, Entry(f, UPTE));
      GrowStep(s0, s, s1, m.State(), d, a, b, v, f);
      v := v + 1;
    }
    GrownRights(s0, m.State(), d, a, b);
    r := newsz;
  }

  lemma NotPresent(s0: Vm, s1: Vm, d: int, a: int, b: int, v: int, f: int)
    requires Growing(s0, s1, d, a, b, v, {f}) && 0 <= a <= v < b <= USERPAGES && UserExact(s0.mem, d, a)
    ensures !On(Pte(s1.mem, d, v))
  {
  }

  lemma StillHeld(s: Vm, s': Vm, d: int, a: int, b: int, f: int)
    requires Shrunk(s, s', d, a, b) && Holds(s.owner, f, Held)
    ensures Holds(s'.owner, f, Held) && s'.dirs == s.dirs
  {
  }

  lemma FreshPage(s0: Vm, s: Vm, d: int, a: int, b: int, v: int, f: int)
    requires Growing(s0, s, d, a, b, v, {}) && s.frees != [] && f == s.frees[0]
    ensures f !in s0.owner && f !in s.owner
  {
    hide Pte, Pde, Owns, Apart;
  }

  lemma InUse(s: Vm, f: int)
    requires Inv(s) && f in s.owner
    ensures 0 < s.lo <= f < |s.mem|
  {
  }

  lemma MapDirs(s: Vm, s': Vm, d: int, v: int, w: int)
    requires Mapping(s, s', d, v, w)
    ensures s'.dirs == s.dirs
  {
  }

  /** freevm: every page of the directory goes back to the free list, each once; false stands for a
      panic, which does not happen. */
  method Freevm(m: Memory, d: int) returns (ok: bool)
    requires m.Valid() && d in m.dirs
    modifies m
    ensures ok && m.Valid() && Freed(old(m.State()), m.State(), d)
  {
    hide Inv, Shrinking, Shrunk, Freeing, Freed, Pte, Pde, Apart, SamePtes, SamePdes, Detached, Given;
    ghost var s0 := m.State();
    var x := Deallocuvm(m, d, KERNBASE, 0);
    ghost var s1 := m.State();
    ShrunkAll(s0, s1, d);
    FreeingStart(s1, d);
    DetachedIs(s1, d);
    m.owner := Detached(s1, d).owner;
    m.dirs := m.dirs - {d};
    FreeingInv(s1, m.State(), d, 0, false);
    var i := 0;
    while i < NPTE
      invariant 0 <= i <= NPTE && m.Valid() && Freeing(s1, m.State(), d, i, false)
    {
      ghost var s := m.State();
      FreeingNext(s1, s, d, i);
      var w := m.mem[d][i];
      if On(w) {
        InUse(s, Frame(w));
        ok := m.Kfree(Frame(w));
        if !ok {
          return false;
        }
        FreeingStep(s1, s, m.State(), d, i, Frame(w));
      }
      i := i + 1;
    }
    ghost var s := m.State();
    LastHeld(s1, s, d);
    InUse(s, d);
    ok := m.Kfree(d);
    FreeingLast(s1, s, m.State(), d);
    FreedIs(s0, s1, m.State(), d);
  }

  lemma ShrunkAll(s0: Vm, s1: Vm, d: int)
    requires Shrunk(s0, s1, d, 0, USERPAGES)
    ensures Inv(s1) && s1.dirs == s0.dirs && forall v :: 0 <= v < USERPAGES ==> !On(Pte(s1.mem, d, v))
  {
  }

  lemma DetachedIs(s: Vm, d: int)
    ensures Detached(s, d) == Vm(s.mem, s.lo, s.frees, s.dirs - {d}, Detached(s, d).owner)
  {
  }

  lemma FreeingInv(s1: Vm, s: Vm, d: int, i: int, t: bool)
    requires Freeing(s1, s, d, i, t)
    ensures Inv(s)
  {
  }

  /** The pages that a range of addresses touches. */
  function PagesIn(va: int, size: int): int {
    (va + size - 1) / PGSIZE - va / PGSIZE + 1
  }

  /** mappages over a range of kernel addresses, aligned or not.  `k` counts the pages it has mapped
      when it returns, or when it panics because the next one is mapped already. */
  method Mappages(m: Memory, d: int, va: int, size: int, pa: int, perm: int) returns (r: MapResult, ghost k: int)
    requires m.Valid() && d in m.dirs && pa % PGSIZE == 0 && 0 <= pa && 0 <= perm && WithP(perm) < PGSIZE
    requires On(WithP(perm))
    requires KERNBASE <= va && 0 < size && va + size <= ALLPAGES * PGSIZE
    modifies m`mem, m`freelist, m`frees, m`owner
    ensures m.Valid()
    ensures r == NoMemory ==> m.frees == []
    ensures 0 <= k <= PagesIn(va, size) && (r == Done <==> k == PagesIn(va, size))
    ensures r == Remap ==> On(Pte(old(m.mem), d, va / PGSIZE + k))
    ensures forall v :: va / PGSIZE <= v < va / PGSIZE + k ==> !On(Pte(old(m.mem), d, v))
    ensures Ranged(old(m.State()), m.State(), d, va / PGSIZE, PagesIn(va, size), k, pa / PGSIZE, WithP(perm))
  {
    hide Inv, Ranged, Pte, Pde, Apart, Mapping, Entry;
    ghost var s0 := m.State();
    var a, last := va / PGSIZE, ((va + size - 1) % 0x1_0000_0000) / PGSIZE;
    ghost var first, n := va / PGSIZE, PagesIn(va, size);
    LastPage(va, size);
    var g, flags := pa / PGSIZE, WithP(perm);
    RangeStart(s0, d, first, n, g, flags);
    while true
      invariant first <= a <= last && g == pa / PGSIZE + (a - first) && m.Valid() && d in m.dirs && m.dirs == s0.dirs
      invariant Ranged(s0, m.State(), d, first, n, a - first, pa / PGSIZE, flags)
      invariant forall v :: first <= v < a ==> !On(Pte(s0.mem, d, v))
      decreases last - a
    {
      ghost var s := m.State();
      RangeRest(s0, s, d, first, n, a - first, pa / PGSIZE, flags, a);
      r := m.MapPage(d, a, Entry(g, flags));
      if r != Done {
        return r, a - first;
      }
      MapDirs(s, m.State(), d, a, Entry(g, flags));
      RangeStep(s0, s, m.State(), d, first, n, a - first, pa / PGSIZE, flags);
      if a == last {
        break;
      }
      a, g := a + 1, g + 1;
    }
    k := n;
  }

  lemma LastPage(va: int, size: int)
    requires 0 <= va && 0 < size && va + size <= ALLPAGES * PGSIZE
    ensures ((va + size - 1) % 0x1_0000_0000) / PGSIZE == va / PGSIZE + PagesIn(va, size) - 1
    ensures va / PGSIZE + PagesIn(va, size) <= ALLPAGES && PagesIn(va, size) > 0
  {
  }

  lemma RangeRest(s0: Vm, s: Vm, d: int, first: int, n: int, k: int, g: int, flags: int, a: int)
    requires 0 <= flags < PGSIZE && Ranged(s0, s, d, first, n, k, g, flags) && first + k <= a < first + n
    ensures Pte(s.mem, d, a) == Pte(s0.mem, d, a)
  {
    hide Pte, Inv, Apart, Entry;
  }

  /** setupkvm: a page directory with the kernel's mappings; 0 when there is not enough memory, and
      then every page is where it was. */
  method Setupkvm(m: Memory, data: int) returns (d: int)
    requires m.Valid() && DataOk(data)
    modifies m
    ensures m.Valid() && 0 <= d
    ensures d != 0 ==> Building(old(m.State()), m.State(), d, {}) && KernelUpTo(m.mem, d, data, ALLPAGES)
    ensures d != 0 ==> KernelOnly(m.mem, d, data, 0)
    ensures d == 0 ==> Restored(old(m.State()), m.State()) && |old(m.frees)| <= NPTE + 2
  {
    hide Inv, Building, KernelUpTo, Ranged, Pte, Pde, Apart, Freed, Restored, Zeros, Kmaps, SizeOf, KernelOnly;
    ghost var s0 := m.State();
    d := m.Kalloc();
    if d == 0 {
      RestoredNothing(s0);
      return;
    }
    LoPositive(s0);
    BuildStart(s0, d);
    m.mem := m.mem[d := Zeros()];
    m.dirs := m.dirs + {d};
    m.owner := m.owner[d := Dir];
    KernelNone(m.mem, d, data);
    var i := 0;
    while i < 4
      invariant 0 <= i <= 4 && m.Valid() && d in m.dirs && 0 < d
      invariant Building(s0, m.State(), d, {}) && KernelUpTo(m.mem, d, data, Reach(data, i))
    {
      ghost var s := m.State();
      KmapFacts(data, i);
      KernelFree(m.mem, d, data, i);
      var e := Kmaps(data)[i];
      var r;
      ghost var k;
      r, k := Mappages(m, d, e.virt, (e.end - e.start) % 0x1_0000_0000, e.start, e.perm);
      assert r != Remap;
      RangedDirs(s, m.State(), d, e.virt / PGSIZE, SizeOf(e), k, e.start / PGSIZE, WithP(e.perm));
      BuildRange(s0, s, m.State(), d, e.virt / PGSIZE, SizeOf(e), k, e.start / PGSIZE, WithP(e.perm));
      if r != Done {
        ghost var s1 := m.State();
        NoUserYet(s, s1, d, data, i, e.virt / PGSIZE, SizeOf(e), k, e.start / PGSIZE, WithP(e.perm));
        RanOut(s0, s1, d, 0, {});
        var ok := Freevm(m, d);
        BuildAbandoned(s0, s1, m.State(), d);
        return 0;
      }
      KmapDone(s, m.State(), d, data, i);
      i := i + 1;
    }
    KernelPtes(m.mem, d, data);
    KernelRights(m.State(), d, data, 0);
  }

  lemma KernelPtes(mem: Mem, d: int, data: int)
    requires KernelUpTo(mem, d, data, ALLPAGES)
    ensures forall v :: 0 <= v < ALLPAGES ==> Pte(mem, d, v) == KernelPte(data, v)
  {
  }

  lemma RestoredNothing(s: Vm)
    requires Inv(s)
    ensures Restored(s, s)
  {
  }

  lemma KernelNone(mem: Mem, d: int, data: int)
    requires forall v :: 0 <= v < ALLPAGES ==> Pte(mem, d, v) == 0
    ensures KernelUpTo(mem, d, data, Reach(data, 0))
  {
  }

  lemma KmapFacts(data: int, i: nat)
    requires DataOk(data) && i < 4
    ensures |Kmaps(data)| == 4
    ensures
      var e := Kmaps(data)[i];
      var size := (e.end - e.start) % 0x1_0000_0000;
      && e.virt % PGSIZE == 0 && e.start % PGSIZE == 0 && 0 <= e.start && 0 <= e.perm && WithP(e.perm) < PGSIZE
         && On(WithP(e.perm))
      && KERNBASE <= e.virt && 0 < size && size % PGSIZE == 0 && e.virt + size <= ALLPAGES * PGSIZE
      && SizeOf(e) == size / PGSIZE == PagesIn(e.virt, size) && 0 <= e.virt / PGSIZE
         && e.virt / PGSIZE + SizeOf(e) <= ALLPAGES
  {
  }

  lemma KernelFree(mem: Mem, d: int, data: int, i: nat)
    requires DataOk(data) && i < 4 && KernelUpTo(mem, d, data, Reach(data, i))
    ensures
      var e := Kmaps(data)[i];
      forall v :: e.virt / PGSIZE <= v < e.virt / PGSIZE + SizeOf(e) ==> !On(Pte(mem, d, v))
  {
  }

  lemma RangedDirs(s: Vm, s1: Vm, d: int, first: int, n: int, k: int, g: int, flags: int)
    requires 0 <= flags < PGSIZE && Ranged(s, s1, d, first, n, k, g, flags)
    ensures s1.dirs == s.dirs
  {
    hide Pte, Inv, Apart, Entry;
  }

  lemma NoUserYet(s: Vm, s1: Vm, d: int, data: int, i: nat, first: int, n: int, k: int, g: int, flags: int)
    requires 0 <= flags < PGSIZE && Ranged(s, s1, d, first, n, k, g, flags) && d in s.dirs && DataOk(data) && i < 4
    requires KernelUpTo(s.mem, d, data, Reach(data, i)) && USERPAGES <= first
    ensures forall u :: 0 <= u < USERPAGES ==> !On(Pte(s1.mem, d, u))
  {
    hide Pte, Inv, Entry;
    forall u | 0 <= u < USERPAGES ensures !On(Pte(s1.mem, d, u)) {
      assert Pte(s1.mem, d, u) == Pte(s.mem, d, u);
    }
  }

  /** copyuvm: 0 when there is not enough memory, and then every page is where it was; -1 stands for
      its panics, which do not happen. */
  method Copyuvm(m: Memory, d: int, sz: int, data: int) returns (r: int)
    requires m.Valid() && d in m.dirs && 0 <= sz <= KERNBASE && UserExact(m.mem, d, Pages(sz)) && DataOk(data)
    modifies m
    ensures m.Valid() && r != -1
    ensures r != 0 ==> Copying(old(m.State()), m.State(), d, r, data, Pages(sz))
    ensures r != 0 ==> forall u :: 0 <= u < Pages(sz) ==> Rights(m.mem, r, u) == Rights(old(m.mem), d, u) != NoAccess
    ensures r != 0 ==> KernelOnly(m.mem, r, data, Pages(sz))
    ensures r == 0 ==> Restored(old(m.State()), m.State()) && |old(m.frees)| <= NPTE + Pages(sz) + 2
  {
    hide Inv, Building, Copying, KernelUpTo, Pte, Pde, Apart, Freed, Restored, Mapping, Entry, UserExact;
    hide Rights, KernelOnly;
    ghost var s0 := m.State();
    var d2 := Setupkvm(m, data);
    if d2 == 0 {
      return 0;
    }
    BuildDirs(s0, m.State(), d2);
    CopyStart(s0, m.State(), d, d2, data);
    var v := 0;
    while v * PGSIZE < sz
      invariant 0 <= v <= Pages(sz) && m.Valid() && d2 in m.dirs && d in m.dirs
      invariant Copying(s0, m.State(), d, d2, data, v)
    {
      ghost var s := m.State();
      ParentPage(s0, s, d, d2, data, sz, v);
      var t := m.Walkpgdir(d, v, false);
      TableOf(m.mem, d, v);
      if t == 0 {
        return -1;
      }
      TableShape(s, d, v);
      var pte := m.mem[t][Ptx(v)];
      if !On(pte) {
        return -1;
      }
      OnFlags(pte);
      var f := m.Kalloc();
      if f == 0 {
        CopyRanOut(s0, s, d, d2, data, v, sz);
        var ok := Freevm(m, d2);
        BuildAbandoned(s0, s, m.State(), d2);
        return 0;
      }
      StoredKeeps(m.State(), f, m.mem[Frame(pte)]);
      m.mem := m.mem[f := m.mem[Frame(pte)]];
      ghost var s1 := m.State();
      BuildHeld(s0, s, d2, f, s1.mem[f]);
      ChildFree(s0, s, s1, d, d2, data, v);
      var res := m.MapPage(d2, v, Entry(f, Flags(pte)));
      if res != Done {
        CopyRanOutHeld(s0, s, s1, d, d2, data, v, sz, f);
        InUse(s1, f);
        var ok := m.Kfree(f);
        ghost var s2 := m.State();
        BuildGiveBack(s0, s, s1, s2, d2, f, s1.mem[f]);
        BuildDirs(s0, s2, d2);
        ok := Freevm(m, d2);
        BuildAbandoned(s0, s2, m.State(), d2);
        return 0;
      }
      MapDirs(s1, m.State(), d2, v, Entry(f, Flags(pte)));
      CopyStep(s0, s, s1, m.State(), d, d2, data, v, f);
      v := v + 1;
    }
    CopyEnd(s0, m.State(), d, d2, data, sz);
    r := d2;
  }

  lemma CopyEnd(s0: Vm, s: Vm, d: int, d2: int, data: int, sz: int)
    requires Copying(s0, s, d, d2, data, Pages(sz)) && UserExact(s0.mem, d, Pages(sz)) && 0 <= sz <= KERNBASE
    requires DataOk(data)
    ensures forall u :: 0 <= u < Pages(sz) ==> Rights(s.mem, d2, u) == Rights(s0.mem, d, u) != NoAccess
    ensures KernelOnly(s.mem, d2, data, Pages(sz))
  {
    hide Inv, Pte, Pde, Rights, Apart, KernelPte, Copied, KernelOnly;
    CopiedRights(s0, s, d, d2, data, Pages(sz));
    KernelRights(s, d2, data, Pages(sz));
  }

  lemma BuildDirs(s0: Vm, s: Vm, d: int)
    requires Building(s0, s, d, {})
    ensures d in s.dirs && s0.dirs <= s.dirs
  {
    hide Pte, Inv, Apart;
  }

  lemma ParentPage(s0: Vm, s: Vm, d: int, d2: int, data: int, sz: int, v: int)
    requires Copying(s0, s, d, d2, data, v) && UserExact(s0.mem, d, Pages(sz)) && 0 <= v && v * PGSIZE < sz <= KERNBASE
    ensures v < Pages(sz) <= USERPAGES && On(Pte(s0.mem, d, v)) && Building(s0, s, d2, {})
    ensures d in s.dirs && Pte(s.mem, d, v) == Pte(s0.mem, d, v)
    ensures
      var f := Frame(Pte(s0.mem, d, v));
      0 < f < |s0.mem| == |s.mem| && s.mem[f] == s0.mem[f] && |s.mem[f]| == NPTE
  {
    hide Pte, Pde, Inv, Apart, Building, KernelPte;
    assert v < Pages(sz) <= USERPAGES;
    ParentKept(s0, s, d, d2, v);
  }

  lemma TableOf(mem: Mem, d: int, v: int)
    ensures On(Pte(mem, d, v)) ==> On(Pde(mem, d, Pdx(v)))
  {
  }

  lemma NoneBeyond(s0: Vm, s: Vm, d: int, d2: int, data: int, v: int)
    requires Copying(s0, s, d, d2, data, v) && 0 <= v
    ensures forall u :: v <= u < USERPAGES ==> !On(Pte(s.mem, d2, u))
  {
    hide Pte, Pde, Inv, Apart, Building, Copied;
    forall u | v <= u < USERPAGES ensures !On(Pte(s.mem, d2, u)) {
      assert Pte(s.mem, d2, u) == KernelPte(data, u);
    }
  }

  lemma CopyRanOut(s0: Vm, s: Vm, d: int, d2: int, data: int, v: int, sz: int)
    requires Copying(s0, s, d, d2, data, v) && 0 <= v < Pages(sz) <= USERPAGES && s.frees == []
    ensures |s0.frees| <= NPTE + Pages(sz) + 2
  {
    hide Pte, Pde, Inv, Apart, Building, Copied, KernelPte;
    NoneBeyond(s0, s, d, d2, data, v);
    RanOut(s0, s, d2, v, {});
  }

  lemma CopyRanOutHeld(s0: Vm, s: Vm, s1: Vm, d: int, d2: int, data: int, v: int, sz: int, f: int)
    requires Copying(s0, s, d, d2, data, v) && 0 <= v < Pages(sz) <= USERPAGES && s1.frees == []
    requires Building(s0, s1, d2, {f}) && forall u :: 0 <= u < ALLPAGES ==> Pte(s1.mem, d2, u) == Pte(s.mem, d2, u)
    ensures |s0.frees| <= NPTE + Pages(sz) + 2
  {
    hide Pte, Pde, Inv, Apart, Building, Copied, KernelPte;
    NoneBeyond(s0, s, d, d2, data, v);
    RanOut(s0, s1, d2, v, {f});
  }

  lemma ChildFree(s0: Vm, s: Vm, s1: Vm, d: int, d2: int, data: int, v: int)
    requires Copying(s0, s, d, d2, data, v) && 0 <= v < USERPAGES
    requires forall u :: 0 <= u < ALLPAGES ==> Pte(s1.mem, d2, u) == Pte(s.mem, d2, u)
    ensures !On(Pte(s1.mem, d2, v))
  {
    hide Pte, Pde, Inv, Apart, Building, Copied, KernelPte;
    NoneBeyond(s0, s, d, d2, data, v);
  }

  // ---------- growproc ----------

  /** sz + n in 32 bits. */
  function NewSize(sz: int, n: int): int {
    (sz + n) % 0x1_0000_0000
  }

  /** growproc: 0 or -1, and the process size afterwards. */
  method Growproc(m: Memory, d: int, sz: int, n: int) returns (r: int, sz': int)
    requires m.Valid() && d in m.dirs && 0 <= sz < KERNBASE && UserExact(m.mem, d, Pages(sz))
    requires -KERNBASE <= n < KERNBASE
    modifies m`mem, m`freelist, m`frees, m`owner
    ensures m.Valid() && 0 <= sz' < KERNBASE
    ensures UserExact(m.mem, d, Pages(sz')) <==> !(n < 0 && 0 < sz && sz + n == 0)
    ensures r == 0 || (r == -1 && sz' == sz)
    ensures r == 0 && n >= 0 ==> sz' == sz + n
    ensures r == 0 && n < 0 ==> sz' == if sz + n > 0 then sz + n else sz
    ensures n < 0 ==> (r == -1 <==> sz + n == 0 || sz == 0)
    ensures n > 0 && r == -1 ==> sz + n >= KERNBASE || |old(m.frees)| < 2 * (Pages(sz + n) - Pages(sz))
    ensures Kept(old(m.State()), m.State(), d, Min(Pages(sz), Pages(NewSize(sz, n))))
  {
    hide Inv, Shrinking, Shrunk, Growing, Undone, Pte, Pde, Apart, UserExact, Kept;
    ghost var s0 := m.State();
    KeptNothing(s0, d, Min(Pages(sz), Pages(NewSize(sz, n))));
    sz' := sz;
    if n > 0 {
      var x := Allocuvm(m, d, sz, NewSize(sz, n));
      if x == 0 {
        if NewSize(sz, n) < KERNBASE {
          GrowFailed(s0, m.State(), d, sz, NewSize(sz, n));
        }
        return -1, sz;
      }
      GrowDone(s0, m.State(), d, sz, NewSize(sz, n));
      sz' := x;
    } else if n < 0 {
      var x := Deallocuvm(m, d, sz, NewSize(sz, n));
      if NewSize(sz, n) < sz {
        ShrinkDone(s0, m.State(), d, sz, NewSize(sz, n));
      }
      if x == 0 {
        return -1, sz;
      }
      sz' := x;
    }
    r := 0;
  }

  function Min(a: int, b: int): int {
    if a < b then a else b
  }

  /** The first k pages of the process, and all pages of every other, are as they were. */
  ghost predicate Kept(s0: Vm, s: Vm, d: int, k: int) {
    Apart(s0, s, d, k, USERPAGES)
  }

  lemma KeptNothing(s: Vm, d: int, k: int)
    requires Inv(s)
    ensures Kept(s, s, d, k)
  {
  }

  lemma GrowDone(s0: Vm, s: Vm, d: int, sz: int, newsz: int)
    requires Growing(s0, s, d, Pages(sz), Pages(newsz), Pages(newsz), {}) && d in s0.dirs
    requires 0 <= sz <= newsz < KERNBASE && UserExact(s0.mem, d, Pages(sz))
    ensures UserExact(s.mem, d, Pages(newsz)) && Kept(s0, s, d, Min(Pages(sz), Pages(newsz)))
  {
    hide Inv, Pte;
    ApartWider(s0, s, d, Pages(sz), Pages(newsz), d, Pages(sz), USERPAGES);
    forall v | 0 <= v < USERPAGES ensures On(Pte(s.mem, d, v)) <==> v < Pages(newsz) {
      if Pages(sz) <= v < Pages(newsz) {
        assert Fresh(s, d, v);
      } else {
        assert Pte(s.mem, d, v) == Pte(s0.mem, d, v);
      }
    }
  }

  lemma GrowFailed(s0: Vm, s: Vm, d: int, sz: int, newsz: int)
    requires Undone(s0, s, d, Pages(sz), Pages(newsz), {}) && d in s0.dirs
    requires 0 <= sz <= newsz < KERNBASE && UserExact(s0.mem, d, Pages(sz))
    ensures UserExact(s.mem, d, Pages(sz)) && Kept(s0, s, d, Min(Pages(sz), Pages(newsz)))
  {
    hide Inv, Pte;
    ApartWider(s0, s, d, Pages(sz), Pages(newsz), d, Pages(sz), USERPAGES);
    forall v | 0 <= v < USERPAGES ensures On(Pte(s.mem, d, v)) <==> v < Pages(sz) {
      if !(Pages(sz) <= v < Pages(newsz)) {
        assert Pte(s.mem, d, v) == Pte(s0.mem, d, v);
      }
    }
  }

  lemma ShrinkDone(s0: Vm, s: Vm, d: int, sz: int, newsz: int)
    requires Shrunk(s0, s, d, Pages(newsz), Pages(sz)) && d in s0.dirs
    requires 0 <= newsz < sz < KERNBASE && UserExact(s0.mem, d, Pages(sz))
    ensures UserExact(s.mem, d, Pages(newsz)) && Kept(s0, s, d, Min(Pages(sz), Pages(newsz)))
    ensures newsz == 0 ==> !UserExact(s.mem, d, Pages(sz))
  {
    hide Inv, Pte;
    ApartWider(s0, s, d, Pages(newsz), Pages(sz), d, Pages(newsz), USERPAGES);
    forall v | 0 <= v < USERPAGES ensures On(Pte(s.mem, d, v)) <==> v < Pages(newsz) {
      if !(Pages(newsz) <= v < Pages(sz)) {
        assert Pte(s.mem, d, v) == Pte(s0.mem, d, v);
      }
    }
    if newsz == 0 {
      assert !On(Pte(s.mem, d, 0)) && 0 < Pages(sz);
    }
  }
}
