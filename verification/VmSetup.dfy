/** The kernel half of a page table: mappages over the ranges of kmap. */
module VmSetup {
  import opened Paging
  import opened VmState
  import opened Kernel

  const EXTMEM := 0x10_0000
  const PHYSTOP := 0xE00_0000
  const DEVSPACE := 0xFE00_0000
  const KERNLINK := KERNBASE + EXTMEM

  datatype Kmap = Kmap(virt: int, start: int, end: int, perm: int)

  /** kmap[]; `data` is the linker's symbol, where the kernel's writable part begins. */
  function Kmaps(data: int): seq<Kmap> {
    [Kmap(KERNBASE, 0, EXTMEM, PTE_W), Kmap(KERNLINK, EXTMEM, data - KERNBASE, 0),
     Kmap(data, data - KERNBASE, PHYSTOP, PTE_W), Kmap(DEVSPACE, DEVSPACE, 0, PTE_W)]
  }

  predicate DataOk(data: int) {
    KERNLINK < data < KERNBASE + PHYSTOP && data % PGSIZE == 0
  }

  /** What every page table maps above KERNBASE: all of physical memory, read-only where the kernel's
      text is, and the devices at their own addresses; nothing for the user. */
  function KernelPte(data: int, v: int): int {
    if USERPAGES <= v < USERPAGES + PHYSTOP / PGSIZE then
      Entry(v - USERPAGES, if KERNLINK <= v * PGSIZE < data then PTE_P else PTE_P + PTE_W)
    else if DEVSPACE / PGSIZE <= v < ALLPAGES then Entry(v, PTE_P + PTE_W)
    else 0
  }

  /** perm | PTE_P. */
  function WithP(perm: int): int {
    if On(perm) then perm else perm + PTE_P
  }

  ghost predicate KernelUpTo(mem: Mem, d: int, data: int, bound: int) {
    forall v :: 0 <= v < ALLPAGES ==> Pte(mem, d, v) == if v < bound then KernelPte(data, v) else 0
  }

  /** How far the first k entries of kmap reach. */
  function Reach(data: int, k: int): int {
    if k == 0 then USERPAGES
    else if k == 1 then USERPAGES + EXTMEM / PGSIZE
    else if k == 2 then data / PGSIZE
    else if k == 3 then USERPAGES + PHYSTOP / PGSIZE
    else ALLPAGES
  }

  /** mappages has mapped k of the n pages from `first` on to the physical pages from g on. */
  ghost predicate Ranged(s0: Vm, s: Vm, d: int, first: int, n: int, k: int, g: int, flags: int)
    requires 0 <= flags < PGSIZE
  {
    && Inv(s0) && Inv(s) && s.dirs == s0.dirs && Apart(s0, s, d, first, first + n)
    && (forall v :: first <= v < first + k ==> Pte(s.mem, d, v) == Entry(g + (v - first), flags))
    && (forall v :: first + k <= v < first + n ==> Pte(s.mem, d, v) == Pte(s0.mem, d, v))
    && (forall f :: f in s0.owner ==> Holds(s.owner, f, s0.owner[f]))
    && (forall f :: f in s.owner && f !in s0.owner ==> s.owner[f].Table? && s.owner[f].d == d)
  }

  lemma RangeStart(s: Vm, d: int, first: int, n: int, g: int, flags: int)
    requires Inv(s) && 0 <= flags < PGSIZE
    ensures Ranged(s, s, d, first, n, 0, g, flags)
  {
  }

  lemma RangeStep(s0: Vm, s: Vm, s1: Vm, d: int, first: int, n: int, k: int, g: int, flags: int)
    requires 0 <= flags < PGSIZE && Ranged(s0, s, d, first, n, k, g, flags) && 0 <= k < n && d in s.dirs
    requires USERPAGES <= first && first + n <= ALLPAGES
    requires Inv(s1) && Mapping(s, s1, d, first + k, Entry(g + k, flags))
    ensures Ranged(s0, s1, d, first, n, k + 1, g, flags)
  {
    hide Pte, Inv, Apart, Entry;
    ApartWider(s, s1, d, first + k, first + k + 1, d, first, first + n);
    ApartTrans(s0, s, s1, d, first, first + n);
    forall v | first <= v < first + n && v != first + k ensures Pte(s1.mem, d, v) == Pte(s.mem, d, v) {
    }
  }

  /** One more entry of kmap. */
  lemma KmapDone(s0: Vm, s: Vm, d: int, data: int, k: nat)
    requires DataOk(data) && k < 4 && KernelUpTo(s0.mem, d, data, Reach(data, k)) && d in s0.dirs && d in s.dirs
    requires
      var e := Kmaps(data)[k];
      Ranged(s0, s, d, e.virt / PGSIZE, SizeOf(e), SizeOf(e), e.start / PGSIZE, WithP(e.perm))
    ensures KernelUpTo(s.mem, d, data, Reach(data, k + 1))
  {
    hide Pte, Inv;
    var e := Kmaps(data)[k];
    var first, n := e.virt / PGSIZE, SizeOf(e);
    RangeBounds(data, k);
    forall v | 0 <= v < ALLPAGES ensures Pte(s.mem, d, v) == if v < Reach(data, k + 1) then KernelPte(data, v) else 0 {
      if first <= v < first + n {
        KernelPteIs(data, k, v);
      } else {
        assert Pte(s.mem, d, v) == Pte(s0.mem, d, v);
        KernelPteOutside(data, k, v);
      }
    }
  }

  /** The number of pages of an entry; the last one ends at the top of the address space. */
  function SizeOf(e: Kmap): int {
    ((e.end - e.start) % 0x1_0000_0000) / PGSIZE
  }

  lemma RangeBounds(data: int, k: nat)
    requires DataOk(data) && k < 4
    ensures
      var e := Kmaps(data)[k];
      var first, n := e.virt / PGSIZE, SizeOf(e);
      && n > 0 && Reach(data, k) <= first && first + n == Reach(data, k + 1) <= ALLPAGES
      && (k < 3 ==> first == Reach(data, k))
      && USERPAGES <= first && e.start >= 0 && 0 <= WithP(e.perm) < PGSIZE && On(WithP(e.perm))
  {
  }

  lemma KernelPteIs(data: int, k: nat, v: int)
    requires DataOk(data) && k < 4
    requires var e := Kmaps(data)[k]; e.virt / PGSIZE <= v < e.virt / PGSIZE + SizeOf(e)
    ensures
      var e := Kmaps(data)[k];
      KernelPte(data, v) == Entry(e.start / PGSIZE + (v - e.virt / PGSIZE), WithP(e.perm))
  {
  }

  lemma KernelPteOutside(data: int, k: nat, v: int)
    requires DataOk(data) && k < 4 && 0 <= v < ALLPAGES
    requires var e := Kmaps(data)[k]; !(e.virt / PGSIZE <= v < e.virt / PGSIZE + SizeOf(e))
    ensures v < Reach(data, k + 1) && v >= Reach(data, k) ==> KernelPte(data, v) == 0
    ensures Reach(data, k) <= Reach(data, k + 1)
  {
  }
}
