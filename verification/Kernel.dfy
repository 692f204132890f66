/** kalloc.c and vm.c over physical memory. */
module Kernel {
  import opened Paging
  import opened VmState

  /** What may differ from s to s' in page tables and user memory: only pages a..b of directory d. */
  ghost predicate Apart(s: Vm, s': Vm, d: int, a: int, b: int) {
    && |s'.mem| == |s.mem| && s'.lo == s.lo && s.dirs - {d} <= s'.dirs
    && (forall e, v :: e in s.dirs && e in s'.dirs && 0 <= v < ALLPAGES && !(e == d && a <= v < b) ==>
        Pte(s'.mem, e, v) == Pte(s.mem, e, v))
    && (forall f :: f in s.owner && s.owner[f].User? && !(s.owner[f].d == d && a <= s.owner[f].v < b) ==>
          Holds(s'.owner, f, s.owner[f]) && 0 <= f < |s.mem| && s'.mem[f] == s.mem[f])
  }

  lemma ApartRefl(s: Vm, d: int, a: int, b: int)
    requires Inv(s)
    ensures Apart(s, s, d, a, b)
  {
  }

  lemma ApartTrans(s: Vm, s1: Vm, s2: Vm, d: int, a: int, b: int)
    requires Apart(s, s1, d, a, b) && Apart(s1, s2, d, a, b)
    requires d in s.dirs && d in s2.dirs ==> d in s1.dirs
    ensures Apart(s, s2, d, a, b)
  {
  }

  lemma ApartWider(s: Vm, s': Vm, d: int, a: int, b: int, d': int, a': int, b': int)
    requires Apart(s, s', d, a, b)
    requires (a >= b && s.dirs <= s'.dirs) || (d' == d && a' <= a && b <= b')
    ensures Apart(s, s', d', a', b')
  {
  }

  class Memory {
    const lo: int
    var mem: Mem
    var freelist: int
    ghost var frees: seq<int>
    ghost var dirs: set<int>
    ghost var owner: map<int, Owner>

    ghost function State(): Vm
      reads this
    {
      Vm(mem, lo, frees, dirs, owner)
    }

    ghost predicate Valid()
      reads this
    {
      Inv(State()) && freelist == Link(frees, 0)
    }

    /** At boot no page is free yet: kinit1 and kinit2 free them by freerange. */
    constructor (lo: int, pages: Mem)
      requires 0 < lo <= |pages| && forall f :: 0 <= f < |pages| ==> |pages[f]| == NPTE
      ensures Valid() && this.lo == lo && mem == pages && frees == [] && dirs == {}
      ensures forall f :: lo <= f < |pages| ==> Holds(owner, f, Held)
    {
      this.lo := lo;
      mem, freelist, frees, dirs := pages, 0, [], {};
      owner := AllHeld(lo, |pages|);
    }

    /** freerange over the pages from a up to b. */
    method Freerange(a: int, b: int) returns (ok: bool)
      requires Valid() && lo <= a <= b <= |mem| && forall f :: a <= f < b ==> Holds(owner, f, Held)
      modifies this`mem, this`freelist, this`frees, this`owner
      ensures ok && Valid() && |mem| == |old(mem)|
      ensures forall f :: f in owner <==> f in old(owner) && !(a <= f < b)
      ensures forall f :: f in owner ==> owner[f] == old(owner)[f]
    {
      hide Inv, Apart, SamePdes, SamePtes;
      ok := true;
      var p := a;
      while p < b
        invariant a <= p <= b && Valid() && |mem| == |old(mem)|
        invariant forall f :: f in owner <==> f in old(owner) && !(a <= f < p)
        invariant forall f :: f in owner ==> owner[f] == old(owner)[f]
      {
        LoPositive(State());
        assert Holds(old(owner), p, Held);
        ok := Kfree(p);
        if !ok {
          return false;
        }
        p := p + 1;
      }
      ok := true;
    }

    /** kalloc: 0 when there is no free page. */
    method Kalloc() returns (f: int)
      requires Valid()
      modifies this`freelist, this`frees, this`owner
      ensures Valid()
      ensures f == 0 <==> old(frees) == []
      ensures f == 0 ==> State() == old(State())
      ensures f != 0 ==> f == old(frees[0]) && State() == Taken(old(State())) && lo <= f < |mem|
      ensures f != 0 ==> Apart(old(State()), State(), 0, 0, 0)
    {
      hide Inv, Apart;
      ghost var s := State();
      if freelist == 0 {
        FreeHead(s);
        return 0;
      }
      FreeHead(s);
      f := (freelist - KERNBASE) / PGSIZE;
      TakenKeeps(s);
      freelist := mem[f][0];
      frees, owner := frees[1..], owner[f := Held];
      TakenApart(s);
    }

    /** kfree; false stands for the panic. */
    method Kfree(f: int) returns (ok: bool)
      requires Valid() && (lo <= f < |mem| ==> Holds(owner, f, Held))
      modifies this`mem, this`freelist, this`frees, this`owner
      ensures Valid()
      ensures ok <==> lo <= f < |mem|
      ensures !ok ==> State() == old(State())
      ensures ok ==> State() == Given(old(State()), f) && Apart(old(State()), State(), 0, 0, 0)
      ensures ok ==> SamePdes(old(mem), mem, dirs) && SamePtes(old(mem), mem, dirs)
    {
      hide Inv, Apart, SamePdes, SamePtes, Junk;
      ghost var s := State();
      LoPositive(s);
      if f < lo || f >= |mem| {
        return false;
      }
      GivenKeeps(s, f);
      GivenApart(s, f);
      PushFree(f);
      ok := true;
    }

    /** The rest of kfree: junk in the page, and the page at the head of the free list. */
    method PushFree(f: int)
      requires 0 <= f < |mem|
      modifies this`mem, this`freelist, this`frees, this`owner
      ensures mem == old(mem)[f := Junk(old(freelist))] && freelist == Addr(f)
      ensures frees == [f] + old(frees) && owner == old(owner) - {f}
    {
      hide Junk;
      mem := mem[f := Junk(freelist)];
      freelist := Addr(f);
      frees, owner := [f] + frees, owner - {f};
    }

    /** walkpgdir: the page table that holds the entry of virtual page v, 0 if there is none. */
    method Walkpgdir(d: int, v: int, alloc: bool) returns (t: int)
      requires Valid() && d in dirs && 0 <= v < ALLPAGES
      modifies this`mem, this`freelist, this`frees, this`owner
      ensures Valid()
      ensures t == 0 <==> !On(old(Pde(mem, d, Pdx(v)))) && (!alloc || old(frees) == [])
      ensures t == 0 || old(On(Pde(mem, d, Pdx(v)))) ==> State() == old(State())
      ensures t != 0 ==>
                && On(Pde(mem, d, Pdx(v))) && HasW(Pde(mem, d, Pdx(v))) && HasU(Pde(mem, d, Pdx(v)))
                && t == Frame(Pde(mem, d, Pdx(v))) && 0 <= t < |mem| && |mem[t]| == NPTE
      ensures t != 0 ==> Walked(old(State()), State(), d, v)
      ensures SamePtes(old(mem), mem, dirs) && Apart(old(State()), State(), 0, 0, 0)
    {
      hide Inv, Apart, SamePtes, SamePdes, Pte, Entry, Zeros, Walked, HasW, HasU;
      ghost var s := State();
      ApartRefl(s, 0, 0, 0);
      DirShape(s, d, v);
      SamePtesRefl(mem, dirs);
      var pde := mem[d][Pdx(v)];
      if On(pde) {
        t := Frame(pde);
        TableShape(s, d, v);
        WalkedNothing(s, d, v);
        return;
      }
      if !alloc {
        return 0;
      }
      t := Kalloc();
      if t == 0 {
        return 0;
      }
      ghost var s1 := State();
      WalkedIs(s, d, v);
      TabledKeeps(s1, d, Pdx(v), t);
      TabledApart(s1, d, Pdx(v), t);
      mem := mem[t := Zeros()];
      mem := mem[d := mem[d][Pdx(v) := Entry(t, UPTE)]];
      owner := owner[t := Table(d, Pdx(v))];
      TableShape(State(), d, v);
      ApartTrans(s, s1, State(), 0, 0, 0);
    }

    /** One turn of mappages: the entry of virtual page v becomes w. */
    method MapPage(d: int, v: int, w: int) returns (r: MapResult)
      requires Valid() && d in dirs && 0 <= v < ALLPAGES && On(w)
      requires v < USERPAGES ==> Holds(owner, Frame(w), Held)
      modifies this`mem, this`freelist, this`frees, this`owner
      ensures Valid()
      ensures r == NoMemory <==> !On(old(Pde(mem, d, Pdx(v)))) && old(frees) == []
      ensures r == Remap <==> On(old(Pte(mem, d, v)))
      ensures r != Done ==> State() == old(State())
      ensures r == Done ==> Mapping(old(State()), State(), d, v, w) && |frees| >= |old(frees)| - 1
    {
      hide Inv, Apart, SamePtes, SamePdes, Pte, OnlyPte, MappedState, Mapping, Walked;
      ghost var s := State();
      NoTableNoPte(mem, d, v);
      var t := Walkpgdir(d, v, true);
      if t == 0 {
        return NoMemory;
      }
      ghost var s1 := State();
      TableShape(s1, d, v);
      PteStays(s.mem, s1.mem, dirs, d, v);
      if On(mem[t][Ptx(v)]) {
        return Remap;
      }
      MappingIs(s, s1, d, v, w);
      MappedIs(s1, d, v, w);
      WalkedFrees(s, s1, d, v);
      mem := mem[t := mem[t][Ptx(v) := w]];
      owner := if v < USERPAGES then owner[Frame(w) := User(d, v)] else owner;
      r := Done;
    }

    /** deallocuvm's work on one page that is present: free it and clear the entry.  False stands for
        the panics. */
    method UnmapPage(d: int, v: int, t: int) returns (ok: bool)
      requires Valid() && d in dirs && 0 <= v < USERPAGES && On(Pte(mem, d, v)) && t == Frame(Pde(mem, d, Pdx(v)))
      modifies this`mem, this`freelist, this`frees, this`owner
      ensures ok && Valid() && Unmapping(old(State()), State(), d, v)
    {
      hide Inv, Apart, SamePtes, SamePdes, Pte, OnlyPte, Junk, Unmapping;
      ghost var s := State();
      LoPositive(s);
      UnmapKeeps(s, d, v);
      TableShape(s, d, v);
      UserShape(s, d, v);
      var f := Frame(mem[t][Ptx(v)]);
      if f == 0 || f < lo || f >= |mem| {
        return false;
      }
      PushFree(f);
      mem := mem[t := mem[t][Ptx(v) := 0]];
      UnmappingIs(s, State(), d, v);
      ok := true;
    }
  }

  /** What unmapping page v does: its entry is gone and its page is free; nothing else changes. */
  ghost predicate Unmapping(s: Vm, s': Vm, d: int, v: int) {
    && s'.dirs == s.dirs && Apart(s, s', d, v, v + 1) && OnlyPte(s.mem, s'.mem, s.dirs, d, v)
    && Pte(s'.mem, d, v) == 0 && SamePdes(s.mem, s'.mem, s.dirs)
    && Holds(s.owner, Frame(Pte(s.mem, d, v)), User(d, v)) && s'.owner == s.owner - {Frame(Pte(s.mem, d, v))}
  }

  lemma UserShape(s: Vm, d: int, v: int)
    requires Inv(s) && d in s.dirs && 0 <= v < USERPAGES && On(Pte(s.mem, d, v))
    ensures
      var f := Frame(Pte(s.mem, d, v));
      0 < s.lo <= f < |s.mem| && |s.mem[f]| == NPTE && Holds(s.owner, f, User(d, v))
  {
  }

  lemma UnmappingIs(s: Vm, s': Vm, d: int, v: int)
    requires Inv(s) && d in s.dirs && 0 <= v < USERPAGES && On(Pte(s.mem, d, v))
    requires
      var f, t := Frame(Pte(s.mem, d, v)), Frame(Pde(s.mem, d, Pdx(v)));
      && 0 <= f < |s.mem| && 0 <= t < |s.mem| && |s.mem[t]| == NPTE
      && var one := s.mem[f := Junk(Link(s.frees, 0))];
         s' == Vm(one[t := one[t][Ptx(v) := 0]], s.lo, [f] + s.frees, s.dirs, s.owner - {f})
    ensures Inv(s') && Unmapping(s, s', d, v)
  {
    hide Pde, Pte, Inv, FreeOk, Junk, SamePdes, SamePtes;
    UnmapKeeps(s, d, v);
    TableShape(s, d, v);
    UserShape(s, d, v);
    var f, t := Frame(Pte(s.mem, d, v)), Frame(Pde(s.mem, d, Pdx(v)));
    var s1 := Mapped(s, d, v, 0, s.owner[f := Held]);
    GivenKeeps(s1, f);
    assert s'.mem == Given(s1, f).mem;
    assert s'.owner == Given(s1, f).owner;
    SameOnly(s.mem, s1.mem, s'.mem, s.dirs, d, v);
    SamePdesTrans(s.mem, s1.mem, s'.mem, s.dirs);
    UnmapApart(s, s', d, v);
  }

  lemma SameOnly(mem: Mem, mem1: Mem, mem2: Mem, dirs: set<int>, d: int, v: int)
    requires OnlyPte(mem, mem1, dirs, d, v) && SamePtes(mem1, mem2, dirs)
    ensures OnlyPte(mem, mem2, dirs, d, v)
    ensures d in dirs && 0 <= v < ALLPAGES ==> Pte(mem2, d, v) == Pte(mem1, d, v)
  {
  }

  lemma SamePdesTrans(mem: Mem, mem1: Mem, mem2: Mem, dirs: set<int>)
    requires SamePdes(mem, mem1, dirs) && SamePdes(mem1, mem2, dirs)
    ensures SamePdes(mem, mem2, dirs)
  {
  }

  lemma UnmapApart(s: Vm, s': Vm, d: int, v: int)
    requires Inv(s) && d in s.dirs && 0 <= v < USERPAGES && On(Pte(s.mem, d, v))
    requires s'.dirs == s.dirs && s'.lo == s.lo && |s'.mem| == |s.mem| && OnlyPte(s.mem, s'.mem, s.dirs, d, v)
    requires s'.owner == s.owner - {Frame(Pte(s.mem, d, v))}
    requires forall f :: 0 <= f < |s.mem| && f != Frame(Pte(s.mem, d, v)) && f != Frame(Pde(s.mem, d, Pdx(v))) ==>
             s'.mem[f] == s.mem[f]
    ensures Apart(s, s', d, v, v + 1)
  {
    UserShape(s, d, v);
    TableShape(s, d, v);
    hide Pte, Pde, Owns, FreeOk;
  }

  datatype MapResult = Done | NoMemory | Remap

  ghost function MappedState(s: Vm, d: int, v: int, w: int): Vm
    requires var t := Frame(Pde(s.mem, d, Pdx(v))); 0 <= t < |s.mem| && 0 <= Ptx(v) < |s.mem[t]|
  {
    Mapped(s, d, v, w, if v < USERPAGES then s.owner[Frame(w) := User(d, v)] else s.owner)
  }

  /** What mapping page v does: that entry of the flat map, the owner of the page behind it, and at
      most a page table more. */
  ghost predicate Mapping(s: Vm, s': Vm, d: int, v: int, w: int) {
    && s'.dirs == s.dirs && Apart(s, s', d, v, v + 1) && OnlyPte(s.mem, s'.mem, s.dirs, d, v)
    && Pte(s'.mem, d, v) == w
    && (v < USERPAGES ==>
              Holds(s'.owner, Frame(w), User(d, v)) && 0 <= Frame(w) < |s.mem| && s'.mem[Frame(w)] == s.mem[Frame(w)])
    && (forall f :: f in s.owner && !(v < USERPAGES && f == Frame(w)) ==> Holds(s'.owner, f, s.owner[f]))
    && (forall f :: f in s'.owner && f !in s.owner ==> s'.owner[f] == Table(d, Pdx(v)))
  }

  lemma MappingIs(s: Vm, s1: Vm, d: int, v: int, w: int)
    requires Inv(s) && Inv(s1) && s1.dirs == s.dirs && d in s.dirs && 0 <= v < ALLPAGES
    requires Apart(s, s1, 0, 0, 0) && SamePtes(s.mem, s1.mem, s.dirs)
    requires On(Pde(s1.mem, d, Pdx(v))) && !On(Pte(s.mem, d, v)) && On(w)
    requires v < USERPAGES ==> Holds(s.owner, Frame(w), Held)
    requires Walked(s, s1, d, v)
    ensures var t := Frame(Pde(s1.mem, d, Pdx(v))); 0 <= t < |s1.mem| && |s1.mem[t]| == NPTE
    ensures Inv(MappedState(s1, d, v, w)) && Mapping(s, MappedState(s1, d, v, w), d, v, w)
  {
    hide Pde, Pte, Inv, FreeOk, Apart;
    PteStays(s.mem, s1.mem, s.dirs, d, v);
    TableShape(s1, d, v);
    WalkedKeeps(s, s1, d, v);
    if v < USERPAGES {
      HeldStays(s, s1, d, v, Frame(w));
      MapUserKeeps(s1, d, v, w);
    } else {
      MapKernelKeeps(s1, d, v, w);
    }
    var s' := MappedState(s1, d, v, w);
    MappedApart(s1, d, v, w);
    ApartWider(s, s1, 0, 0, 0, d, v, v + 1);
    ApartTrans(s, s1, s', d, v, v + 1);
    assert OnlyPte(s.mem, s'.mem, s.dirs, d, v);
  }

  lemma MappedApart(s: Vm, d: int, v: int, w: int)
    requires Inv(s) && d in s.dirs && 0 <= v < ALLPAGES && On(Pde(s.mem, d, Pdx(v)))
    requires v < USERPAGES ==> Holds(s.owner, Frame(w), Held)
    requires var t := Frame(Pde(s.mem, d, Pdx(v))); 0 <= t < |s.mem| && |s.mem[t]| == NPTE
    ensures Apart(s, MappedState(s, d, v, w), d, v, v + 1)
  {
    TableShape(s, d, v);
    WritePte(s.mem, s.dirs, s.owner, s.lo, d, v, w);
    hide Pde, Pte, Owns, FreeOk;
  }

  lemma NoTableNoPte(mem: Mem, d: int, v: int)
    ensures !On(Pde(mem, d, Pdx(v))) ==> !On(Pte(mem, d, v))
  {
  }

  lemma PteStays(mem: Mem, mem': Mem, dirs: set<int>, d: int, v: int)
    requires SamePtes(mem, mem', dirs) && d in dirs && 0 <= v < ALLPAGES
    ensures Pte(mem', d, v) == Pte(mem, d, v)
  {
  }

  /** What walkpgdir leaves: nothing changed, or a page table more. */
  ghost predicate Walked(s: Vm, s1: Vm, d: int, v: int) {
    || s1 == s
    || (&& s.frees != [] && s1.dirs == s.dirs && s1.lo == s.lo && |s1.mem| == |s.mem|
        && s1.frees == s.frees[1..] && s1.owner == s.owner[s.frees[0] := Table(d, Pdx(v))]
        && (forall f :: f in s.owner && f != d && 0 <= f < |s.mem| ==> s1.mem[f] == s.mem[f]))
  }

  lemma WalkedFrees(s: Vm, s1: Vm, d: int, v: int)
    requires Walked(s, s1, d, v)
    ensures |s1.frees| >= |s.frees| - 1
  {
  }

  lemma WalkedNothing(s: Vm, d: int, v: int)
    ensures Walked(s, s, d, v)
  {
  }

  lemma WalkedKeeps(s: Vm, s1: Vm, d: int, v: int)
    requires Inv(s) && Walked(s, s1, d, v)
    ensures forall f :: f in s.owner ==> Holds(s1.owner, f, s.owner[f])
    ensures forall f :: f in s1.owner && f !in s.owner ==> s1.owner[f] == Table(d, Pdx(v))
  {
  }

  lemma HeldStays(s: Vm, s1: Vm, d: int, v: int, f: int)
    requires Inv(s) && Holds(s.owner, f, Held) && Walked(s, s1, d, v) && d in s.dirs
    ensures Holds(s1.owner, f, Held) && 0 <= f < |s.mem| == |s1.mem| && s1.mem[f] == s.mem[f]
  {
  }

  lemma MappedIs(s: Vm, d: int, v: int, w: int)
    requires var t := Frame(Pde(s.mem, d, Pdx(v))); 0 <= t < |s.mem| && 0 <= Ptx(v) < |s.mem[t]|
    ensures
      var t := Frame(Pde(s.mem, d, Pdx(v)));
      MappedState(s, d, v, w) == Vm(s.mem[t := s.mem[t][Ptx(v) := w]], s.lo, s.frees, s.dirs,
                                    if v < USERPAGES then s.owner[Frame(w) := User(d, v)] else s.owner)
  {
  }

  lemma WalkedIs(s: Vm, d: int, v: int)
    requires Inv(s) && d in s.dirs && 0 <= v < ALLPAGES && s.frees != []
    ensures 0 <= d < |s.mem| && |s.mem[d]| == NPTE && 0 <= s.frees[0] < |s.mem| && s.frees[0] !in s.owner
    ensures s.frees[0] != d
    ensures Walked(s, Tabled(Taken(s), d, Pdx(v), s.frees[0]), d, v)
  {
  }

  lemma FreeHead(s: Vm)
    requires Inv(s)
    ensures Link(s.frees, 0) == 0 <==> s.frees == []
    ensures s.frees != [] ==>
              s.lo <= s.frees[0] < |s.mem| && s.frees[0] !in s.owner
                && (Link(s.frees, 0) - KERNBASE) / PGSIZE == s.frees[0]
              && 0 < s.lo && |s.mem[s.frees[0]]| == NPTE && s.mem[s.frees[0]][0] == Word(s.mem, s.frees[0], 0)
  {
  }

  ghost function AllHeld(lo: int, n: int): (r: map<int, Owner>)
    ensures forall f :: f in r <==> lo <= f < n
    ensures forall f :: f in r ==> r[f] == Held
    decreases n - lo
  {
    if n <= lo then map[] else AllHeld(lo, n - 1)[n - 1 := Held]
  }

  lemma LoPositive(s: Vm)
    requires Inv(s)
    ensures 0 < s.lo
  {
  }

  lemma TakenApart(s: Vm)
    requires Inv(s) && s.frees != []
    ensures Apart(s, Taken(s), 0, 0, 0)
  {
  }

  lemma StoredApart(s: Vm, f: int, page: seq<int>)
    requires Inv(s) && Holds(s.owner, f, Held) && 0 <= f < |s.mem| && |page| == NPTE
    ensures Inv(Stored(s, f, page)) && Apart(s, Stored(s, f, page), 0, 0, 0)
  {
    StoredKeeps(s, f, page);
    hide Pte, Pde, Owns, FreeOk;
  }

  lemma NewDirApart(s: Vm, f: int)
    requires Inv(s) && Holds(s.owner, f, Held) && 0 <= f < |s.mem|
    ensures Apart(s, NewDir(s, f), f, 0, ALLPAGES)
  {
  }

  lemma GivenApart(s: Vm, f: int)
    requires Inv(s) && Holds(s.owner, f, Held) && 0 <= f < |s.mem|
    ensures Apart(s, Given(s, f), 0, 0, 0)
  {
    hide Pte, Owns, Junk, FreeOk;
    GivenKeeps(s, f);
  }

  lemma DirShape(s: Vm, d: int, v: int)
    requires Inv(s) && d in s.dirs && 0 <= v < ALLPAGES
    ensures 0 <= d < |s.mem| && |s.mem[d]| == NPTE && 0 <= Pdx(v) < NPTE && s.mem[d][Pdx(v)] == Pde(s.mem, d, Pdx(v))
  {
  }

  lemma TableShape(s: Vm, d: int, v: int)
    requires Inv(s) && d in s.dirs && 0 <= v < ALLPAGES && On(Pde(s.mem, d, Pdx(v)))
    ensures
      var t := Frame(Pde(s.mem, d, Pdx(v)));
      0 < t < |s.mem| && |s.mem[t]| == NPTE && 0 <= Ptx(v) < NPTE && Holds(s.owner, t, Table(d, Pdx(v)))
      && s.mem[t][Ptx(v)] == Pte(s.mem, d, v)
    ensures HasW(Pde(s.mem, d, Pdx(v))) && HasU(Pde(s.mem, d, Pdx(v)))
  {
  }

  lemma SamePtesRefl(mem: Mem, dirs: set<int>)
    ensures SamePtes(mem, mem, dirs) && SamePdes(mem, mem, dirs)
  {
  }

  lemma TabledApart(s: Vm, d: int, x: int, f: int)
    requires Inv(s) && d in s.dirs && 0 <= x < NPTE && !On(Pde(s.mem, d, x)) && Holds(s.owner, f, Held)
    requires 0 <= d < |s.mem| && |s.mem[d]| == NPTE && 0 <= f < |s.mem|
    ensures Apart(s, Tabled(s, d, x, f), 0, 0, 0)
  {
    TabledKeeps(s, d, x, f);
    hide Pte, Pde, TablesOwned, UsersOwned, Backed, FreeOk, Zeros, Entry;
    assert Holds(s.owner, d, Dir);
  }
}
