/** Every step of kalloc.c and vm.c that changes memory, and why each page stays in exactly one place. */
module VmState {
  import opened Paging

  /** `frees`: the free list, head first.  `lo`: the first page that kalloc may hand out. */
  datatype Vm = Vm(mem: Mem, lo: int, frees: seq<int>, dirs: set<int>, owner: map<int, Owner>)

  ghost predicate DistinctPages(s: seq<int>) {
    forall i, j :: 0 <= i < j < |s| ==> s[i] != s[j]
  }

  /** The kernel address of page f. */
  function Addr(f: int): int {
    KERNBASE + f * PGSIZE
  }

  /** The address of the k-th free page, 0 past the end. */
  function Link(frees: seq<int>, k: int): int {
    if 0 <= k < |frees| then Addr(frees[k]) else 0
  }

  ghost predicate InRange(frees: seq<int>, owner: map<int, Owner>, lo: int, n: int) {
    forall k :: 0 <= k < |frees| ==> lo <= frees[k] < n && frees[k] !in owner
  }

  ghost predicate AllFree(frees: seq<int>, owner: map<int, Owner>, lo: int, n: int) {
    forall f :: lo <= f < n && f !in owner ==> f in frees
  }

  ghost predicate Linked(mem: Mem, frees: seq<int>) {
    forall k :: 0 <= k < |frees| ==> Word(mem, frees[k], 0) == Link(frees, k + 1)
  }

  /** The pages not in use are in the free list, once each, linked through their first words. */
  ghost predicate FreeOk(mem: Mem, frees: seq<int>, owner: map<int, Owner>, lo: int) {
    && InRange(frees, owner, lo, |mem|) && AllFree(frees, owner, lo, |mem|)
    && DistinctPages(frees) && Linked(mem, frees)
  }

  ghost predicate Inv(s: Vm) {
    Shape(s.mem, s.owner, s.lo) && Owns(s.mem, s.dirs, s.owner) && FreeOk(s.mem, s.frees, s.owner, s.lo)
  }

  /** Page conservation, spelled out: a page is free, or in one use; what refers to it is that use. */
  lemma PagesConserved(s: Vm, f: int)
    requires Inv(s) && s.lo <= f < |s.mem|
    ensures f in s.frees <==> f !in s.owner
    ensures forall d, x :: d in s.dirs && 0 <= x < NPTE && On(Pde(s.mem, d, x)) && Frame(Pde(s.mem, d, x)) == f ==>
              Holds(s.owner, f, Table(d, x))
    ensures forall d, v :: d in s.dirs && 0 <= v < USERPAGES && On(Pte(s.mem, d, v)) && Frame(Pte(s.mem, d, v)) == f ==>
              Holds(s.owner, f, User(d, v))
  {
  }

  /** Directory entries restrict nothing: the rights to a page are those of its own entry. */
  lemma RightsAre(s: Vm, d: int, v: int)
    requires Inv(s) && d in s.dirs && 0 <= v < ALLPAGES
    ensures
      var w := Pte(s.mem, d, v);
      Rights(s.mem, d, v) == if On(w) then Access(HasW(w), HasU(w)) else NoAccess
  {
    hide FreeOk, UsersOwned, HasW, HasU;
    var e := Pde(s.mem, d, Pdx(v));
    if On(e) {
      assert Holds(s.owner, Frame(e), Table(d, Pdx(v)));
    }
  }

  // ---------- the free list ----------

  ghost function Taken(s: Vm): Vm
    requires s.frees != []
  {
    s.(frees := s.frees[1..], owner := s.owner[s.frees[0] := Held])
  }

  lemma TakenKeeps(s: Vm)
    requires Inv(s) && s.frees != []
    ensures Inv(Taken(s))
    ensures Word(s.mem, s.frees[0], 0) == Link(s.frees[1..], 0)
  {
    hide Pde, Pte, FreeOk;
    FreePop(s.mem, s.frees, s.owner, s.lo);
    OwnsSame(s.mem, s.mem, s.dirs, s.owner, Taken(s).owner, s.frees[0]);
  }

  lemma FreePop(mem: Mem, frees: seq<int>, owner: map<int, Owner>, lo: int)
    requires FreeOk(mem, frees, owner, lo) && frees != []
    ensures FreeOk(mem, frees[1..], owner[frees[0] := Held], lo)
    ensures lo <= frees[0] < |mem| && frees[0] !in owner && Word(mem, frees[0], 0) == Link(frees[1..], 0)
  {
    var frees' := frees[1..];
    assert forall k :: 0 <= k < |frees'| ==> frees'[k] == frees[k + 1];
    assert InRange(frees', owner[frees[0] := Held], lo, |mem|);
    forall k | 0 <= k < |frees'| ensures Word(mem, frees'[k], 0) == Link(frees', k + 1) {
      assert Word(mem, frees[k + 1], 0) == Link(frees, k + 1 + 1);
    }
  }

  /** The owners may change for a page that no table or directory refers to. */
  lemma OwnsSame(mem: Mem, mem': Mem, dirs: set<int>, owner: map<int, Owner>, owner': map<int, Owner>, f: int)
    requires Owns(mem, dirs, owner) && SamePdes(mem, mem', dirs) && SamePtes(mem, mem', dirs)
    requires f in owner ==> owner[f] == Held
    requires f in owner' ==> owner'[f] == Held
    requires forall g :: g != f ==> (g in owner' <==> g in owner) && (g in owner ==> owner'[g] == owner[g])
    ensures Owns(mem', dirs, owner')
  {
  }

  /** kfree's page: filled with 1s, its first word the link. */
  function Junk(next: int): (r: seq<int>)
    ensures |r| == NPTE && r[0] == next
  {
    seq(NPTE, i => if i == 0 then next else 0x0101_0101)
  }

  ghost function Given(s: Vm, f: int): Vm {
    if 0 <= f < |s.mem| then
      s.(mem := s.mem[f := Junk(Link(s.frees, 0))], frees := [f] + s.frees, owner := s.owner - {f})
    else s
  }

  lemma GivenKeeps(s: Vm, f: int)
    requires Inv(s) && Holds(s.owner, f, Held)
    ensures s.lo <= f < |s.mem| && Inv(Given(s, f))
    ensures SamePdes(s.mem, Given(s, f).mem, s.dirs) && SamePtes(s.mem, Given(s, f).mem, s.dirs)
  {
    hide Pde, Pte, Junk, Backed, TablesOwned, UsersOwned, FreeOk;
    var s' := Given(s, f);
    WriteData(s.mem, s.dirs, s.owner, f, Junk(Link(s.frees, 0)));
    OwnsSame(s.mem, s'.mem, s.dirs, s.owner, s'.owner, f);
    FreePush(s.mem, s.frees, s.owner, s.lo, f, Junk(Link(s.frees, 0)));
  }

  lemma FreePush(mem: Mem, frees: seq<int>, owner: map<int, Owner>, lo: int, f: int, page: seq<int>)
    requires FreeOk(mem, frees, owner, lo) && 0 <= lo <= f < |mem| && f in owner && |page| == NPTE
    requires page[0] == Link(frees, 0)
    ensures FreeOk(mem[f := page], [f] + frees, owner - {f}, lo)
  {
    hide Linked, AllFree;
    PushLinks(mem, frees, owner, lo, f, page);
    PushAll(frees, owner, lo, f, |mem|);
  }

  lemma PushLinks(mem: Mem, frees: seq<int>, owner: map<int, Owner>, lo: int, f: int, page: seq<int>)
    requires InRange(frees, owner, lo, |mem|) && Linked(mem, frees) && 0 <= f < |mem| && f in owner
    requires |page| == NPTE && page[0] == Link(frees, 0)
    ensures Linked(mem[f := page], [f] + frees)
  {
  }

  lemma PushAll(frees: seq<int>, owner: map<int, Owner>, lo: int, f: int, n: int)
    requires AllFree(frees, owner, lo, n)
    ensures AllFree([f] + frees, owner - {f}, lo, n)
  {
  }

  /** Writes to pages in use leave the free list alone. */
  lemma FreeStays(mem: Mem, mem': Mem, frees: seq<int>, owner: map<int, Owner>, owner': map<int, Owner>, lo: int)
    requires FreeOk(mem, frees, owner, lo) && |mem'| == |mem| && 0 <= lo
    requires forall f :: f in owner <==> f in owner'
    requires forall f :: lo <= f < |mem| && f !in owner ==> mem'[f] == mem[f]
    ensures FreeOk(mem', frees, owner', lo)
  {
  }

  // ---------- page tables ----------

  /** A zeroed page becomes the page table for directory slot x. */
  ghost function Tabled(s: Vm, d: int, x: int, f: int): Vm
    requires 0 <= d < |s.mem| && 0 <= x < |s.mem[d]| && 0 <= f < |s.mem|
  {
    s.(mem := s.mem[f := Zeros()][d := s.mem[d][x := Entry(f, UPTE)]], owner := s.owner[f := Table(d, x)])
  }

  lemma TabledKeeps(s: Vm, d: int, x: int, f: int)
    requires Inv(s) && d in s.dirs && 0 <= x < NPTE && !On(Pde(s.mem, d, x)) && Holds(s.owner, f, Held)
    ensures 0 <= d < |s.mem| && |s.mem[d]| == NPTE && 0 <= f < |s.mem| && f != d
    ensures Inv(Tabled(s, d, x, f)) && SamePtes(s.mem, Tabled(s, d, x, f).mem, s.dirs)
    ensures Pde(Tabled(s, d, x, f).mem, d, x) == Entry(f, UPTE)
  {
    hide Pde, Pte, Entry, Zeros;
    WriteTable(s.mem, s.dirs, s.owner, s.lo, d, x, f);
    assert Holds(s.owner, d, Dir);
    var s' := Tabled(s, d, x, f);
    TabledOwns(s.mem, s'.mem, s.dirs, s.owner, d, x, f);
    FreeStays(s.mem, s'.mem, s.frees, s.owner, s'.owner, s.lo);
  }

  lemma TabledOwns(mem: Mem, mem': Mem, dirs: set<int>, owner: map<int, Owner>, d: int, x: int, f: int)
    requires Owns(mem, dirs, owner) && d in dirs && 0 <= x < NPTE && !On(Pde(mem, d, x)) && Holds(owner, f, Held)
    requires Pde(mem', d, x) == Entry(f, UPTE) && OnlyPde(mem, mem', dirs, d, x) && SamePtes(mem, mem', dirs)
    ensures Owns(mem', dirs, owner[f := Table(d, x)])
  {
  }

  /** An entry of a page table set to w; `o` is what the page it now points to, or pointed to, becomes. */
  ghost function Mapped(s: Vm, d: int, v: int, w: int, owner': map<int, Owner>): Vm
    requires var t := Frame(Pde(s.mem, d, Pdx(v))); 0 <= t < |s.mem| && 0 <= Ptx(v) < |s.mem[t]|
  {
    var t := Frame(Pde(s.mem, d, Pdx(v)));
    s.(mem := s.mem[t := s.mem[t][Ptx(v) := w]], owner := owner')
  }

  /** mappages of a user page: a page held by the kernel becomes that of virtual page v. */
  lemma MapUserKeeps(s: Vm, d: int, v: int, w: int)
    requires Inv(s) && d in s.dirs && 0 <= v < USERPAGES && On(Pde(s.mem, d, Pdx(v)))
    requires !On(Pte(s.mem, d, v)) && On(w) && Holds(s.owner, Frame(w), Held)
    ensures var t := Frame(Pde(s.mem, d, Pdx(v))); 0 <= t < |s.mem| && |s.mem[t]| == NPTE
    ensures
      var s' := Mapped(s, d, v, w, s.owner[Frame(w) := User(d, v)]);
      Inv(s') && Pte(s'.mem, d, v) == w && OnlyPte(s.mem, s'.mem, s.dirs, d, v) && SamePdes(s.mem, s'.mem, s.dirs)
  {
    hide Pde, Pte;
    WritePte(s.mem, s.dirs, s.owner, s.lo, d, v, w);
    var s' := Mapped(s, d, v, w, s.owner[Frame(w) := User(d, v)]);
    MapUserOwns(s.mem, s'.mem, s.dirs, s.owner, d, v, w);
    FreeStays(s.mem, s'.mem, s.frees, s.owner, s'.owner, s.lo);
  }

  lemma MapUserOwns(mem: Mem, mem': Mem, dirs: set<int>, owner: map<int, Owner>, d: int, v: int, w: int)
    requires Owns(mem, dirs, owner) && d in dirs && 0 <= v < USERPAGES && !On(Pte(mem, d, v)) && On(w)
    requires Holds(owner, Frame(w), Held)
    requires Pte(mem', d, v) == w && OnlyPte(mem, mem', dirs, d, v) && SamePdes(mem, mem', dirs)
    ensures Owns(mem', dirs, owner[Frame(w) := User(d, v)])
  {
  }

  /** mappages of a kernel page: no page changes hands. */
  lemma MapKernelKeeps(s: Vm, d: int, v: int, w: int)
    requires Inv(s) && d in s.dirs && USERPAGES <= v < ALLPAGES && On(Pde(s.mem, d, Pdx(v)))
    ensures var t := Frame(Pde(s.mem, d, Pdx(v))); 0 <= t < |s.mem| && |s.mem[t]| == NPTE
    ensures
      var s' := Mapped(s, d, v, w, s.owner);
      Inv(s') && Pte(s'.mem, d, v) == w && OnlyPte(s.mem, s'.mem, s.dirs, d, v) && SamePdes(s.mem, s'.mem, s.dirs)
  {
    hide Pde, Pte;
    WritePte(s.mem, s.dirs, s.owner, s.lo, d, v, w);
    var s' := Mapped(s, d, v, w, s.owner);
    forall d', v' | d' in s.dirs && 0 <= v' < USERPAGES ensures Pte(s'.mem, d', v') == Pte(s.mem, d', v') {
    }
    forall g | g in s.owner ensures Backed(s'.mem, s.dirs, s.owner[g], g) {
      assert Backed(s.mem, s.dirs, s.owner[g], g);
    }
    FreeStays(s.mem, s'.mem, s.frees, s.owner, s'.owner, s.lo);
  }

  /** An entry cleared: its page is back in the kernel's hands. */
  lemma UnmapKeeps(s: Vm, d: int, v: int)
    requires Inv(s) && d in s.dirs && 0 <= v < USERPAGES && On(Pte(s.mem, d, v))
    ensures On(Pde(s.mem, d, Pdx(v)))
    ensures
      var t := Frame(Pde(s.mem, d, Pdx(v)));
      0 <= t < |s.mem| && |s.mem[t]| == NPTE && t != Frame(Pte(s.mem, d, v))
    ensures Holds(s.owner, Frame(Pte(s.mem, d, v)), User(d, v))
    ensures
      var s' := Mapped(s, d, v, 0, s.owner[Frame(Pte(s.mem, d, v)) := Held]);
      Inv(s') && Pte(s'.mem, d, v) == 0 && OnlyPte(s.mem, s'.mem, s.dirs, d, v) && SamePdes(s.mem, s'.mem, s.dirs)
  {
    assert On(Pde(s.mem, d, Pdx(v)));
    hide Pde, Pte;
    WritePte(s.mem, s.dirs, s.owner, s.lo, d, v, 0);
    assert Holds(s.owner, Frame(Pte(s.mem, d, v)), User(d, v));
    var s' := Mapped(s, d, v, 0, s.owner[Frame(Pte(s.mem, d, v)) := Held]);
    UnmapOwns(s.mem, s'.mem, s.dirs, s.owner, d, v);
    FreeStays(s.mem, s'.mem, s.frees, s.owner, s'.owner, s.lo);
  }

  lemma UnmapOwns(mem: Mem, mem': Mem, dirs: set<int>, owner: map<int, Owner>, d: int, v: int)
    requires Owns(mem, dirs, owner) && d in dirs && 0 <= v < USERPAGES && On(Pte(mem, d, v))
    requires Pte(mem', d, v) == 0 && OnlyPte(mem, mem', dirs, d, v) && SamePdes(mem, mem', dirs)
    ensures Owns(mem', dirs, owner[Frame(Pte(mem, d, v)) := Held])
  {
  }

  // ---------- directories ----------

  /** setupkvm's first step: a zeroed page becomes a page directory. */
  ghost function NewDir(s: Vm, f: int): Vm
    requires 0 <= f < |s.mem|
  {
    s.(mem := s.mem[f := Zeros()], dirs := s.dirs + {f}, owner := s.owner[f := Dir])
  }

  lemma NewDirKeeps(s: Vm, f: int)
    requires Inv(s) && Holds(s.owner, f, Held)
    ensures 0 <= f < |s.mem| && Inv(NewDir(s, f)) && f !in s.dirs
    ensures SamePdes(s.mem, NewDir(s, f).mem, s.dirs) && SamePtes(s.mem, NewDir(s, f).mem, s.dirs)
    ensures forall v :: 0 <= v < ALLPAGES ==> Pte(NewDir(s, f).mem, f, v) == 0
  {
    hide Pde, Pte;
    var s' := NewDir(s, f);
    assert forall d :: d in s.dirs ==> Holds(s.owner, d, Dir);
    WriteData(s.mem, s.dirs, s.owner, f, Zeros());
    EmptyDir(s'.mem, f);
    NewDirOwns(s.mem, s'.mem, s.dirs, s.owner, f);
    FreeStays(s.mem, s'.mem, s.frees, s.owner, s'.owner, s.lo);
  }

  lemma EmptyDir(mem: Mem, f: int)
    requires 0 <= f < |mem| && mem[f] == Zeros()
    ensures forall x :: 0 <= x < NPTE ==> Pde(mem, f, x) == 0
    ensures forall v :: 0 <= v < ALLPAGES ==> Pte(mem, f, v) == 0
  {
  }

  lemma NewDirOwns(mem: Mem, mem': Mem, dirs: set<int>, owner: map<int, Owner>, f: int)
    requires Owns(mem, dirs, owner) && Holds(owner, f, Held) && f !in dirs
    requires SamePdes(mem, mem', dirs) && SamePtes(mem, mem', dirs)
    requires forall x :: 0 <= x < NPTE ==> Pde(mem', f, x) == 0
    requires forall v :: 0 <= v < ALLPAGES ==> Pte(mem', f, v) == 0
    ensures Owns(mem', dirs + {f}, owner[f := Dir])
  {
  }

  /** A page that belongs to directory d in any way. */
  predicate PartOf(o: Owner, f: int, d: int) {
    match o
    case Dir => f == d
    case Held => false
    case Table(d', _) => d' == d
    case User(d', _) => d' == d
  }

  /** freevm takes a directory without user pages out of use; its pages are the kernel's until freed. */
  ghost function Detached(s: Vm, d: int): Vm {
    s.(dirs := s.dirs - {d}, owner := map f | f in s.owner :: if PartOf(s.owner[f], f, d) then Held else s.owner[f])
  }

  lemma DetachKeeps(s: Vm, d: int)
    requires Inv(s) && d in s.dirs && forall v :: 0 <= v < USERPAGES ==> !On(Pte(s.mem, d, v))
    ensures Inv(Detached(s, d))
    ensures Holds(Detached(s, d).owner, d, Held)
    ensures forall x :: 0 <= x < NPTE && On(Pde(s.mem, d, x)) ==>
            Holds(Detached(s, d).owner, Frame(Pde(s.mem, d, x)), Held)
  {
  }

  // ---------- page contents ----------

  ghost function Stored(s: Vm, f: int, page: seq<int>): Vm
    requires 0 <= f < |s.mem|
  {
    s.(mem := s.mem[f := page])
  }

  lemma StoredKeeps(s: Vm, f: int, page: seq<int>)
    requires Inv(s) && f in s.owner && (s.owner[f].Held? || s.owner[f].User?) && |page| == NPTE
    ensures 0 <= f < |s.mem| && Inv(Stored(s, f, page))
    ensures SamePdes(s.mem, Stored(s, f, page).mem, s.dirs) && SamePtes(s.mem, Stored(s, f, page).mem, s.dirs)
  {
    hide Pde, Pte;
    var s' := Stored(s, f, page);
    WriteData(s.mem, s.dirs, s.owner, f, page);
    forall g | g in s.owner ensures Backed(s'.mem, s.dirs, s.owner[g], g) {
      assert Backed(s.mem, s.dirs, s.owner[g], g);
    }
    FreeStays(s.mem, s'.mem, s.frees, s.owner, s.owner, s.lo);
  }
}
