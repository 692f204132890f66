/** Physical pages, two-level page tables in them, and which page belongs to what (vm.c, mmu.h). */
module Paging {

  const NPTE := 1024                 // NPDENTRIES and NPTENTRIES: words in a page
  const PGSIZE := 4096
  const KERNBASE := 0x8000_0000
  const USERPAGES := KERNBASE / PGSIZE
  const ALLPAGES := 0x10_0000        // virtual pages of a 32-bit address space

  const PTE_P := 1
  const PTE_W := 2
  const PTE_U := 4
  const UPTE := PTE_P + PTE_W + PTE_U

  /** Physical memory, page by page and word by word. */
  type Mem = seq<seq<int>>

  function Word(mem: Mem, f: int, i: int): int {
    if 0 <= f < |mem| && 0 <= i < |mem[f]| then mem[f][i] else 0
  }

  function Pdx(v: int): int {
    v / NPTE
  }

  function Ptx(v: int): int {
    v % NPTE
  }

  predicate On(w: int) {
    w % 2 == 1
  }

  /** The page an entry points to. */
  function Frame(w: int): int {
    w / PGSIZE
  }

  function Flags(w: int): int {
    w % PGSIZE
  }

  /** An entry for page f: pa | flags. */
  function Entry(f: int, flags: int): (w: int)
    requires 0 <= flags < PGSIZE
    ensures Frame(w) == f && Flags(w) == flags && (On(w) <==> On(flags))
  {
    assert f * PGSIZE + flags == 2 * (f * (PGSIZE / 2)) + flags;
    f * PGSIZE + flags
  }

  predicate HasW(w: int) {
    Flags(w) / PTE_W % 2 == 1
  }

  predicate HasU(w: int) {
    Flags(w) / PTE_U % 2 == 1
  }

  function Pde(mem: Mem, d: int, x: int): int {
    Word(mem, d, x)
  }

  /** The flat map that a directory stands for: the entry of virtual page v, 0 where there is no table. */
  function Pte(mem: Mem, d: int, v: int): int {
    if On(Pde(mem, d, Pdx(v))) then Word(mem, Frame(Pde(mem, d, Pdx(v))), Ptx(v)) else 0
  }

  /** What the processor lets through at virtual page v. */
  datatype Access = NoAccess | Access(write: bool, user: bool)

  /** It asks both levels: a page can be written, or used in user mode, only if both entries say so. */
  function Rights(mem: Mem, d: int, v: int): Access {
    var e, w := Pde(mem, d, Pdx(v)), Pte(mem, d, v);
    if On(e) && On(w) then Access(HasW(e) && HasW(w), HasU(e) && HasU(w)) else NoAccess
  }

  /** What a page in use is: a page directory, a page table, a user page, or held by the kernel. */
  datatype Owner = Dir | Held | Table(d: int, x: int) | User(d: int, v: int)

  ghost predicate Holds(owner: map<int, Owner>, f: int, o: Owner) {
    f in owner && owner[f] == o
  }

  ghost predicate Backed(mem: Mem, dirs: set<int>, o: Owner, f: int) {
    match o
    case Dir => f in dirs
    case Held => true
    case Table(d, x) =>
      && d in dirs && 0 <= x < NPTE && On(Pde(mem, d, x)) && Frame(Pde(mem, d, x)) == f
      && HasW(Pde(mem, d, x)) && HasU(Pde(mem, d, x))
    case User(d, v) => d in dirs && 0 <= v < USERPAGES && On(Pte(mem, d, v)) && Frame(Pte(mem, d, v)) == f
  }

  ghost predicate TablesOwned(mem: Mem, dirs: set<int>, owner: map<int, Owner>) {
    forall d, x :: d in dirs && 0 <= x < NPTE && On(Pde(mem, d, x)) ==> Holds(owner, Frame(Pde(mem, d, x)), Table(d, x))
  }

  ghost predicate UsersOwned(mem: Mem, dirs: set<int>, owner: map<int, Owner>) {
    forall d, v :: d in dirs && 0 <= v < USERPAGES && On(Pte(mem, d, v)) ==>
           Holds(owner, Frame(Pte(mem, d, v)), User(d, v))
  }

  /** Every page that is referred to is recorded with the one place that refers to it. */
  ghost predicate Owns(mem: Mem, dirs: set<int>, owner: map<int, Owner>) {
    && (forall d :: d in dirs ==> Holds(owner, d, Dir))
    && TablesOwned(mem, dirs, owner)
    && UsersOwned(mem, dirs, owner)
    && (forall f :: f in owner ==> Backed(mem, dirs, owner[f], f))
  }

  ghost predicate Shape(mem: Mem, owner: map<int, Owner>, lo: int) {
    && 0 < lo <= |mem|
    && (forall f :: 0 <= f < |mem| ==> |mem[f]| == NPTE)
    && (forall f :: f in owner ==> lo <= f < |mem|)
  }

  // ---------- what a write to memory does to the page tables ----------

  ghost predicate SamePdes(mem: Mem, mem': Mem, dirs: set<int>) {
    forall d, x :: d in dirs && 0 <= x < NPTE ==> Pde(mem', d, x) == Pde(mem, d, x)
  }

  ghost predicate SamePtes(mem: Mem, mem': Mem, dirs: set<int>) {
    forall d, v :: d in dirs && 0 <= v < ALLPAGES ==> Pte(mem', d, v) == Pte(mem, d, v)
  }

  /** A page that is neither a directory nor a table can be overwritten. */
  lemma WriteData(mem: Mem, dirs: set<int>, owner: map<int, Owner>, f: int, page: seq<int>)
    requires Owns(mem, dirs, owner) && 0 <= f < |mem|
    requires f in owner ==> owner[f].Held? || owner[f].User?
    ensures SamePdes(mem, mem[f := page], dirs) && SamePtes(mem, mem[f := page], dirs)
  {
  }

  ghost predicate OnlyPde(mem: Mem, mem': Mem, dirs: set<int>, d: int, x: int) {
    forall d', x' :: d' in dirs && 0 <= x' < NPTE && !(d' == d && x' == x) ==> Pde(mem', d', x') == Pde(mem, d', x')
  }

  /** A new, empty page table leaves the flat map as it was. */
  lemma WriteTable(mem: Mem, dirs: set<int>, owner: map<int, Owner>, lo: int, d: int, x: int, f: int)
    requires Owns(mem, dirs, owner) && Shape(mem, owner, lo)
    requires d in dirs && 0 <= x < NPTE && !On(Pde(mem, d, x)) && Holds(owner, f, Held)
    ensures
      && 0 <= d < |mem| && |mem[d]| == NPTE && 0 <= f < |mem|
      && var mem' := mem[f := Zeros()][d := mem[d][x := Entry(f, UPTE)]];
         Pde(mem', d, x) == Entry(f, UPTE) && OnlyPde(mem, mem', dirs, d, x) && SamePtes(mem, mem', dirs)
  {
  }

  function Zeros(): (r: seq<int>)
    ensures |r| == NPTE && forall i :: 0 <= i < NPTE ==> r[i] == 0
  {
    seq(NPTE, i => 0)
  }

  ghost predicate OnlyPte(mem: Mem, mem': Mem, dirs: set<int>, d: int, v: int) {
    forall d', v' :: d' in dirs && 0 <= v' < ALLPAGES && !(d' == d && v' == v) ==> Pte(mem', d', v') == Pte(mem, d', v')
  }

  /** Writing an entry of a page table changes the flat map at that one page. */
  lemma WritePte(mem: Mem, dirs: set<int>, owner: map<int, Owner>, lo: int, d: int, v: int, w: int)
    requires Owns(mem, dirs, owner) && Shape(mem, owner, lo)
    requires d in dirs && 0 <= v < ALLPAGES && On(Pde(mem, d, Pdx(v)))
    ensures
      var t := Frame(Pde(mem, d, Pdx(v)));
      && 0 <= t < |mem| && |mem[t]| == NPTE && Holds(owner, t, Table(d, Pdx(v)))
      && var mem' := mem[t := mem[t][Ptx(v) := w]];
         Pte(mem', d, v) == w && OnlyPte(mem, mem', dirs, d, v) && SamePdes(mem, mem', dirs)
  {
  }
}
