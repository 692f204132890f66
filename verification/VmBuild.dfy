/** A new directory being filled by setupkvm and copyuvm. */
module VmBuild {
  import opened Paging
  import opened VmState
  import opened Kernel
  import opened VmRange
  import opened VmTeardown
  import opened VmSetup
  import Sets

  /** From s0 to s, directory d is new and has been given pages; nothing else has changed.  The pages
      in `held` are at hand. */
  ghost predicate Building(s0: Vm, s: Vm, d: int, held: set<int>) {
    && Inv(s0) && Inv(s) && d !in s0.dirs && s.dirs == s0.dirs + {d} && Apart(s0, s, d, 0, ALLPAGES)
    && (forall f :: f in s0.owner ==> Holds(s.owner, f, s0.owner[f]))
    && (forall f :: f in s.owner && f !in s0.owner ==> PartOf(s.owner[f], f, d) || f in held)
  }

  /** The same as before for every directory and every page. */
  ghost predicate Restored(s0: Vm, s: Vm) {
    Inv(s) && s.dirs == s0.dirs && s.owner == s0.owner && Apart(s0, s, 0, 0, 0)
  }

  lemma BuildStart(s: Vm, f: int)
    requires Inv(s) && s.frees != [] && f == s.frees[0]
    ensures Inv(Taken(s)) && 0 <= f < |s.mem| && Holds(Taken(s).owner, f, Held)
    ensures Inv(NewDir(Taken(s), f)) && Building(s, NewDir(Taken(s), f), f, {})
    ensures forall v :: 0 <= v < ALLPAGES ==> Pte(NewDir(Taken(s), f).mem, f, v) == 0
  {
    hide Pte, Pde, Inv, Apart, Zeros;
    FreeHead(s);
    TakenKeeps(s);
    TakenApart(s);
    var s1 := Taken(s);
    NewDirKeeps(s1, f);
    NewDirApart(s1, f);
    ApartWider(s, s1, 0, 0, 0, f, 0, ALLPAGES);
    ApartTrans(s, s1, NewDir(s1, f), f, 0, ALLPAGES);
  }

  lemma BuildRange(s0: Vm, s: Vm, s1: Vm, d: int, first: int, n: int, k: int, g: int, flags: int)
    requires Building(s0, s, d, {}) && 0 <= flags < PGSIZE && Ranged(s, s1, d, first, n, k, g, flags)
    requires 0 <= first && first + n <= ALLPAGES
    ensures Building(s0, s1, d, {})
  {
    hide Pte, Pde, Inv, Apart, Entry;
    ApartWider(s, s1, d, first, first + n, d, 0, ALLPAGES);
    ApartTrans(s0, s, s1, d, 0, ALLPAGES);
  }

  /** Giving up: with the directory freed, every page is where it was. */
  lemma BuildAbandoned(s0: Vm, s: Vm, s': Vm, d: int)
    requires Building(s0, s, d, {}) && Freed(s, s', d)
    ensures Restored(s0, s')
  {
    hide Pte, Pde, Inv, Apart;
    ApartWider(s, s', d, 0, USERPAGES, d, 0, ALLPAGES);
    ApartTrans(s0, s, s', d, 0, ALLPAGES);
    forall f | f in s0.owner ensures !PartOf(s0.owner[f], f, d) {
      NotPartOf(s0, f, d);
    }
    assert forall f :: f in s'.owner <==> f in s0.owner;
    assert forall f :: f in s0.owner ==> s'.owner[f] == s0.owner[f];
    ApartWithout(s0, s', d);
  }

  lemma NotPartOf(s: Vm, f: int, d: int)
    requires Inv(s) && f in s.owner && d !in s.dirs
    ensures !PartOf(s.owner[f], f, d)
  {
  }

  lemma ApartWithout(s0: Vm, s: Vm, d: int)
    requires Inv(s0) && d !in s0.dirs && Apart(s0, s, d, 0, ALLPAGES) && s.dirs == s0.dirs
    ensures Apart(s0, s, 0, 0, 0)
  {
  }

  // ---------- copyuvm ----------

  /** Page u of d2 is a copy of page u of d: same flags, same contents, another physical page. */
  ghost predicate Copied(s0: Vm, s: Vm, d: int, d2: int, u: int) {
    var p, c := Pte(s0.mem, d, u), Pte(s.mem, d2, u);
    && On(c) && Flags(c) == Flags(p) && Frame(c) != Frame(p)
    && 0 <= Frame(p) < |s0.mem| && 0 <= Frame(c) < |s.mem| && s.mem[Frame(c)] == s0.mem[Frame(p)]
  }

  /** The first v of the parent's pages have been copied. */
  ghost predicate Copying(s0: Vm, s: Vm, d: int, d2: int, data: int, v: int) {
    && Building(s0, s, d2, {}) && d in s0.dirs
    && (forall u :: 0 <= u < v ==> Copied(s0, s, d, d2, u))
    && (forall u :: v <= u < ALLPAGES ==> Pte(s.mem, d2, u) == KernelPte(data, u))
  }

  lemma CopiedRights(s0: Vm, s: Vm, d: int, d2: int, data: int, n: int)
    requires Copying(s0, s, d, d2, data, n) && n <= USERPAGES && forall u :: 0 <= u < n ==> On(Pte(s0.mem, d, u))
    ensures forall u :: 0 <= u < n ==> Rights(s.mem, d2, u) == Rights(s0.mem, d, u) != NoAccess
  {
    hide Inv, Pte, Pde, Rights, Apart, KernelPte;
    forall u | 0 <= u < n ensures Rights(s.mem, d2, u) == Rights(s0.mem, d, u) != NoAccess {
      assert Copied(s0, s, d, d2, u);
      RightsAre(s0, d, u);
      RightsAre(s, d2, u);
    }
  }

  /** The kernel's mappings: nothing for the user, and all but the kernel's text writable. */
  ghost predicate KernelOnly(mem: Mem, d: int, data: int, bound: int) {
    forall v :: bound <= v < ALLPAGES && KernelPte(data, v) != 0 ==>
      Rights(mem, d, v) == Access(!(KERNLINK <= v * PGSIZE < data), false)
  }

  lemma KernelRights(s: Vm, d: int, data: int, bound: int)
    requires Inv(s) && d in s.dirs && 0 <= bound && DataOk(data)
    requires forall v :: bound <= v < ALLPAGES ==> Pte(s.mem, d, v) == KernelPte(data, v)
    ensures KernelOnly(s.mem, d, data, bound)
  {
    hide Inv, Pte, Pde, Rights;
    forall v | bound <= v < ALLPAGES && KernelPte(data, v) != 0
      ensures Rights(s.mem, d, v) == Access(!(KERNLINK <= v * PGSIZE < data), false)
    {
      RightsAre(s, d, v);
      KernelFlags(data, v);
    }
  }

  lemma KernelFlags(data: int, v: int)
    requires DataOk(data) && KernelPte(data, v) != 0
    ensures
      var w := KernelPte(data, v);
      On(w) && !HasU(w) && (HasW(w) <==> !(KERNLINK <= v * PGSIZE < data))
  {
  }

  lemma CopyStart(s0: Vm, s: Vm, d: int, d2: int, data: int)
    requires Building(s0, s, d2, {}) && d in s0.dirs && KernelUpTo(s.mem, d2, data, ALLPAGES)
    ensures Copying(s0, s, d, d2, data, 0)
  {
    hide Pte, Pde, Inv, Apart, KernelPte;
  }

  /** The parent's page is as it was. */
  lemma ParentKept(s0: Vm, s: Vm, d: int, d2: int, u: int)
    requires Building(s0, s, d2, {}) && d in s0.dirs && 0 <= u < USERPAGES && On(Pte(s0.mem, d, u))
    ensures d in s.dirs && d != d2 && Pte(s.mem, d, u) == Pte(s0.mem, d, u)
    ensures var f := Frame(Pte(s0.mem, d, u));
            0 < f < |s0.mem| == |s.mem| && s.mem[f] == s0.mem[f] && Holds(s.owner, f, User(d, u)) && |s.mem[f]| == NPTE
  {
    hide Pte, Pde, Inv;
    UserShape(s0, d, u);
  }

  /** The next page: f is taken, filled and mapped. */
  lemma CopyStep(s0: Vm, s: Vm, s1: Vm, s2: Vm, d: int, d2: int, data: int, v: int, f: int)
    requires Copying(s0, s, d, d2, data, v) && 0 <= v < USERPAGES && On(Pte(s0.mem, d, v))
    requires s.frees != [] && f == s.frees[0] && 0 <= f < |s.mem|
    requires 0 <= Frame(Pte(s0.mem, d, v)) < |s0.mem| && s1 == Stored(Taken(s), f, s0.mem[Frame(Pte(s0.mem, d, v))])
    requires Inv(s1) && Inv(s2) && Mapping(s1, s2, d2, v, Entry(f, Flags(Pte(s0.mem, d, v))))
    ensures Copying(s0, s2, d, d2, data, v + 1)
  {
    hide Pte, Pde, Inv, Entry, Apart, KernelPte;
    var p := Pte(s0.mem, d, v);
    ParentKept(s0, s, d, d2, v);
    TakeStore(s, f, s0.mem[Frame(p)]);
    ApartWider(s, s1, 0, 0, 0, d2, v, v + 1);
    ApartTrans(s, s1, s2, d2, v, v + 1);
    ApartWider(s, s2, d2, v, v + 1, d2, 0, ALLPAGES);
    ApartTrans(s0, s, s2, d2, 0, ALLPAGES);
    forall u | 0 <= u < v + 1 ensures Copied(s0, s2, d, d2, u) {
      if u < v {
        CopiedStays(s0, s, s2, d, d2, u, v);
      } else {
        CopiedNew(s0, s, s1, s2, d, d2, v, f);
      }
    }
    PtesBeyond(s, s2, d2, v);
    OwnersBuild(s0, s, s1, s2, d2, v, f, Entry(f, Flags(p)));
  }

  lemma TakeStore(s: Vm, f: int, page: seq<int>)
    requires Inv(s) && s.frees != [] && f == s.frees[0] && 0 <= f < |s.mem| && |page| == NPTE
    ensures f !in s.owner && Apart(s, Stored(Taken(s), f, page), 0, 0, 0)
  {
    hide Pte, Pde, Inv, Apart;
    FreeHead(s);
    TakenKeeps(s);
    TakenApart(s);
    StoredApart(Taken(s), f, page);
    ApartTrans(s, Taken(s), Stored(Taken(s), f, page), 0, 0, 0);
  }

  lemma CopiedStays(s0: Vm, s: Vm, s2: Vm, d: int, d2: int, u: int, v: int)
    requires Inv(s) && Copied(s0, s, d, d2, u) && d2 in s.dirs && d2 in s2.dirs && 0 <= u < v < USERPAGES
    requires Apart(s, s2, d2, v, v + 1)
    ensures Copied(s0, s2, d, d2, u)
  {
  }

  lemma CopiedNew(s0: Vm, s: Vm, s1: Vm, s2: Vm, d: int, d2: int, v: int, f: int)
    requires 0 <= v < USERPAGES && On(Pte(s0.mem, d, v)) && f !in s.owner && 0 <= f < |s1.mem|
    requires
      var p := Pte(s0.mem, d, v);
      && 0 <= Frame(p) < |s0.mem| && Holds(s.owner, Frame(p), User(d, v)) && s1.mem[f] == s0.mem[Frame(p)]
      && Mapping(s1, s2, d2, v, Entry(f, Flags(p)))
    ensures Copied(s0, s2, d, d2, v)
  {
    hide Pte, Pde, Entry;
    var p := Pte(s0.mem, d, v);
    assert Frame(Entry(f, Flags(p))) == f && Flags(Entry(f, Flags(p))) == Flags(p);
    OnFlags(p);
    assert On(Entry(f, Flags(p)));
  }

  lemma OnFlags(w: int)
    ensures On(w) <==> On(Flags(w))
    ensures 0 <= Flags(w) < PGSIZE
  {
  }

  lemma PtesBeyond(s: Vm, s2: Vm, d: int, v: int)
    requires Apart(s, s2, d, v, v + 1) && d in s.dirs && d in s2.dirs && 0 <= v
    ensures forall u :: v + 1 <= u < ALLPAGES ==> Pte(s2.mem, d, u) == Pte(s.mem, d, u)
  {
  }

  lemma OwnersBuild(s0: Vm, s: Vm, s1: Vm, s2: Vm, d: int, v: int, f: int, w: int)
    requires Building(s0, s, d, {}) && f !in s.owner && s1.owner == s.owner[f := Held] && 0 <= v < USERPAGES
    requires Frame(w) == f
    requires Mapping(s1, s2, d, v, w)
    ensures forall g :: g in s0.owner ==> Holds(s2.owner, g, s0.owner[g])
    ensures forall g :: g in s2.owner && g !in s0.owner ==> PartOf(s2.owner[g], g, d)
  {
    hide Pte, Apart, Inv;
    forall g | g in s.owner ensures Holds(s2.owner, g, s.owner[g]) {
      assert g in s1.owner && s1.owner[g] == s.owner[g];
    }
  }

  /** A page at hand. */
  lemma BuildHeld(s0: Vm, s: Vm, d: int, f: int, page: seq<int>)
    requires Building(s0, s, d, {}) && s.frees != [] && f == s.frees[0] && 0 <= f < |s.mem| && |page| == NPTE
    requires Inv(Stored(Taken(s), f, page))
    ensures Building(s0, Stored(Taken(s), f, page), d, {f})
    ensures forall v :: 0 <= v < ALLPAGES ==> Pte(Stored(Taken(s), f, page).mem, d, v) == Pte(s.mem, d, v)
  {
    hide Pte, Pde, Inv;
    TakeStore(s, f, page);
    var s1 := Stored(Taken(s), f, page);
    ApartWider(s, s1, 0, 0, 0, d, 0, ALLPAGES);
    ApartTrans(s0, s, s1, d, 0, ALLPAGES);
  }

  /** The page at hand is freed before the directory is. */
  lemma BuildGiveBack(s0: Vm, s: Vm, s1: Vm, s2: Vm, d: int, f: int, page: seq<int>)
    requires Building(s0, s, d, {}) && s.frees != [] && f == s.frees[0] && 0 <= f < |s.mem| && |page| == NPTE
    requires s1 == Stored(Taken(s), f, page) && Inv(s1) && Inv(s2) && s2 == Given(s1, f) && Apart(s1, s2, 0, 0, 0)
    ensures Building(s0, s2, d, {})
  {
    hide Pte, Pde, Inv, Apart;
    TakeStore(s, f, page);
    ApartTrans(s, s1, s2, 0, 0, 0);
    ApartWider(s, s2, 0, 0, 0, d, 0, ALLPAGES);
    ApartTrans(s0, s, s2, d, 0, ALLPAGES);
  }

  // ---------- how many pages a directory can take ----------

  /** A number for each use a directory has for a page, besides itself. */
  function Code(o: Owner): int {
    match o
    case Table(_, x) => x
    case User(_, v) => NPTE + v
    case Dir => -1
    case Held => -1
  }

  ghost function Codes(s: Vm, fs: set<int>): set<int>
    requires forall f :: f in fs ==> f in s.owner
  {
    set f | f in fs :: Code(s.owner[f])
  }

  ghost predicate AllPart(s: Vm, d: int, fs: set<int>, bound: nat) {
    forall f :: f in fs ==> f in s.owner && PartOf(s.owner[f], f, d) && 0 <= Code(s.owner[f]) < bound
  }

  lemma {:induction false} CodesDiffer(s: Vm, d: int, fs: set<int>, bound: nat)
    requires Inv(s) && AllPart(s, d, fs, bound)
    ensures |Codes(s, fs)| == |fs|
    decreases |fs|
  {
    hide Inv;
    if fs == {} {
      assert Codes(s, fs) == {};
    } else {
      var f := Sets.Pick(fs);
      var rest := fs - {f};
      CodesDiffer(s, d, rest, bound);
      forall g | g in rest ensures Code(s.owner[g]) != Code(s.owner[f]) {
        CodeOnce(s, d, g, f);
      }
      assert Codes(s, fs) == Codes(s, rest) + {Code(s.owner[f])};
      assert Code(s.owner[f]) !in Codes(s, rest);
    }
  }

  lemma CodeOnce(s: Vm, d: int, f: int, g: int)
    requires Inv(s) && f in s.owner && g in s.owner && f != g && PartOf(s.owner[f], f, d) && PartOf(s.owner[g], g, d)
    requires 0 <= Code(s.owner[f]) && 0 <= Code(s.owner[g])
    ensures Code(s.owner[f]) != Code(s.owner[g])
  {
  }

  ghost function Below(n: nat): (r: set<int>)
    ensures |r| == n && forall x :: x in r <==> 0 <= x < n
  {
    if n == 0 then {} else Below(n - 1) + {n - 1}
  }

  ghost function Elements(fs: seq<int>): (r: set<int>)
    ensures forall f :: f in r <==> f in fs
  {
    set f | f in fs
  }

  lemma {:induction false} DistinctCount(fs: seq<int>)
    requires DistinctPages(fs)
    ensures |Elements(fs)| == |fs|
  {
    if fs == [] {
      assert Elements(fs) == {};
    } else {
      var n := |fs| - 1;
      DistinctCount(fs[..n]);
      assert fs == fs[..n] + [fs[n]];
      assert Elements(fs) == Elements(fs[..n]) + {fs[n]};
    }
  }

  lemma SubsetSize(a: set<int>, b: set<int>)
    requires a <= b
    ensures |a| <= |b|
  {
    assert b == a + (b - a);
  }

  lemma LessTwo(fs: set<int>, d: int, held: set<int>)
    requires |held| <= 1
    ensures |fs| <= |fs - {d} - held| + 2
  {
  }

  /** With the free list empty, the pages that were free belong to the new directory: it has run the
      memory out, and it cannot have used more than its tables and n user pages. */
  lemma RanOut(s0: Vm, s: Vm, d: int, n: nat, held: set<int>)
    requires Building(s0, s, d, held) && s.frees == [] && n <= USERPAGES && |held| <= 1
    requires forall u :: n <= u < USERPAGES ==> !On(Pte(s.mem, d, u))
    ensures |s0.frees| <= NPTE + n + 2
  {
    hide Pte, Pde, Apart, Inv, Code, PartOf;
    var fs := Elements(s0.frees) - {d} - held;
    forall f | f in fs ensures f in s.owner && PartOf(s.owner[f], f, d) && 0 <= Code(s.owner[f]) < NPTE + n {
      CodeSmall(s0, s, d, n, held, f);
    }
    CodesDiffer(s, d, fs, NPTE + n);
    SubsetSize(Codes(s, fs), Below(NPTE + n));
    LessTwo(Elements(s0.frees), d, held);
    FreesDistinct(s0);
    DistinctCount(s0.frees);
  }

  lemma FreesDistinct(s: Vm)
    requires Inv(s)
    ensures DistinctPages(s.frees)
  {
  }

  lemma CodeSmall(s0: Vm, s: Vm, d: int, n: nat, held: set<int>, f: int)
    requires Building(s0, s, d, held) && s.frees == [] && f in s0.frees && f != d && n <= USERPAGES
    requires forall u :: n <= u < USERPAGES ==> !On(Pte(s.mem, d, u))
    requires f !in held
    ensures f in s.owner && PartOf(s.owner[f], f, d) && 0 <= Code(s.owner[f]) < NPTE + n
  {
    hide Pte, Pde, TablesOwned, UsersOwned;
    assert f in s.owner && f !in s0.owner;
    assert Backed(s.mem, s.dirs, s.owner[f], f);
  }
}
