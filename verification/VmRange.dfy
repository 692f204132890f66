/** Ranges of user pages mapped or unmapped one after the other: allocuvm, deallocuvm, copyuvm. */
module VmRange {
  import opened Paging
  import opened VmState
  import opened Kernel

  /** The number of pages that sz bytes take. */
  function Pages(sz: int): int {
    (sz + PGSIZE - 1) / PGSIZE
  }

  /** Exactly the first n user pages are present. */
  ghost predicate UserExact(mem: Mem, d: int, n: int) {
    forall v :: 0 <= v < USERPAGES ==> (On(Pte(mem, d, v)) <==> v < n)
  }

  ghost predicate InUser(o: Owner, d: int, a: int, b: int) {
    o.User? && o.d == d && a <= o.v < b
  }

  // ---------- deallocuvm ----------

  /** Pages a to v of a..b have been unmapped. */
  ghost predicate Shrinking(s0: Vm, s: Vm, d: int, a: int, b: int, v: int) {
    && Inv(s0) && Inv(s) && s.dirs == s0.dirs && Apart(s0, s, d, a, b) && SamePdes(s0.mem, s.mem, s0.dirs)
    && (forall u :: a <= u < v && u < b ==> !On(Pte(s.mem, d, u)))
    && (forall u :: v <= u < b ==> Pte(s.mem, d, u) == Pte(s0.mem, d, u))
    && (forall f :: f in s.owner <==> f in s0.owner && !(InUser(s0.owner[f], d, a, b) && s0.owner[f].v < v))
    && (forall f :: f in s.owner ==> s.owner[f] == s0.owner[f])
  }

  lemma ShrinkStart(s: Vm, d: int, a: int, b: int)
    requires Inv(s)
    ensures Shrinking(s, s, d, a, b, a)
  {
  }

  lemma ShrinkStep(s0: Vm, s: Vm, s1: Vm, d: int, a: int, b: int, v: int)
    requires Shrinking(s0, s, d, a, b, v) && d in s.dirs && 0 <= a <= v < b <= USERPAGES
    requires On(Pte(s.mem, d, v)) && Inv(s1) && Unmapping(s, s1, d, v)
    ensures Shrinking(s0, s1, d, a, b, v + 1)
  {
    hide Pte, Pde, Inv, Apart;
    ApartWider(s, s1, d, v, v + 1, d, a, b);
    ApartTrans(s0, s, s1, d, a, b);
    OneUser(s0, d, v);
    assert Pte(s.mem, d, v) == Pte(s0.mem, d, v);
  }

  lemma OneUser(s: Vm, d: int, v: int)
    requires Inv(s) && d in s.dirs && 0 <= v < USERPAGES
    ensures forall f :: f in s.owner && s.owner[f] == User(d, v) ==>
            On(Pte(s.mem, d, v)) && f == Frame(Pte(s.mem, d, v))
  {
  }

  /** Pages v to w are not present: nothing to do for them. */
  lemma ShrinkSkip(s0: Vm, s: Vm, d: int, a: int, b: int, v: int, w: int)
    requires Shrinking(s0, s, d, a, b, v) && d in s.dirs && 0 <= a <= v <= w && b <= USERPAGES
    requires forall u :: v <= u < w && u < b ==> !On(Pte(s.mem, d, u))
    ensures Shrinking(s0, s, d, a, b, w)
  {
    hide Pte, Pde, Inv, Apart;
    forall f | f in s0.owner && InUser(s0.owner[f], d, a, b) && v <= s0.owner[f].v ensures !(s0.owner[f].v < w) {
      assert Pte(s.mem, d, s0.owner[f].v) == Pte(s0.mem, d, s0.owner[f].v);
      OneUser(s0, d, s0.owner[f].v);
    }
  }

  /** deallocuvm's result: pages a to b are gone, and exactly their pages are free again. */
  ghost predicate Shrunk(s0: Vm, s: Vm, d: int, a: int, b: int) {
    Shrinking(s0, s, d, a, b, b)
  }

  lemma ShrinkEnd(s0: Vm, s: Vm, d: int, a: int, b: int, v: int)
    requires Shrinking(s0, s, d, a, b, v) && b <= v
    ensures Shrunk(s0, s, d, a, b)
  {
    hide Pte, Pde, Inv, Apart;
  }

  /** A missing table has no present entry. */
  lemma NoTable(mem: Mem, d: int, v: int)
    requires !On(Pde(mem, d, Pdx(v)))
    ensures forall u :: v <= u < (Pdx(v) + 1) * NPTE ==> !On(Pte(mem, d, u))
  {
  }

  // ---------- allocuvm ----------

  /** Pages a to v have been mapped to new zeroed pages; the pages in `held` are at hand too. */
  ghost predicate Growing(s0: Vm, s: Vm, d: int, a: int, b: int, v: int, held: set<int>) {
    && Inv(s0) && Inv(s) && s.dirs == s0.dirs && Apart(s0, s, d, a, b)
    && (forall u :: a <= u < v ==> Fresh(s, d, u))
    && (forall u :: v <= u < b ==> Pte(s.mem, d, u) == Pte(s0.mem, d, u))
    && (forall f :: f in s0.owner ==> Holds(s.owner, f, s0.owner[f]))
    && (forall f :: f in s.owner && f !in s0.owner ==>
        InUser(s.owner[f], d, a, v) || (s.owner[f].Table? && s.owner[f].d == d) || f in held)
  }

  /** User page u is present, writable for the user, and all zero. */
  ghost predicate Fresh(s: Vm, d: int, u: int) {
    var w := Pte(s.mem, d, u);
    On(w) && Flags(w) == 7 && 0 <= Frame(w) < |s.mem| && s.mem[Frame(w)] == Zeros()
  }

  /** By the rights the processor grants, each of these pages can be read and written in user mode. */
  ghost predicate UserWritable(mem: Mem, d: int, a: int, b: int) {
    forall u :: a <= u < b ==> Rights(mem, d, u) == Access(true, true)
  }

  lemma GrownRights(s0: Vm, s: Vm, d: int, a: int, b: int)
    requires Growing(s0, s, d, a, b, b, {}) && d in s.dirs && 0 <= a && b <= USERPAGES
    ensures UserWritable(s.mem, d, a, b)
  {
    hide Inv, Pte, Pde, Rights, Apart;
    forall u | a <= u < b ensures Rights(s.mem, d, u) == Access(true, true) {
      assert Fresh(s, d, u);
      RightsAre(s, d, u);
    }
  }

  lemma GrowStart(s: Vm, d: int, a: int, b: int)
    requires Inv(s)
    ensures Growing(s, s, d, a, b, a, {})
  {
  }

  /** A new page f, zeroed and mapped at v. */
  lemma GrowStep(s0: Vm, s: Vm, s1: Vm, s2: Vm, d: int, a: int, b: int, v: int, f: int)
    requires Growing(s0, s, d, a, b, v, {}) && d in s.dirs && 0 <= a <= v < b <= USERPAGES
    requires s.frees != [] && f == s.frees[0] && 0 <= f < |s.mem| && s1 == Stored(Taken(s), f, Zeros())
    requires Inv(s1) && Inv(s2) && Mapping(s1, s2, d, v, Entry(f, UPTE))
    ensures Growing(s0, s2, d, a, b, v + 1, {})
  {
    hide Pte, Pde, Inv, Entry, Zeros, Apart;
    TakeZero(s, f);
    ApartWider(s, s1, 0, 0, 0, d, a, b);
    ApartTrans(s0, s, s1, d, a, b);
    ApartWider(s1, s2, d, v, v + 1, d, a, b);
    ApartTrans(s0, s1, s2, d, a, b);
    ApartWider(s, s1, 0, 0, 0, d, v, v + 1);
    ApartTrans(s, s1, s2, d, v, v + 1);
    FreshNew(s1, s2, d, v, f);
    forall u | a <= u < v + 1 ensures Fresh(s2, d, u) {
      if u < v {
        FreshStays(s, s2, d, u, v);
      }
    }
    PtesElsewhere(s, s2, d, v, b);
    OwnersGrow(s, s1, s2, d, v, f);
  }

  lemma TakeZero(s: Vm, f: int)
    requires Inv(s) && s.frees != [] && f == s.frees[0] && 0 <= f < |s.mem|
    ensures f !in s.owner && Apart(s, Stored(Taken(s), f, Zeros()), 0, 0, 0)
  {
    hide Pte, Pde, Inv, Apart, Zeros;
    FreeHead(s);
    TakenKeeps(s);
    TakenApart(s);
    StoredApart(Taken(s), f, Zeros());
    ApartTrans(s, Taken(s), Stored(Taken(s), f, Zeros()), 0, 0, 0);
  }

  lemma FreshNew(s1: Vm, s2: Vm, d: int, v: int, f: int)
    requires Mapping(s1, s2, d, v, Entry(f, UPTE)) && 0 <= v < USERPAGES && 0 <= f < |s1.mem| && s1.mem[f] == Zeros()
    ensures Fresh(s2, d, v)
  {
  }

  lemma FreshStays(s: Vm, s2: Vm, d: int, u: int, v: int)
    requires Inv(s) && Fresh(s, d, u) && d in s.dirs && d in s2.dirs && 0 <= u < v < USERPAGES
    requires Apart(s, s2, d, v, v + 1)
    ensures Fresh(s2, d, u)
  {
  }

  lemma PtesElsewhere(s: Vm, s2: Vm, d: int, v: int, b: int)
    requires Apart(s, s2, d, v, v + 1) && d in s.dirs && d in s2.dirs && 0 <= v && b <= USERPAGES
    ensures forall u :: v + 1 <= u < b ==> Pte(s2.mem, d, u) == Pte(s.mem, d, u)
  {
  }

  lemma OwnersGrow(s: Vm, s1: Vm, s2: Vm, d: int, v: int, f: int)
    requires f !in s.owner && s1.owner == s.owner[f := Held] && Mapping(s1, s2, d, v, Entry(f, UPTE))
    requires 0 <= v < USERPAGES
    ensures forall g :: g in s.owner ==> Holds(s2.owner, g, s.owner[g])
    ensures forall g :: g in s2.owner && g !in s.owner ==> s2.owner[g] == User(d, v) || s2.owner[g] == Table(d, Pdx(v))
  {
    hide Pte, Apart;
    assert Frame(Entry(f, UPTE)) == f;
    forall g | g in s.owner ensures Holds(s2.owner, g, s.owner[g]) {
      assert g in s1.owner && s1.owner[g] == s.owner[g];
    }
  }

  /** A page at hand, before it is mapped. */
  lemma GrowHeld(s0: Vm, s: Vm, d: int, a: int, b: int, v: int, f: int)
    requires Growing(s0, s, d, a, b, v, {}) && d in s.dirs && 0 <= a <= v && b <= USERPAGES && v <= b
    requires s.frees != [] && f == s.frees[0] && 0 <= f < |s.mem| && Inv(Stored(Taken(s), f, Zeros()))
    ensures Growing(s0, Stored(Taken(s), f, Zeros()), d, a, b, v, {f})
  {
    hide Pte, Pde, Inv, Zeros, Apart;
    TakeZero(s, f);
    var s1 := Stored(Taken(s), f, Zeros());
    ApartWider(s, s1, 0, 0, 0, d, a, b);
    ApartTrans(s0, s, s1, d, a, b);
    forall u | a <= u < v ensures Fresh(s1, d, u) {
      FreshApart(s, s1, d, u);
    }
    PtesAll(s, s1, d);
  }

  lemma FreshApart(s: Vm, s1: Vm, d: int, u: int)
    requires Inv(s) && Fresh(s, d, u) && d in s.dirs && d in s1.dirs && 0 <= u < USERPAGES && Apart(s, s1, 0, 0, 0)
    ensures Fresh(s1, d, u)
  {
  }

  lemma PtesAll(s: Vm, s1: Vm, d: int)
    requires Apart(s, s1, 0, 0, 0) && d in s.dirs && d in s1.dirs
    ensures forall u :: 0 <= u < USERPAGES ==> Pte(s1.mem, d, u) == Pte(s.mem, d, u)
  {
  }

  /** After a failure: what had been mapped is unmapped again. */
  lemma GrowUndone(s0: Vm, s: Vm, s': Vm, d: int, a: int, b: int, v: int, held: set<int>)
    requires Growing(s0, s, d, a, b, v, held) && v <= b && Shrunk(s, s', d, a, b) && d in s0.dirs
    ensures Undone(s0, s', d, a, b, held)
  {
    hide Pte, Pde, Inv, Fresh, Apart;
    ApartTrans(s0, s, s', d, a, b);
    forall f | f in s0.owner && !InUser(s0.owner[f], d, a, b) ensures Holds(s'.owner, f, s0.owner[f]) {
      assert Holds(s.owner, f, s0.owner[f]);
    }
  }

  /** Pages a to b are not present, all else is as it was, and no page is taken but those in `held`
      and page tables. */
  ghost predicate Undone(s0: Vm, s: Vm, d: int, a: int, b: int, held: set<int>) {
    && Inv(s) && s.dirs == s0.dirs && Apart(s0, s, d, a, b)
    && (forall u :: a <= u < b ==> !On(Pte(s.mem, d, u)))
    && (forall f :: f in s0.owner && !InUser(s0.owner[f], d, a, b) ==> Holds(s.owner, f, s0.owner[f]))
    && (forall f :: f in s.owner && f !in s0.owner ==> (s.owner[f].Table? && s.owner[f].d == d) || f in held)
  }

  /** The page at hand is freed. */
  lemma UndoneFree(s0: Vm, s: Vm, s': Vm, d: int, a: int, b: int, f: int)
    requires Undone(s0, s, d, a, b, {f}) && f !in s0.owner && Holds(s.owner, f, Held) && d in s.dirs && 0 <= a
    requires b <= USERPAGES
    requires 0 <= f < |s.mem| && s' == Given(s, f) && Inv(s') && Apart(s, s', 0, 0, 0)
    ensures Undone(s0, s', d, a, b, {})
  {
    hide Pte, Pde, Inv, Apart;
    ApartWider(s, s', 0, 0, 0, d, a, b);
    ApartTrans(s0, s, s', d, a, b);
    PtesAll(s, s', d);
  }
}
