/** freevm: a directory's user pages, its tables and itself go back to the free list. */
module VmTeardown {
  import opened Paging
  import opened VmState
  import opened Kernel
  import opened VmRange

  /** The page tables of d below slot i, and the directory if t, are free again; s1 is the state before. */
  ghost predicate Freeing(s1: Vm, s: Vm, d: int, i: int, t: bool) {
    && Inv(s1) && Inv(s) && d in s1.dirs && s.dirs == s1.dirs - {d} && Apart(s1, s, d, 0, USERPAGES)
    && (!t ==> 0 <= d < |s.mem| && s.mem[d] == s1.mem[d])
    && (forall f :: f in s.owner <==> f in s1.owner && !FreedBy(s1.owner[f], f, d, i, t))
    && (forall f :: f in s.owner ==> s.owner[f] == if PartOf(s1.owner[f], f, d) then Held else s1.owner[f])
  }

  ghost predicate FreedBy(o: Owner, f: int, d: int, i: int, t: bool) {
    (o.Table? && o.d == d && o.x < i) || (t && o.Dir? && f == d)
  }

  lemma FreeingStart(s1: Vm, d: int)
    requires Inv(s1) && d in s1.dirs && forall v :: 0 <= v < USERPAGES ==> !On(Pte(s1.mem, d, v))
    ensures Freeing(s1, Detached(s1, d), d, 0, false)
  {
    DetachKeeps(s1, d);
    hide Pte, Pde, FreeOk, TablesOwned, UsersOwned;
    assert Holds(s1.owner, d, Dir);
    forall f | f in s1.owner && s1.owner[f].Table? && s1.owner[f].d == d ensures s1.owner[f].x >= 0 {
      assert Backed(s1.mem, s1.dirs, s1.owner[f], f);
    }
    DetachApart(s1, d);
  }

  lemma DetachApart(s1: Vm, d: int)
    requires Inv(s1) && d in s1.dirs
    ensures Apart(s1, Detached(s1, d), d, 0, USERPAGES)
  {
  }

  /** The table in slot i, if there is one, is next. */
  lemma FreeingNext(s1: Vm, s: Vm, d: int, i: int)
    requires Freeing(s1, s, d, i, false) && 0 <= i < NPTE
    ensures 0 <= d < |s.mem| && |s.mem[d]| == NPTE
    ensures
      var w := s.mem[d][i];
      && (!On(w) ==> Freeing(s1, s, d, i + 1, false))
      && (On(w) ==> Holds(s.owner, Frame(w), Held) && Frame(w) != d && Holds(s1.owner, Frame(w), Table(d, i)))
  {
    hide Pte, UsersOwned, FreeOk, Apart;
    var w := s.mem[d][i];
    assert Pde(s1.mem, d, i) == w;
    assert Holds(s1.owner, d, Dir);
    if On(w) {
      assert Holds(s1.owner, Frame(w), Table(d, i));
    } else {
      forall f | f in s1.owner && s1.owner[f].Table? && s1.owner[f].d == d ensures s1.owner[f].x != i {
        assert Backed(s1.mem, s1.dirs, s1.owner[f], f);
      }
    }
  }

  lemma FreeingStep(s1: Vm, s: Vm, s': Vm, d: int, i: int, f: int)
    requires Freeing(s1, s, d, i, false) && 0 <= i < NPTE && Holds(s1.owner, f, Table(d, i)) && f != d
    requires 0 <= f < |s.mem|
    requires Inv(s') && s' == Given(s, f) && Apart(s, s', 0, 0, 0)
    ensures Freeing(s1, s', d, i + 1, false)
  {
    hide Pte, Pde, Inv, Junk, Apart;
    ApartWider(s, s', 0, 0, 0, d, 0, USERPAGES);
    ApartTrans(s1, s, s', d, 0, USERPAGES);
    OneTable(s1, d, i, f);
  }

  lemma OneTable(s: Vm, d: int, i: int, f: int)
    requires Inv(s) && Holds(s.owner, f, Table(d, i))
    ensures forall g :: g in s.owner && s.owner[g] == Table(d, i) ==> g == f
  {
  }

  lemma FreeingLast(s1: Vm, s: Vm, s': Vm, d: int)
    requires Freeing(s1, s, d, NPTE, false) && Inv(s') && s' == Given(s, d) && Apart(s, s', 0, 0, 0)
    ensures Freeing(s1, s', d, NPTE, true)
  {
    hide Pte, Pde, Inv, Junk, Apart;
    ApartWider(s, s', 0, 0, 0, d, 0, USERPAGES);
    ApartTrans(s1, s, s', d, 0, USERPAGES);
    DirOwner(s1, d);
  }

  lemma DirOwner(s: Vm, d: int)
    requires Inv(s) && d in s.dirs
    ensures Holds(s.owner, d, Dir)
  {
  }

  lemma LastHeld(s1: Vm, s: Vm, d: int)
    requires Freeing(s1, s, d, NPTE, false)
    ensures Holds(s.owner, d, Held)
  {
    hide Pte, Pde, Inv, Apart;
    DirOwner(s1, d);
  }

  /** freevm's result: every page of d is free again, and no other page has changed hands. */
  ghost predicate Freed(s0: Vm, s: Vm, d: int) {
    && Inv(s) && s.dirs == s0.dirs - {d} && Apart(s0, s, d, 0, USERPAGES)
    && (forall f :: f in s.owner <==> f in s0.owner && !PartOf(s0.owner[f], f, d))
    && (forall f :: f in s.owner ==> s.owner[f] == s0.owner[f])
  }

  lemma FreedIs(s0: Vm, s1: Vm, s: Vm, d: int)
    requires d in s0.dirs && Shrunk(s0, s1, d, 0, USERPAGES) && Freeing(s1, s, d, NPTE, true)
    ensures Freed(s0, s, d)
  {
    hide Pte, Pde, Inv, Apart;
    ApartTrans(s0, s1, s, d, 0, USERPAGES);
    forall f | f in s0.owner ensures f in s.owner <==> !PartOf(s0.owner[f], f, d) {
      PartIs(s0, f, d);
    }
  }

  lemma PartIs(s: Vm, f: int, d: int)
    requires Inv(s) && f in s.owner
    ensures PartOf(s.owner[f], f, d) <==> InUser(s.owner[f], d, 0, USERPAGES) || FreedBy(s.owner[f], f, d, NPTE, true)
  {
  }
}
