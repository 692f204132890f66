/** The procedures of bio.c, each of them cut into the pieces that run under one lock; any
    interleaving of processes is a sequence of these methods.  `t` names the bget a caller is in. */
module Bio {
  import opened Params
  import opened WriteAheadLog
  import opened BufferRing
  import opened BufferState

  class BufferCache {
    const buf: array<Buf>
    var disk: Disk
    ghost var order: seq<int>
    ghost var use: seq<Use>
    ghost var tokens: map<nat, (int, int)>
    ghost var truth: Disk
    ghost var pinned: set<int>
    ghost var trace: seq<WriteAheadLog.Write>      // every bwrite so far

    ghost function State(): Cache
      reads this, buf
    {
      Cache(buf[..], order, use, tokens, disk, truth, pinned)
    }

    ghost predicate Valid()
      reads this, buf
    {
      buf.Length == NBUF + 1 && Inv(State())
    }

    /** binit. */
    constructor (disk: Disk, zero: Block)
      ensures Valid() && fresh(buf) && this.disk == disk && truth == disk && pinned == {} && tokens == map[]
      ensures OnlyHeld(use, {}) && trace == []
    {
      var b0 := Buf(false, false, 0, 0, false, 0, HEAD, HEAD, zero);
      buf := new Buf[NBUF + 1](i => b0);
      this.disk, truth, pinned, tokens, trace := disk, disk, {}, map[], [];
      use := seq(NBUF, i => Use({}, -1, false));
      order := [];
      new;
      var i := 0;
      while i < NBUF
        invariant 0 <= i <= NBUF && buf.Length == NBUF + 1
        invariant Ring(buf[..], order) && |order| == i && forall k :: k in order <==> 0 <= k < i
        invariant forall k :: 0 <= k < NBUF ==> AsBooted(buf[k])
        invariant this.disk == disk == truth && pinned == {} && tokens == map[] && trace == [] && fresh(buf)
        invariant use == seq(NBUF, j => Use({}, -1, false))
      {
        RingPush(buf[..], order, i);
        PushInPlace(i);
        order := [i] + order;
        i := i + 1;
      }
      InitInv(State());
    }

    /** b->next = head.next; b->prev = &head; head.next->prev = b; head.next = b. */
    method PushInPlace(b: int)
      requires buf.Length == NBUF + 1 && 0 <= b < NBUF && 0 <= buf[HEAD].next <= NBUF
      modifies buf
      ensures buf[..] == PushFront(old(buf[..]), b)
      ensures SameButLinks(old(buf[..]), buf[..])
    {
      ghost var before := buf[..];
      buf[b] := buf[b].(next := buf[HEAD].next, prev := HEAD);
      var first := buf[HEAD].next;
      buf[first] := buf[first].(prev := b);
      buf[HEAD] := buf[HEAD].(next := b);
      assert buf[..] == PushFront(before, b);
      PushLinks(before, b);
    }

    method UnlinkInPlace(b: int)
      requires buf.Length == NBUF + 1 && 0 <= b < NBUF && 0 <= buf[b].next <= NBUF && 0 <= buf[b].prev <= NBUF
      modifies buf
      ensures buf[..] == Unlink(old(buf[..]), b)
    {
      ghost var before := buf[..];
      var next, prev := buf[b].next, buf[b].prev;
      buf[next] := buf[next].(prev := prev);
      buf[prev] := buf[prev].(next := next);
      assert buf[..] == Unlink(before, b);
    }

    /** bget's first loop: HEAD if the block is in no buffer. */
    method Search(dev: int, blockno: int) returns (b: int)
      requires Valid()
      ensures 0 <= b <= NBUF && (b < NBUF ==> Caches(buf[b], dev, blockno))
      ensures b == HEAD ==> forall i :: 0 <= i < NBUF ==> !Caches(buf[i], dev, blockno)
    {
      hide Unique, AllHeld, AllData, DiskOk, Ring, Stop;
      RingHead(buf[..], order);
      b := buf[HEAD].next;
      ghost var k := 1;
      while b != HEAD
        invariant 1 <= k <= NBUF + 1 && b == Stop(order, k)
        invariant forall j :: 1 <= j < k ==>
                  0 <= Stop(order, j) < NBUF && !Caches(buf[..][Stop(order, j)], dev, blockno)
        decreases NBUF + 1 - k
      {
        StopInside(order, k);
        RingAt(buf[..], order, k);
        if Caches(buf[b], dev, blockno) {
          return b;
        }
        b := buf[b].next;
        k := k + 1;
      }
      StopLast(buf[..], order, k);
      forall i | 0 <= i < NBUF ensures !Caches(buf[i], dev, blockno) {
        StopOf(order, i);
        assert !Caches(buf[..][Stop(order, Position(order, i) + 1)], dev, blockno);
      }
    }

    /** bget's second loop: the least recently used buffer that is free; HEAD if there is none. */
    method FindFree() returns (b: int, ghost p: int)
      requires Valid()
      ensures 0 <= b <= NBUF && (b < NBUF ==> !Busy(buf[b]))
      ensures b == HEAD ==> forall i :: 0 <= i < NBUF ==> Busy(buf[i])
      ensures b < NBUF ==> 0 <= p < |order| && order[p] == b
      ensures b < NBUF ==> forall q :: p < q < |order| ==> 0 <= order[q] < NBUF && Busy(buf[order[q]])
    {
      hide Unique, AllHeld, AllData, DiskOk, Ring, Stop;
      RingHead(buf[..], order);
      b := buf[HEAD].prev;
      ghost var k := NBUF;
      while b != HEAD
        invariant 0 <= k <= NBUF && b == Stop(order, k)
        invariant forall j :: k < j <= NBUF ==> 0 <= Stop(order, j) < NBUF && Busy(buf[..][Stop(order, j)])
        decreases k
      {
        StopInside(order, k);
        RingAt(buf[..], order, k);
        if !Busy(buf[b]) {
          p := k - 1;
          forall q | p < q < |order| ensures 0 <= order[q] < NBUF && Busy(buf[order[q]]) {
            StopIs(order, q);
            assert Busy(buf[..][Stop(order, q + 1)]);
          }
          return b, p;
        }
        b := buf[b].prev;
        k := k - 1;
      }
      p := -1;
      StopLast(buf[..], order, k);
      forall i | 0 <= i < NBUF ensures Busy(buf[i]) {
        StopOf(order, i);
        assert Busy(buf[..][Stop(order, Position(order, i) + 1)]);
      }
    }

    /** bget up to acquiresleep; -1 stands for the "no buffers" panic. */
    method Bget(dev: int, blockno: int, ghost t: nat) returns (r: int, ghost p: int)
      requires Valid() && t !in tokens
      modifies buf, this`use, this`tokens
      ensures Valid()
      ensures r == -1 <==> old(forall i :: 0 <= i < NBUF ==> !Caches(buf[i], dev, blockno) && Busy(buf[i]))
      ensures r == -1 ==> State() == old(State())
      ensures r != -1 ==>
                && 0 <= r < NBUF && t in tokens && tokens[t] == (dev, blockno) && t in use[r].holders
                && (old(Caches(buf[r], dev, blockno)) ==> State() == Shared(old(State()), r, t))
                && (old(!Caches(buf[r], dev, blockno)) ==> State() == Recycled(old(State()), r, t, dev, blockno))
                && (old(!Caches(buf[r], dev, blockno)) ==>
                      && (forall i :: 0 <= i < NBUF ==> !old(Caches(buf[i], dev, blockno)))
                      && old(!Busy(buf[r])) && 0 <= p < |order| && order[p] == r
                      && (forall q :: p < q < |order| ==> 0 <= order[q] < NBUF && old(Busy(buf[order[q]]))))
    {
      hide Inv, Ring, Full;
      ghost var c := State();
      InvSizes(c);
      p := 0;
      r := Search(dev, blockno);
      if r != HEAD {
        SharedKeeps(c, r, t);
        buf[r] := buf[r].(refcnt := buf[r].refcnt + 1);
        use := use[r := use[r].(holders := use[r].holders + {t})];
        tokens := tokens[t := (dev, blockno)];
        assert buf[..] == c.buf[r := buf[r]];
        return;
      }
      r, p := FindFree();
      if r == HEAD {
        return -1, p;
      }
      RecycledKeeps(c, r, t, dev, blockno);
      buf[r] := buf[r].(dev := dev, blockno := blockno, valid := false, dirty := false, refcnt := 1);
      use := use[r := use[r].(holders := {t}, touched := false)];
      tokens := tokens[t := (dev, blockno)];
      assert buf[..] == c.buf[r := buf[r]];
    }

    /** acquiresleep, once the lock is free. */
    method Lock(b: int, ghost t: nat)
      requires Valid() && 0 <= b < NBUF && t in use[b].holders && !buf[b].locked
      modifies buf, this`use
      ensures Valid() && State() == Locked(old(State()), b, t) && buf[b].locked && use[b].owner == t
    {
      hide Inv;
      ghost var c := State();
      InvSizes(c);
      LockedKeeps(c, b, t);
      buf[b] := buf[b].(locked := true);
      use := use[b := use[b].(owner := t)];
      assert buf[..] == c.buf[b := buf[b]];
    }

    /** The rest of bread, with the lock held: read the block unless the buffer is valid.  False
        stands for iderw's panics. */
    method Read(b: int, ghost t: nat) returns (ok: bool)
      requires Valid() && 0 <= b < NBUF && use[b].owner == t
      modifies buf, this`use
      ensures Valid()
      ensures ok <==> old(buf[b].valid || (buf[b].dev == ROOTDEV && 0 <= buf[b].blockno < |disk|))
      ensures ok && !use[b].touched ==> t in tokens && tokens[t] == (ROOTDEV, buf[b].blockno) && buf[b].valid
      ensures ok && !use[b].touched ==> 0 <= buf[b].blockno < |truth| && buf[b].data == truth[buf[b].blockno]
      ensures State() == if ok && !old(buf[b].valid) then Filled(old(State()), b) else old(State())
    {
      hide Inv;
      ghost var c := State();
      InvSizes(c);
      ok := true;
      if !buf[b].valid {
        if buf[b].dev != ROOTDEV || buf[b].blockno < 0 || buf[b].blockno >= |disk| {
          return false;
        }
        FilledKeeps(c, b);
        buf[b] := buf[b].(valid := true, data := disk[buf[b].blockno]);
        use := use[b := use[b].(touched := false)];
        assert buf[..] == c.buf[b := buf[b]];
      }
      if !use[b].touched {
        BreadReturnsLast(State(), b, t);
      }
    }

    /** The holder changes the data. */
    method Store(b: int, data: Block)
      requires Valid() && 0 <= b < NBUF && buf[b].locked
      modifies buf, this`use
      ensures Valid() && State() == Stored(old(State()), b, data) && buf[b].data == data
    {
      hide Inv;
      ghost var c := State();
      InvSizes(c);
      StoredKeeps(c, b, data);
      buf[b] := buf[b].(data := data);
      use := use[b := use[b].(touched := true)];
      assert buf[..] == c.buf[b := buf[b]];
    }

    /** log_write's part in the cache: B_DIRTY pins the buffer. */
    method Pin(b: int)
      requires Valid() && 0 <= b < NBUF && buf[b].locked && buf[b].valid
      modifies buf, this`use, this`truth, this`pinned
      ensures Valid() && 0 <= buf[b].blockno < |disk| == |old(truth)| && State() == Logged(old(State()), b)
      ensures buf[b].dirty && disk == old(disk) && truth == old(truth)[buf[b].blockno := buf[b].data]
    {
      hide Inv;
      ghost var c := State();
      InvSizes(c);
      LoggedKeeps(c, b);
      buf[b] := buf[b].(dirty := true);
      use := use[b := use[b].(touched := false)];
      truth := truth[buf[b].blockno := buf[b].data];
      pinned := pinned + {buf[b].blockno};
      assert buf[..] == c.buf[b := buf[b]];
    }

    /** bwrite. */
    method Bwrite(b: int)
      requires Valid() && 0 <= b < NBUF && buf[b].locked && buf[b].dev == ROOTDEV && 0 <= buf[b].blockno < |disk|
      modifies buf, this`use, this`truth, this`pinned, this`disk, this`trace
      ensures Valid() && |old(truth)| == |old(disk)| && State() == Written(old(State()), b)
      ensures buf[b].valid && !buf[b].dirty && disk == old(disk)[buf[b].blockno := buf[b].data]
      ensures trace == old(trace) + [WriteAheadLog.Write(buf[b].blockno, buf[b].data)]
    {
      hide Inv;
      ghost var c := State();
      InvSizes(c);
      WrittenKeeps(c, b);
      var n := buf[b].blockno;
      buf[b] := buf[b].(dirty := false, valid := true);
      use := use[b := use[b].(touched := false)];
      disk, truth := disk[n := buf[b].data], truth[n := buf[b].data];
      pinned := pinned - {n};
      trace := trace + [WriteAheadLog.Write(n, buf[b].data)];
      assert buf[..] == c.buf[b := buf[b]];
    }

    /** brelse, first half: releasesleep. */
    method Unlock(b: int)
      requires Valid() && 0 <= b < NBUF && buf[b].locked
      modifies buf, this`use
      ensures Valid() && State() == Unlocked(old(State()), b) && !buf[b].locked
    {
      hide Inv;
      ghost var c := State();
      InvSizes(c);
      UnlockedKeeps(c, b);
      buf[b] := buf[b].(locked := false);
      use := use[b := use[b].(owner := -1)];
      assert buf[..] == c.buf[b := buf[b]];
    }

    /** brelse, second half: with its last reference gone the buffer becomes the most recently used. */
    method Unref(b: int, ghost t: nat)
      requires Valid() && 0 <= b < NBUF && t in use[b].holders && use[b].owner != t
      modifies buf, this`use, this`order
      ensures Valid()
      ensures order == if buf[b].refcnt == 0 then ToFront(old(order), Position(old(order), b)) else old(order)
      ensures SameButLinks(Dropped(old(State()), b, t).buf, buf[..])
      ensures use == Dropped(old(State()), b, t).use
    {
      hide Inv, Ring, SameButLinks, Unlink, PushFront;
      ghost var c := State();
      InvSizes(c);
      DroppedKeeps(c, b, t);
      buf[b] := buf[b].(refcnt := buf[b].refcnt - 1);
      use := use[b := use[b].(holders := use[b].holders - {t})];
      assert buf[..] == c.buf[b := buf[b]];
      ghost var c1 := State();
      InOrder(c1, b);
      LinksRefl(c1.buf);
      if buf[b].refcnt == 0 {
        ghost var p := Position(order, b);
        ToFrontKeeps(c1, p);
        UnlinkLinks(buf[..], b);
        UnlinkInPlace(b);
        ghost var mid := buf[..];
        PushInPlace(b);
        LinksTrans(c1.buf, mid, buf[..]);
        order := ToFront(order, p);
      }
    }

    /** bread by a caller that waits for nobody; -1 stands for the "no buffers" panic. */
    method Bread(blockno: int, ghost held: set<int>) returns (b: int, ghost t: nat)
      requires Valid() && 0 <= blockno < |disk| && OnlyHeld(use, held) && HeldOnRoot(State(), held)
      requires forall i :: i in held ==> buf[i].blockno != blockno
      modifies buf, this`use, this`tokens
      ensures Valid()
      ensures b == -1 <==> |old(Kept(State(), held)) + {blockno}| > NBUF
      ensures b == -1 ==> State() == old(State())
      ensures b != -1 ==> b !in held && OnlyHeld(use, held + {b}) && Holds(State(), b, t, blockno)
      ensures b != -1 ==> !use[b].touched && blockno < |truth| && buf[b].data == truth[blockno]
      ensures forall i :: i in held ==> buf[i] == old(buf[i]) && use[i] == old(use[i])
    {
      hide Inv, Kept, Busy, OnlyHeld, Holds, Shared, Recycled;
      ghost var c := State();
      InvSizes(c);
      RoomFor(c, held, blockno);
      t := NewToken(tokens);
      ghost var p;
      b, p := Bget(ROOTDEV, blockno, t);
      if b == -1 {
        return;
      }
      Gotten(c, State(), held, b, t, blockno);
      ghost var c1 := State();
      Lock(b, t);
      var ok := Read(b, t);
      LockedAndRead(c1, State(), held, b, t, blockno);
    }

    /** brelse. */
    method Brelse(b: int, ghost t: nat, ghost held: set<int>)
      requires Valid() && 0 <= b < NBUF && use[b].holders == {t} && use[b].owner == t && buf[b].locked
      requires OnlyHeld(use, held) && b in held
      modifies buf, this`use, this`order
      ensures Valid()
      ensures !old(use[b].touched) ==> OnlyHeld(use, held - {b})
      ensures forall i :: 0 <= i < NBUF && i != b ==> use[i] == old(use[i])
      ensures forall i :: 0 <= i < NBUF && i != b ==> buf[i] == old(buf[i]).(next := buf[i].next, prev := buf[i].prev)
    {
      hide Inv, Ring;
      InvSizes(State());
      Unlock(b);
      Unref(b, t);
      InvSizes(State());
    }
  }

  /** A token not in use yet. */
  ghost function NewToken(tokens: map<nat, (int, int)>): (t: nat)
    ensures t !in tokens
  {
    Above(tokens.Keys)
  }

  ghost function Above(s: set<nat>): (t: nat)
    ensures forall x :: x in s ==> x < t
  {
    if s == {} then 0
    else
      var x :| x in s;
      var t := Above(s - {x});
      assert forall y :: y in s ==> y == x || y in s - {x};
      if x < t then t else x + 1
  }

  ghost predicate SameHeld(c: Cache, c': Cache, held: set<int>)
    requires HeldOnRoot(c, held)
  {
    |c'.buf| == |c.buf| && |c'.use| == |c.use| && forall i :: i in held ==>
      c'.buf[i] == c.buf[i] && c'.use[i] == c.use[i]
  }

  /** Buffer b is the caller's, not locked yet. */
  ghost predicate GotBuffer(c: Cache, b: int, t: nat, blockno: int) {
    && 0 <= b < NBUF && b < |c.buf| && b < |c.use|
    && c.use[b] == Use({t}, -1, false) && !c.buf[b].locked && Caches(c.buf[b], ROOTDEV, blockno)
  }

  /** The buffer that bget found or took was nobody's. */
  lemma Gotten(c: Cache, c': Cache, held: set<int>, b: int, t: nat, blockno: int)
    requires Inv(c) && OnlyHeld(c.use, held) && HeldOnRoot(c, held) && 0 <= b < NBUF
    requires forall i :: i in held ==> c.buf[i].blockno != blockno
    requires Caches(c.buf[b], ROOTDEV, blockno) || !Busy(c.buf[b])
    requires Caches(c.buf[b], ROOTDEV, blockno) ==> c' == Shared(c, b, t)
    requires !Caches(c.buf[b], ROOTDEV, blockno) ==> c' == Recycled(c, b, t, ROOTDEV, blockno)
    ensures b !in held && OnlyHeld(c'.use, held + {b}) && SameHeld(c, c', held) && GotBuffer(c', b, t, blockno)
    ensures HeldOnRoot(c', held)
  {
    hide Ring, Full, Unique, AllData, DiskOk;
    assert HeldOk(c.buf[b], c.use[b], c.tokens);
  }

  /** Locking and reading it gives the caller the block. */
  lemma LockedAndRead(c: Cache, c': Cache, held: set<int>, b: int, t: nat, blockno: int)
    requires OnlyHeld(c.use, held + {b}) && HeldOnRoot(c, held) && GotBuffer(c, b, t, blockno) && b !in held
    requires 0 <= blockno < |c.disk|
    requires
      var c2 := Locked(c, b, t);
      c' == if c2.buf[b].valid then c2 else Filled(c2, b)
    ensures OnlyHeld(c'.use, held + {b}) && SameHeld(c, c', held) && Holds(c', b, t, blockno) && !c'.use[b].touched
  {
  }

  lemma InvSizes(c: Cache)
    requires Inv(c)
    ensures |c.buf| == NBUF + 1 && |c.use| == NBUF && |c.truth| == |c.disk| && |c.order| == NBUF
  {
  }

  lemma RingHead(buf: seq<Buf>, order: seq<int>)
    requires Ring(buf, order) && |order| == NBUF
    ensures |buf| == NBUF + 1 && buf[HEAD].next == Stop(order, 1) && buf[HEAD].prev == Stop(order, NBUF)
  {
    assert Linked(buf, order, 0) && Linked(buf, order, NBUF);
  }

  lemma StopInside(order: seq<int>, k: nat)
    requires |order| == NBUF && Stop(order, k) != HEAD
    ensures 1 <= k <= NBUF
  {
  }

  lemma StopLast(buf: seq<Buf>, order: seq<int>, k: nat)
    requires Ring(buf, order) && |order| == NBUF && k <= NBUF + 1 && Stop(order, k) == HEAD
    ensures k == 0 || k == NBUF + 1
  {
  }

  lemma StopIs(order: seq<int>, q: nat)
    requires q < |order|
    ensures Stop(order, q + 1) == order[q]
  {
  }

  lemma StopOf(order: seq<int>, i: int)
    requires Full(order) && 0 <= i < NBUF
    ensures i in order && 1 <= Position(order, i) + 1 <= NBUF && Stop(order, Position(order, i) + 1) == i
  {
  }

  lemma InOrder(c: Cache, b: int)
    requires Inv(c) && 0 <= b < NBUF
    ensures b in c.order
  {
  }

  lemma LinksRefl(buf: seq<Buf>)
    ensures SameButLinks(buf, buf)
  {
  }
}
