/** The LRU list of bio.c: buffers linked in a ring through prev and next, with a head. */
module BufferRing {
  import opened Params
  import opened WriteAheadLog

  /** The list head's place in the array; pointers are indices. */
  const HEAD := NBUF

  datatype Buf = Buf(valid: bool, dirty: bool, dev: int, blockno: int, locked: bool, refcnt: int, prev: int, next: int,
                     data: Block)

  /** The k-th stop on the way round: the head, the buffers in order, and the head again. */
  ghost function Stop(order: seq<int>, k: int): int {
    if 1 <= k <= |order| then order[k - 1] else HEAD
  }

  ghost predicate Linked(buf: seq<Buf>, order: seq<int>, k: int)
    requires |buf| == NBUF + 1
  {
    && 0 <= Stop(order, k) <= NBUF && 0 <= Stop(order, k + 1) <= NBUF
    && buf[Stop(order, k)].next == Stop(order, k + 1) && buf[Stop(order, k + 1)].prev == Stop(order, k)
  }

  /** The ring visits the buffers of `order` in that order, from the head's next on. */
  ghost predicate Ring(buf: seq<Buf>, order: seq<int>) {
    && |buf| == NBUF + 1
    && (forall k :: 0 <= k < |order| ==> 0 <= order[k] < NBUF)
    && Distinct(order)
    && (forall k :: 0 <= k <= |order| ==> Linked(buf, order, k))
  }

  /** All buffers are in the ring. */
  ghost predicate Full(order: seq<int>) {
    |order| == NBUF && forall i :: 0 <= i < NBUF ==> i in order
  }

  function SetNext(buf: seq<Buf>, i: int, j: int): (r: seq<Buf>)
    requires 0 <= i < |buf|
  {
    buf[i := buf[i].(next := j)]
  }

  function SetPrev(buf: seq<Buf>, i: int, j: int): (r: seq<Buf>)
    requires 0 <= i < |buf|
  {
    buf[i := buf[i].(prev := j)]
  }

  /** Taking buffer b out: b->next->prev = b->prev; b->prev->next = b->next. */
  function Unlink(buf: seq<Buf>, b: int): (r: seq<Buf>)
    requires 0 <= b < |buf| && 0 <= buf[b].next < |buf| && 0 <= buf[b].prev < |buf|
    ensures |r| == |buf|
  {
    var one := SetPrev(buf, buf[b].next, buf[b].prev);
    SetNext(one, buf[b].prev, buf[b].next)
  }

  /** Putting buffer b behind the head. */
  function PushFront(buf: seq<Buf>, b: int): (r: seq<Buf>)
    requires |buf| == NBUF + 1 && 0 <= b < NBUF && 0 <= buf[HEAD].next < |buf|
    ensures |r| == |buf|
  {
    var first := buf[HEAD].next;
    var one := buf[b := buf[b].(next := first, prev := HEAD)];
    SetNext(SetPrev(one, first, b), HEAD, b)
  }

  function Without(order: seq<int>, p: nat): (r: seq<int>)
    requires p < |order|
    ensures |r| == |order| - 1
    ensures forall k :: 0 <= k < |r| ==> r[k] == if k < p then order[k] else order[k + 1]
  {
    order[..p] + order[p + 1..]
  }

  lemma RingAt(buf: seq<Buf>, order: seq<int>, k: nat)
    requires Ring(buf, order) && 1 <= k <= |order|
    ensures 0 <= Stop(order, k) < NBUF && Stop(order, k) == order[k - 1]
    ensures 0 <= Stop(order, k + 1) <= NBUF && 0 <= Stop(order, k - 1) <= NBUF
    ensures buf[Stop(order, k)].next == Stop(order, k + 1) && buf[Stop(order, k)].prev == Stop(order, k - 1)
  {
    assert Linked(buf, order, k) && Linked(buf, order, k - 1);
  }

  /** Different stops are different buffers, except the head at both ends. */
  lemma StopsDiffer(buf: seq<Buf>, order: seq<int>, i: nat, j: nat)
    requires Ring(buf, order) && i < j < |order| + 2 && !(i == 0 && j == |order| + 1)
    ensures Stop(order, i) != Stop(order, j)
  {
  }

  lemma RingRemove(buf: seq<Buf>, order: seq<int>, p: nat)
    requires Ring(buf, order) && p < |order|
    ensures 0 <= order[p] < NBUF && 0 <= buf[order[p]].next <= NBUF && 0 <= buf[order[p]].prev <= NBUF
    ensures Ring(Unlink(buf, order[p]), Without(order, p))
    ensures order[p] !in Without(order, p)
  {
    RingAt(buf, order, p + 1);
    var buf', order' := Unlink(buf, order[p]), Without(order, p);
    forall k | 0 <= k <= |order'| ensures Linked(buf', order', k) {
      RemoveAt(buf, order, p, k);
    }
  }

  lemma RemoveAt(buf: seq<Buf>, order: seq<int>, p: nat, k: nat)
    requires Ring(buf, order) && p < |order| && k <= |order| - 1
    requires 0 <= order[p] < NBUF && 0 <= buf[order[p]].next <= NBUF && 0 <= buf[order[p]].prev <= NBUF
    ensures Linked(Unlink(buf, order[p]), Without(order, p), k)
  {
    hide Ring, Stop, Without;
    RingSize(buf, order);
    RingAt(buf, order, p + 1);
    StopWithout(order, p, k);
    if k < p {
      StopsDiffer(buf, order, k, p);
      StopsDiffer(buf, order, k + 1, p + 2);
      RingLinked(buf, order, k);
    } else if k > p {
      StopsDiffer(buf, order, p, k + 1);
      StopsDiffer(buf, order, p + 2, k + 2);
      RingLinked(buf, order, k + 1);
    } else {
      RingLinked(buf, order, p);
      RingLinked(buf, order, p + 1);
    }
  }

  lemma StopWithout(order: seq<int>, p: nat, k: nat)
    requires p < |order|
    ensures Stop(Without(order, p), k) == if k <= p then Stop(order, k) else Stop(order, k + 1)
    ensures Stop(Without(order, p), k + 1) == if k < p then Stop(order, k + 1) else Stop(order, k + 2)
  {
  }

  lemma RingLinked(buf: seq<Buf>, order: seq<int>, k: nat)
    requires Ring(buf, order) && k <= |order|
    ensures |buf| == NBUF + 1 && Linked(buf, order, k)
  {
  }

  lemma RingPush(buf: seq<Buf>, order: seq<int>, b: int)
    requires Ring(buf, order) && 0 <= b < NBUF && b !in order
    ensures 0 <= buf[HEAD].next <= NBUF
    ensures Ring(PushFront(buf, b), [b] + order)
  {
    assert Linked(buf, order, 0);
    var buf', order' := PushFront(buf, b), [b] + order;
    forall k | 0 <= k <= |order'| ensures Linked(buf', order', k) {
      PushAt(buf, order, b, k);
    }
  }

  lemma PushAt(buf: seq<Buf>, order: seq<int>, b: int, k: nat)
    requires Ring(buf, order) && 0 <= b < NBUF && b !in order && k <= |order| + 1
    requires 0 <= buf[HEAD].next <= NBUF
    ensures Linked(PushFront(buf, b), [b] + order, k)
  {
    assert Linked(buf, order, 0);
    assert k >= 2 ==> Stop([b] + order, k) == Stop(order, k - 1);
    assert k >= 1 ==> Stop([b] + order, k + 1) == Stop(order, k);
    if k >= 2 {
      assert Linked(buf, order, k - 1);
      StopsDiffer(buf, order, 0, k - 1);
      StopsDiffer(buf, order, 1, k);
    }
  }

  /** The order after brelse has moved the buffer at p to the front. */
  ghost function ToFront(order: seq<int>, p: nat): seq<int>
    requires p < |order|
  {
    [order[p]] + Without(order, p)
  }

  lemma RingToFront(buf: seq<Buf>, order: seq<int>, p: nat)
    requires Ring(buf, order) && p < |order|
    ensures 0 <= order[p] < NBUF && 0 <= buf[order[p]].next <= NBUF && 0 <= buf[order[p]].prev <= NBUF
    ensures
      var one := Unlink(buf, order[p]);
      0 <= one[HEAD].next <= NBUF && Ring(PushFront(one, order[p]), ToFront(order, p))
    ensures Full(order) ==> Full(ToFront(order, p))
  {
    hide Ring, Unlink, PushFront, Without;
    RingRemove(buf, order, p);
    RingSize(Unlink(buf, order[p]), Without(order, p));
    RingPush(Unlink(buf, order[p]), Without(order, p), order[p]);
    if Full(order) {
      FrontFull(order, p);
    }
  }

  lemma RingSize(buf: seq<Buf>, order: seq<int>)
    requires Ring(buf, order)
    ensures |buf| == NBUF + 1
  {
  }

  lemma FrontFull(order: seq<int>, p: nat)
    requires p < |order| && Full(order)
    ensures Full(ToFront(order, p))
  {
    var r := ToFront(order, p);
    forall i | 0 <= i < NBUF ensures i in r {
      var k := Position(order, i);
      assert k < p ==> r[k + 1] == i;
      assert k > p ==> r[k] == i;
      assert k == p ==> r[0] == i;
    }
  }
}
