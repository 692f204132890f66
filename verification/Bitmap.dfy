/** The free bitmap as bytes: the tests and updates of balloc and bfree, and the map mkfs writes,
    against the bit-by-bit view that FsState uses. */
module Bitmap {
  import opened Blocks

  /** 1 << k. */
  function Mask(k: nat): bv8
    requires k < 8
  {
    if k == 0 then 1 else if k == 1 then 2 else if k == 2 then 4 else if k == 3 then 8
    else if k == 4 then 16 else if k == 5 then 32 else if k == 6 then 64 else 128
  }

  predicate On(x: bv8, k: nat)
    requires k < 8
  {
    x & Mask(k) != 0
  }

  function Or(x: bv8, k: nat): bv8
    requires k < 8
  {
    x | Mask(k)
  }

  function AndNot(x: bv8, k: nat): bv8
    requires k < 8
  {
    x & !Mask(k)
  }

  predicate Bit(buf: seq<bv8>, i: nat)
    requires i / 8 < |buf|
  {
    On(buf[i / 8], i % 8)
  }

  function Mark(buf: seq<bv8>, i: nat): (r: seq<bv8>)
    requires i / 8 < |buf|
  {
    buf[i / 8 := Or(buf[i / 8], i % 8)]
  }

  function Unmark(buf: seq<bv8>, i: nat): (r: seq<bv8>)
    requires i / 8 < |buf|
  {
    buf[i / 8 := AndNot(buf[i / 8], i % 8)]
  }

  /** Marking and unmarking touch the one bit. */
  lemma MarkIs(buf: seq<bv8>, i: nat, k: nat)
    requires i / 8 < |buf| && k / 8 < |buf|
    ensures Bit(Mark(buf, i), k) <==> k == i || Bit(buf, k)
    ensures Bit(Unmark(buf, i), k) <==> k != i && Bit(buf, k)
  {
  }

  lemma MarkSize(buf: seq<bv8>, i: nat)
    requires i / 8 < |buf|
    ensures |Mark(buf, i)| == |buf| == |Unmark(buf, i)|
  {
  }

  /** mkfs's balloc: the bitmap with the first `used` bits set; false stands for its assert. */
  method FirstUsed(used: nat) returns (ok: bool, buf: array<bv8>)
    ensures ok <==> used < BPB
    ensures ok ==> fresh(buf) && buf.Length == BSIZE && forall b :: 0 <= b < BPB ==> (Bit(buf[..], b) <==> b < used)
  {
    hide Bit, Or;
    buf := new bv8[BSIZE](i => 0);
    ok := used < BPB;
    if ok {
      Cleared(buf[..]);
      var i := 0;
      while i < used
        invariant 0 <= i <= used
        invariant forall b :: 0 <= b < BPB ==> (Bit(buf[..], b) <==> b < i)
      {
        ghost var before := buf[..];
        buf[i / 8] := Or(buf[i / 8], i % 8);
        assert buf[..] == Mark(before, i);
        forall b | 0 <= b < BPB ensures Bit(buf[..], b) <==> b < i + 1 {
          MarkIs(before, i, b);
        }
        i := i + 1;
      }
    }
  }

  lemma Cleared(buf: seq<bv8>)
    requires forall i :: 0 <= i < |buf| ==> buf[i] == 0
    ensures forall b :: 0 <= b < 8 * |buf| ==> !Bit(buf, b)
  {
  }

  // ---------- the bitmap blocks of a disk ----------

  /** Bitmap blocks enough for a disk of this size. */
  ghost predicate Mapped(bitmap: seq<seq<bv8>>, size: nat) {
    size <= |bitmap| * BPB && forall i :: 0 <= i < |bitmap| ==> |bitmap[i]| == BSIZE
  }

  ghost predicate BitAt(bitmap: seq<seq<bv8>>, b: nat) {
    b / BPB < |bitmap| && b % BPB / 8 < |bitmap[b / BPB]| && Bit(bitmap[b / BPB], b % BPB)
  }

  /** Block by block, what the bitmap says. */
  ghost function UsedBits(bitmap: seq<seq<bv8>>, size: nat): (r: seq<bool>)
    ensures |r| == size
  {
    seq(size, b requires 0 <= b => BitAt(bitmap, b))
  }

  lemma Split(k: nat, bi: nat)
    requires bi < BPB
    ensures (k * BPB + bi) / BPB == k && (k * BPB + bi) % BPB == bi && bi / 8 < BSIZE
  {
  }

  lemma UsedIs(bitmap: seq<seq<bv8>>, size: nat, k: nat, bi: nat)
    requires Mapped(bitmap, size) && bi < BPB && k * BPB + bi < size
    ensures k < |bitmap| && bi / 8 < |bitmap[k]| && (UsedBits(bitmap, size)[k * BPB + bi] <==> Bit(bitmap[k], bi))
  {
    hide Bit;
    Split(k, bi);
  }

  lemma MarkUsed(bitmap: seq<seq<bv8>>, size: nat, k: nat, bi: nat)
    requires Mapped(bitmap, size) && k < |bitmap| && bi < BPB && k * BPB + bi < size
    ensures
      var marked, unmarked := bitmap[k := Mark(bitmap[k], bi)], bitmap[k := Unmark(bitmap[k], bi)];
      && Mapped(marked, size) && UsedBits(marked, size) == UsedBits(bitmap, size)[k * BPB + bi := true]
      && Mapped(unmarked, size) && UsedBits(unmarked, size) == UsedBits(bitmap, size)[k * BPB + bi := false]
  {
    hide Bit, Mark, Unmark;
    MarkSize(bitmap[k], bi);
    Split(k, bi);
    var marked, unmarked := bitmap[k := Mark(bitmap[k], bi)], bitmap[k := Unmark(bitmap[k], bi)];
    forall b | 0 <= b < size
      ensures BitAt(marked, b) <==> b == k * BPB + bi || BitAt(bitmap, b)
      ensures BitAt(unmarked, b) <==> b != k * BPB + bi && BitAt(bitmap, b)
    {
      if b / BPB == k {
        MarkIs(bitmap[k], bi, b % BPB);
      }
    }
  }

  /** The map that mkfs writes, followed by blocks of zeroes. */
  lemma FirstUsedIs(bitmap: seq<seq<bv8>>, size: nat, used: nat)
    requires Mapped(bitmap, size) && |bitmap| > 0 && used < BPB
    requires forall b :: 0 <= b < BPB ==> (Bit(bitmap[0], b) <==> b < used)
    requires forall i :: 0 < i < |bitmap| ==> forall j :: 0 <= j < BSIZE ==> bitmap[i][j] == 0
    ensures UsedBits(bitmap, size) == seq(size, b => b < used)
  {
    hide Bit;
    forall b | 0 <= b < size ensures BitAt(bitmap, b) <==> b < used {
      if b / BPB > 0 {
        Cleared(bitmap[b / BPB]);
      }
    }
  }
}
