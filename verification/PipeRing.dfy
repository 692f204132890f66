/** pipe.c: a ring of bytes between two counters that wrap at 32 bits. */
module PipeRing {
  const PIPESIZE := 512
  const WRAP := 0x1_0000_0000

  /** `sent`: every byte ever deposited, in order; `got`: every byte ever returned by a read, in the
      order in which the reads held the lock. */
  datatype Pipe = Pipe(data: seq<int>, nread: int, nwrite: int, readopen: bool, writeopen: bool, sent: seq<int>,
                       got: seq<int>)

  /** The counters are right modulo 2^32, at most PIPESIZE bytes are in the pipe, and the ring holds them. */
  ghost predicate Inv(s: Pipe) {
    && |s.data| == PIPESIZE
    && s.nread == |s.got| % WRAP && s.nwrite == |s.sent| % WRAP
    && |s.got| <= |s.sent| <= |s.got| + PIPESIZE
    && s.got == s.sent[..|s.got|]
    && forall k :: |s.got| <= k < |s.sent| ==> s.data[k % PIPESIZE] == s.sent[k]
  }

  predicate Full(s: Pipe) {
    s.nwrite == (s.nread + PIPESIZE) % WRAP
  }

  predicate Empty(s: Pipe) {
    s.nread == s.nwrite
  }

  /** When a reader, and when a writer, that is not killed has to sleep. */
  predicate ReaderWaits(s: Pipe) {
    Empty(s) && s.writeopen
  }

  predicate WriterWaits(s: Pipe) {
    Full(s) && s.readopen
  }

  /** The comparisons of wrapped counters mean what they should. */
  lemma CountersTell(s: Pipe)
    requires Inv(s)
    ensures Full(s) <==> |s.sent| == |s.got| + PIPESIZE
    ensures Empty(s) <==> |s.sent| == |s.got|
    ensures 0 <= (s.nwrite - s.nread) % WRAP == |s.sent| - |s.got| <= PIPESIZE
  {
    var a, n := |s.got|, |s.sent| - |s.got|;
    ModAdd(a, n);
    ModAdd(a, PIPESIZE);
    assert (s.nwrite - s.nread) % WRAP == n;
  }

  lemma ModAdd(a: nat, n: nat)
    requires n <= PIPESIZE
    ensures (a + n) % WRAP == (a % WRAP + n) % WRAP
    ensures (a + n) % WRAP == if a % WRAP + n < WRAP then a % WRAP + n else a % WRAP + n - WRAP
  {
  }

  /** The ring index of byte number k: PIPESIZE divides 2^32. */
  lemma RingIndex(k: nat)
    ensures (k % WRAP) % PIPESIZE == k % PIPESIZE
  {
  }

  function Deposit(s: Pipe, b: int): (r: Pipe)
    requires |s.data| == PIPESIZE
  {
    s.(data := s.data[s.nwrite % PIPESIZE := b], nwrite := (s.nwrite + 1) % WRAP, sent := s.sent + [b])
  }

  lemma DepositKeeps(s: Pipe, b: int)
    requires Inv(s) && !Full(s)
    ensures Inv(Deposit(s, b))
  {
    CountersTell(s);
    RingIndex(|s.sent|);
    ModAdd(|s.sent|, 1);
    var s' := Deposit(s, b);
    forall k | |s'.got| <= k < |s'.sent| ensures s'.data[k % PIPESIZE] == s'.sent[k] {
      if k < |s.sent| {
        OtherIndex(k, |s.sent|);
      }
    }
  }

  lemma OtherIndex(k: nat, n: nat)
    requires k < n < k + PIPESIZE
    ensures k % PIPESIZE != n % PIPESIZE
  {
  }

  lemma DepositIs(s: Pipe, b: int)
    requires |s.data| == PIPESIZE
    ensures Deposit(s, b) == Pipe(s.data[s.nwrite % PIPESIZE := b], s.nread, (s.nwrite + 1) % WRAP, s.readopen,
            s.writeopen, s.sent + [b], s.got)
  {
  }

  lemma InvFacts(s: Pipe)
    requires Inv(s)
    ensures |s.data| == PIPESIZE && 0 <= s.nread < WRAP && 0 <= s.nwrite < WRAP
    ensures |s.got| <= |s.sent| <= |s.got| + PIPESIZE && s.got == s.sent[..|s.got|]
  {
  }

  function Take(s: Pipe): (r: Pipe)
    requires |s.data| == PIPESIZE
  {
    s.(nread := (s.nread + 1) % WRAP, got := s.got + [s.data[s.nread % PIPESIZE]])
  }

  lemma TakeKeeps(s: Pipe)
    requires Inv(s) && !Empty(s)
    ensures Inv(Take(s)) && |s.got| < |s.sent| && s.data[s.nread % PIPESIZE] == s.sent[|s.got|]
  {
    CountersTell(s);
    RingIndex(|s.got|);
    ModAdd(|s.got|, 1);
    var b := s.sent[|s.got|];
    assert s.data[|s.got| % PIPESIZE] == b;
    assert s.sent[..|s.got| + 1] == s.sent[..|s.got|] + [b];
  }

  /** What a writer's turn with the lock ends in. */
  datatype WriteEnd = Written | Refused | WriteSleeps

  /** What a reader's turn ends in: bytes, -1, or sleep. */
  datatype ReadEnd = Bytes(b: seq<int>) | ReadRefused | ReadSleeps

  lemma OneMoreByte(addr: seq<int>, i0: nat, i: nat, sent: seq<int>)
    requires i0 <= i < |addr|
    ensures sent + addr[i0..i + 1] == sent + addr[i0..i] + [addr[i]]
  {
    assert addr[i0..i + 1] == addr[i0..i] + [addr[i]];
  }

  class Ring {
    const data: array<int>
    var nread: int
    var nwrite: int
    var readopen: bool
    var writeopen: bool
    ghost var sent: seq<int>
    ghost var got: seq<int>

    ghost function State(): Pipe
      reads this, data
    {
      Pipe(data[..], nread, nwrite, readopen, writeopen, sent, got)
    }

    ghost predicate Valid()
      reads this, data
    {
      Inv(State())
    }

    /** pipealloc's part. */
    constructor ()
      ensures Valid() && fresh(data) && sent == [] && got == [] && readopen && writeopen
    {
      data := new int[PIPESIZE](i => 0);
      nread, nwrite, readopen, writeopen := 0, 0, true, true;
      sent, got := [], [];
    }

    /** pipewrite from byte i on, until it returns or sleeps.  `woke`: it has called wakeup(&nread).
        It leaves readers asleep that could go on exactly if the pipe was empty, the bytes do not all
        fit into it, and the read end is closed or the process killed. */
    method Write(addr: seq<int>, i0: nat, killed: bool) returns (i: nat, end: WriteEnd, woke: bool)
      requires Valid() && i0 <= |addr|
      modifies data, this`nwrite, this`sent
      ensures Valid() && i0 <= i <= |addr| && sent == old(sent) + addr[i0..i]
      ensures i - i0 == var room := PIPESIZE - old(|sent| - |got|); if |addr| - i0 <= room then |addr| - i0 else room
      ensures end == Written <==> i == |addr|
      ensures end != Written ==> |sent| == |got| + PIPESIZE
      ensures end == Refused <==> i < |addr| && (!readopen || killed)
      ensures woke <==> end != Refused
      ensures old(ReaderWaits(State())) && !ReaderWaits(State()) && !woke <==>
                old(|sent| == |got|) && writeopen && |addr| - i0 > PIPESIZE && (!readopen || killed)
    {
      hide Inv, Deposit;
      CountersTell(State());
      i := i0;
      assert addr[i0..i0] == [];
      while i < |addr|
        invariant Valid() && i0 <= i <= |addr| && sent == old(sent) + addr[i0..i]
      {
        ghost var s := State();
        CountersTell(s);
        InvFacts(s);
        if nwrite == (nread + PIPESIZE) % WRAP {
          if !readopen || killed {
            return i, Refused, false;
          }
          return i, WriteSleeps, true;
        }
        DepositKeeps(s, addr[i]);
        DepositIs(s, addr[i]);
        data[nwrite % PIPESIZE] := addr[i];
        assert data[..] == s.data[s.nwrite % PIPESIZE := addr[i]];
        nwrite := (nwrite + 1) % WRAP;
        sent := sent + [addr[i]];
        OneMoreByte(addr, i0, i, old(sent));
        i := i + 1;
      }
      CountersTell(State());
      InvFacts(State());
      end, woke := Written, true;
    }

    /** piperead, until it returns or sleeps.  `woke`: it has called wakeup(&nwrite). */
    method Read(n: int, killed: bool) returns (end: ReadEnd, woke: bool)
      requires Valid()
      modifies this`nread, this`got
      ensures Valid()
      ensures old(|sent| == |got|) && writeopen ==>
              end == (if killed then ReadRefused else ReadSleeps) && got == old(got)
      ensures old(|sent| > |got|) || !writeopen ==>
                && end.Bytes? && got == old(got) + end.b && got == sent[..|got|]
                && |end.b| == (if n <= 0 then 0 else if n < |sent| - |old(got)| then n else |sent| - |old(got)|)
      ensures n > 0 && end == Bytes([]) ==> |sent| == |got| && !writeopen
      ensures woke <==> end.Bytes?
      ensures old(WriterWaits(State())) && !WriterWaits(State()) ==> woke
    {
      hide Inv;
      CountersTell(State());
      if nread == nwrite && writeopen {
        return if killed then ReadRefused else ReadSleeps, false;
      }
      var i, b := 0, [];
      while i < n
        invariant 0 <= i && |b| == i && (n > 0 ==> i <= n) && (n <= 0 ==> i == 0)
        invariant Valid() && got == old(got) + b
      {
        ghost var s := State();
        CountersTell(s);
        InvFacts(s);
        if nread == nwrite {
          break;
        }
        TakeKeeps(s);
        b := b + [data[nread % PIPESIZE]];
        got := got + [data[nread % PIPESIZE]];
        nread := (nread + 1) % WRAP;
        i := i + 1;
      }
      CountersTell(State());
      InvFacts(State());
      end, woke := Bytes(b), true;
    }

    /** pipeclose; `freed` when the pipe's page is.  The other end is woken. */
    method Close(writable: bool) returns (freed: bool, wokeReaders: bool, wokeWriters: bool)
      requires Valid()
      modifies this`readopen, this`writeopen
      ensures wokeReaders == writable && wokeWriters == !writable
      ensures old(ReaderWaits(State())) && !ReaderWaits(State()) ==> wokeReaders
      ensures old(WriterWaits(State())) && !WriterWaits(State()) ==> wokeWriters
      ensures Valid() && writeopen == (old(writeopen) && !writable) && readopen == (old(readopen) && writable)
      ensures freed <==> !readopen && !writeopen
    {
      if writable {
        writeopen, wokeReaders, wokeWriters := false, true, false;
      } else {
        readopen, wokeReaders, wokeWriters := false, false, true;
      }
      freed := !readopen && !writeopen;
    }
  }

  // ---------- runs ----------

  /** One byte in, one byte out, or an end closed: what any interleaving of readers, writers and
      closes is made of. */
  ghost predicate Next(s: Pipe, s': Pipe) {
    && |s.data| == PIPESIZE
    && (|| (!Full(s) && exists b :: s' == Deposit(s, b))
        || (!Empty(s) && s' == Take(s))
        || s' == s.(readopen := false)
        || s' == s.(writeopen := false))
  }

  ghost predicate Run(run: seq<Pipe>) {
    && |run| > 0
    && |run[0].data| == PIPESIZE && run[0].nread == 0 == run[0].nwrite && run[0].sent == [] == run[0].got
    && forall k :: 0 <= k < |run| - 1 ==> Next(run[k], run[k + 1])
  }

  lemma NextKeeps(s: Pipe, s': Pipe)
    requires Inv(s) && Next(s, s')
    ensures Inv(s') && s.sent <= s'.sent && s.got <= s'.got
  {
    if !Full(s) && exists b :: s' == Deposit(s, b) {
      var b :| s' == Deposit(s, b);
      DepositKeeps(s, b);
    } else if !Empty(s) && s' == Take(s) {
      TakeKeeps(s);
    }
  }

  lemma {:induction false} RunKeeps(run: seq<Pipe>, k: nat)
    requires Run(run) && k < |run|
    ensures Inv(run[k])
  {
    if k > 0 {
      RunKeeps(run, k - 1);
      assert Next(run[k - 1], run[k - 1 + 1]);
      NextKeeps(run[k - 1], run[k]);
    }
  }

  /** In every run, what has been read is a prefix of what has been written, the ring holds the rest,
      and neither is ever taken back. */
  lemma {:induction false} Stream(run: seq<Pipe>, i: nat, j: nat)
    requires Run(run) && i <= j < |run|
    ensures run[j].got <= run[j].sent && |run[j].sent| - |run[j].got| <= PIPESIZE == |run[j].data|
    ensures forall k :: |run[j].got| <= k < |run[j].sent| ==> run[j].data[k % PIPESIZE] == run[j].sent[k]
    ensures run[i].sent <= run[j].sent && run[i].got <= run[j].got
    decreases j - i
  {
    RunKeeps(run, j);
    if i < j {
      Stream(run, i, j - 1);
      RunKeeps(run, j - 1);
      assert Next(run[j - 1], run[j - 1 + 1]);
      NextKeeps(run[j - 1], run[j]);
    }
  }
}
