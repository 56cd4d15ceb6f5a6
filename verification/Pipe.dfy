/** pipe.c: a ring of PIPESIZE bytes between two 32-bit counters, as a queue, and the
    readers and writers that sleep on it. */
module Pipe {
  import opened Common
  import opened Blocks

  const PIPESIZE: nat := 512

  /** How a turn under p->lock ends: the call returns r, or it sleeps. */
  datatype Outcome = Return(r: int) | Sleep

  /** The pipe as its users see it. written and taken are all bytes so far. */
  datatype View = View(queue: seq<Byte>, written: seq<Byte>, taken: seq<Byte>, readopen: bool, writeopen: bool)

  /** How many bytes of a pending write fit. */
  function Room(v: View, pending: nat): nat
    requires |v.queue| <= PIPESIZE
  {
    Min(pending, PIPESIZE - |v.queue|)
  }

  /** The k-th cell of the ring from counter x on. */
  function Cell(x: nat, k: nat): (r: nat)
    ensures r < PIPESIZE
  {
    (x + k) % PIPESIZE
  }

  function Put(v: View, s: seq<Byte>): View
  {
    v.(queue := v.queue + s, written := v.written + s)
  }

  function Take(v: View, k: nat): View
    requires k <= |v.queue|
  {
    v.(queue := v.queue[k..], taken := v.taken + v.queue[..k])
  }

  /** A writer's turn: what fits goes in. When something is left it gives up if nobody
      can read or it is killed, and sleeps otherwise. */
  function WriteTurn(v: View, addr: seq<Byte>, i: nat, killed: bool): (r: (View, nat, Outcome, bool))
    requires |v.queue| <= PIPESIZE && i <= |addr|
    ensures i <= r.1 <= |addr| && |r.0.queue| <= PIPESIZE
  {
    var j := i + Room(v, |addr| - i);
    var v' := Put(v, addr[i..j]);
    if j == |addr| then (v', j, Return(|addr|), true)
    else if !v.readopen || killed then (v', j, Return(-1), false)
    else (v', j, Sleep, true)
  }

  /** A reader's turn: up to n bytes of what is there, or sleep for a writer. */
  function ReadTurn(v: View, n: nat, killed: bool): (r: (View, seq<Byte>, Outcome, bool))
    ensures |r.0.queue| <= |v.queue|
  {
    if v.queue == [] && v.writeopen then (v, [], if killed then Return(-1) else Sleep, false)
    else
      var k := Min(n, |v.queue|);
      (Take(v, k), v.queue[..k], Return(k), true)
  }

  class PipeBuffer {
    const data: array<Byte>
    var nread: nat
    var nwrite: nat
    var readopen: bool
    var writeopen: bool
    ghost var queue: seq<Byte>
    ghost var written: seq<Byte>
    ghost var taken: seq<Byte>

    /** Counters wrap around; PIPESIZE divides 2^32, so the ring does not notice. */
    ghost predicate Valid()
      reads this, data
    {
      && data.Length == PIPESIZE && nread < UINT_LIMIT && nwrite < UINT_LIMIT
      && |queue| <= PIPESIZE && nwrite == (nread + |queue|) % UINT_LIMIT
      && (forall k | 0 <= k < |queue| :: data[Cell(nread, k)] == queue[k])
      && written == taken + queue
    }

    ghost function Now(): View
      reads this
    {
      View(queue, written, taken, readopen, writeopen)
    }

    /** pipealloc */
    constructor ()
      ensures Valid() && fresh(data) && Now() == View([], [], [], true, true)
    {
      data := new Byte[PIPESIZE](_ => 0);
      nread, nwrite, readopen, writeopen := 0, 0, true, true;
      queue, written, taken := [], [], [];
    }

    predicate Full()
      reads this
    {
      nwrite == (nread + PIPESIZE) % UINT_LIMIT
    }

    lemma FullIff()
      requires Valid()
      ensures Full() <==> |queue| == PIPESIZE
      ensures nread == nwrite <==> queue == []
    {
    }

    method PutByte(b: Byte)
      requires Valid() && |queue| < PIPESIZE
      modifies this, data
      ensures Valid() && Now() == Put(old(Now()), [b])
    {
      hide Cell;
      RingFree(nread, |queue|);
      RingAt(nread, |queue|);
      data[nwrite % PIPESIZE] := b;
      nwrite := (nwrite + 1) % UINT_LIMIT;
      queue, written := queue + [b], written + [b];
    }

    method TakeByte() returns (b: Byte)
      requires Valid() && queue != []
      modifies `nread, `queue, `taken
      ensures Valid() && b == old(queue)[0] && Now() == Take(old(Now()), 1)
    {
      hide Cell;
      ghost var n, q := nread, queue;
      RingAt(n, 0);
      RingDrop(n, |q|);
      b := data[nread % PIPESIZE];
      nread := (nread + 1) % UINT_LIMIT;
      taken, queue := taken + [queue[0]], queue[1..];
      forall k: nat | k < |queue| ensures data[Cell(nread, k)] == queue[k] {
        RingShift(n, k);
        assert data[Cell(n, k + 1)] == q[k + 1];
      }
      assert q == [q[0]] + queue;
    }

    /** pipewrite from one acquisition of the lock to its release, at byte i of addr;
        woke tells whether wakeup(&p->nread) was called. */
    method Write(addr: seq<Byte>, i: nat, killed: bool) returns (j: nat, out: Outcome, woke: bool)
      requires Valid() && i <= |addr|
      modifies this, data
      ensures Valid() && i <= j <= |addr| && readopen == old(readopen) && writeopen == old(writeopen)
      ensures queue == old(queue) + addr[i..j] && written == old(written) + addr[i..j] && taken == old(taken)
      ensures j < |addr| ==> |queue| == PIPESIZE
      ensures if j == |addr| then out == Return(|addr|) && woke
              else if !readopen || killed then out == Return(-1) && !woke
              else out == Sleep && woke
      ensures (Now(), j, out, woke) == WriteTurn(old(Now()), addr, i, killed)
    {
      hide Put;
      j, woke := i, false;
      ghost var v := Now();
      PutNone(v, addr, i);
      while j < |addr|
        invariant Valid() && i <= j <= |addr| && j - i <= PIPESIZE - |v.queue| && Now() == Put(v, addr[i..j])
      {
        PutQueue(v, addr[i..j]);
        FullIff();
        if Full() {
          if !readopen || killed { return j, Return(-1), false; }
          return j, Sleep, true;
        }
        PutByte(addr[j]);
        PutNext(v, addr, i, j);
        j := j + 1;
      }
      PutQueue(v, addr[i..j]);
      return j, Return(|addr|), true;
    }

    /** piperead from one acquisition of the lock to its release;
        woke tells whether wakeup(&p->nwrite) was called. */
    method Read(n: nat, killed: bool) returns (got: seq<Byte>, out: Outcome, woke: bool)
      requires Valid()
      modifies `nread, `queue, `taken
      ensures Valid() && old(queue) == got + queue && taken == old(taken) + got
      ensures if old(queue) == [] && writeopen then out == (if killed then Return(-1) else Sleep) && !woke
              else out == Return(|got|) && |got| == Min(n, |old(queue)|) && woke
      ensures (Now(), got, out, woke) == ReadTurn(old(Now()), n, killed)
    {
      hide Take;
      got := [];
      ghost var v := Now();
      FullIff();
      if nread == nwrite && writeopen {
        return [], if killed then Return(-1) else Sleep, false;
      }
      TakeNone(v);
      var i := 0;
      while i < n
        invariant Valid() && |got| == i <= n && i <= |v.queue| && got == v.queue[..i] && Now() == Take(v, i)
      {
        FullIff();
        if nread == nwrite { break; }
        TakeQueue(v, i);
        var b := TakeByte();
        TakeNext(v, i);
        got := got + [b];
        i := i + 1;
      }
      TakeQueue(v, i);
      return got, Return(i), true;
    }

    /** pipeclose; gone when both ends are closed. */
    method Close(writable: bool) returns (gone: bool)
      requires Valid()
      modifies `readopen, `writeopen
      ensures Valid() && Now() == Closed(old(Now()), writable) && gone == (!readopen && !writeopen)
      ensures writeopen == (old(writeopen) && !writable) && readopen == (old(readopen) && writable)
    {
      if writable { writeopen := false; } else { readopen := false; }
      return !readopen && !writeopen;
    }
  }

  function Closed(v: View, writable: bool): View
  {
    if writable then v.(writeopen := false) else v.(readopen := false)
  }

  lemma PutNone(v: View, addr: seq<Byte>, i: nat)
    requires i <= |addr|
    ensures Put(v, addr[i..i]) == v
  {
  }

  lemma PutQueue(v: View, s: seq<Byte>)
    ensures var w := Put(v, s);
            && w.queue == v.queue + s && w.written == v.written + s && w.taken == v.taken
            && w.readopen == v.readopen && w.writeopen == v.writeopen
  {
  }

  lemma PutNext(v: View, addr: seq<Byte>, i: nat, j: nat)
    requires i <= j < |addr|
    ensures Put(Put(v, addr[i..j]), [addr[j]]) == Put(v, addr[i..j + 1])
  {
    assert addr[i..j] + [addr[j]] == addr[i..j + 1];
    assert v.queue + addr[i..j] + [addr[j]] == v.queue + addr[i..j + 1];
    assert v.written + addr[i..j] + [addr[j]] == v.written + addr[i..j + 1];
  }

  lemma TakeNone(v: View)
    ensures Take(v, 0) == v
  {
    assert v.taken + [] == v.taken;
  }

  lemma TakeQueue(v: View, k: nat)
    requires k <= |v.queue|
    ensures var w := Take(v, k);
            && w.queue == v.queue[k..] && v.queue == v.queue[..k] + w.queue && w.taken == v.taken + v.queue[..k]
            && w.written == v.written && w.readopen == v.readopen && w.writeopen == v.writeopen
  {
  }

  lemma TakeNext(v: View, k: nat)
    requires k < |v.queue|
    ensures Take(v, k).queue != [] && Take(Take(v, k), 1) == Take(v, k + 1)
    ensures v.queue[..k] + [v.queue[k]] == v.queue[..k + 1] && v.queue[k..][0] == v.queue[k]
  {
    assert v.taken + v.queue[..k] + [v.queue[k]] == v.taken + v.queue[..k + 1];
  }

  // The ring survives the counters' wrap-around.

  lemma RingAt(x: nat, k: nat)
    requires x < UINT_LIMIT && k <= PIPESIZE
    ensures ((x + k) % UINT_LIMIT) % PIPESIZE == Cell(x, k)
    ensures ((x + k) % UINT_LIMIT + 1) % UINT_LIMIT == (x + (k + 1)) % UINT_LIMIT
  {
  }

  lemma RingFree(x: nat, n: nat)
    requires n < PIPESIZE
    ensures forall k {:trigger Cell(x, k)} | 0 <= k < n :: Cell(x, k) != Cell(x, n)
  {
  }

  lemma RingShift(x: nat, k: nat)
    requires x < UINT_LIMIT && k < PIPESIZE
    ensures Cell((x + 1) % UINT_LIMIT, k) == Cell(x, k + 1)
  {
  }

  lemma RingDrop(x: nat, n: nat)
    requires x < UINT_LIMIT && 0 < n <= PIPESIZE
    ensures ((x + 1) % UINT_LIMIT + (n - 1)) % UINT_LIMIT == (x + n) % UINT_LIMIT
  {
  }
}
