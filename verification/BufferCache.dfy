/** bio.c: a fixed pool of buffers on a circular doubly linked list kept in
    most-recently-released order, caching disk blocks.  Pointers into bcache.buf
    are indices; index NBUF is the list header bcache.head. */
module BufferCache {
  import opened Common
  import opened Blocks
  import opened Disk

  const NBUF: nat := 30
  const HEAD: nat := NBUF
  const ROOTDEV: nat := 1

  datatype Buf = Buf(dev: nat, bno: nat, valid: bool, dirty: bool,
                     refcnt: nat, locked: bool, data: Block)
  {
    predicate Holds(d: nat, b: nat) { dev == d && bno == b }
    predicate Free() { refcnt == 0 && !dirty }
  }

  // ----- the list -----

  /** The k-th element of the ring HEAD, order[0], ..., order[|order|-1], HEAD. */
  function At(order: seq<nat>, k: int): (i: nat)
    requires -1 <= k <= |order|
  {
    if 0 <= k < |order| then order[k] else HEAD
  }

  ghost predicate Linked(next: seq<nat>, prev: seq<nat>, order: seq<nat>)
  {
    && |next| == NBUF + 1 && |prev| == NBUF + 1
    && (forall k | 0 <= k < |order| :: order[k] < NBUF)
    && (forall j, k | 0 <= j < k < |order| :: order[j] != order[k])
    && (forall k | -1 <= k < |order| ::
          next[At(order, k)] == At(order, k + 1) && prev[At(order, k + 1)] == At(order, k))
  }

  function Remove(order: seq<nat>, k: nat): (r: seq<nat>)
    requires k < |order|
  {
    order[..k] + order[k+1..]
  }

  lemma AtInjective(order: seq<nat>, j: int, k: int)
    requires forall m | 0 <= m < |order| :: order[m] < NBUF
    requires forall j, k | 0 <= j < k < |order| :: order[j] != order[k]
    requires -1 <= j < |order| && -1 <= k < |order|
    ensures At(order, j) == At(order, k) ==> j == k
  {
  }

  /** Taking buffer k out of the ring: its neighbours are made to point to each other. */
  lemma Unlink(next: seq<nat>, prev: seq<nat>, order: seq<nat>, k: nat)
    requires Linked(next, prev, order) && k < |order|
    ensures var b := order[k];
            next[b] <= NBUF && prev[b] <= NBUF &&
            Linked(next[prev[b] := next[b]], prev[next[b] := prev[b]], Remove(order, k))
  {
    var b := order[k];
    assert b == At(order, k);
    assert next[b] == At(order, k + 1) && prev[At(order, (k - 1) + 1)] == At(order, k - 1);
    var o := Remove(order, k);
    var n, p := next[prev[b] := next[b]], prev[next[b] := prev[b]];
    assert forall m | -1 <= m <= |o| :: At(o, m) <= NBUF;
    forall m | -1 <= m < |o| ensures n[At(o, m)] == At(o, m + 1) && p[At(o, m + 1)] == At(o, m) {
      if m < k - 1 {
        assert At(o, m) == At(order, m) && At(o, m + 1) == At(order, m + 1);
        AtInjective(order, m, k - 1);
        assert n[At(o, m)] == At(o, m + 1);
        assert At(order, m + 1) != At(order, k + 1);
        assert p[At(o, m + 1)] == prev[At(order, m + 1)];
      } else if m == k - 1 {
        assert At(o, m) == At(order, k - 1) && At(o, m + 1) == At(order, k + 1);
      } else {
        assert At(o, m) == At(order, m + 1) && At(o, m + 1) == At(order, m + 2);
        AtInjective(order, m + 1, k - 1);
        assert At(order, m + 2) != At(order, k + 1);
      }
    }
  }

  /** Hooking a buffer in between the header and what was first. */
  lemma PushFront(next: seq<nat>, prev: seq<nat>, order: seq<nat>, b: nat)
    requires Linked(next, prev, order) && b < NBUF && b !in order
    ensures next[HEAD] <= NBUF
    ensures Linked(next[b := next[HEAD]][HEAD := b],
                   prev[b := HEAD][next[HEAD] := b], [b] + order)
  {
    assert HEAD == At(order, -1);
    assert next[HEAD] == At(order, 0);
    var o := [b] + order;
    var n, p := next[b := next[HEAD]][HEAD := b], prev[b := HEAD][next[HEAD] := b];
    assert forall m | -1 <= m <= |o| :: At(o, m) <= NBUF;
    forall m | -1 <= m < |o| ensures n[At(o, m)] == At(o, m + 1) && p[At(o, m + 1)] == At(o, m) {
      if m == -1 {
        assert At(o, 0) == b;
      } else if m == 0 {
        assert At(o, 1) == At(order, 0);
      } else {
        assert At(o, m) == At(order, m - 1) && At(o, m + 1) == At(order, m);
        AtInjective(order, m - 1, -1);
      }
    }
  }

  /** The list is a permutation of the pool, newest release first. */
  ghost predicate ListOk(next: seq<nat>, prev: seq<nat>, order: seq<nat>, stamp: seq<int>, clock: int)
  {
    && Linked(next, prev, order)
    && |order| == NBUF && (forall i | 0 <= i < NBUF :: i in order)
    && |stamp| == NBUF
    && (forall i | 0 <= i < NBUF :: stamp[i] < clock)
    && (forall j, k | 0 <= j < k < |order| :: stamp[order[j]] > stamp[order[k]])
  }

  lemma RemoveKeeps(order: seq<nat>, k: nat)
    requires k < |order|
    ensures forall i | i in order && i != order[k] :: i in Remove(order, k)
  {
    forall i | i in order && i != order[k] ensures i in Remove(order, k) {
      var m :| 0 <= m < |order| && order[m] == i;
      assert Remove(order, k)[if m < k then m else m - 1] == i;
    }
  }

  lemma FrontOk(next: seq<nat>, prev: seq<nat>, order: seq<nat>, stamp: seq<int>, clock: int,
                k: nat, next': seq<nat>, prev': seq<nat>)
    requires ListOk(next, prev, order, stamp, clock) && k < NBUF
    requires Linked(next', prev', [order[k]] + Remove(order, k))
    ensures ListOk(next', prev', [order[k]] + Remove(order, k), stamp[order[k] := clock], clock + 1)
  {
    RemoveKeeps(order, k);
    var b, o, st := order[k], [order[k]] + Remove(order, k), stamp[order[k] := clock];
    assert forall i | 0 <= i < NBUF && i != b :: i in Remove(order, k);
    forall i, j | 0 <= i < j < |o| ensures st[o[i]] > st[o[j]] {
      var i', j' := if i - 1 < k then i - 1 else i, if j - 1 < k then j - 1 else j;
      assert o[j] == order[j'];
      assert i > 0 ==> o[i] == order[i'];
    }
  }

  // ----- the pool -----

  predicate DirtyIn(buf: seq<Buf>, b: nat)
  {
    exists i :: 0 <= i < |buf| && buf[i].Holds(ROOTDEV, b) && buf[i].dirty
  }

  predicate CachedIn(buf: seq<Buf>, d: nat, b: nat)
  {
    exists i :: 0 <= i < |buf| && buf[i].Holds(d, b)
  }

  predicate LockedIn(buf: seq<Buf>, b: nat)
  {
    exists i :: 0 <= i < |buf| && buf[i].Holds(ROOTDEV, b) && buf[i].locked
  }

  /** One buffer against the disk and against what readers should see. */
  predicate BufOk(f: Buf, view: Image, disk: Image)
  {
    && |view| == |disk|
    && (f.valid ==> f.dev == ROOTDEV && f.bno < |disk|)
    && (f.dirty ==> f.valid)
    && (f.locked ==> f.refcnt > 0)
    && (f.valid && !f.locked ==> f.data == view[f.bno])
  }

  /** No two buffers hold one block; buffers, disk and view agree. */
  ghost predicate PoolOk(buf: seq<Buf>, view: Image, disk: Image)
  {
    && |buf| == NBUF && |view| == |disk|
    && (forall i, j {:trigger buf[j].Holds(buf[i].dev, buf[i].bno)} |
          0 <= i < NBUF && 0 <= j < NBUF && i != j && buf[i].dev != 0 :: !buf[j].Holds(buf[i].dev, buf[i].bno))
    && (forall i | 0 <= i < NBUF :: BufOk(buf[i], view, disk))
    && (forall b | 0 <= b < |disk| :: view[b] == disk[b] || DirtyIn(buf, b))
  }

  /** What a reader sees of a clean cached block is what the disk holds. */
  lemma CleanAgrees(buf: seq<Buf>, view: Image, disk: Image, i: nat)
    requires PoolOk(buf, view, disk) && i < NBUF && buf[i].valid && !buf[i].dirty
    ensures view[buf[i].bno] == disk[buf[i].bno]
    ensures !buf[i].locked ==> buf[i].data == disk[buf[i].bno]
  {
    OnlyHolder(buf, view, disk, i);
  }

  lemma OnlyHolder(buf: seq<Buf>, view: Image, disk: Image, i: nat)
    requires PoolOk(buf, view, disk) && i < NBUF && buf[i].dev != 0
    ensures forall j | 0 <= j < NBUF && buf[j].Holds(buf[i].dev, buf[i].bno) :: j == i
    ensures buf[i].dev == ROOTDEV ==> DirtyIn(buf, buf[i].bno) == buf[i].dirty
  {
    if buf[i].dirty {
      assert buf[i].Holds(buf[i].dev, buf[i].bno);
    }
  }

  /** Replacing buffer i by f keeps the pool in order, when f is in order, when
      nobody else holds f's block, and when only that block's view moved. */
  lemma PutBuf(buf: seq<Buf>, view: Image, disk: Image, i: nat, f: Buf, view': Image, disk': Image)
    requires PoolOk(buf, view, disk) && i < NBUF && f.dev != 0 && BufOk(f, view', disk') && |disk'| == |disk|
    requires buf[i].Holds(f.dev, f.bno) || (!CachedIn(buf, f.dev, f.bno) && !buf[i].dirty)
    requires forall x | 0 <= x < |disk| && !(f.Holds(ROOTDEV, x)) :: view'[x] == view[x] && disk'[x] == disk[x]
    requires f.dev == ROOTDEV && f.bno < |disk| && !f.dirty ==> view'[f.bno] == disk'[f.bno]
    ensures PoolOk(buf[i := f], view', disk')
    ensures forall x :: DirtyIn(buf[i := f], x) == if f.Holds(ROOTDEV, x) then f.dirty else DirtyIn(buf, x)
  {
    var upd := buf[i := f];
    assert forall j | 0 <= j < NBUF && j != i :: !buf[j].Holds(f.dev, f.bno) by {
      if buf[i].Holds(f.dev, f.bno) { OnlyHolder(buf, view, disk, i); }
    }
    forall x ensures DirtyIn(upd, x) == if f.Holds(ROOTDEV, x) then f.dirty else DirtyIn(buf, x) {
      if f.Holds(ROOTDEV, x) {
        assert upd[i].Holds(ROOTDEV, x);
      } else if j :| 0 <= j < NBUF && buf[j].Holds(ROOTDEV, x) && buf[j].dirty {
        assert upd[j].Holds(ROOTDEV, x) && upd[j].dirty;
      }
    }
    forall j | 0 <= j < NBUF ensures BufOk(upd[j], view', disk') {
      if j != i && buf[j].valid {
        assert !f.Holds(ROOTDEV, buf[j].bno);
      }
    }
    forall x | 0 <= x < |disk| ensures view'[x] == disk'[x] || DirtyIn(upd, x) {
    }
  }

  class Bcache {
    var buf: seq<Buf>
    var next: seq<nat>
    var prev: seq<nat>
    var disk: Image

    ghost var writes: seq<Write>     // every block write issued, oldest first
    ghost var view: Image            // what a reader of each block sees
    ghost var order: seq<nat>        // the list, head.next first
    ghost var stamp: seq<int>        // when each buffer was last released for good
    ghost var clock: int

    /** Two buffers in hand hold different blocks. */
    lemma Apart(i: nat, j: nat)
      requires Valid() && i < NBUF && j < NBUF && i != j && buf[i].valid && buf[j].valid
      ensures buf[i].bno != buf[j].bno && buf[i].bno < |disk| && buf[j].bno < |disk|
    {
      OnlyHolder(buf, view, disk, i);
    }

    lemma Sizes()
      requires Valid()
      ensures |buf| == NBUF && |view| == |disk|
    {
    }

    ghost predicate Valid()
      reads this
    {
      ListOk(next, prev, order, stamp, clock) && PoolOk(buf, view, disk)
    }

    /** binit */
    constructor (d: Image)
      ensures Valid() && disk == d && view == d && writes == []
      ensures forall i | 0 <= i < NBUF :: buf[i].refcnt == 0 && !buf[i].valid && !buf[i].dirty && !buf[i].locked
    {
      buf := seq(NBUF, _ => Buf(0, 0, false, false, 0, false, ZeroBlock()));
      disk, view, writes := d, d, [];
      next, prev := seq(NBUF + 1, _ => HEAD), seq(NBUF + 1, _ => HEAD);
      order, stamp, clock := [], seq(NBUF, i => i), NBUF;
      new;
      var b := 0;
      while b < NBUF
        invariant 0 <= b <= NBUF && |order| == b && Linked(next, prev, order)
        invariant forall i :: i in order <==> 0 <= i < b
        invariant forall k | 0 <= k < b :: order[k] == b - 1 - k
        invariant disk == d && view == d && writes == [] && clock == NBUF && stamp == seq(NBUF, i => i)
        invariant buf == seq(NBUF, _ => Buf(0, 0, false, false, 0, false, ZeroBlock()))
      {
        PushFront(next, prev, order, b);
        var first := next[HEAD];
        next, prev := next[b := first][HEAD := b], prev[b := HEAD][first := b];
        order := [b] + order;
        b := b + 1;
      }
    }

    /** The section of bget under bcache.lock: reference the buffer that holds
        (d, b), recycling one if there is none; None is the "no buffers" panic. */
    method Bget(d: nat, b: nat) returns (r: Option<nat>)
      requires Valid() && d != 0
      modifies `buf
      ensures Valid()
      ensures r.None? <==> !CachedIn(old(buf), d, b) && forall i | 0 <= i < NBUF :: !old(buf)[i].Free()
      ensures r.Some? ==> r.value < NBUF && buf[r.value].Holds(d, b)
      ensures r.Some? && CachedIn(old(buf), d, b) ==>
                buf == old(buf)[r.value := old(buf)[r.value].(refcnt := old(buf)[r.value].refcnt + 1)]
      ensures r.Some? && !CachedIn(old(buf), d, b) ==>
                && old(buf)[r.value].Free()
                && (forall i | 0 <= i < NBUF && i != r.value && old(buf)[i].Free() :: stamp[r.value] < stamp[i])
                && buf == old(buf)[r.value := Buf(d, b, false, false, 1, false, old(buf)[r.value].data)]
      ensures r.None? ==> buf == old(buf)
      ensures forall x :: DirtyIn(buf, x) == DirtyIn(old(buf), x)
    {
      var i := FindCached(d, b);
      if i != HEAD {
        var f := buf[i].(refcnt := buf[i].refcnt + 1);
        if f.dev == ROOTDEV { OnlyHolder(buf, view, disk, i); }
        PutBuf(buf, view, disk, i, f, view, disk);
        buf := buf[i := f];
        return Some(i);
      }
      i := FindVictim();
      if i != HEAD {
        var f := Buf(d, b, false, false, 1, false, buf[i].data);
        if d == ROOTDEV { assert !DirtyIn(buf, b); }
        PutBuf(buf, view, disk, i, f, view, disk);
        buf := buf[i := f];
        return Some(i);
      }
      return None;
    }

    /** bget's first loop: from the most recently released buffer. */
    method FindCached(d: nat, b: nat) returns (i: nat)
      requires Valid()
      ensures i == HEAD <==> !CachedIn(buf, d, b)
      ensures i != HEAD ==> i < NBUF && buf[i].Holds(d, b)
    {
      i := next[HEAD];
      ghost var k := 0;
      assert HEAD == At(order, -1);
      while i != HEAD
        invariant 0 <= k <= NBUF && i == At(order, k)
        invariant forall j | 0 <= j < k :: !buf[order[j]].Holds(d, b)
        decreases NBUF - k
      {
        if buf[i].Holds(d, b) {
          return;
        }
        i, k := next[i], k + 1;
      }
      forall j | 0 <= j < NBUF ensures !buf[j].Holds(d, b) {
        assert j in order;
      }
    }

    /** bget's second loop: from the least recently released buffer. */
    method FindVictim() returns (i: nat)
      requires Valid()
      ensures i == HEAD <==> forall j | 0 <= j < NBUF :: !buf[j].Free()
      ensures i != HEAD ==> i < NBUF && buf[i].Free()
      ensures i != HEAD ==> forall j | 0 <= j < NBUF && j != i && buf[j].Free() :: stamp[i] < stamp[j]
    {
      i := prev[HEAD];
      ghost var k := NBUF - 1;
      assert HEAD == At(order, NBUF) && prev[At(order, (NBUF - 1) + 1)] == At(order, NBUF - 1);
      while i != HEAD
        invariant -1 <= k < NBUF && i == At(order, k)
        invariant forall j | k < j < NBUF :: !buf[order[j]].Free()
        decreases k
      {
        if buf[i].refcnt == 0 && !buf[i].dirty {
          forall j | 0 <= j < NBUF && j != i && buf[j].Free() ensures stamp[i] < stamp[j] {
            assert j in order;
          }
          return;
        }
        assert prev[At(order, (k - 1) + 1)] == At(order, k - 1);
        i, k := prev[i], k - 1;
      }
      forall j | 0 <= j < NBUF ensures !buf[j].Free() {
        assert j in order;
      }
    }

    // ----- what a holder of a locked buffer may do -----

    /** iderw: a dirty buffer goes to its disk block, an invalid one comes from it. */
    method Iderw(i: nat)
      requires Valid() && i < NBUF && buf[i].locked && buf[i].dev == ROOTDEV && buf[i].bno < |disk|
      requires !buf[i].valid || buf[i].dirty
      modifies `buf, `disk, `view, `writes
      ensures Valid()
      ensures old(buf[i]).dirty ==>
                && buf == old(buf)[i := old(buf[i]).(dirty := false)]
                && disk == old(disk)[buf[i].bno := buf[i].data]
                && view == old(view)[buf[i].bno := buf[i].data]
                && writes == old(writes) + [Write(buf[i].bno, buf[i].data)]
      ensures !old(buf[i]).dirty ==>
                && buf == old(buf)[i := old(buf[i]).(valid := true, data := old(disk[buf[i].bno]))]
                && disk == old(disk) && view == old(view) && writes == old(writes)
      ensures forall x :: DirtyIn(buf, x) == (x != buf[i].bno && DirtyIn(old(buf), x))
    {
      var b := buf[i].bno;
      if buf[i].dirty {
        var f := buf[i].(dirty := false);
        PutBuf(buf, view, disk, i, f, view[b := f.data], disk[b := f.data]);
        buf, disk, view := buf[i := f], disk[b := f.data], view[b := f.data];
        writes := writes + [Write(b, f.data)];
      } else {
        OnlyHolder(buf, view, disk, i);
        var f := buf[i].(valid := true, data := disk[b]);
        PutBuf(buf, view, disk, i, f, view, disk);
        buf := buf[i := f];
      }
    }

    /** The buffer comes back locked and holds what every earlier write and
        log_write to the block left in it, however the buffer was found. */
    method Bread(b: nat) returns (r: Option<nat>)
      requires Valid() && b < |disk| && !LockedIn(buf, b)
      modifies `buf, `disk, `view, `writes
      ensures Valid() && disk == old(disk) && view == old(view) && writes == old(writes)
      ensures r.None? <==> !CachedIn(old(buf), ROOTDEV, b) && forall i | 0 <= i < NBUF :: !old(buf)[i].Free()
      ensures r.None? ==> buf == old(buf)
      ensures r.Some? ==>
                && r.value < NBUF
                && buf == old(buf)[r.value := Buf(ROOTDEV, b, true, DirtyIn(buf, b), old(buf)[r.value].refcnt + 1,
                    true, view[b])]
                && (old(buf)[r.value].Holds(ROOTDEV, b) || old(buf)[r.value].Free())
                && (old(buf)[r.value].Free() ==> !DirtyIn(buf, b))
      ensures forall x :: DirtyIn(buf, x) == DirtyIn(old(buf), x)
    {
      r := Bget(ROOTDEV, b);
      if r.Some? {
        if old(buf)[r.value].Holds(ROOTDEV, b) { OnlyHolder(old(buf), view, disk, r.value); }
        var i := r.value;
        OnlyHolder(buf, view, disk, i);
        var f := buf[i].(locked := true);
        assert f.valid ==> f.data == view[b];
        PutBuf(buf, view, disk, i, f, view, disk);
        buf := buf[i := f];                            // acquiresleep
        if !f.valid {
          Iderw(i);
        }
      }
    }

    /** New contents for a buffer in hand. */
    method Store(i: nat, d: Block)
      requires Valid() && i < NBUF && buf[i].locked && buf[i].valid
      modifies `buf
      ensures Valid() && buf == old(buf)[i := old(buf)[i].(data := d)]
      ensures forall x :: DirtyIn(buf, x) == DirtyIn(old(buf), x)
    {
      OnlyHolder(buf, view, disk, i);
      PutBuf(buf, view, disk, i, buf[i].(data := d), view, disk);
      buf := buf[i := buf[i].(data := d)];
    }

    method Bwrite(i: nat)
      requires Valid() && i < NBUF && buf[i].locked && buf[i].valid
      modifies `buf, `disk, `view, `writes
      ensures Valid()
      ensures buf == old(buf)[i := old(buf[i]).(dirty := false)]
      ensures disk == old(disk)[buf[i].bno := buf[i].data]
      ensures view == old(view)[buf[i].bno := buf[i].data]
      ensures writes == old(writes) + [Write(buf[i].bno, buf[i].data)]
      ensures forall x :: DirtyIn(buf, x) == (x != buf[i].bno && DirtyIn(old(buf), x))
    {
      OnlyHolder(buf, view, disk, i);
      PutBuf(buf, view, disk, i, buf[i].(dirty := true), view, disk);
      buf := buf[i := buf[i].(dirty := true)];
      Iderw(i);
    }

    /** What log_write does to a buffer: marked dirty, it is not recycled before it is written,
        and its new contents are what every later reader sees. The disk is untouched. */
    method Pin(i: nat)
      requires Valid() && i < NBUF && buf[i].locked && buf[i].valid
      modifies `buf, `view
      ensures Valid()
      ensures buf == old(buf)[i := old(buf[i]).(dirty := true)]
      ensures view == old(view)[buf[i].bno := buf[i].data]
      ensures forall x :: DirtyIn(buf, x) == (x == buf[i].bno || DirtyIn(old(buf), x))
    {
      var f := buf[i].(dirty := true);
      PutBuf(buf, view, disk, i, f, view[f.bno := f.data], disk);
      buf, view := buf[i := f], view[f.bno := f.data];
    }

    /** The caller has logged or written whatever it changed.  The last release
        moves the buffer to the front of the list. */
    method Brelse(i: nat)
      requires Valid() && i < NBUF && buf[i].locked && buf[i].valid && buf[i].data == view[buf[i].bno]
      modifies `buf, `next, `prev, `order, `stamp, `clock
      ensures Valid()
      ensures buf == old(buf)[i := old(buf[i]).(locked := false, refcnt := old(buf[i]).refcnt - 1)]
      ensures buf[i].refcnt > 0 ==> order == old(order) && stamp == old(stamp)
      ensures buf[i].refcnt == 0 ==>
                && order[0] == i
                && (forall j | 0 <= j < NBUF && j != i :: stamp[j] == old(stamp)[j] < stamp[i])
      ensures forall x :: DirtyIn(buf, x) == DirtyIn(old(buf), x)
    {
      OnlyHolder(buf, view, disk, i);
      var f := buf[i].(locked := false, refcnt := buf[i].refcnt - 1);
      PutBuf(buf, view, disk, i, f, view, disk);
      buf := buf[i := f];                              // releasesleep, refcnt--
      if buf[i].refcnt == 0 {
        MoveToFront(i);
      }
    }

    /** brelse's relinking: unhook b, then hook it in behind the header. */
    method MoveToFront(b: nat)
      requires ListOk(next, prev, order, stamp, clock) && b < NBUF
      modifies `next, `prev, `order, `stamp, `clock
      ensures ListOk(next, prev, order, stamp, clock) && order[0] == b
      ensures forall j | 0 <= j < NBUF && j != b :: stamp[j] == old(stamp)[j] < stamp[b]
    {
      assert b in order;
      ghost var k :| 0 <= k < NBUF && order[k] == b;
      Relink(next, prev, order, stamp, clock, k);
      var n, p := next[b], prev[b];
      prev := prev[n := p];
      next := next[p := n];
      var first := next[HEAD];
      next, prev := next[b := first][HEAD := b], prev[b := HEAD][first := b];
      order, stamp, clock := [b] + Remove(order, k), stamp[b := clock], clock + 1;
    }
  }

  lemma Relink(next: seq<nat>, prev: seq<nat>, order: seq<nat>, stamp: seq<int>, clock: int, k: nat)
    requires ListOk(next, prev, order, stamp, clock) && k < NBUF
    ensures var b := order[k];
            && b < NBUF && next[b] <= NBUF && prev[b] <= NBUF
            && var next1, prev1 := next[prev[b] := next[b]], prev[next[b] := prev[b]];
            && next1[HEAD] <= NBUF
            && ListOk(next1[b := next1[HEAD]][HEAD := b], prev1[b := HEAD][next1[HEAD] := b],
                      [b] + Remove(order, k), stamp[b := clock], clock + 1)
  {
    var b := order[k];
    Unlink(next, prev, order, k);
    var next1, prev1 := next[prev[b] := next[b]], prev[next[b] := prev[b]];
    PushFront(next1, prev1, Remove(order, k), b);
    FrontOk(next, prev, order, stamp, clock, k,
            next1[b := next1[HEAD]][HEAD := b], prev1[b := HEAD][next1[HEAD] := b]);
  }
}
