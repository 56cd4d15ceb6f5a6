/** umalloc.c: the Kernighan and Ritchie storage allocator.  Headers live in
    memory at byte addresses; a block of u units is 8u bytes long, its header
    first.  The free blocks form a ring in address order through `base`. */
module Heap {
  import opened Common

  const HDR: nat := 8                       // sizeof(Header)
  const MINGROW: nat := 4096                // the least morecore asks for, in units

  datatype Chunk = Chunk(addr: nat, units: nat)
  {
    function End(): nat { addr + HDR * units }
    predicate Has(a: int) { addr <= a < End() }
  }

  // ----- requests -----

  /** nunits, in 32-bit unsigned arithmetic. */
  function Units(nbytes: nat): (u: nat)
    ensures u >= 1
  {
    (nbytes + HDR - 1) % UINT_LIMIT / HDR + 1
  }

  /** The block behind the header has room for the request exactly when the rounding up
      does not wrap around, and then less than a unit to spare; otherwise there is no room at all. */
  lemma RequestCovered(nbytes: nat)
    requires nbytes < UINT_LIMIT
    ensures HDR * (Units(nbytes) - 1) >= nbytes <==> nbytes + HDR - 1 < UINT_LIMIT
    ensures nbytes + HDR - 1 < UINT_LIMIT ==> HDR * (Units(nbytes) - 1) < nbytes + HDR
    ensures nbytes + HDR - 1 >= UINT_LIMIT ==> Units(nbytes) == 1
  {
  }

  /** The argument of sbrk is a positive int equal to the bytes wanted. */
  predicate Sane(nbytes: nat)
  {
    HDR * Grow(Units(nbytes)) < UINT_LIMIT / 2
  }

  function Grow(nunits: nat): nat
  {
    if nunits < MINGROW then MINGROW else nunits
  }

  lemma SaneRequests(nbytes: nat)
    requires nbytes < UINT_LIMIT
    ensures Sane(nbytes) <==> nbytes <= UINT_LIMIT / 2 - 2 * HDR || nbytes + HDR - 1 >= UINT_LIMIT
  {
  }

  // ----- the free list as a list of chunks -----

  /** Address order without overlaps; the first chunk is base, which is empty. */
  ghost predicate Ordered(bs: seq<Chunk>)
  {
    && |bs| >= 1 && bs[0].units == 0
    && (forall i | 1 <= i < |bs| :: bs[i].units >= 1)
    && (forall i, j | 0 <= i < j < |bs| :: bs[i].addr < bs[j].addr && bs[i].End() <= bs[j].addr)
  }

  /** Nothing is left to join at position i. */
  predicate Apart(bs: seq<Chunk>, i: int)
    requires 0 <= i < |bs|
  {
    i + 1 < |bs| ==> bs[i].End() != bs[i + 1].addr
  }

  /** Ordered, and fully coalesced. */
  ghost predicate Canonical(bs: seq<Chunk>)
  {
    Ordered(bs) && forall i | 0 <= i < |bs| :: Apart(bs, i)
  }

  ghost predicate Covers(bs: seq<Chunk>, a: int)
  {
    exists i :: 0 <= i < |bs| && bs[i].Has(a)
  }

  function Total(bs: seq<Chunk>): (n: nat)
  {
    if bs == [] then 0 else bs[0].units + Total(bs[1..])
  }

  lemma {:induction false} TotalConcat(a: seq<Chunk>, b: seq<Chunk>)
    ensures Total(a + b) == Total(a) + Total(b)
  {
    if a == [] {
      assert a + b == b;
    } else {
      assert (a + b)[1..] == a[1..] + b;
      TotalConcat(a[1..], b);
    }
  }

  lemma TotalMiddle(a: seq<Chunk>, x: Chunk, b: seq<Chunk>)
    ensures Total(a + [x] + b) == Total(a) + x.units + Total(b)
  {
    TotalConcat(a + [x], b);
    TotalConcat(a, [x]);
    assert [x][1..] == [];
  }

  lemma TotalAt(bs: seq<Chunk>, k: nat)
    requires k < |bs|
    ensures Total(bs) == Total(bs[..k]) + bs[k].units + Total(bs[k + 1..])
  {
    assert bs == bs[..k] + [bs[k]] + bs[k + 1..];
    TotalMiddle(bs[..k], bs[k], bs[k + 1..]);
  }

  // ----- giving a block back -----

  /** Chunk c belongs between bs[k] and its successor. */
  ghost predicate Fits(bs: seq<Chunk>, k: nat, c: Chunk)
  {
    && k < |bs| && c.units >= 1
    && bs[k].addr < c.addr && bs[k].End() <= c.addr
    && (k + 1 < |bs| ==> c.End() <= bs[k + 1].addr)
  }

  function InsertAfter(bs: seq<Chunk>, k: nat, c: Chunk): (r: seq<Chunk>)
    requires k < |bs|
  {
    bs[..k + 1] + [c] + bs[k + 1..]
  }

  /** Join chunk i with the one after it, if they touch. */
  function Join(bs: seq<Chunk>, i: nat): (r: seq<Chunk>)
    requires i < |bs|
  {
    if Apart(bs, i) || i + 1 == |bs| then bs
    else bs[..i] + [Chunk(bs[i].addr, bs[i].units + bs[i + 1].units)] + bs[i + 2..]
  }

  /** free: put the block in its place, join it with its upper neighbour, then
      with its lower one. */
  function Inserted(bs: seq<Chunk>, k: nat, c: Chunk): (r: seq<Chunk>)
    requires k < |bs|
  {
    Join(Join(InsertAfter(bs, k, c), k + 1), k)
  }

  lemma InsertAfterOrdered(bs: seq<Chunk>, k: nat, c: Chunk)
    requires Ordered(bs) && Fits(bs, k, c)
    ensures Ordered(InsertAfter(bs, k, c))
  {
    var r := InsertAfter(bs, k, c);
    forall i, j | 0 <= i < j < |r| ensures r[i].addr < r[j].addr && r[i].End() <= r[j].addr {
      var i', j' := if i <= k then i else i - 1, if j <= k then j else j - 1;
      if i == k + 1 {
        assert r[j] == bs[j - 1] && (j > k + 2 ==> bs[k + 1].End() <= bs[j - 1].addr);
      } else if j == k + 1 {
        assert r[i] == bs[i] && (i < k ==> bs[i].End() <= bs[k].addr);
      } else {
        assert r[i] == bs[i'] && r[j] == bs[j'];
      }
    }
  }

  lemma InsertAfterCovers(bs: seq<Chunk>, k: nat, c: Chunk, a: int)
    requires k < |bs|
    ensures Covers(InsertAfter(bs, k, c), a) <==> Covers(bs, a) || c.Has(a)
  {
    var r := InsertAfter(bs, k, c);
    if i :| 0 <= i < |bs| && bs[i].Has(a) {
      assert r[if i <= k then i else i + 1] == bs[i];
    }
    if c.Has(a) { assert r[k + 1].Has(a); }
    if i :| 0 <= i < |r| && r[i].Has(a) && i != k + 1 {
      assert bs[if i <= k then i else i - 1] == r[i];
    }
  }

  /** Where the chunks of the joined list come from. */
  lemma JoinAt(bs: seq<Chunk>, i: nat, m: nat)
    requires i + 1 < |bs| && bs[i].End() == bs[i + 1].addr && m < |bs| - 1
    ensures |Join(bs, i)| == |bs| - 1
    ensures Join(bs, i)[m].addr == bs[if m <= i then m else m + 1].addr
    ensures Join(bs, i)[m].End() == bs[if m < i then m else m + 1].End()
    ensures Join(bs, i)[m].units >= bs[if m < i then m else m + 1].units
    ensures m < i ==> Join(bs, i)[m] == bs[m]
  {
  }

  lemma JoinOrdered(bs: seq<Chunk>, i: nat)
    requires Ordered(bs) && i < |bs|
    ensures Ordered(Join(bs, i)) && Join(bs, i)[0].addr == bs[0].addr
  {
    if !Apart(bs, i) {
      assert i > 0;
      forall m | 0 <= m < |bs| - 1 ensures m < |Join(bs, i)| && (m >= 1 ==> Join(bs, i)[m].units >= 1) {
        JoinAt(bs, i, m);
      }
      forall m, n | 0 <= m < n < |Join(bs, i)|
        ensures Join(bs, i)[m].addr < Join(bs, i)[n].addr && Join(bs, i)[m].End() <= Join(bs, i)[n].addr
      {
        JoinAt(bs, i, m);
        JoinAt(bs, i, n);
      }
      JoinAt(bs, i, 0);
    }
  }

  lemma JoinCovers(bs: seq<Chunk>, i: nat, a: int)
    requires Ordered(bs) && i < |bs|
    ensures Covers(Join(bs, i), a) <==> Covers(bs, a)
  {
    if !Apart(bs, i) {
      var r := Join(bs, i);
      assert r[i].Has(a) <==> bs[i].Has(a) || bs[i + 1].Has(a);
      if m :| 0 <= m < |bs| && bs[m].Has(a) {
        assert m < i ==> r[m] == bs[m];
        assert m > i + 1 ==> r[m - 1] == bs[m];
      }
      if m :| 0 <= m < |r| && r[m].Has(a) {
        assert m < i ==> bs[m] == r[m];
        assert m > i ==> bs[m + 1] == r[m];
      }
    }
  }

  lemma JoinTotal(bs: seq<Chunk>, i: nat)
    requires i < |bs|
    ensures Total(Join(bs, i)) == Total(bs)
  {
    if !Apart(bs, i) {
      TotalAt(bs, i);
      var rest := bs[i + 1..];
      TotalAt(rest, 0);
      assert rest[..0] == [] && rest[1..] == bs[i + 2..];
      TotalMiddle(bs[..i], Chunk(bs[i].addr, bs[i].units + bs[i + 1].units), bs[i + 2..]);
    }
  }

  /** Joining at i settles position i and unsettles no other. */
  lemma JoinApart(bs: seq<Chunk>, i: nat, m: nat)
    requires Ordered(bs) && i < |bs| && m < |Join(bs, i)|
    requires m < i ==> Apart(bs, m)
    requires m > i ==> Apart(bs, m + |bs| - |Join(bs, i)|)
    requires m == i && !Apart(bs, i) ==> Apart(bs, i + 1)
    ensures Apart(Join(bs, i), m)
  {
  }

  lemma InsertAfterApart(bs: seq<Chunk>, k: nat, c: Chunk, j: nat)
    requires Canonical(bs) && Fits(bs, k, c) && j <= |bs| && j != k && j != k + 1
    ensures Apart(InsertAfter(bs, k, c), j)
  {
    assert Apart(bs, if j < k then j else j - 1);
  }

  lemma InsertedCanonical(bs: seq<Chunk>, k: nat, c: Chunk)
    requires Canonical(bs) && Fits(bs, k, c)
    ensures Canonical(Inserted(bs, k, c)) && Inserted(bs, k, c)[0].addr == bs[0].addr
  {
    var r := InsertAfter(bs, k, c);
    InsertAfterOrdered(bs, k, c);
    var up := Join(r, k + 1);
    JoinOrdered(r, k + 1);
    JoinOrdered(up, k);
    forall j | 0 <= j < |r| && j != k && j != k + 1 ensures Apart(r, j) {
      InsertAfterApart(bs, k, c, j);
    }
    forall m | 0 <= m < |up| && m != k ensures Apart(up, m) {
      JoinApart(r, k + 1, m);
    }
    forall m | 0 <= m < |Join(up, k)| ensures Apart(Join(up, k), m) {
      JoinApart(up, k, m);
    }
  }

  lemma InsertedCovers(bs: seq<Chunk>, k: nat, c: Chunk, a: int)
    requires Canonical(bs) && Fits(bs, k, c)
    ensures Covers(Inserted(bs, k, c), a) <==> Covers(bs, a) || c.Has(a)
  {
    InsertAfterOrdered(bs, k, c);
    InsertAfterCovers(bs, k, c, a);
    JoinOrdered(InsertAfter(bs, k, c), k + 1);
    JoinCovers(InsertAfter(bs, k, c), k + 1, a);
    JoinCovers(Join(InsertAfter(bs, k, c), k + 1), k, a);
  }

  lemma InsertAfterTotal(bs: seq<Chunk>, k: nat, c: Chunk)
    requires k < |bs|
    ensures Total(InsertAfter(bs, k, c)) == Total(bs) + c.units
  {
    TotalMiddle(bs[..k + 1], c, bs[k + 1..]);
    TotalConcat(bs[..k + 1], bs[k + 1..]);
    assert bs == bs[..k + 1] + bs[k + 1..];
  }

  lemma InsertedTotal(bs: seq<Chunk>, k: nat, c: Chunk)
    requires k < |bs|
    ensures Total(Inserted(bs, k, c)) == Total(bs) + c.units
  {
    InsertAfterTotal(bs, k, c);
    var r := InsertAfter(bs, k, c);
    JoinTotal(r, k + 1);
    JoinTotal(Join(r, k + 1), k);
  }

  // ----- taking a block away -----

  /** malloc from chunk k: the whole of it, or its tail end. */
  function Taken(bs: seq<Chunk>, k: nat, u: nat): (r: seq<Chunk>)
    requires k < |bs| && u <= bs[k].units
  {
    if bs[k].units == u then bs[..k] + bs[k + 1..]
    else bs[k := Chunk(bs[k].addr, bs[k].units - u)]
  }

  function Tail(c: Chunk, u: nat): Chunk
    requires u <= c.units
  {
    Chunk(c.addr + HDR * (c.units - u), u)
  }

  lemma TakenCanonical(bs: seq<Chunk>, k: nat, u: nat)
    requires Canonical(bs) && 1 <= k < |bs| && 1 <= u <= bs[k].units
    ensures Canonical(Taken(bs, k, u)) && Taken(bs, k, u)[0] == bs[0]
  {
    var r := Taken(bs, k, u);
    forall i | 0 <= i < |r| ensures Apart(r, i) {
      if bs[k].units == u {
        if i == k - 1 && k + 1 < |bs| {
          assert bs[i].End() <= bs[k].addr < bs[k].End() <= bs[k + 1].addr;
        } else {
          assert Apart(bs, if i < k then i else i + 1);
        }
      } else {
        assert Apart(bs, i);
      }
    }
  }

  lemma TakenCovers(bs: seq<Chunk>, k: nat, u: nat, a: int)
    requires Ordered(bs) && 1 <= k < |bs| && 1 <= u <= bs[k].units
    ensures Covers(Taken(bs, k, u), a) <==> Covers(bs, a) && !Tail(bs[k], u).Has(a)
  {
    if Covers(bs, a) && !Tail(bs[k], u).Has(a) { TakenLeft(bs, k, u, a); }
    if Covers(Taken(bs, k, u), a) { TakenFrom(bs, k, u, a); }
  }

  lemma TakenLeft(bs: seq<Chunk>, k: nat, u: nat, a: int)
    requires 1 <= k < |bs| && 1 <= u <= bs[k].units && Covers(bs, a) && !Tail(bs[k], u).Has(a)
    ensures Covers(Taken(bs, k, u), a)
  {
    var r := Taken(bs, k, u);
    var i :| 0 <= i < |bs| && bs[i].Has(a);
    if bs[k].units == u && i > k { assert r[i - 1] == bs[i]; }
    else if i != k { assert r[i] == bs[i]; }
    else { assert r[k].Has(a); }
  }

  lemma TakenFrom(bs: seq<Chunk>, k: nat, u: nat, a: int)
    requires Ordered(bs) && 1 <= k < |bs| && 1 <= u <= bs[k].units && Covers(Taken(bs, k, u), a)
    ensures Covers(bs, a) && !Tail(bs[k], u).Has(a)
  {
    var r := Taken(bs, k, u);
    var i :| 0 <= i < |r| && r[i].Has(a);
    var j := if bs[k].units == u && i >= k then i + 1 else i;
    assert bs[j].Has(a) && (j != k ==> r[i] == bs[j]);
  }

  lemma TakenTotal(bs: seq<Chunk>, k: nat, u: nat)
    requires k < |bs| && u <= bs[k].units
    ensures Total(Taken(bs, k, u)) == Total(bs) - u
  {
    TotalAt(bs, k);
    if bs[k].units == u {
      TotalConcat(bs[..k], bs[k + 1..]);
    } else {
      var r := Taken(bs, k, u);
      TotalAt(r, k);
      assert r[..k] == bs[..k] && r[k + 1..] == bs[k + 1..];
    }
  }

  // ----- the canonical list is the only one -----

  /** The free list is determined by the free bytes: coalescing leaves nothing to choose. */
  lemma {:induction false} CanonicalUnique(x: seq<Chunk>, y: seq<Chunk>)
    requires Canonical(x) && Canonical(y) && x[0] == y[0]
    requires forall a: int :: Covers(x, a) == Covers(y, a)
    ensures x == y
    decreases |x| + |y|
  {
    if |x| == 1 {
      if |y| > 1 { BareDiffers(x, y); }
    } else if |y| == 1 {
      BareDiffers(y, x);
    } else {
      var m, n := |x| - 1, |y| - 1;
      LastBelow(x, y);
      LastBelow(y, x);
      assert x[m] == y[n];
      ButLastCanonical(x);
      ButLastCanonical(y);
      forall a: int ensures Covers(x[..m], a) == Covers(y[..n], a) {
        ButLast(x, a);
        ButLast(y, a);
      }
      CanonicalUnique(x[..m], y[..n]);
      assert x == x[..m] + [x[m]] && y == y[..n] + [y[n]];
    }
  }

  /** free undoes malloc: the units malloc cut off, put back wherever free finds
      their place, give the list malloc started from. */
  lemma FreeUndoesMalloc(bs: seq<Chunk>, k: nat, u: nat, j: nat)
    requires Canonical(bs) && 1 <= k < |bs| && 1 <= u <= bs[k].units
    requires Fits(Taken(bs, k, u), j, Tail(bs[k], u))
    ensures Inserted(Taken(bs, k, u), j, Tail(bs[k], u)) == bs
  {
    var t, c := Taken(bs, k, u), Tail(bs[k], u);
    TakenCanonical(bs, k, u);
    InsertedCanonical(t, j, c);
    forall a: int ensures Covers(Inserted(t, j, c), a) == Covers(bs, a) {
      InsertedCovers(t, j, c, a);
      TakenCovers(bs, k, u, a);
      if c.Has(a) { assert bs[k].Has(a); }
    }
    CanonicalUnique(Inserted(t, j, c), bs);
  }

  lemma BareDiffers(x: seq<Chunk>, y: seq<Chunk>)
    requires Ordered(x) && Ordered(y) && |x| == 1 && |y| > 1
    ensures Covers(y, y[1].addr) && !Covers(x, y[1].addr)
  {
    assert y[1].Has(y[1].addr);
  }

  lemma ButLastCanonical(x: seq<Chunk>)
    requires Canonical(x) && |x| > 1
    ensures Canonical(x[..|x|-1])
  {
    var r := x[..|x|-1];
    forall i | 0 <= i < |r| ensures Apart(r, i) {
      assert Apart(x, i);
    }
  }

  lemma ButLast(x: seq<Chunk>, a: int)
    requires Canonical(x) && |x| > 1
    ensures Covers(x[..|x|-1], a) <==> Covers(x, a) && a < x[|x|-1].addr
  {
    var m := |x| - 1;
    if i :| 0 <= i < |x| && x[i].Has(a) && a < x[m].addr {
      assert x[..m][i].Has(a);
    }
    if i :| 0 <= i < m && x[..m][i].Has(a) {
      assert x[i].Has(a);
    }
  }

  /** The byte before the last chunk is not free, or there would be no gap. */
  lemma GapBeforeLast(y: seq<Chunk>)
    requires Canonical(y) && |y| > 1
    ensures !Covers(y, y[|y|-1].addr - 1)
  {
    var n := |y| - 1;
    assert Apart(y, n - 1);
    forall i | 0 <= i < n ensures y[i].End() < y[n].addr {
      if i < n - 1 { assert y[i].End() <= y[n - 1].addr; }
    }
  }

  /** Half of: two canonical lists over the same bytes end in the same chunk. */
  lemma LastBelow(x: seq<Chunk>, y: seq<Chunk>)
    requires Canonical(x) && Canonical(y) && |x| > 1 && |y| > 1
    requires forall a: int :: Covers(x, a) == Covers(y, a)
    ensures x[|x|-1].End() <= y[|y|-1].End()
    ensures x[|x|-1].End() == y[|y|-1].End() ==> y[|y|-1].addr <= x[|x|-1].addr
  {
    var p, q := x[|x|-1], y[|y|-1];
    assert p.Has(p.End() - 1);
    assert Covers(y, p.End() - 1);
    GapBeforeLast(y);
    assert p.Has(q.addr - 1) ==> Covers(x, q.addr - 1);
  }

  // ----- the list in memory -----

  function Succ(bs: seq<Chunk>, i: nat): nat
    requires i < |bs|
  {
    if i + 1 < |bs| then bs[i + 1].addr else bs[0].addr
  }

  /** The header of chunk i holds its size and points to the next chunk. */
  predicate StoredAt(ptr: map<nat, nat>, size: map<nat, nat>, bs: seq<Chunk>, i: nat)
    requires i < |bs|
  {
    && bs[i].addr in ptr && ptr[bs[i].addr] == Succ(bs, i)
    && bs[i].addr in size && size[bs[i].addr] == bs[i].units
  }

  ghost predicate Stored(ptr: map<nat, nat>, size: map<nat, nat>, bs: seq<Chunk>)
  {
    forall i | 0 <= i < |bs| :: StoredAt(ptr, size, bs, i)
  }

  lemma StoredInsertAt(ptr: map<nat, nat>, size: map<nat, nat>, bs: seq<Chunk>, k: nat, c: Chunk, i: nat)
    requires k < |bs| && i <= |bs| && bs[k].addr in ptr && ptr[bs[k].addr] == Succ(bs, k) && c.addr != bs[k].addr
    requires c.addr in size && size[c.addr] == c.units
    requires var j := if i <= k then i else i - 1;
             StoredAt(ptr, size, bs, j) && bs[j].addr != c.addr && (bs[j].addr == bs[k].addr ==> j == k)
    ensures StoredAt(ptr[c.addr := ptr[bs[k].addr]][bs[k].addr := c.addr], size, InsertAfter(bs, k, c), i)
  {
    var r := InsertAfter(bs, k, c);
    if i == k + 1 {
      assert r[i] == c && Succ(r, i) == Succ(bs, k);
    } else if i == k {
      assert r[i] == bs[i] && Succ(r, i) == c.addr;
    } else {
      var j := if i <= k then i else i - 1;
      assert r[i] == bs[j] && Succ(r, i) == Succ(bs, j);
    }
  }

  lemma StoredInsert(ptr: map<nat, nat>, size: map<nat, nat>, bs: seq<Chunk>, k: nat, c: Chunk)
    requires Ordered(bs) && Fits(bs, k, c) && Stored(ptr, size, bs)
    requires c.addr in size && size[c.addr] == c.units
    ensures bs[k].addr in ptr
    ensures Stored(ptr[c.addr := ptr[bs[k].addr]][bs[k].addr := c.addr], size, InsertAfter(bs, k, c))
  {
    assert StoredAt(ptr, size, bs, k);
    var ptr', r := ptr[c.addr := ptr[bs[k].addr]][bs[k].addr := c.addr], InsertAfter(bs, k, c);
    forall i | 0 <= i < |r| ensures StoredAt(ptr', size, r, i) {
      var j := if i <= k then i else i - 1;
      assert StoredAt(ptr, size, bs, j);
      Elsewhere(bs, k, c, j);
      StoredInsertAt(ptr, size, bs, k, c, i);
    }
  }

  lemma Elsewhere(bs: seq<Chunk>, k: nat, c: Chunk, j: nat)
    requires Ordered(bs) && Fits(bs, k, c) && j < |bs|
    ensures bs[j].addr != c.addr && (bs[j].addr == bs[k].addr ==> j == k)
  {
    if j < k { assert bs[j].addr < bs[k].addr; }
    if j > k + 1 { assert bs[k + 1].addr < bs[j].addr; }
  }

  lemma StoredJoinAt(ptr: map<nat, nat>, size: map<nat, nat>, bs: seq<Chunk>, i: nat, m: nat)
    requires i + 1 < |bs| && bs[i].End() == bs[i + 1].addr && m < |bs| - 1
    requires StoredAt(ptr, size, bs, i) && StoredAt(ptr, size, bs, i + 1)
    requires var j := if m <= i then m else m + 1;
             StoredAt(ptr, size, bs, j) && (bs[j].addr == bs[i].addr ==> j == i)
    ensures var a, b := bs[i].addr, bs[i + 1].addr;
            m < |Join(bs, i)| && StoredAt(ptr[a := ptr[b]], size[a := size[a] + size[b]], Join(bs, i), m)
  {
    var r := Join(bs, i);
    if m < i {
      assert r[m] == bs[m] && Succ(r, m) == Succ(bs, m);
    } else if m == i {
      assert Succ(r, m) == Succ(bs, i + 1);
    } else {
      assert r[m] == bs[m + 1] && Succ(r, m) == Succ(bs, m + 1);
    }
  }

  lemma StoredJoin(ptr: map<nat, nat>, size: map<nat, nat>, bs: seq<Chunk>, i: nat)
    requires Ordered(bs) && i + 1 < |bs| && bs[i].End() == bs[i + 1].addr && Stored(ptr, size, bs)
    ensures bs[i].addr in size && bs[i + 1].addr in size && bs[i + 1].addr in ptr
    ensures var a, b := bs[i].addr, bs[i + 1].addr;
            Stored(ptr[a := ptr[b]], size[a := size[a] + size[b]], Join(bs, i))
  {
    assert StoredAt(ptr, size, bs, i) && StoredAt(ptr, size, bs, i + 1);
    var a, b, r := bs[i].addr, bs[i + 1].addr, Join(bs, i);
    var ptr', size' := ptr[a := ptr[b]], size[a := size[a] + size[b]];
    forall m | 0 <= m < |r| ensures StoredAt(ptr', size', r, m) {
      var j := if m <= i then m else m + 1;
      assert StoredAt(ptr, size, bs, j);
      assert j < i ==> bs[j].addr < bs[i].addr;
      assert j > i ==> bs[i].addr < bs[j].addr;
      StoredJoinAt(ptr, size, bs, i, m);
    }
  }

  ghost function Sum(live: map<nat, nat>): nat
  {
    if live == map[] then 0
    else
      var a :| a in live;
      live[a] + Sum(live - {a})
  }

  lemma {:induction false} SumWithout(live: map<nat, nat>, a: nat)
    requires a in live
    ensures Sum(live) == live[a] + Sum(live - {a})
    decreases |live|
  {
    var b :| b in live && Sum(live) == live[b] + Sum(live - {b});
    if a != b {
      SumWithout(live - {b}, a);
      SumWithout(live - {a}, b);
      assert (live - {b}) - {a} == (live - {a}) - {b};
    }
  }

  lemma SumWith(live: map<nat, nat>, a: nat, u: nat)
    requires a !in live
    ensures Sum(live[a := u]) == u + Sum(live)
  {
    SumWithout(live[a := u], a);
    assert live[a := u] - {a} == live;
  }

  predicate Disjoint(c: Chunk, d: Chunk)
  {
    c.End() <= d.addr || d.End() <= c.addr
  }

  /** The allocated blocks keep clear of each other, of the free ones and of base,
      and everything lies below the break. */
  ghost predicate Clear(bs: seq<Chunk>, live: map<nat, nat>, brk: nat)
  {
    && (forall i | 0 <= i < |bs| :: bs[i].End() <= brk)
    && (forall a | a in live :: live[a] >= 1 && Chunk(a, live[a]).End() <= brk)
    && (forall a, i {:trigger Disjoint(Chunk(a, live[a]), bs[i])} | a in live && 0 <= i < |bs| ::
          a != bs[i].addr && Disjoint(Chunk(a, live[a]), bs[i]))
    && (forall a, b {:trigger Disjoint(Chunk(a, live[a]), Chunk(b, live[b]))} | a in live && b in live && a != b ::
          Disjoint(Chunk(a, live[a]), Chunk(b, live[b])))
  }

  lemma ClearInsert(bs: seq<Chunk>, live: map<nat, nat>, brk: nat, k: nat, bp: nat)
    requires k < |bs| && bp in live && Clear(bs, live, brk)
    ensures Clear(InsertAfter(bs, k, Chunk(bp, live[bp])), live - {bp}, brk)
  {
    var c := Chunk(bp, live[bp]);
    var r := InsertAfter(bs, k, c);
    forall i | 0 <= i < |r| ensures r[i] == c || exists j :: 0 <= j < |bs| && r[i] == bs[j] {
      if i != k + 1 { assert r[i] == bs[if i <= k then i else i - 1]; }
    }
  }

  lemma ClearJoin(bs: seq<Chunk>, live: map<nat, nat>, brk: nat, i: nat)
    requires Ordered(bs) && i < |bs| && Clear(bs, live, brk)
    ensures Clear(Join(bs, i), live, brk)
  {
    if !Apart(bs, i) {
      var r := Join(bs, i);
      forall m | 0 <= m < |r| ensures r[m].End() <= brk { JoinAt(bs, i, m); }
      forall a, m | a in live && 0 <= m < |r| ensures a != r[m].addr && Disjoint(Chunk(a, live[a]), r[m]) {
        JoinAt(bs, i, m);
        if m == i {
          assert Disjoint(Chunk(a, live[a]), bs[i]) && Disjoint(Chunk(a, live[a]), bs[i + 1]);
        } else {
          var j := if m < i then m else m + 1;
          assert r[m] == bs[j] && Disjoint(Chunk(a, live[a]), bs[j]);
        }
      }
    }
  }

  lemma ClearJoinTwice(bs: seq<Chunk>, live: map<nat, nat>, brk: nat, k: nat)
    requires Ordered(bs) && k + 1 < |bs| && Clear(bs, live, brk)
    ensures Clear(Join(Join(bs, k + 1), k), live, brk)
  {
    JoinOrdered(bs, k + 1);
    ClearJoin(bs, live, brk, k + 1);
    ClearJoin(Join(bs, k + 1), live, brk, k);
  }

  lemma ClearFree(bs: seq<Chunk>, live: map<nat, nat>, brk: nat, k: nat, bp: nat)
    requires Ordered(bs) && bp in live && Clear(bs, live, brk)
    requires Fits(bs, k, Chunk(bp, live[bp]))
    ensures Clear(Inserted(bs, k, Chunk(bp, live[bp])), live - {bp}, brk)
  {
    var c := Chunk(bp, live[bp]);
    ClearInsert(bs, live, brk, k, bp);
    InsertAfterOrdered(bs, k, c);
    ClearJoinTwice(InsertAfter(bs, k, c), live - {bp}, brk, k);
  }

  datatype Memory = Memory(ptr: map<nat, nat>, size: map<nat, nat>)

  /** free's two ifs. */
  function FreeUp(m: Memory, p: nat, bp: nat): (r: Memory)
    requires p in m.ptr && bp in m.size
  {
    var n := m.ptr[p];
    if bp + HDR * m.size[bp] == n && n in m.ptr && n in m.size then
      Memory(m.ptr[bp := m.ptr[n]], m.size[bp := m.size[bp] + m.size[n]])
    else Memory(m.ptr[bp := n], m.size)
  }

  function FreeDown(m: Memory, p: nat, bp: nat): (r: Memory)
    requires p in m.size && bp in m.size && bp in m.ptr
  {
    if p + HDR * m.size[p] == bp then
      Memory(m.ptr[p := m.ptr[bp]], m.size[p := m.size[p] + m.size[bp]])
    else Memory(m.ptr[p := bp], m.size)
  }

  lemma FreeUpStored(m: Memory, bs: seq<Chunk>, k: nat, c: Chunk)
    requires Ordered(bs) && Fits(bs, k, c) && Stored(m.ptr, m.size, bs)
    requires c.addr in m.size && m.size[c.addr] == c.units
    ensures bs[k].addr in m.ptr
    ensures var r := FreeUp(m, bs[k].addr, c.addr);
            && bs[k].addr in r.size && r.size[bs[k].addr] == bs[k].units
            && Stored(r.ptr[bs[k].addr := c.addr], r.size, Join(InsertAfter(bs, k, c), k + 1))
  {
    assert StoredAt(m.ptr, m.size, bs, k);
    var p: nat, n: nat := bs[k].addr, m.ptr[bs[k].addr];
    var r0 := InsertAfter(bs, k, c);
    StoredInsert(m.ptr, m.size, bs, k, c);
    InsertAfterOrdered(bs, k, c);
    assert r0[k + 1] == c;
    var ptr1 := m.ptr[c.addr := n][p := c.addr];
    if c.addr + HDR * c.units == n {
      assert n != bs[0].addr by { Elsewhere(bs, k, c, 0); FirstLowest(bs, k); }
      assert k + 1 < |bs| && r0[k + 2] == bs[k + 1];
      assert StoredAt(m.ptr, m.size, bs, k + 1);
      StoredJoin(ptr1, m.size, r0, k + 1);
      assert n != p && n != c.addr;
      assert ptr1[c.addr := ptr1[n]] == m.ptr[c.addr := m.ptr[n]][p := c.addr];
    } else {
      assert k + 1 < |bs| ==> r0[k + 2] == bs[k + 1];
      assert Join(r0, k + 1) == r0;
    }
  }

  lemma FirstLowest(bs: seq<Chunk>, k: nat)
    requires Ordered(bs) && k < |bs|
    ensures bs[0].addr <= bs[k].addr
  {
  }

  lemma FreeDownStored(m: Memory, bs: seq<Chunk>, k: nat)
    requires Ordered(bs) && k + 1 < |bs| && bs[k + 1].addr in m.ptr
    requires Stored(m.ptr[bs[k].addr := bs[k + 1].addr], m.size, bs)
    ensures bs[k].addr in m.size && bs[k + 1].addr in m.size
    ensures var r := FreeDown(m, bs[k].addr, bs[k + 1].addr);
            Stored(r.ptr, r.size, Join(bs, k))
  {
    var p, bp := bs[k].addr, bs[k + 1].addr;
    assert StoredAt(m.ptr[p := bp], m.size, bs, k) && StoredAt(m.ptr[p := bp], m.size, bs, k + 1);
    if bs[k].End() == bp {
      StoredJoin(m.ptr[p := bp], m.size, bs, k);
      assert m.ptr[p := bp][p := m.ptr[bp]] == m.ptr[p := m.ptr[bp]];
    }
  }

  lemma FreeStored(m: Memory, bs: seq<Chunk>, k: nat, c: Chunk)
    requires Canonical(bs) && Fits(bs, k, c) && Stored(m.ptr, m.size, bs)
    requires c.addr in m.size && m.size[c.addr] == c.units
    ensures bs[k].addr in m.ptr
    ensures var u := FreeUp(m, bs[k].addr, c.addr);
            && bs[k].addr in u.size && c.addr in u.size && c.addr in u.ptr
            && var r := FreeDown(u, bs[k].addr, c.addr);
            Stored(r.ptr, r.size, Inserted(bs, k, c))
  {
    FreeUpStored(m, bs, k, c);
    var r0 := InsertAfter(bs, k, c);
    InsertAfterOrdered(bs, k, c);
    JoinOrdered(r0, k + 1);
    var r1 := Join(r0, k + 1);
    assert r1[k] == bs[k] && r1[k + 1].addr == c.addr;
    FreeDownStored(FreeUp(m, bs[k].addr, c.addr), r1, k);
  }

  /** The allocator's state, once base has been set up. */
  ghost predicate Good(base: nat, m: Memory, bs: seq<Chunk>, live: map<nat, nat>, brk: nat, obtained: nat)
  {
    && Canonical(bs) && bs[0].addr == base && Stored(m.ptr, m.size, bs)
    && (forall a | a in live :: base < a && a in m.size && m.size[a] == live[a])
    && Clear(bs, live, brk)
    && Total(bs) + Sum(live) == obtained
  }

  lemma GoodParts(base: nat, m: Memory, bs: seq<Chunk>, live: map<nat, nat>, brk: nat, obtained: nat)
    requires Good(base, m, bs, live, brk, obtained)
    ensures Ordered(bs) && Stored(m.ptr, m.size, bs) && Clear(bs, live, brk)
    ensures |bs| >= 1 && bs[0].addr == base && forall a | a in live :: base < a
  {
  }

  lemma StoredHere(ptr: map<nat, nat>, size: map<nat, nat>, bs: seq<Chunk>, i: nat)
    requires Stored(ptr, size, bs) && i < |bs|
    ensures StoredAt(ptr, size, bs, i)
  {
  }

  /** p heads a chunk of the free list. */
  ghost predicate Heads(bs: seq<Chunk>, p: nat)
  {
    exists f :: 0 <= f < |bs| && bs[f].addr == p
  }

  lemma PlaceFits(bs: seq<Chunk>, live: map<nat, nat>, brk: nat, k: nat, bp: nat)
    requires Ordered(bs) && Clear(bs, live, brk) && bp in live && k < |bs|
    requires bs[k].addr < bp && (k + 1 < |bs| ==> bp < bs[k + 1].addr)
    ensures Fits(bs, k, Chunk(bp, live[bp]))
  {
    var c := Chunk(bp, live[bp]);
    assert Disjoint(c, bs[k]);
    if k + 1 < |bs| { assert Disjoint(c, bs[k + 1]); }
  }

  lemma FreeGood(base: nat, m: Memory, bs: seq<Chunk>, live: map<nat, nat>, brk: nat, obtained: nat, k: nat, bp: nat)
    returns (m': Memory, bs': seq<Chunk>, live': map<nat, nat>)
    requires Good(base, m, bs, live, brk, obtained) && bp in live && Fits(bs, k, Chunk(bp, live[bp]))
    ensures bs[k].addr in m.ptr && bp in m.size
    ensures var u := FreeUp(m, bs[k].addr, bp);
            && bs[k].addr in u.size && bp in u.size && bp in u.ptr && m' == FreeDown(u, bs[k].addr, bp)
    ensures live' == live - {bp}
    ensures Good(base, m', bs', live', brk, obtained) && Heads(bs', bs[k].addr)
    ensures forall a :: Covers(bs', a) <==> Covers(bs, a) || Chunk(bp, live[bp]).Has(a)
  {
    var c := Chunk(bp, live[bp]);
    bs', live' := Inserted(bs, k, c), live - {bp};
    InsertedCanonical(bs, k, c);
    InsertedTotal(bs, k, c);
    InsertedHead(bs, k, c);
    SumWithout(live, bp);
    ClearFree(bs, live, brk, k, bp);
    FreeStored(m, bs, k, c);
    FreeSizes(m, bs, live, brk, k, bp);
    m' := FreeDown(FreeUp(m, bs[k].addr, bp), bs[k].addr, bp);
    forall a { InsertedCovers(bs, k, c, a); }
  }

  lemma InsertedHead(bs: seq<Chunk>, k: nat, c: Chunk)
    requires Ordered(bs) && Fits(bs, k, c)
    ensures k < |Inserted(bs, k, c)| && Inserted(bs, k, c)[k].addr == bs[k].addr
  {
    var r0 := InsertAfter(bs, k, c);
    assert r0[k] == bs[k];
    var r1 := Join(r0, k + 1);
    assert r1[k] == bs[k];
  }

  /** free writes no allocated block's header but the one it takes back. */
  lemma FreeSizes(m: Memory, bs: seq<Chunk>, live: map<nat, nat>, brk: nat, k: nat, bp: nat)
    requires Clear(bs, live, brk) && bp in live && k < |bs|
    requires bs[k].addr in m.ptr && bp in m.size
    requires var u := FreeUp(m, bs[k].addr, bp); bs[k].addr in u.size && bp in u.size && bp in u.ptr
    ensures var r := FreeDown(FreeUp(m, bs[k].addr, bp), bs[k].addr, bp);
            forall a | a in live && a != bp && a in m.size :: a in r.size && r.size[a] == m.size[a]
  {
    forall a | a in live && a != bp ensures a != bs[k].addr {
      assert Disjoint(Chunk(a, live[a]), bs[k]);
    }
  }

  lemma GrowClear(bs: seq<Chunk>, live: map<nat, nat>, brk: nat, hp: nat, nu: nat)
    requires Ordered(bs) && Clear(bs, live, brk) && bs[0].addr < brk <= hp && nu >= 1
    ensures hp !in live && forall i | 0 <= i < |bs| :: bs[i].addr != hp
    ensures Clear(bs, live[hp := nu], hp + HDR * nu)
  {
    var live' := live[hp := nu];
    assert forall a | a in live :: Chunk(a, live[a]).End() <= brk;
    forall i | 0 <= i < |bs| ensures bs[i].addr < hp {
      assert bs[i].End() <= brk;
    }
    forall a, i | a in live' && 0 <= i < |bs| ensures a != bs[i].addr && Disjoint(Chunk(a, live'[a]), bs[i]) {
      assert bs[i].End() <= brk;
      assert a != hp ==> Disjoint(Chunk(a, live[a]), bs[i]);
    }
    forall a, b | a in live' && b in live' && a != b ensures Disjoint(Chunk(a, live'[a]), Chunk(b, live'[b])) {
      assert a != hp && b != hp ==> Disjoint(Chunk(a, live[a]), Chunk(b, live[b]));
    }
  }

  /** A region fresh from sbrk, dressed up as an allocated block. */
  lemma GoodCanonical(base: nat, m: Memory, bs: seq<Chunk>, live: map<nat, nat>, brk: nat, obtained: nat)
    requires Good(base, m, bs, live, brk, obtained)
    ensures Canonical(bs)
  {
  }

  lemma GrowGood(base: nat, m: Memory, bs: seq<Chunk>, live: map<nat, nat>, brk: nat, obtained: nat, hp: nat, nu: nat)
    requires Good(base, m, bs, live, brk, obtained) && base < brk <= hp && nu >= 1
    ensures hp !in live
    ensures Good(base, Memory(m.ptr, m.size[hp := nu]), bs, live[hp := nu], hp + HDR * nu, obtained + nu)
  {
    GrowClear(bs, live, brk, hp, nu);
    SumWith(live, hp, nu);
    var size' := m.size[hp := nu];
    forall i | 0 <= i < |bs| ensures StoredAt(m.ptr, size', bs, i) {
      assert StoredAt(m.ptr, m.size, bs, i);
    }
  }

  /** Coalescing leaves the byte after each chunk taken. */
  lemma EndTaken(bs: seq<Chunk>, i: nat)
    requires Canonical(bs) && i < |bs|
    ensures !Covers(bs, bs[i].End())
  {
    assert Apart(bs, i);
    forall j | 0 <= j < |bs| ensures !bs[j].Has(bs[i].End()) {
      if i + 1 < j { assert bs[i + 1].addr < bs[j].addr; }
    }
  }

  /** Consecutive free bytes lie in one chunk of a coalesced list. */
  lemma RangeInOne(bs: seq<Chunk>, c: Chunk) returns (i: nat)
    requires Canonical(bs) && c.units >= 1
    requires forall a | c.Has(a) :: Covers(bs, a)
    ensures i < |bs| && bs[i].addr <= c.addr && c.End() <= bs[i].End()
  {
    assert c.Has(c.addr);
    i :| 0 <= i < |bs| && bs[i].Has(c.addr);
    EndTaken(bs, i);
    assert !c.Has(bs[i].End());
  }

  // ----- malloc on the memory -----

  function TakeMem(m: Memory, prev: nat, p: nat, u: nat): (r: Memory)
    requires p in m.ptr && p in m.size && u <= m.size[p]
  {
    if m.size[p] == u then Memory(m.ptr[prev := m.ptr[p]], m.size)
    else Memory(m.ptr, m.size[p := m.size[p] - u][p + HDR * (m.size[p] - u) := u])
  }

  lemma TakeAllStoredAt(m: Memory, bs: seq<Chunk>, k: nat, i: nat)
    requires 1 <= k < |bs| && StoredAt(m.ptr, m.size, bs, k) && i < |bs| - 1
    requires var j := if i < k then i else i + 1;
             StoredAt(m.ptr, m.size, bs, j) && (j != k - 1 ==> bs[j].addr != bs[k - 1].addr)
    ensures StoredAt(m.ptr[bs[k - 1].addr := m.ptr[bs[k].addr]], m.size, bs[..k] + bs[k + 1..], i)
  {
    var j := if i < k then i else i + 1;
    var r := bs[..k] + bs[k + 1..];
    assert r[i] == bs[j];
    if i == k - 1 {
      assert Succ(r, i) == Succ(bs, k);
    } else {
      assert Succ(r, i) == Succ(bs, j);
    }
  }

  lemma TakeStoredAt(m: Memory, bs: seq<Chunk>, k: nat, u: nat, i: nat)
    requires Ordered(bs) && 1 <= k < |bs| && 1 <= u <= bs[k].units && Stored(m.ptr, m.size, bs)
    requires i < |Taken(bs, k, u)|
    ensures bs[k].addr in m.ptr && bs[k].addr in m.size && m.size[bs[k].addr] == bs[k].units
    ensures var r := TakeMem(m, bs[k - 1].addr, bs[k].addr, u); StoredAt(r.ptr, r.size, Taken(bs, k, u), i)
  {
    assert StoredAt(m.ptr, m.size, bs, k);
    if bs[k].units == u {
      var j := if i < k then i else i + 1;
      assert StoredAt(m.ptr, m.size, bs, j);
      assert j < k - 1 ==> bs[j].addr < bs[k - 1].addr;
      assert j > k - 1 ==> bs[k - 1].addr < bs[j].addr;
      TakeAllStoredAt(m, bs, k, i);
    } else {
      assert StoredAt(m.ptr, m.size, bs, i);
      assert Succ(Taken(bs, k, u), i) == Succ(bs, i);
      TailInside(bs, k, u, i);
    }
  }

  /** The tail end cut off a larger chunk heads no free chunk. */
  lemma TailInside(bs: seq<Chunk>, k: nat, u: nat, i: nat)
    requires Ordered(bs) && k < |bs| && i < |bs| && 1 <= u <= bs[k].units
    ensures Tail(bs[k], u).addr == bs[i].addr ==> i == k && u == bs[k].units
    ensures i != k ==> Disjoint(Tail(bs[k], u), bs[i]) && bs[i].addr != bs[k].addr
  {
  }

  lemma TakeClear(bs: seq<Chunk>, live: map<nat, nat>, brk: nat, k: nat, u: nat)
    requires Ordered(bs) && Clear(bs, live, brk) && 1 <= k < |bs| && 1 <= u <= bs[k].units
    ensures Tail(bs[k], u).addr !in live
    ensures Clear(Taken(bs, k, u), live[Tail(bs[k], u).addr := u], brk)
  {
    var h, r := Tail(bs[k], u), Taken(bs, k, u);
    var live' := live[h.addr := u];
    forall a | a in live ensures a != h.addr && Disjoint(Chunk(a, live[a]), h) {
      assert Disjoint(Chunk(a, live[a]), bs[k]);
    }
    forall i | 0 <= i < |r|
      ensures r[i].End() <= brk && Disjoint(h, r[i]) && h.addr != r[i].addr
      ensures exists j :: 0 <= j < |bs| && r[i].addr == bs[j].addr && r[i].End() <= bs[j].End()
    {
      var j := if bs[k].units == u && i >= k then i + 1 else i;
      TailInside(bs, k, u, j);
      assert r[i].addr == bs[j].addr && r[i].End() <= bs[j].End();
    }
    forall a, i | a in live' && 0 <= i < |r| ensures a != r[i].addr && Disjoint(Chunk(a, live'[a]), r[i]) {
      if a != h.addr {
        var j :| 0 <= j < |bs| && r[i].addr == bs[j].addr && r[i].End() <= bs[j].End();
        assert Disjoint(Chunk(a, live[a]), bs[j]);
      }
    }
    forall a, b | a in live' && b in live' && a != b ensures Disjoint(Chunk(a, live'[a]), Chunk(b, live'[b])) {
      if a != h.addr && b != h.addr { assert Disjoint(Chunk(a, live[a]), Chunk(b, live[b])); }
    }
  }

  lemma TakeGood(base: nat, m: Memory, bs: seq<Chunk>, live: map<nat, nat>, brk: nat, obtained: nat, k: nat, u: nat)
    returns (m': Memory, bs': seq<Chunk>, live': map<nat, nat>)
    requires Good(base, m, bs, live, brk, obtained) && 1 <= k < |bs| && 1 <= u <= bs[k].units
    ensures bs[k].addr in m.ptr && bs[k].addr in m.size && m.size[bs[k].addr] == bs[k].units
    ensures m' == TakeMem(m, bs[k - 1].addr, bs[k].addr, u)
    ensures Tail(bs[k], u).addr !in live && live' == live[Tail(bs[k], u).addr := u]
    ensures Good(base, m', bs', live', brk, obtained) && Heads(bs', bs[k - 1].addr)
    ensures forall a :: Covers(bs', a) <==> Covers(bs, a) && !Tail(bs[k], u).Has(a)
  {
    var h := Tail(bs[k], u);
    assert StoredAt(m.ptr, m.size, bs, k);
    m', bs', live' := TakeMem(m, bs[k - 1].addr, bs[k].addr, u), Taken(bs, k, u), live[h.addr := u];
    TakenCanonical(bs, k, u);
    TakenTotal(bs, k, u);
    TakeClear(bs, live, brk, k, u);
    SumWith(live, h.addr, u);
    forall i | 0 <= i < |bs'| ensures StoredAt(m'.ptr, m'.size, bs', i) { TakeStoredAt(m, bs, k, u, i); }
    assert bs'[k - 1].addr == bs[k - 1].addr;
    TakeSizes(m, bs, live, brk, k, u);
    forall a { TakenCovers(bs, k, u, a); }
  }

  lemma TakeSizes(m: Memory, bs: seq<Chunk>, live: map<nat, nat>, brk: nat, k: nat, u: nat)
    requires Ordered(bs) && Clear(bs, live, brk) && 1 <= k < |bs| && 1 <= u <= bs[k].units
    requires bs[k].addr in m.ptr && bs[k].addr in m.size && m.size[bs[k].addr] == bs[k].units
    requires forall a | a in live :: bs[0].addr < a && a in m.size && m.size[a] == live[a]
    ensures var r, live' := TakeMem(m, bs[k - 1].addr, bs[k].addr, u), live[Tail(bs[k], u).addr := u];
            forall a | a in live' :: bs[0].addr < a && a in r.size && r.size[a] == live'[a]
  {
    var h := Tail(bs[k], u);
    assert bs[0].addr < bs[k].addr;
    forall a | a in live ensures a != h.addr && a != bs[k].addr {
      assert Disjoint(Chunk(a, live[a]), bs[k]);
    }
  }

  /** The d-th chunk after number f, going round a ring of n. */
  function Hop(n: nat, f: nat, d: nat): (k: nat)
    requires f < n && d < n
    ensures k < n
  {
    if f + 1 + d < n then f + 1 + d else f + 1 + d - n
  }

  /** h is the header malloc picks: of the end of the first chunk after freep that is large enough. */
  ghost predicate NextFit(bs: seq<Chunk>, freep: nat, h: nat, u: nat)
  {
    exists f, d :: && 0 <= f < |bs| && 0 <= d < |bs| && bs[f].addr == freep
      && bs[Hop(|bs|, f, d)].units >= u && h + HDR * u == bs[Hop(|bs|, f, d)].End()
      && forall e | 0 <= e < d :: bs[Hop(|bs|, f, e)].units < u
  }

  ghost predicate Enough(bs: seq<Chunk>, u: nat)
  {
    exists i :: 0 <= i < |bs| && bs[i].units >= u
  }

  class Allocator {
    const base: nat
    var ptr: map<nat, nat>           // s.ptr of the header at each address
    var size: map<nat, nat>          // s.size
    var freep: nat                   // 0 until the first malloc

    ghost var bs: seq<Chunk>         // the free list from base round
    ghost var live: map<nat, nat>    // units of each block handed out, by header address
    ghost var brk: nat               // end of the memory obtained
    ghost var obtained: nat          // units obtained from sbrk so far

    ghost predicate Valid()
      reads this
    {
      && base != 0 && base + HDR <= brk
      && (freep != 0 ==> Good(base, Memory(ptr, size), bs, live, brk, obtained) && Heads(bs, freep))
      && (freep == 0 ==> live == map[] && obtained == 0 && bs == [])
    }

    constructor (b: nat, top: nat)
      requires 0 < b && b + HDR <= top
      ensures Valid() && base == b && brk == top && freep == 0
    {
      base, ptr, size, freep := b, map[], map[], 0;
      bs, live, brk, obtained := [], map[], top, 0;
    }

    /** free's ring search: within one lap it stops at the chunk after which bp
        belongs. */
    method FindPlace(bp: nat) returns (p: nat, ghost k: nat)
      requires Valid() && bp in live
      ensures k < |bs| && p == bs[k].addr && Fits(bs, k, Chunk(bp, live[bp]))
      ensures Heads(bs, p) && p < bp && forall i | 0 <= i < |bs| :: bs[i].addr <= p || bs[i].addr > bp
      ensures p in ptr && p in size && ptr[p] in ptr && ptr[p] in size && base <= p
    {
      hide Good, Canonical, Ordered, Clear, Stored, Fits;
      GoodParts(base, Memory(ptr, size), bs, live, brk, obtained);
      ghost var f :| 0 <= f < |bs| && bs[f].addr == freep;
      ghost var want := LastBelowAddr(bs, bp, |bs|);
      p, k := freep, f;
      StoredHere(ptr, size, bs, k);
      while !(bp > p && bp < ptr[p])
        invariant k < |bs| && p == bs[k].addr && StoredAt(ptr, size, bs, k)
        decreases if k <= want then want - k else want + |bs| - k
      {
        SearchStops(bs, live, brk, k, bp, want);
        if p >= ptr[p] && (bp > p || bp < ptr[p]) {
          break;
        }
        p, k := ptr[p], if k + 1 < |bs| then k + 1 else 0;
        StoredHere(ptr, size, bs, k);
      }
      SearchRight(bs, k, bp);
      PlaceFits(bs, live, brk, k, bp);
      NextKnown(ptr, size, bs, k);
      OrderedNear(bs, k, bp);
      FirstLowest(bs, k);
    }

    /** free.  What is free afterwards is what was free before and the block's
        bytes; freep is left at the free block just below it. */
    method Free(ap: nat)
      requires Valid() && ap >= HDR && ap - HDR in live
      modifies `ptr, `size, `freep, `bs, `live
      ensures Valid() && freep != 0 && live == old(live) - {ap - HDR}
      ensures forall a :: Covers(bs, a) <==> Covers(old(bs), a) || Chunk(ap - HDR, old(live)[ap - HDR]).Has(a)
      ensures Heads(old(bs), freep) && freep < ap - HDR
      ensures forall i | 0 <= i < |old(bs)| :: old(bs)[i].addr <= freep || old(bs)[i].addr > ap - HDR
    {
      hide Good, Canonical, Heads, Covers, Fits, FreeUp, FreeDown;
      var bp: nat := ap - HDR;
      var p: nat;
      ghost var k;
      p, k := FindPlace(bp);
      ghost var m', bs', live' := FreeGood(base, Memory(ptr, size), bs, live, brk, obtained, k, bp);
      Coalesce(p, bp);
      freep, bs, live := p, bs', live';
    }

    /** free's two tests: does bp reach up to the next block, does p reach up to bp? */
    method Coalesce(p: nat, bp: nat)
      requires p in ptr && p in size && bp in size && ptr[p] in ptr && ptr[p] in size
      modifies `ptr, `size
      ensures var u := FreeUp(old(Memory(ptr, size)), p, bp);
              p in u.size && bp in u.size && bp in u.ptr && Memory(ptr, size) == FreeDown(u, p, bp)
    {
      if bp + HDR * size[bp] == ptr[p] {
        var n: nat := ptr[p];
        size := size[bp := size[bp] + size[n]];
        ptr := ptr[bp := ptr[n]];
      } else {
        ptr := ptr[bp := ptr[p]];
      }
      if p + HDR * size[p] == bp {
        size := size[p := size[p] + size[bp]];
        ptr := ptr[p := ptr[bp]];
      } else {
        ptr := ptr[p := bp];
      }
    }

    /** morecore, with what sbrk answered.  The new region is freed, so it ends up
        coalesced with whatever it touches. */
    method MoreCore(nunits: nat, got: Option<nat>) returns (p: nat)
      requires Valid() && freep != 0 && HDR * Grow(nunits) < UINT_LIMIT / 2
      requires got.Some? ==> brk <= got.value
      modifies `ptr, `size, `freep, `bs, `live, `brk, `obtained
      ensures Valid() && freep != 0 && live == old(live)
      ensures got.None? ==> p == 0 && bs == old(bs) && freep == old(freep)
      ensures got.None? ==> brk == old(brk) && obtained == old(obtained)
      ensures got.Some? ==>
                && p == freep && obtained == old(obtained) + Grow(nunits)
                && brk == got.value + HDR * Grow(nunits) == got.value + HDR * Max(nunits, MINGROW)
                && Enough(bs, nunits)
                && forall a :: Covers(bs, a) <==> Covers(old(bs), a) || Chunk(got.value, Grow(nunits)).Has(a)
    {
      hide Good;
      var nu := nunits;
      if nu < MINGROW { nu := MINGROW; }
      if got.None? { return 0; }
      var hp: nat := got.value;
      GrowGood(base, Memory(ptr, size), bs, live, brk, obtained, hp, nu);
      size := size[hp := nu];
      live, brk, obtained := live[hp := nu], hp + HDR * nu, obtained + nu;
      Free(hp + HDR);
      assert live == old(live);
      GoodCanonical(base, Memory(ptr, size), bs, live, brk, obtained);
      ghost var i := RangeInOne(bs, Chunk(hp, nu));
      assert bs[i].units >= nu;
      return freep;
    }

    /** malloc's taking of p, the chunk after prevp; h is the header handed out. */
    method Take(prevp: nat, p: nat, u: nat, ghost k: nat) returns (h: nat)
      requires Valid() && freep != 0 && 1 <= k < |bs| && 1 <= u <= bs[k].units
      requires prevp == bs[k - 1].addr && p == bs[k].addr
      modifies `ptr, `size, `freep, `bs, `live
      ensures Valid() && freep == prevp
      ensures h + HDR * u == old(bs)[k].End()
      ensures h == Tail(old(bs)[k], u).addr && h !in old(live) && live == old(live)[h := u]
      ensures forall a :: Covers(bs, a) <==> Covers(old(bs), a) && !Chunk(h, u).Has(a)
    {
      ghost var m', bs', live' := TakeGood(base, Memory(ptr, size), bs, live, brk, obtained, k, u);
      h := p;
      if size[p] == u {
        ptr := ptr[prevp := ptr[p]];
      } else {
        size := size[p := size[p] - u];
        h := p + HDR * size[p];
        size := size[h := u];
      }
      assert Memory(ptr, size) == m';
      freep, bs, live := prevp, bs', live';
    }

    /** malloc, with what sbrk would answer.  The block handed out held no
        allocated byte before; apart from it and the region morecore brought in,
        no byte changes hands. */
    method Malloc(nbytes: nat, got: Option<nat>) returns (r: nat, ghost h: nat, ghost grew: bool)
      requires Valid() && nbytes < UINT_LIMIT && Sane(nbytes)
      requires got.Some? ==> brk <= got.value
      modifies `ptr, `size, `freep, `bs, `live, `brk, `obtained
      ensures Valid() && freep != 0
      ensures grew <==> got.Some? && !Enough(old(bs), Units(nbytes))
      ensures obtained == old(obtained) + (if grew then Grow(Units(nbytes)) else 0)
      ensures r == 0 <==> got.None? && !Enough(old(bs), Units(nbytes))
      ensures r == 0 ==> live == old(live) && forall a :: Covers(bs, a) <==> Covers(old(bs), a)
      ensures r != 0 ==>
                && r == h + HDR && h !in old(live) && live == old(live)[h := Units(nbytes)]
                && forall a :: Covers(bs, a) <==>
                     (Covers(old(bs), a) || (grew && Chunk(got.value, Grow(Units(nbytes))).Has(a)))
                     && !Chunk(h, Units(nbytes)).Has(a)
      ensures r != 0 && !grew ==> NextFit(old(bs), old(freep), h, Units(nbytes))
    {
      var fit, prevp, p;
      ghost var k;
      fit, prevp, p, k, grew := Find(Units(nbytes), got);
      r, h := 0, 0;
      if fit {
        var hdr := Take(prevp, p, Units(nbytes), k);
        r, h := hdr + HDR, hdr;
      }
    }

    /** malloc's search: laps round the ring, with one call of morecore if the
        first finds nothing.  Not fit means sbrk refused. */
    method Find(u: nat, got: Option<nat>) returns (fit: bool, prevp: nat, p: nat, ghost k: nat, ghost grew: bool)
      requires Valid() && u >= 1 && HDR * Grow(u) < UINT_LIMIT / 2
      requires got.Some? ==> brk <= got.value
      modifies `ptr, `size, `freep, `bs, `live, `brk, `obtained
      ensures Valid() && freep != 0 && live == old(live)
      ensures grew <==> got.Some? && !Enough(old(bs), u)
      ensures obtained == old(obtained) + (if grew then Grow(u) else 0)
      ensures fit <==> got.Some? || Enough(old(bs), u)
      ensures fit ==> FitAt(bs, prevp, p, k, u)
      ensures forall a :: Covers(bs, a) <==> Covers(old(bs), a) || (grew && Chunk(got.value, Grow(u)).Has(a))
      ensures fit && !grew ==> NextFit(old(bs), old(freep), Tail(bs[k], u).addr, u)
    {
      ghost var bs0, freep0 := bs, freep;
      grew := false;
      if freep == 0 {
        Start();
      }
      fit, prevp, p, k := Lap(u);
      while !fit
        invariant Valid() && freep != 0 && live == old(live)
        invariant if fit then FitAt(bs, prevp, p, k, u) else !grew && !Enough(bs, u)
        invariant !grew ==>
                    && (Enough(bs, u) <==> Enough(bs0, u))
                    && obtained == old(obtained) && brk == old(brk)
                    && (fit ==> NextFit(bs0, freep0, Tail(bs[k], u).addr, u))
        invariant grew ==> got.Some? && !Enough(bs0, u) && obtained == old(obtained) + Grow(u)
        invariant forall a :: Covers(bs, a) <==> Covers(bs0, a) || (grew && Chunk(got.value, Grow(u)).Has(a))
        decreases if fit then 0 else 1
      {
        p := MoreCore(u, got);
        if p == 0 { return; }
        grew := true;
        fit, prevp, p, k := Lap(u);
      }
    }

    /** The body of malloc's loop, from freep all the way round: the first block
        that is large enough, or none.  malloc goes round again after morecore. */
    method Lap(u: nat) returns (fit: bool, prevp: nat, p: nat, ghost k: nat)
      requires Valid() && freep != 0 && u >= 1
      ensures fit <==> Enough(bs, u)
      ensures fit ==> FitAt(bs, prevp, p, k, u) && NextFit(bs, freep, Tail(bs[k], u).addr, u)
    {
      hide Valid, Hop, Before, SmallSoFar, FitAt, NextFit, Enough, Stored, Ordered, Succ;
      ghost var f := Ring();
      ghost var d := 0;
      LapStart(bs, f, u);
      k := Hop(|bs|, f, 0);
      prevp := freep;
      NextHop(bs, f, d);
      NextKnown(ptr, size, bs, f);
      p := ptr[prevp];
      NextKnown(ptr, size, bs, k);
      while size[p] < u
        invariant d < |bs| && k == Hop(|bs|, f, d) && p == bs[k].addr && p in ptr && p in size && size[p] == bs[k].units
        invariant prevp == bs[Before(|bs|, f, d)].addr
        invariant SmallSoFar(bs, f, d, u)
        decreases |bs| - d
      {
        SmallNext(bs, f, d, u);
        if p == freep {
          BackAtStart(bs, f, d);
          AllTooSmall(bs, f, u);
          return false, prevp, p, k;
        }
        NotAtEnd(bs, f, d);
        d := d + 1;
        prevp := p;
        NextHop(bs, f, d);
        NextKnown(ptr, size, bs, k);
        p, k := ptr[p], Hop(|bs|, f, d);
        NextKnown(ptr, size, bs, k);
      }
      FitIsNext(bs, freep, f, d, u);
      FitHere(bs, f, d, u);
      fit := true;
    }

    lemma Ring() returns (f: nat)
      requires Valid() && freep != 0
      ensures f < |bs| && bs[f].addr == freep && Stored(ptr, size, bs) && Ordered(bs)
    {
      f :| 0 <= f < |bs| && bs[f].addr == freep;
    }

    /** malloc's first call: base becomes a ring of one empty block. */
    method Start()
      requires Valid() && freep == 0
      modifies `ptr, `size, `freep, `bs
      ensures Valid() && freep == base && bs == [Chunk(base, 0)]
    {
      ptr, size := ptr[base := base], size[base := 0];
      freep, bs := base, [Chunk(base, 0)];
      assert Apart(bs, 0) && StoredAt(ptr, size, bs, 0);
      assert Canonical(bs) && bs[1..] == [];
    }
  }

  /** The chunk before the d-th after number f. */
  function Before(n: nat, f: nat, d: nat): (k: nat)
    requires f < n && d < n
    ensures k < n
  {
    if d == 0 then f else Hop(n, f, d - 1)
  }

  /** p is chunk k, large enough, and prevp the chunk before it. */
  ghost predicate FitAt(bs: seq<Chunk>, prevp: nat, p: nat, k: nat, u: nat)
  {
    1 <= k < |bs| && bs[k].units >= u && p == bs[k].addr && prevp == bs[k - 1].addr
  }

  lemma FitHere(bs: seq<Chunk>, f: nat, d: nat, u: nat)
    requires Ordered(bs) && f < |bs| && d < |bs| && bs[Hop(|bs|, f, d)].units >= u >= 1
    ensures FitAt(bs, bs[Before(|bs|, f, d)].addr, bs[Hop(|bs|, f, d)].addr, Hop(|bs|, f, d), u)
    ensures Enough(bs, u)
  {
  }

  lemma FitIsNext(bs: seq<Chunk>, freep: nat, f: nat, d: nat, u: nat)
    requires f < |bs| && d < |bs| && bs[f].addr == freep
    requires bs[Hop(|bs|, f, d)].units >= u && SmallSoFar(bs, f, d, u)
    ensures NextFit(bs, freep, Tail(bs[Hop(|bs|, f, d)], u).addr, u)
  {
  }

  lemma NextHop(bs: seq<Chunk>, f: nat, d: nat)
    requires f < |bs| && d < |bs|
    ensures Succ(bs, Before(|bs|, f, d)) == bs[Hop(|bs|, f, d)].addr
  {
  }

  /** The first d chunks after number f are too small. */
  ghost predicate SmallSoFar(bs: seq<Chunk>, f: nat, d: nat, u: nat)
    requires f < |bs| && d <= |bs|
  {
    forall e | 0 <= e < d :: bs[Hop(|bs|, f, e)].units < u
  }

  lemma LapStart(bs: seq<Chunk>, f: nat, u: nat)
    requires f < |bs|
    ensures SmallSoFar(bs, f, 0, u) && Before(|bs|, f, 0) == f
  {
  }

  lemma SmallNext(bs: seq<Chunk>, f: nat, d: nat, u: nat)
    requires f < |bs| && d < |bs| && SmallSoFar(bs, f, d, u) && bs[Hop(|bs|, f, d)].units < u
    ensures SmallSoFar(bs, f, d + 1, u)
  {
  }

  lemma BackAtStart(bs: seq<Chunk>, f: nat, d: nat)
    requires Ordered(bs) && f < |bs| && d < |bs| && bs[Hop(|bs|, f, d)].addr == bs[f].addr
    ensures d == |bs| - 1
  {
    SameAddr(bs, Hop(|bs|, f, d), f);
  }

  lemma SameAddr(bs: seq<Chunk>, i: nat, j: nat)
    requires Ordered(bs) && i < |bs| && j < |bs| && bs[i].addr == bs[j].addr
    ensures i == j
  {
  }

  lemma NotAtEnd(bs: seq<Chunk>, f: nat, d: nat)
    requires f < |bs| && d < |bs| && bs[Hop(|bs|, f, d)].addr != bs[f].addr
    ensures d + 1 < |bs| && Before(|bs|, f, d + 1) == Hop(|bs|, f, d)
  {
  }

  /** A whole lap without a fit. */
  lemma AllTooSmall(bs: seq<Chunk>, f: nat, u: nat)
    requires f < |bs| && SmallSoFar(bs, f, |bs|, u)
    ensures !Enough(bs, u)
  {
    forall i | 0 <= i < |bs| ensures bs[i].units < u {
      var e := if i > f then i - f - 1 else i - f - 1 + |bs|;
      assert Hop(|bs|, f, e) == i;
    }
  }

  lemma OrderedNear(bs: seq<Chunk>, k: nat, bp: nat)
    requires Ordered(bs) && k < |bs| && bs[k].addr < bp && (k + 1 < |bs| ==> bp < bs[k + 1].addr)
    ensures forall i | 0 <= i < |bs| :: bs[i].addr <= bs[k].addr || bs[i].addr > bp
  {
    forall i | 0 <= i < |bs| ensures bs[i].addr <= bs[k].addr || bs[i].addr > bp {
      if i > k + 1 { assert bs[k + 1].addr < bs[i].addr; }
    }
  }

  lemma NextKnown(ptr: map<nat, nat>, size: map<nat, nat>, bs: seq<Chunk>, k: nat)
    requires Stored(ptr, size, bs) && k < |bs|
    ensures bs[k].addr in ptr && ptr[bs[k].addr] in ptr && ptr[bs[k].addr] in size
    ensures ptr[bs[k].addr] == Succ(bs, k) && bs[k].addr in size && size[bs[k].addr] == bs[k].units
  {
    assert StoredAt(ptr, size, bs, k);
    assert StoredAt(ptr, size, bs, if k + 1 < |bs| then k + 1 else 0);
  }

  /** Where the search would not stop is not the place. */
  lemma SearchStops(bs: seq<Chunk>, live: map<nat, nat>, brk: nat, k: nat, bp: nat, want: nat)
    requires Ordered(bs) && Clear(bs, live, brk) && bp in live && k < |bs| && want < |bs| && bs[0].addr < bp
    requires bs[want].addr < bp && forall i | want < i < |bs| :: bp <= bs[i].addr
    requires !(bp > bs[k].addr && bp < Succ(bs, k))
    ensures k == want ==> bs[k].addr >= Succ(bs, k) && bp > bs[k].addr
  {
    forall i | 0 <= i < |bs| ensures bp != bs[i].addr {
      assert Disjoint(Chunk(bp, live[bp]), bs[i]);
    }
  }

  lemma SearchRight(bs: seq<Chunk>, k: nat, bp: nat)
    requires Ordered(bs) && k < |bs| && bs[0].addr < bp
    requires (bp > bs[k].addr && bp < Succ(bs, k)) || (bs[k].addr >= Succ(bs, k) &&
             (bp > bs[k].addr || bp < Succ(bs, k)))
    ensures bs[k].addr < bp && (k + 1 < |bs| ==> bp < bs[k + 1].addr)
  {
  }

  /** Some chunk, at least base, is the last below a. */
  lemma {:induction false} LastBelowAddr(bs: seq<Chunk>, a: nat, n: nat) returns (k: nat)
    requires Ordered(bs) && bs[0].addr < a && 1 <= n <= |bs|
    requires forall i | n <= i < |bs| :: a <= bs[i].addr
    ensures k < n && bs[k].addr < a && forall i | k < i < |bs| :: a <= bs[i].addr
  {
    if bs[n - 1].addr < a {
      k := n - 1;
    } else {
      k := LastBelowAddr(bs, a, n - 1);
    }
  }
}
