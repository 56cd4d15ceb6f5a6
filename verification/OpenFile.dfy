/** file.c: fileread and filewrite on an inode, and the log budget of a chunk. */
module OpenFile {
  import opened Common
  import opened Blocks
  import opened Tree
  import opened DiskInode
  import opened FileSystem
  import LogDisk

  const MAXOPBLOCKS: nat := LogDisk.MAXOPBLOCKS
  const CHUNK: nat := (MAXOPBLOCKS - 1 - 1 - 2) / 2 * 512

  /** A chunk's blocks fit into one operation: at most four data blocks, and if there
      are four the first is there already. */
  lemma ChunkFits(size: nat, off: nat, n: nat, m: nat)
    requires off <= size && n <= CHUNK && m <= Need(size, off, n)
    ensures Bill(size, off, n, m) <= MAXOPBLOCKS
  {
    var q, r := off / BSIZE, off % BSIZE;
    assert Span(off, n) <= (r + n + BSIZE - 1) / BSIZE;
    if off + n > size {
      assert NBlocks(size) >= NBlocks(off) >= if r == 0 then q else q + 1;
      assert NBlocks(off + n) <= q + (r + n + BSIZE - 1) / BSIZE;
    }
  }

  lemma ChunkBill(sb: Super, bs: set<nat>, size: nat, off: nat, n: nat)
    requires off <= size && n <= CHUNK && |bs| == Need(size, off, n)
    ensures Bill(size, off, n, |MapsOf(sb, bs)|) <= MAXOPBLOCKS
  {
    MapsCard(sb, bs);
    ChunkFits(size, off, n, |MapsOf(sb, bs)|);
  }

  /** With one byte more they do not fit in exactly one case: the write starts where a file of
      nine to twelve full blocks ends, and the five blocks it takes lie in five free-map blocks. */
  lemma LongerChunkExact(size: nat, off: nat, m: nat)
    requires off <= size && off + CHUNK + 1 <= MAXFILE * BSIZE && m <= Need(size, off, CHUNK + 1)
    ensures Bill(size, off, CHUNK + 1, m) > MAXOPBLOCKS <==>
              off == size && size % BSIZE == 0 && NDIRECT - 3 <= size / BSIZE <= NDIRECT && m == 5
  {
  }

  /** What an operation of CHUNK + 1 bytes logs; low are the free blocks it will take. */
  method LongerChunk(fs: Fs, ip: Inode, off: nat, piece: seq<Byte>, ghost low: set<nat>)
    requires fs.Ready(ip) && off <= ip.size && |piece| == CHUNK + 1 && off + |piece| <= MAXFILE * BSIZE
    requires fs.logged == {}
    requires Lowest(fs.FreeBlocks(), low) && |low| == Need(ip.size, off, |piece|)
    modifies fs`blocks, fs`dinode, fs`logged, fs`tab, fs`owner, ip`addrs, ip`size
    ensures fs.Ready(ip) && Put(old(fs.Now(ip)), fs.Now(ip), old(ip.size), ip.size, off, piece, ip.inum)
    ensures |fs.logged| > MAXOPBLOCKS <==>
              && off == old(ip.size) && off % BSIZE == 0 && NDIRECT - 3 <= off / BSIZE <= NDIRECT
              && |MapsOf(fs.sb, low)| == 5
    ensures |fs.logged| <= MAXOPBLOCKS + 1
  {
    hide FsOk, Put, WriteDone, Need, FreeIn, MapsOf, Lowest, HoleFree;
    ghost var s0, ds0, size := fs.Now(ip), fs.dinode, ip.size;
    LowestFits(fs.FreeBlocks(), low);
    var r, ok := fs.Writei(ip, off, piece);
    LongerDone(fs.sb, s0, ds0, size, fs.Now(ip), fs.dinode, ip.size, ip.inum, off, piece, low);
  }

  lemma LongerDone(sb: Super, s0: View, ds0: seq<Dinode>, size0: nat, s: View, ds: seq<Dinode>, size: nat, inum: nat,
                   off: nat, piece: seq<Byte>, low: set<nat>)
    requires WriteDone(sb, s0, ds0, size0, s, ds, size, inum, off, piece) && s0.logged == {}
    requires |piece| == CHUNK + 1 && Lowest(FreeIn(sb, s0.blocks), low) && |low| == Need(size0, off, |piece|)
    ensures Put(s0, s, size0, size, off, piece, inum) && |s.logged| <= MAXOPBLOCKS + 1
    ensures |s.logged| > MAXOPBLOCKS <==>
              && off == size0 && off % BSIZE == 0 && NDIRECT - 3 <= off / BSIZE <= NDIRECT
              && |MapsOf(sb, low)| == 5
  {
    hide Bill, NewOf, MapsOf, Touched, Lowest, Need, FreeIn, Journaled, OthersKept, Wrote;
    LowestUnique(FreeIn(sb, s0.blocks), NewOf(s0.owner, s.owner), low);
    MapsCard(sb, low);
    LongerChunkExact(size0, off, |MapsOf(sb, low)|);
    LongerChunkBill(size0, off, |MapsOf(sb, low)|);
  }

  lemma LowestFits(free: set<nat>, low: set<nat>)
    requires Lowest(free, low)
    ensures |low| <= |free|
  {
    SubsetCard(low, free);
  }

  lemma LongerChunkBill(size: nat, off: nat, m: nat)
    requires off <= size && off + CHUNK + 1 <= MAXFILE * BSIZE && m <= Need(size, off, CHUNK + 1)
    ensures Bill(size, off, CHUNK + 1, m) <= MAXOPBLOCKS + 1
  {
  }

  /** piece is in the file at off and nothing else has changed; an empty piece
      changes nothing. */
  ghost predicate Put(s0: View, s: View, size0: nat, size: nat, off: nat, piece: seq<Byte>, inum: nat)
  {
    if piece == [] then s.blocks == s0.blocks && s.addrs == s0.addrs && s.owner == s0.owner && size == size0
    else
      && Addrs(s0.blocks, s0.addrs) && off <= size0 <= MAXFILE * BSIZE && off + |piece| <= MAXFILE * BSIZE
      && Wrote(s0.blocks, s0.addrs, s.blocks, s.addrs, size0, off, piece)
      && OthersKept(s0.blocks, s0.owner, s.blocks, s.owner, inum)
      && size == Max(size0, off + |piece|)
  }

  lemma PutThen(s0: View, s1: View, s2: View, size0: nat, size1: nat, size2: nat, off: nat,
                src: seq<Byte>, tot: nat, m: nat, inum: nat)
    requires tot + m <= |src| && 0 < m
    requires Put(s0, s1, size0, size1, off, src[..tot], inum)
    requires Put(s1, s2, size1, size2, off + tot, src[tot..tot + m], inum)
    requires s1.addrs == s0.addrs || tot > 0
    ensures Put(s0, s2, size0, size2, off, src[..tot + m], inum)
  {
    hide HoleFree, OthersKept;
    if tot == 0 {
      assert src[..tot + m] == src[tot..tot + m];
    } else {
      WroteThen(s0.blocks, s0.addrs, s1.blocks, s1.addrs, s2.blocks, s2.addrs, size0, off, src[..tot + m], tot, m,
                size1, off + tot, src[tot..tot + m]);
      OthersThen(s0.blocks, s0.owner, s1.blocks, s1.owner, s2.blocks, s2.owner, inum);
    }
  }

  class File {
    const readable: bool
    const writable: bool
    const ip: Inode
    var off: nat

    constructor (r: bool, w: bool, i: Inode, o: nat)
      ensures readable == r && writable == w && ip == i && off == o
    {
      readable, writable, ip, off := r, w, i, o;
    }

    /** fileread, outside any operation: it logs nothing. */
    method Read(fs: Fs, n: nat) returns (r: int, dst: seq<Byte>)
      requires fs.Ready(ip) && off < UINT_LIMIT && n < UINT_LIMIT
      modifies `off, fs`blocks, fs`logged, fs`tab, fs`owner, ip`addrs
      ensures fs.Ready(ip) && fs.Now(ip) == old(fs.Now(ip)) && fs.tab == old(fs.tab)
      ensures r == if !readable || old(off) > ip.size || old(off) + n >= UINT_LIMIT then -1 else Min(n,
              ip.size - old(off))
      ensures r >= 0 ==> |dst| == r && Holding(fs.blocks, ip.addrs, old(off), dst)
      ensures off == old(off) + if r > 0 then r else 0
    {
      if !readable { return -1, []; }
      r, dst := fs.Readi(ip, off, n);
      if r > 0 {
        off := off + r;
      }
    }

    /** filewrite. done bytes have been written; the operations have logged `ops`.
        ok is false when an allocation panics. */
    method Write(fs: Fs, src: seq<Byte>) returns (r: int, ok: bool, ghost done: nat, ghost ops: seq<set<nat>>)
      requires fs.Ready(ip) && off < UINT_LIMIT && |src| < UINT_LIMIT / 2
      modifies `off, fs`blocks, fs`dinode, fs`logged, fs`tab, fs`owner, ip`addrs, ip`size
      ensures ok ==> fs.Ready(ip) && OnlyAt(old(fs.tab), fs.tab, ip.inum)
      ensures ok ==> forall k | 0 <= k < |ops| :: |ops[k]| <= MAXOPBLOCKS
      ensures ok ==> done <= |src| && off == old(off) + done
      ensures ok ==> Put(old(fs.Now(ip)), fs.Now(ip), old(ip.size), ip.size, old(off), src[..done], ip.inum)
      ensures ok ==> r == if writable && done == |src| then |src| else -1
      ensures ok && !writable ==> done == 0
      ensures ok && writable ==>
                (done == |src| <==> |src| == 0 || (old(off) <= old(ip.size) && old(off) + |src| <= MAXFILE * BSIZE))
      ensures ok && writable && done < |src| && old(off) <= old(ip.size) ==>
                done % CHUNK == 0 && old(off) + done <= MAXFILE * BSIZE < old(off) + Min(|src|, done + CHUNK)
      ensures !ok ==> fs.Exhausted()
    {
      hide Fs.Ready, Fs.Exhausted, Put, OnlyAt;
      ok, done, ops := true, 0, [];
      var n := |src|;
      ghost var s0, t0, size0, off0 := fs.Now(ip), fs.tab, ip.size, off;
      PutNone(fs, src);
      ReadySize(fs);
      OnlyNone(t0, ip.inum);
      if !writable { return -1, true, 0, []; }
      var i: nat := 0;
      while i < n
        invariant i <= n && ok && done == i && off == off0 + i && off < UINT_LIMIT
        invariant (i < n ==> i % CHUNK == 0) && (0 < i ==> off0 <= size0 && off0 + i <= MAXFILE * BSIZE)
        invariant fs.Ready(ip) && OnlyAt(t0, fs.tab, ip.inum)
        invariant forall k | 0 <= k < |ops| :: |ops[k]| <= MAXOPBLOCKS
        invariant Put(s0, fs.Now(ip), size0, ip.size, off0, src[..i], ip.inum)
      {
        var n1 := Min(n - i, CHUNK);
        NextChunk(i);
        ghost var s1, size1 := fs.Now(ip), ip.size;
        ghost var op;
        PutSize(s0, s1, size0, size1, off0, src[..i], ip.inum);
        ghost var t1 := fs.tab;
        r, ok, op := WriteChunk(fs, src[i..i + n1]);
        if !ok { return; }
        OnlyThen(t0, t1, fs.tab, ip.inum);
        ops := ops + [op];
        if r < 0 {
          PutSame(s0, s1, fs.Now(ip), size0, size1, ip.size, off0, off0 + i, src[..i], ip.inum);
          break;
        }
        PutThen(s0, s1, fs.Now(ip), size0, size1, ip.size, off0, src, i, n1, ip.inum);
        i := i + n1;
        done := i;
      }
      r := if i == n then n else -1;
    }

    lemma PutNone(fs: Fs, src: seq<Byte>)
      ensures Put(fs.Now(ip), fs.Now(ip), ip.size, ip.size, off, src[..0], ip.inum)
    {
    }

    lemma ReadySize(fs: Fs)
      requires fs.Ready(ip)
      ensures ip.size <= MAXFILE * BSIZE
    {
    }

    /** One operation of filewrite: begin_op to end_op. */
    method WriteChunk(fs: Fs, piece: seq<Byte>) returns (r: int, ok: bool, ghost op: set<nat>)
      requires fs.Ready(ip) && off < UINT_LIMIT && 0 < |piece| <= CHUNK
      modifies `off, fs`blocks, fs`dinode, fs`logged, fs`tab, fs`owner, ip`addrs, ip`size
      ensures ok ==> fs.Ready(ip) && OnlyAt(old(fs.tab), fs.tab, ip.inum)
      ensures ok ==> |op| <= MAXOPBLOCKS && Journaled(old(fs.blocks), fs.blocks, op)
      ensures ok ==> Placed(fs.sb, op)
      ensures ok && old(Through(fs.tab, fs.dinode)) ==> Through(fs.tab, fs.dinode)
      ensures ok ==> r == if Refused(old(ip.size), old(off), |piece|) then -1 else |piece|
      ensures ok ==> off == old(off) + if r > 0 then r else 0
      ensures ok ==> Put(old(fs.Now(ip)), fs.Now(ip), old(ip.size), ip.size, old(off),
                         if r < 0 then [] else piece, ip.inum)
      ensures !ok ==> fs.Exhausted()
    {
      hide FsOk, Fs.Exhausted, Put, OnlyAt, Journaled, Need, FreeIn, HoleFree, Through, WriteDone, Placed;
      fs.logged := {};
      ghost var s0, t0, ds0, size := fs.Now(ip), fs.tab, fs.dinode, ip.size;
      r, ok := fs.Writei(ip, off, piece);
      op := fs.logged;
      if ok {
        NothingLogged(fs.sb, fs.blocks);
        if r > 0 {
          ChunkDone(fs.sb, s0, ds0, size, fs.Now(ip), fs.dinode, ip.size, ip.inum, off, piece, old(fs.Now(ip)));
          off := off + r;
        } else {
          PutNothing(old(fs.Now(ip)), fs.Now(ip), size, off, ip.inum);
        }
        if old(Through(fs.tab, fs.dinode)) {
          ThroughKept(t0, ds0, fs.tab, fs.dinode, ip.inum, Dinode(ip.size, ip.addrs));
        }
      }
    }
  }

  lemma NothingLogged(sb: Super, blocks: seq<Block>)
    ensures Journaled(blocks, blocks, {}) && Placed(sb, {})
  {
  }

  lemma ChunkDone(sb: Super, s0: View, ds0: seq<Dinode>, size0: nat, s: View, ds: seq<Dinode>, size: nat, inum: nat,
                  off: nat, piece: seq<Byte>, v: View)
    requires WriteDone(sb, s0, ds0, size0, s, ds, size, inum, off, piece) && s0.logged == {}
    requires 0 < |piece| <= CHUNK && v.blocks == s0.blocks && v.addrs == s0.addrs && v.owner == s0.owner
    ensures Put(v, s, size0, size, off, piece, inum)
    ensures |s.logged| <= MAXOPBLOCKS && Journaled(s0.blocks, s.blocks, s.logged) && Placed(sb, s.logged)
    ensures ds == ds0[inum := Dinode(size, s.addrs)]
  {
    hide Bill, NewOf, MapsOf, Touched, Lowest, Need, Journaled, OthersKept, Wrote;
    assert s.logged - {} == s.logged;
    ChunkBill(sb, NewOf(s0.owner, s.owner), size0, off, |piece|);
  }

  lemma PutNothing(s0: View, s: View, size: nat, off: nat, inum: nat)
    requires s.blocks == s0.blocks && s.addrs == s0.addrs && s.owner == s0.owner
    ensures Put(s0, s, size, size, off, [], inum)
  {
  }

  lemma NextChunk(i: nat)
    requires i % CHUNK == 0
    ensures (i + CHUNK) % CHUNK == 0
  {
  }

  lemma OnlyThen(t0: seq<seq<nat>>, t1: seq<seq<nat>>, t2: seq<seq<nat>>, i: nat)
    requires OnlyAt(t0, t1, i) && OnlyAt(t1, t2, i)
    ensures OnlyAt(t0, t2, i)
  {
  }

  lemma PutSize(s0: View, s: View, size0: nat, size: nat, off: nat, piece: seq<Byte>, inum: nat)
    requires Put(s0, s, size0, size, off, piece, inum)
    ensures size == if piece == [] then size0 else Max(size0, off + |piece|)
    ensures piece == [] ==> s.addrs == s0.addrs
  {
  }

  lemma PutSame(s0: View, s1: View, s2: View, size0: nat, size1: nat, size2: nat, off: nat, off1: nat,
      piece: seq<Byte>, inum: nat)
    requires Put(s0, s1, size0, size1, off, piece, inum) && Put(s1, s2, size1, size2, off1, [], inum)
    ensures Put(s0, s2, size0, size2, off, piece, inum)
  {
  }

  /** A write to one file leaves every other file: where its blocks are, that it has no
      holes, and what it holds. */
  lemma OtherFileSame(b0: seq<Block>, t0: seq<seq<nat>>, o0: map<nat, Ref>, first: nat,
                      b1: seq<Block>, t1: seq<seq<nat>>, o1: map<nat, Ref>, i: nat, j: nat)
    requires Owned(b0, t0, o0, first) && Owned(b1, t1, o1, first) && i < |t0| && j < |t0| && i != j
    requires OnlyAt(t0, t1, i) && OthersKept(b0, o0, b1, o1, i)
    ensures t1[j] == t0[j] && Addrs(b0, t0[j]) && Addrs(b1, t0[j])
    ensures forall k {:trigger Slot(b1, t0[j], k)} | 0 <= k <= INDIRECT :: Slot(b1, t0[j], k) == Slot(b0, t0[j], k)
    ensures forall ext :: HoleFree(b1, t0[j], ext) <==> HoleFree(b0, t0[j], ext)
    ensures forall x | 0 <= x < MAXFILE * BSIZE && Slot(b0, t0[j], x / BSIZE) != 0 ::
              ByteAt(b1, t0[j], x) == ByteAt(b0, t0[j], x)
  {
    hide Owned, HoleFree;
    OtherSlots(b0, t0, o0, first, b1, t1, o1, i, j);
    forall ext ensures HoleFree(b1, t0[j], ext) <==> HoleFree(b0, t0[j], ext) {
      SameHoles(b0, b1, t0[j], ext);
    }
    forall x | 0 <= x < MAXFILE * BSIZE && Slot(b0, t0[j], x / BSIZE) != 0
      ensures ByteAt(b1, t0[j], x) == ByteAt(b0, t0[j], x)
    {
      assert Slot(b1, t0[j], x / BSIZE) == Slot(b0, t0[j], x / BSIZE);
    }
  }

  lemma OtherSlots(b0: seq<Block>, t0: seq<seq<nat>>, o0: map<nat, Ref>, first: nat,
                   b1: seq<Block>, t1: seq<seq<nat>>, o1: map<nat, Ref>, i: nat, j: nat)
    requires Owned(b0, t0, o0, first) && Owned(b1, t1, o1, first) && i < |t0| && j < |t0| && i != j
    requires OnlyAt(t0, t1, i) && OthersKept(b0, o0, b1, o1, i)
    ensures t1[j] == t0[j] && Addrs(b0, t0[j]) && Addrs(b1, t0[j]) && |b1| == |b0|
    ensures forall k {:trigger Slot(b1, t0[j], k)} | 0 <= k <= INDIRECT :: Slot(b1, t0[j], k) == Slot(b0, t0[j], k)
    ensures forall k {:trigger Slot(b0, t0[j], k)} | 0 <= k <= INDIRECT && Slot(b0, t0[j], k) < |b0| ::
              Slot(b0, t0[j], k) == 0 || b1[Slot(b0, t0[j], k)] == b0[Slot(b0, t0[j], k)]
  {
    assert Slot(b0, t0[j], INDIRECT) == t0[j][NDIRECT];
    forall k | 0 <= k <= INDIRECT ensures Slot(b1, t0[j], k) == Slot(b0, t0[j], k) { SlotFrame(b0, b1, t0[j], k); }
  }

  lemma SameHoles(b0: seq<Block>, b1: seq<Block>, a: seq<nat>, ext: nat)
    requires Addrs(b0, a) && Addrs(b1, a)
    requires forall k {:trigger Slot(b1, a, k)} | 0 <= k <= INDIRECT :: Slot(b1, a, k) == Slot(b0, a, k)
    ensures HoleFree(b1, a, ext) <==> HoleFree(b0, a, ext)
  {
    if HoleFree(b0, a, ext) { HoleFreeFrame(b0, b1, [a], 0, ext); }
    forall k | 0 <= k < MAXFILE ensures Slot(b1, a, k) == Slot(b0, a, k) { }
  }
}
