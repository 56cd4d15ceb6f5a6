/** A disk on which an operation of filewrite with one byte more than a chunk logs
    eleven blocks: its five free blocks have their bits in five free-map blocks. */
module SpreadDisk {
  import opened Common
  import opened Blocks
  import opened Tree
  import opened DiskInode
  import opened FileSystem
  import opened OpenFile

  // ----- laying out a disk -----

  /** Zero blocks with the inodes ds in them. */
  function WithInodes(sb: Super, ds: seq<Dinode>): (r: seq<Block>)
    requires sb.Sound() && sb.inodestart + |ds| / IPB < sb.bmapstart && forall i | 0 <= i < |ds| :: ds[i].Storable()
    ensures |r| == sb.size
  {
    if ds == [] then seq(sb.size, _ => ZeroBlock())
    else
      var i := |ds| - 1;
      InodeBlock(sb, i);
      var p := WithInodes(sb, ds[..i]);
      p[sb.inodestart + i / IPB := Encode(p[sb.inodestart + i / IPB], i % IPB, ds[i])]
  }

  lemma InodeBlock(sb: Super, i: nat)
    requires sb.Sound() && sb.inodestart + (i + 1) / IPB < sb.bmapstart
    ensures sb.inodestart + i / IPB < sb.bmapstart < sb.first
  {
    MetaPlaces(sb);
  }

  lemma {:induction false} WithInodesOk(sb: Super, ds: seq<Dinode>)
    requires sb.Sound() && sb.inodestart + |ds| / IPB < sb.bmapstart && forall i | 0 <= i < |ds| :: ds[i].Storable()
    ensures InodesOk(sb.inodestart, WithInodes(sb, ds), ds)
    ensures forall x | sb.bmapstart <= x < sb.size :: WithInodes(sb, ds)[x] == ZeroBlock()
  {
    hide Encode, Decode, InodesOk;
    if ds == [] {
      NoInodes(sb.inodestart, WithInodes(sb, ds));
    } else {
      var i := |ds| - 1;
      InodeBlock(sb, i);
      WithInodesOk(sb, ds[..i]);
      InodeNext(sb.inodestart, WithInodes(sb, ds[..i]), ds, i);
    }
  }

  lemma NoInodes(start: nat, blocks: seq<Block>)
    ensures InodesOk(start, blocks, [])
  {
  }

  lemma InodeNext(start: nat, p: seq<Block>, ds: seq<Dinode>, i: nat)
    requires i + 1 == |ds| && InodesOk(start, p, ds[..i]) && start + i / IPB < |p| && ds[i].Storable()
    ensures InodesOk(start, p[start + i / IPB := Encode(p[start + i / IPB], i % IPB, ds[i])], ds)
  {
    hide Encode, Decode;
    var before := ds[..i] + [InodeAt(start, p, i)];
    forall m {:trigger before[m]} | 0 <= m < |before|
      ensures start + m / IPB < |p| && InodeAt(start, p, m) == before[m]
    {
      if m < i { assert ds[..i][m] == before[m]; }
    }
    InodePut(start, p, before, i, ds[i]);
    assert before[i := ds[i]] == ds;
  }

  /** The free map says so of every block below n that is before `first` or in use. */
  function WithMap(sb: Super, blocks: seq<Block>, owner: map<nat, Ref>, n: nat): (r: seq<Block>)
    requires sb.Sound() && |blocks| == sb.size && n <= sb.size
    ensures |r| == sb.size
    decreases n
  {
    if n == 0 then blocks
    else
      var p := WithMap(sb, blocks, owner, n - 1);
      if n - 1 < sb.first || n - 1 in owner then Mark(sb, p, n - 1, true) else p
  }

  lemma {:induction false} WithMapBit(sb: Super, blocks: seq<Block>, owner: map<nat, Ref>, n: nat, x: nat)
    requires sb.Sound() && |blocks| == sb.size && n <= sb.size && x < sb.size
    requires blocks[sb.BBlock(x)] == ZeroBlock()
    ensures BitAt(sb, WithMap(sb, blocks, owner, n), x) <==> x < n && (x < sb.first || x in owner)
    decreases n
  {
    hide BitAt, Mark;
    if n == 0 {
      ZeroBitAt(sb, blocks, x);
    } else {
      WithMapBit(sb, blocks, owner, n - 1, x);
      MarkBit(sb, WithMap(sb, blocks, owner, n - 1), n - 1, true, x);
    }
  }

  lemma ZeroBitAt(sb: Super, blocks: seq<Block>, x: nat)
    requires sb.BBlock(x) < |blocks| && blocks[sb.BBlock(x)] == ZeroBlock()
    ensures !BitAt(sb, blocks, x)
  {
    ZeroBit(x % BPB);
  }

  lemma {:induction false} WithMapMeta(sb: Super, blocks: seq<Block>, owner: map<nat, Ref>, n: nat, x: nat)
    requires sb.Sound() && |blocks| == sb.size && n <= sb.size && x < sb.bmapstart && x < sb.size
    ensures WithMap(sb, blocks, owner, n)[x] == blocks[x]
    decreases n
  {
    hide Mark;
    if n > 0 {
      WithMapMeta(sb, blocks, owner, n - 1, x);
      MarkMeta(sb, WithMap(sb, blocks, owner, n - 1), n - 1, true, x);
    }
  }

  /** A laid out disk is a file system, if the inodes' blocks are direct and shared by no two. */
  lemma LaidOut(sb: Super, tab: seq<seq<nat>>, owner: map<nat, Ref>, ds: seq<Dinode>)
    requires sb.Sound() && sb.inodestart + |ds| / IPB < sb.bmapstart && |tab| == |ds|
    requires forall i | 0 <= i < |ds| :: ds[i].Storable()
    requires forall blocks | |blocks| == sb.size :: Owned(blocks, tab, owner, sb.first)
    ensures FsOk(sb, WithMap(sb, WithInodes(sb, ds), owner, sb.size), tab, owner, ds)
  {
    hide Owned, InodesOk, BitAt, WithMap, WithInodes;
    var b0 := WithInodes(sb, ds);
    var blocks := WithMap(sb, b0, owner, sb.size);
    MetaPlaces(sb);
    WithInodesOk(sb, ds);
    forall x | 0 <= x < sb.size ensures BitAt(sb, blocks, x) <==> x < sb.first || x in owner {
      assert sb.BBlock(x) >= sb.bmapstart;
      WithMapBit(sb, b0, owner, sb.size, x);
    }
    forall x | sb.inodestart <= x < sb.bmapstart ensures blocks[x] == b0[x] {
      WithMapMeta(sb, b0, owner, sb.size, x);
    }
    InodesFrame(sb.inodestart, b0, blocks, ds, sb.bmapstart);
  }

  // ----- the disk in question -----

  const FILES: nat := 1024

  /** 1024 inodes from block 32 on, five free-map blocks from block 200 on. */
  const SB: Super := Super(4 * BPB + 4, 32, 200, BPB - 1)

  const LOW: set<nat> := {BPB - 1, BPB, 3 * BPB - 1, 3 * BPB, 4 * BPB + 3}

  /** The blocks in use, in order. */
  function Place(j: nat): (b: nat)
    requires j < FILES * NDIRECT
    ensures SB.first <= b < SB.size && b !in LOW && Index(b) == j
  {
    if j < 2 * BPB - 2 then BPB + 1 + j else BPB + 3 + j
  }

  function Index(b: nat): int
  {
    if b < 3 * BPB then b - (BPB + 1) else b - (BPB + 3)
  }

  lemma PlaceIndex(b: nat)
    requires SB.first <= b < SB.size && b !in LOW
    ensures 0 <= Index(b) < FILES * NDIRECT && Place(Index(b)) == b
  {
  }

  /** Each file has twelve of them. */
  function Direct(i: nat, k: nat): (a: seq<nat>)
    requires i < FILES && k <= NDIRECT
    ensures |a| == k && forall m | 0 <= m < k :: a[m] == Place(i * NDIRECT + m)
  {
    if k == 0 then [] else Direct(i, k - 1) + [Place(i * NDIRECT + (k - 1))]
  }

  function Files(n: nat): (t: seq<seq<nat>>)
    requires n <= FILES
    ensures |t| == n && forall i | 0 <= i < n :: t[i] == Direct(i, NDIRECT) + [0]
  {
    if n == 0 then [] else Files(n - 1) + [Direct(n - 1, NDIRECT) + [0]]
  }

  function Dinodes(n: nat): (ds: seq<Dinode>)
    requires n <= FILES
    ensures |ds| == n
    ensures forall i | 0 <= i < n :: ds[i] == Dinode(NDIRECT * BSIZE, Direct(i, NDIRECT) + [0]) && ds[i].Storable()
  {
    if n == 0 then [] else Dinodes(n - 1) + [Dinode(NDIRECT * BSIZE, Direct(n - 1, NDIRECT) + [0])]
  }

  function Owner(): map<nat, Ref>
  {
    map b | SB.first <= b < SB.size && b !in LOW ::
      (PlaceIndex(b); Ref(Index(b) / NDIRECT, Index(b) % NDIRECT))
  }

  lemma OwnerOf(b: nat)
    ensures b in Owner() <==> SB.first <= b < SB.size && b !in LOW
    ensures b in Owner() ==>
              && 0 <= Index(b) < FILES * NDIRECT && Place(Index(b)) == b
              && Owner()[b] == Ref(Index(b) / NDIRECT, Index(b) % NDIRECT)
  {
    if SB.first <= b < SB.size && b !in LOW { PlaceIndex(b); }
  }

  lemma SpreadSlot(blocks: seq<Block>, tab: seq<seq<nat>>, i: nat, k: nat)
    requires |blocks| == SB.size && tab == Files(FILES) && i < FILES && k <= INDIRECT
    ensures Addrs(blocks, tab[i])
    ensures Slot(blocks, tab[i], k) == if k < NDIRECT then Place(i * NDIRECT + k) else 0
  {
    hide Files, Place;
    assert tab[i] == Direct(i, NDIRECT) + [0];
  }

  lemma SpreadOwned(blocks: seq<Block>, tab: seq<seq<nat>>, owner: map<nat, Ref>)
    requires |blocks| == SB.size && tab == Files(FILES) && owner == Owner()
    ensures Owned(blocks, tab, owner, SB.first)
  {
    hide Files, Owner, Place, Index, Slot, Addrs;
    forall i | 0 <= i < |tab| ensures Addrs(blocks, tab[i]) { SpreadSlot(blocks, tab, i, 0); }
    forall i, k {:trigger Slot(blocks, tab[i], k)} | 0 <= i < |tab| && 0 <= k <= INDIRECT
      ensures Slot(blocks, tab[i], k) != 0 ==>
                Slot(blocks, tab[i], k) in owner && owner[Slot(blocks, tab[i], k)] == Ref(i, k)
    {
      SpreadSlot(blocks, tab, i, k);
      if k < NDIRECT {
        OwnerOf(Place(i * NDIRECT + k));
        assert (i * NDIRECT + k) / NDIRECT == i && (i * NDIRECT + k) % NDIRECT == k;
      }
    }
    forall b | b in owner
      ensures SB.first <= b < |blocks| && owner[b].inum < |tab| && owner[b].slot <= INDIRECT
      ensures Slot(blocks, tab[owner[b].inum], owner[b].slot) == b
    {
      OwnerOf(b);
      var x := Index(b);
      assert x / NDIRECT * NDIRECT + x % NDIRECT == x && x / NDIRECT < FILES;
      SpreadSlot(blocks, tab, x / NDIRECT, x % NDIRECT);
    }
  }

  /** The disk, and its first file. */
  method SpreadFile() returns (fs: Fs, ip: Inode)
    ensures fresh(fs) && fresh(ip) && fs.Ready(ip) && ip.inum == 0 && ip.size == NDIRECT * BSIZE
    ensures fs.logged == {} && fs.sb == SB && fs.FreeBlocks() == LOW
  {
    hide Files, Dinodes, Owner, WithMap, WithInodes, FsOk, Place, Index, Slot, FreeIn, HoleFree;
    var tab, owner, ds := Files(FILES), Owner(), Dinodes(FILES);
    SpreadOk(tab, owner, ds);
    var blocks := WithMap(SB, WithInodes(SB, ds), owner, SB.size);
    SpreadFree(blocks, tab, owner, ds);
    SpreadHoles(blocks, tab);
    fs := new Fs.Of(SB, blocks, tab, owner, ds);
    ip := fs.Load(0);
  }

  lemma SpreadFree(blocks: seq<Block>, tab: seq<seq<nat>>, owner: map<nat, Ref>, ds: seq<Dinode>)
    requires FsOk(SB, blocks, tab, owner, ds) && owner == Owner()
    ensures FreeIn(SB, blocks) == LOW
  {
    hide Owner, Owned, InodesOk, Place, Index, MapOk;
    FreeOf(SB, blocks, owner);
    forall b | SB.first <= b < SB.size ensures b in owner <==> b !in LOW { OwnerOf(b); }
  }

  lemma SpreadHoles(blocks: seq<Block>, tab: seq<seq<nat>>)
    requires |blocks| == SB.size && tab == Files(FILES)
    ensures Addrs(blocks, tab[0]) && HoleFree(blocks, tab[0], NDIRECT * BSIZE)
  {
    hide Files, Place, Slot;
    SpreadSlot(blocks, tab, 0, INDIRECT);
    forall k {:trigger Slot(blocks, tab[0], k)} | 0 <= k < MAXFILE
      ensures Slot(blocks, tab[0], k) != 0 <==> k * BSIZE < NDIRECT * BSIZE
    {
      SpreadSlot(blocks, tab, 0, k);
    }
    NoIndirect(blocks, tab[0]);
  }

  lemma NoIndirect(blocks: seq<Block>, a: seq<nat>)
    requires Addrs(blocks, a) && Slot(blocks, a, INDIRECT) == 0
    ensures a[NDIRECT] == 0
  {
  }

  lemma SpreadOk(tab: seq<seq<nat>>, owner: map<nat, Ref>, ds: seq<Dinode>)
    requires tab == Files(FILES) && owner == Owner() && ds == Dinodes(FILES)
    ensures SB.Sound() && SB.inodestart + |ds| / IPB < SB.bmapstart && forall i | 0 <= i < |ds| :: ds[i].Storable()
    ensures |ds| == |tab| == FILES && tab[0] == ds[0].addrs && ds[0] == Dinode(NDIRECT * BSIZE, tab[0])
    ensures FsOk(SB, WithMap(SB, WithInodes(SB, ds), owner, SB.size), tab, owner, ds)
  {
    hide Owned, Files, Dinodes, Owner, WithMap, WithInodes, FsOk;
    forall blocks | |blocks| == SB.size ensures Owned(blocks, tab, owner, SB.first) { SpreadOwned(blocks, tab, owner); }
    LaidOut(SB, tab, owner, ds);
  }

  /** Eleven blocks for CHUNK + 1 bytes. */
  method LongerChunkTooLong(piece: seq<Byte>) returns (fs: Fs, ip: Inode, ghost s0: View)
    requires |piece| == CHUNK + 1
    ensures fs.Ready(ip) && s0.logged == {}
    ensures Put(s0, fs.Now(ip), NDIRECT * BSIZE, ip.size, NDIRECT * BSIZE, piece, ip.inum)
    ensures |fs.logged| == MAXOPBLOCKS + 1
  {
    fs, ip := SpreadFile();
    s0 := fs.Now(ip);
    SpreadMaps();
    LongerChunk(fs, ip, NDIRECT * BSIZE, piece, LOW);
  }

  lemma SpreadMaps()
    ensures Lowest(LOW, LOW) && |LOW| == 5 && |MapsOf(SB, LOW)| == 5
    ensures Need(NDIRECT * BSIZE, NDIRECT * BSIZE, CHUNK + 1) == 5
  {
    SpreadFive();
    assert |{200, 201, 202, 203, 204}| == 5;
  }

  lemma SpreadFive()
    ensures MapsOf(SB, LOW) == {200, 201, 202, 203, 204}
  {
    assert SB.BBlock(BPB - 1) == 200 && SB.BBlock(BPB) == 201 && SB.BBlock(3 * BPB - 1) == 202;
    assert SB.BBlock(3 * BPB) == 203 && SB.BBlock(4 * BPB + 3) == 204;
  }
}
