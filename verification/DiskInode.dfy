/** Inodes as they lie in the inode blocks: eight to a block, sixteen words each. The
    first two words hold type, device numbers and link count; size and addresses follow. */
module DiskInode {
  import opened Common
  import opened Blocks
  import opened Tree

  const IPB: nat := 8                        // inodes per block
  const INODE_WORDS: nat := 16

  /** The disk copy of an inode, as far as it matters here. */
  datatype Dinode = Dinode(size: nat, addrs: seq<nat>)
  {
    predicate Storable()
    {
      size < UINT_LIMIT && |addrs| == NDIRECT + 1 && forall k | 0 <= k <= NDIRECT :: addrs[k] < UINT_LIMIT
    }
  }

  function NoAddrs(): seq<nat> { seq(NDIRECT + 1, _ => 0) }

  /** n words of a block. */
  function Words(b: Block, from: nat, n: nat): (a: seq<nat>)
    requires from + n <= WPB
    ensures |a| == n && forall k | 0 <= k < n :: a[k] == Word(b, from + k) < UINT_LIMIT
  {
    if n == 0 then [] else Words(b, from, n - 1) + [Word(b, from + n - 1)]
  }

  /** What ilock reads of inode j of a block. */
  function Decode(b: Block, j: nat): (d: Dinode)
    requires j < IPB
    ensures d.Storable()
  {
    Dinode(Word(b, INODE_WORDS * j + 2), Words(b, INODE_WORDS * j + 3, NDIRECT + 1))
  }

  /** The block after the size and the first k addresses have been stored. */
  function EncodeTo(b: Block, j: nat, d: Dinode, k: nat): (r: Block)
    requires j < IPB && d.Storable() && k <= NDIRECT + 1
  {
    if k == 0 then SetWord(b, INODE_WORDS * j + 2, d.size)
    else SetWord(EncodeTo(b, j, d, k - 1), INODE_WORDS * j + 2 + k, d.addrs[k - 1])
  }

  /** iupdate's copy into the inode block. */
  function Encode(b: Block, j: nat, d: Dinode): Block
    requires j < IPB && d.Storable()
  {
    EncodeTo(b, j, d, NDIRECT + 1)
  }

  lemma {:induction false} EncodeWord(b: Block, j: nat, d: Dinode, k: nat, i: nat)
    requires j < IPB && d.Storable() && k <= NDIRECT + 1 && i < WPB
    ensures Word(EncodeTo(b, j, d, k), i) ==
              if i == INODE_WORDS * j + 2 then d.size
              else if INODE_WORDS * j + 3 <= i < INODE_WORDS * j + 3 + k then d.addrs[i - (INODE_WORDS * j + 3)]
              else Word(b, i)
  {
    if k == 0 {
      WordOfSetWord(b, INODE_WORDS * j + 2, d.size, i);
    } else {
      EncodeWord(b, j, d, k - 1, i);
      WordOfSetWord(EncodeTo(b, j, d, k - 1), INODE_WORDS * j + 2 + k, d.addrs[k - 1], i);
    }
  }

  /** ilock reads back what iupdate stored, and the other inodes of the block as they were. */
  lemma DecodeEncode(b: Block, j: nat, d: Dinode, m: nat)
    requires j < IPB && d.Storable() && m < IPB
    ensures Decode(Encode(b, j, d), m) == if m == j then d else Decode(b, m)
  {
    hide EncodeTo, Word;
    var r, e := Decode(Encode(b, j, d), m), if m == j then d else Decode(b, m);
    EncodeWord(b, j, d, NDIRECT + 1, INODE_WORDS * m + 2);
    forall k | 0 <= k <= NDIRECT ensures r.addrs[k] == e.addrs[k] {
      EncodeWord(b, j, d, NDIRECT + 1, INODE_WORDS * m + 3 + k);
    }
    assert r.addrs == e.addrs;
  }

  lemma ZeroInode(j: nat)
    requires j < IPB
    ensures Decode(ZeroBlock(), j) == Dinode(0, NoAddrs())
  {
    hide Word;
    ZeroWord(INODE_WORDS * j + 2);
    forall k | 0 <= k <= NDIRECT ensures Decode(ZeroBlock(), j).addrs[k] == 0 { ZeroWord(INODE_WORDS * j + 3 + k); }
    assert Decode(ZeroBlock(), j).addrs == NoAddrs();
  }

  /** Inode i of the disk, the inode blocks being those from start on. */
  function InodeAt(start: nat, blocks: seq<Block>, i: nat): Dinode
    requires start + i / IPB < |blocks|
  {
    Decode(blocks[start + i / IPB], i % IPB)
  }

  /** The inode blocks hold ds. */
  ghost predicate InodesOk(start: nat, blocks: seq<Block>, ds: seq<Dinode>)
  {
    forall i {:trigger ds[i]} | 0 <= i < |ds| :: start + i / IPB < |blocks| && InodeAt(start, blocks, i) == ds[i]
  }

  lemma InodesFrame(start: nat, blocks: seq<Block>, blocks': seq<Block>, ds: seq<Dinode>, end: nat)
    requires InodesOk(start, blocks, ds) && |blocks'| == |blocks| && start + |ds| / IPB < end <= |blocks|
    requires forall x | start <= x < end :: blocks'[x] == blocks[x]
    ensures InodesOk(start, blocks', ds)
  {
    forall i {:trigger ds[i]} | 0 <= i < |ds|
      ensures start + i / IPB < |blocks'| && InodeAt(start, blocks', i) == ds[i]
    {
      assert i / IPB <= |ds| / IPB;
    }
  }

  lemma InodePut(start: nat, blocks: seq<Block>, ds: seq<Dinode>, i: nat, d: Dinode)
    requires InodesOk(start, blocks, ds) && i < |ds| && d.Storable()
    ensures start + i / IPB < |blocks|
    ensures var x := start + i / IPB; InodesOk(start, blocks[x := Encode(blocks[x], i % IPB, d)], ds[i := d])
  {
    hide Encode, Decode;
    assert ds[i] == ds[i];
    var x := start + i / IPB;
    var blocks', ds' := blocks[x := Encode(blocks[x], i % IPB, d)], ds[i := d];
    forall m {:trigger ds'[m]} | 0 <= m < |ds'|
      ensures start + m / IPB < |blocks'| && InodeAt(start, blocks', m) == ds'[m]
    {
      assert ds[m] == ds[m];
      if m / IPB == i / IPB {
        DecodeEncode(blocks[x], i % IPB, d, m % IPB);
        SameInode(i, m);
      }
    }
  }

  lemma SameInode(i: nat, m: nat)
    requires i / IPB == m / IPB
    ensures i % IPB == m % IPB <==> i == m
  {
  }
}
