/** fs.c: the block allocator, the block map of an inode, and reading and writing
    file contents, over the blocks as bread shows them. */
module FileSystem {
  import opened Common
  import opened Blocks
  import opened Tree
  import opened DiskInode

  /** The in-memory inode. */
  class Inode {
    const inum: nat
    var size: nat
    var addrs: seq<nat>

    constructor (i: nat, d: Dinode)
      ensures inum == i && size == d.size && addrs == d.addrs
    {
      inum, size, addrs := i, d.size, d.addrs;
    }
  }

  /** The parts of the superblock in use: blocks in all, where the inodes and the
      free map start, and the first block past them. */
  datatype Super = Super(size: nat, inodestart: nat, bmapstart: nat, first: nat)
  {
    function BBlock(b: nat): nat { b / BPB + bmapstart }

    predicate Sound()
    {
      && 0 < first <= size <= UINT_LIMIT
      && inodestart < bmapstart
      && forall b | 0 <= b < size :: BBlock(b) < first
    }
  }

  predicate BitAt(sb: Super, blocks: seq<Block>, b: nat)
    requires sb.BBlock(b) < |blocks|
  {
    Bit(blocks[sb.BBlock(b)], b % BPB)
  }

  /** The bitmap block for b has the bits of the BPB blocks from there. */
  lemma BitOf(sb: Super, blocks: seq<Block>, b: nat, bi: nat)
    requires sb.Sound() && |blocks| == sb.size && b % BPB == 0 && bi < BPB && b + bi < sb.size
    ensures sb.BBlock(b) == sb.BBlock(b + bi) < sb.first && (b + bi) % BPB == bi
    ensures BitAt(sb, blocks, b + bi) == Bit(blocks[sb.BBlock(b)], bi)
  {
    assert (b + bi) / BPB == b / BPB;
  }

  /** Setting or clearing one bit of the free map. */
  function Mark(sb: Super, blocks: seq<Block>, b: nat, v: bool): (r: seq<Block>)
    requires sb.BBlock(b) < |blocks|
    ensures |r| == |blocks|
  {
    var k := sb.BBlock(b);
    blocks[k := if v then SetBit(blocks[k], b % BPB) else ClearBit(blocks[k], b % BPB)]
  }

  lemma MarkBit(sb: Super, blocks: seq<Block>, b: nat, v: bool, x: nat)
    requires sb.BBlock(b) < |blocks| && sb.BBlock(x) < |blocks|
    ensures BitAt(sb, Mark(sb, blocks, b, v), x) == if x == b then v else BitAt(sb, blocks, x)
  {
    if x != b && sb.BBlock(x) == sb.BBlock(b) {
      assert x % BPB != b % BPB;
    }
  }

  /** mkfs's balloc: zero blocks, and the first `used` of them marked. */
  function Formatted(sb: Super, used: nat): (r: seq<Block>)
    requires sb.Sound() && used <= sb.size
    ensures |r| == sb.size
    decreases used
  {
    if used == 0 then seq(sb.size, _ => ZeroBlock()) else Mark(sb, Formatted(sb, used - 1), used - 1, true)
  }

  lemma {:induction false} FormattedBits(sb: Super, used: nat)
    requires sb.Sound() && used <= sb.size
    ensures forall x | 0 <= x < sb.size :: BitAt(sb, Formatted(sb, used), x) <==> x < used
    decreases used
  {
    forall x | 0 <= x < sb.size ensures BitAt(sb, Formatted(sb, used), x) <==> x < used {
      if used == 0 {
        ZeroBit(x % BPB);
      } else {
        FormattedBits(sb, used - 1);
        MarkBit(sb, Formatted(sb, used - 1), used - 1, true, x);
      }
    }
  }

  lemma {:induction false} FormattedInodes(sb: Super, used: nat, x: nat)
    requires sb.Sound() && used <= sb.size && x < sb.bmapstart
    ensures x < sb.size && Formatted(sb, used)[x] == ZeroBlock()
    decreases used
  {
    hide SetBit, ClearBit;
    MetaPlaces(sb);
    if used > 0 {
      FormattedInodes(sb, used - 1, x);
      MarkMeta(sb, Formatted(sb, used - 1), used - 1, true, x);
    }
  }

  lemma MarkMeta(sb: Super, blocks: seq<Block>, b: nat, v: bool, x: nat)
    requires sb.BBlock(b) < |blocks| && x < sb.bmapstart && x < |blocks|
    ensures Mark(sb, blocks, b, v)[x] == blocks[x]
  {
  }

  /** A new file system without files is one. */
  lemma FormattedOk(sb: Super, tab: seq<seq<nat>>, ds: seq<Dinode>)
    requires sb.Sound() && sb.inodestart + |tab| / IPB < sb.bmapstart && |ds| == |tab|
    requires forall i | 0 <= i < |tab| :: tab[i] == NoAddrs() && ds[i] == Dinode(0, NoAddrs())
    ensures FsOk(sb, Formatted(sb, sb.first), tab, map[], ds)
  {
    hide Owned, MapOk, InodesOk, Formatted;
    FormattedMap(sb);
    FormattedZeroInodes(sb, Formatted(sb, sb.first), ds);
    NothingOwned(Formatted(sb, sb.first), tab, sb.first);
  }

  lemma FormattedMap(sb: Super)
    requires sb.Sound()
    ensures MapOk(sb, Formatted(sb, sb.first), map[])
  {
    hide BitAt, Formatted;
    FormattedBits(sb, sb.first);
  }

  lemma FormattedZeroInodes(sb: Super, blocks: seq<Block>, ds: seq<Dinode>)
    requires sb.Sound() && blocks == Formatted(sb, sb.first) && sb.inodestart + |ds| / IPB < sb.bmapstart
    requires forall i | 0 <= i < |ds| :: ds[i] == Dinode(0, NoAddrs())
    ensures InodesOk(sb.inodestart, blocks, ds)
  {
    hide Formatted, Decode;
    forall i {:trigger ds[i]} | 0 <= i < |ds|
      ensures sb.inodestart + i / IPB < |blocks| && InodeAt(sb.inodestart, blocks, i) == ds[i]
    {
      assert i / IPB <= |ds| / IPB;
      FormattedInodes(sb, sb.first, sb.inodestart + i / IPB);
      ZeroInode(i % IPB);
    }
  }

  lemma NothingOwned(blocks: seq<Block>, tab: seq<seq<nat>>, first: nat)
    requires 0 < first <= |blocks| && forall i | 0 <= i < |tab| :: tab[i] == NoAddrs()
    ensures Owned(blocks, tab, map[], first)
  {
    forall i, k {:trigger Slot(blocks, tab[i], k)} | 0 <= i < |tab| && 0 <= k <= INDIRECT
      ensures Slot(blocks, tab[i], k) == 0 { }
  }

  /** The set bits are the blocks before `first` and the blocks in slots. */
  ghost predicate MapOk(sb: Super, blocks: seq<Block>, owner: map<nat, Ref>)
  {
    && sb.Sound() && |blocks| == sb.size
    && forall b | 0 <= b < sb.size :: BitAt(sb, blocks, b) <==> b < sb.first || b in owner
  }

  /** balloc's effect on the blocks. */
  function Allocated(sb: Super, blocks: seq<Block>, b: nat): (r: seq<Block>)
    requires sb.Sound() && |blocks| == sb.size && b < sb.size
  {
    Mark(sb, blocks, b, true)[b := ZeroBlock()]
  }

  lemma AllocatedOwned(sb: Super, blocks: seq<Block>, tab: seq<seq<nat>>, owner: map<nat, Ref>, b: nat)
    requires Owned(blocks, tab, owner, sb.first) && MapOk(sb, blocks, owner)
    requires sb.first <= b < sb.size && !BitAt(sb, blocks, b)
    ensures b !in owner && Owned(Allocated(sb, blocks, b), tab, owner, sb.first)
    ensures forall x | x in owner :: Allocated(sb, blocks, b)[x] == blocks[x]
    ensures forall i, k {:trigger Slot(Allocated(sb, blocks, b), tab[i], k)} | 0 <= i < |tab| && 0 <= k <= INDIRECT ::
              Slot(Allocated(sb, blocks, b), tab[i], k) == Slot(blocks, tab[i], k)
  {
    OwnedFrame(blocks, tab, owner, sb.first, Allocated(sb, blocks, b));
  }

  /** Once b is in a slot the free map tells the truth again. */
  lemma AllocatedMap(sb: Super, blocks: seq<Block>, owner: map<nat, Ref>, b: nat, r: Ref)
    requires MapOk(sb, blocks, owner) && sb.first <= b < sb.size && !BitAt(sb, blocks, b)
    ensures MapOk(sb, Allocated(sb, blocks, b), owner[b := r])
  {
    var blocks' := Allocated(sb, blocks, b);
    forall x | 0 <= x < sb.size
      ensures BitAt(sb, blocks', x) <==> x < sb.first || x in owner[b := r]
    {
      MarkBit(sb, blocks, b, true, x);
      assert blocks'[sb.BBlock(x)] == Mark(sb, blocks, b, true)[sb.BBlock(x)];
    }
  }

  /** The allocated blocks outside `but` hold what they held. */
  ghost predicate Kept(blocks: seq<Block>, blocks': seq<Block>, owner: map<nat, Ref>, but: set<nat>)
  {
    |blocks'| == |blocks| && forall x | x in owner && x < |blocks| && x !in but :: blocks'[x] == blocks[x]
  }

  /** Only inode i's addresses differ. */
  ghost predicate OnlyAt(tab: seq<seq<nat>>, tab': seq<seq<nat>>, i: nat)
  {
    |tab'| == |tab| && forall j | 0 <= j < |tab| && j != i :: tab'[j] == tab[j]
  }

  /** These blocks belong to the file system: inodes, free map or past them. */
  ghost predicate Placed(sb: Super, bs: set<nat>)
  {
    forall b | b in bs :: sb.inodestart <= b < sb.size
  }

  /** Every inode's addresses are on disk. */
  ghost predicate Through(tab: seq<seq<nat>>, ds: seq<Dinode>)
  {
    |ds| == |tab| && forall i | 0 <= i < |tab| :: ds[i].addrs == tab[i]
  }

  lemma ThroughKept(tab: seq<seq<nat>>, ds: seq<Dinode>, tab': seq<seq<nat>>, ds': seq<Dinode>, i: nat, d: Dinode)
    requires Through(tab, ds) && OnlyAt(tab, tab', i) && i < |tab| && tab'[i] == d.addrs
    requires (ds' == ds && ds[i] == d) || ds' == ds[i := d]
    ensures Through(tab', ds')
  {
  }

  lemma OnlyNone(tab: seq<seq<nat>>, i: nat)
    ensures OnlyAt(tab, tab, i)
  {
  }

  class Fs {
    const sb: Super
    var blocks: seq<Block>
    ghost var dinode: seq<Dinode>            // what the inode blocks hold
    ghost var tab: seq<seq<nat>>             // addrs of every inode, the cached copy if there is one
    ghost var owner: map<nat, Ref>           // which slot each allocated data block is in
    ghost var logged: set<nat>               // blocks log_write has been given in this operation

    /** A new file system of n inodes, none of which has a block. */
    constructor (s: Super, n: nat)
      requires s.Sound() && s.inodestart + n / IPB < s.bmapstart
      ensures Valid() && sb == s && owner == map[] && |dinode| == n && blocks == Formatted(s, s.first)
      ensures forall i | 0 <= i < n :: tab[i] == NoAddrs() && dinode[i] == Dinode(0, NoAddrs())
    {
      sb := s;
      blocks := Formatted(s, s.first);
      dinode := seq(n, _ => Dinode(0, NoAddrs()));
      tab, owner, logged := seq(n, _ => NoAddrs()), map[], {};
      new;
      FormattedOk(s, tab, dinode);
    }

    /** The file system that some blocks hold. */
    constructor Of(s: Super, b: seq<Block>, t: seq<seq<nat>>, o: map<nat, Ref>, ghost ds: seq<Dinode>)
      requires FsOk(s, b, t, o, ds)
      ensures Valid() && sb == s && blocks == b && tab == t && owner == o && dinode == ds && logged == {}
    {
      sb, blocks, dinode, tab, owner, logged := s, b, ds, t, o, {};
    }

    ghost predicate Layout()
      reads this
    {
      && sb.Sound() && |blocks| == sb.size
      && forall b | 0 <= b < sb.first :: BitAt(sb, blocks, b)
    }

    /** The free map, the inodes and the indirect blocks tell one story. */
    ghost predicate Valid()
      reads this
    {
      FsOk(sb, blocks, tab, owner, dinode)
    }

    lemma IsLaidOut()
      requires Valid()
      ensures Layout()
    {
    }

    lemma IsOwned(ip: Inode)
      requires Valid() && Holds(ip)
      ensures Owned(blocks, tab, owner, sb.first)
      ensures Addrs(blocks, ip.addrs) && Slot(blocks, tab[ip.inum], INDIRECT) == ip.addrs[NDIRECT]
      ensures ip.addrs[NDIRECT] != 0 ==>
                ip.addrs[NDIRECT] in owner && owner[ip.addrs[NDIRECT]] == Ref(ip.inum, INDIRECT)
    {
    }

    ghost predicate Holds(ip: Inode)
      reads this, ip
    {
      ip.inum < |tab| && ip.addrs == tab[ip.inum]
    }

    /** A block read, changed and handed to log_write. */
    method Update(b: nat, data: Block)
      requires b < |blocks|
      modifies `blocks, `logged
      ensures blocks == old(blocks)[b := data] && logged == old(logged) + {b}
    {
      blocks := blocks[b := data];
      logged := logged + {b};
    }

    /** balloc: the lowest free block, marked and zeroed; None is the panic. */
    method Balloc() returns (r: Option<nat>)
      requires Layout()
      modifies `blocks, `logged
      ensures r.None? <==> forall x | 0 <= x < sb.size :: BitAt(sb, old(blocks), x)
      ensures r.None? ==> blocks == old(blocks) && logged == old(logged)
      ensures r.Some? ==>
                && sb.first <= r.value < sb.size && !BitAt(sb, old(blocks), r.value)
                && (forall x | 0 <= x < r.value :: BitAt(sb, old(blocks), x))
                && blocks == Mark(sb, old(blocks), r.value, true)[r.value := ZeroBlock()]
                && logged == old(logged) + {sb.BBlock(r.value), r.value}
    {
      hide BitAt, SetBit, Bit;
      var b := 0;
      while b < sb.size
        invariant blocks == old(blocks) && logged == old(logged) && b % BPB == 0
        invariant forall x | 0 <= x < b && x < sb.size :: BitAt(sb, blocks, x)
        decreases sb.size - b
      {
        var bi := 0;
        while bi < BPB && b + bi < sb.size
          invariant bi <= BPB && blocks == old(blocks) && logged == old(logged)
          invariant forall x | 0 <= x < b + bi && x < sb.size :: BitAt(sb, blocks, x)
        {
          BitOf(sb, blocks, b, bi);
          var m := blocks[sb.BBlock(b)];
          if !Bit(m, bi) {
            Update(sb.BBlock(b), SetBit(m, bi));
            Update(b + bi, ZeroBlock());          // bzero
            return Some(b + bi);
          }
          bi := bi + 1;
        }
        b := b + BPB;
      }
      return None;
    }

    /** bfree; ok is false on the "freeing free block" panic. */
    method Bfree(b: nat) returns (ok: bool)
      requires Layout() && sb.first <= b < sb.size
      modifies `blocks, `logged
      ensures ok == BitAt(sb, old(blocks), b)
      ensures blocks == if ok then Mark(sb, old(blocks), b, false) else old(blocks)
      ensures logged == if ok then old(logged) + {sb.BBlock(b)} else old(logged)
    {
      var bi := b % BPB;
      assert sb.BBlock(b) < sb.first;
      if !Bit(blocks[sb.BBlock(b)], bi) {
        return false;
      }
      Update(sb.BBlock(b), ClearBit(blocks[sb.BBlock(b)], bi));
      return true;
    }

    /** Every block is marked as in use: where balloc panics. */
    ghost predicate Exhausted()
      reads this
    {
      forall x | 0 <= x < sb.size && sb.BBlock(x) < |blocks| :: BitAt(sb, blocks, x)
    }

    /** bmap's allocation of a block the inode itself points to: slot k is a
        direct slot or the indirect block. */
    method Attach(ip: Inode, k: nat) returns (r: Option<nat>)
      requires Valid() && Holds(ip) && (k < NDIRECT || k == INDIRECT)
      requires Addrs(blocks, ip.addrs) && Slot(blocks, ip.addrs, k) == 0
      modifies `blocks, `logged, `tab, `owner, ip`addrs
      ensures Valid() && Holds(ip)
      ensures r.None? ==> Exhausted() && blocks == old(blocks) && logged == old(logged)
      ensures r.None? ==> tab == old(tab) && owner == old(owner)
      ensures r.Some? ==>
                && r.value !in old(owner) && owner == old(owner)[r.value := Ref(ip.inum, k)]
                && ip.inum < |old(tab)| && |old(ip.addrs)| == NDIRECT + 1
                && tab == old(tab)[ip.inum := Hang(old(ip.addrs), k, r.value)]
                && sb.first <= r.value < |blocks| && blocks[r.value] == ZeroBlock() &&
                    Kept(old(blocks), blocks, old(owner), {})
                && logged == old(logged) + {r.value, sb.BBlock(r.value)}
      ensures Charged(sb, old(Now(ip)), Now(ip), ip.inum, k, k)
    {
      hide FsOk, BitAt, Layout, Charged, Mark, Slot;
      IsLaidOut();
      ChargedNone(sb, Now(ip), ip.inum, k);
      r := Balloc();
      if r.Some? {
        var b := r.value;
        AttachOk(sb, old(blocks), tab, owner, dinode, ip.inum, k, b, old(logged));
        ip.addrs := ip.addrs[if k == INDIRECT then NDIRECT else k := b];
        tab, owner := tab[ip.inum := ip.addrs], owner[b := Ref(ip.inum, k)];
      }
    }

    /** bmap's allocation of a block listed in the indirect block. */
    method AttachListed(ip: Inode, k: nat) returns (r: Option<nat>)
      requires Valid() && Holds(ip) && NDIRECT <= k < INDIRECT
      requires Addrs(blocks, ip.addrs) && ip.addrs[NDIRECT] != 0 && Slot(blocks, ip.addrs, k) == 0
      modifies `blocks, `logged, `owner
      ensures Valid() && Holds(ip)
      ensures r.None? ==> Exhausted() && blocks == old(blocks) && logged == old(logged) && owner == old(owner)
      ensures r.Some? ==>
                && r.value !in old(owner) && owner == old(owner)[r.value := Ref(ip.inum, k)]
                && sb.first <= r.value < |blocks| && blocks[r.value] == ZeroBlock()
                && Addrs(old(blocks), ip.addrs) && Addrs(blocks, ip.addrs)
                && Kept(old(blocks), blocks, old(owner), {ip.addrs[NDIRECT]})
                && (forall m {:trigger Slot(blocks, ip.addrs, m)} | 0 <= m <= INDIRECT ::
                      Slot(blocks, ip.addrs, m) == if m == k then r.value else Slot(old(blocks), ip.addrs, m))
                && logged == old(logged) + {r.value, sb.BBlock(r.value), ip.addrs[NDIRECT]}
      ensures Charged(sb, old(Now(ip)), Now(ip), ip.inum, k, k)
    {
      hide FsOk, BitAt, Layout, Charged, Mark, Slot;
      IsLaidOut();
      ChargedNone(sb, Now(ip), ip.inum, k);
      r := Balloc();
      if r.Some? {
        var b, x := r.value, ip.addrs[NDIRECT];
        AttachListedOk(sb, old(Now(ip)), tab, dinode, ip.inum, k, b);
        Update(x, SetWord(blocks[x], k - NDIRECT, b));
        owner := owner[b := Ref(ip.inum, k)];
        assert Now(ip) == Listed(sb, old(Now(ip)), ip.inum, k, b);
      }
    }

    /** bmap's direct case. */
    method BmapDirect(ip: Inode, bn: nat) returns (addr: nat, ok: bool)
      requires Valid() && Holds(ip) && Addrs(blocks, ip.addrs) && bn < NDIRECT
      modifies `blocks, `logged, `tab, `owner, ip`addrs
      ensures Valid() && Holds(ip) && OnlyAt(old(tab), tab, ip.inum)
      ensures Mapped(old(blocks), old(ip.addrs), blocks, ip.addrs, bn, addr, ok)
      ensures Slot(old(blocks), old(ip.addrs), bn) != 0 ==>
                ok && Same(old(blocks), old(ip.addrs), old(owner), old(logged), ip)
      ensures Grown(old(blocks), old(owner), {})
      ensures ok ==> addr in owner && owner[addr] == Ref(ip.inum, bn)
      ensures !ok ==> Exhausted() && Unowned(owner, Ref(ip.inum, bn))
      ensures Charged(sb, old(Now(ip)), Now(ip), ip.inum, bn, bn)
    {
      hide Charged;
      ChargedNone(sb, Now(ip), ip.inum, bn);
      ghost var b0, t0, o0 := blocks, tab, owner;
      assert Owned(b0, t0, o0, sb.first);
      addr, ok := ip.addrs[bn], true;
      assert addr == Slot(blocks, tab[ip.inum], bn);
      if addr == 0 {
        var r := Attach(ip, bn);
        if r.None? {
          EmptySlot(b0, t0, o0, sb.first, ip.inum, bn);
          return 0, false;
        }
        addr := r.value;
        AttachMapped(b0, t0, o0, sb.first, blocks, ip.inum, bn, addr);
      }
    }

    /** Nothing has changed. */
    ghost predicate Same(blocks0: seq<Block>, a0: seq<nat>, owner0: map<nat, Ref>, logged0: set<nat>, ip: Inode)
      reads this, ip
    {
      blocks == blocks0 && ip.addrs == a0 && owner == owner0 && logged == logged0
    }

    /** Allocated blocks stay where they are and, outside `but`, as they are. */
    ghost predicate Grown(blocks0: seq<Block>, owner0: map<nat, Ref>, but: set<nat>)
      reads this
    {
      Kept(blocks0, blocks, owner0, but) && forall x | x in owner0 :: x in owner && owner[x] == owner0[x]
    }

    /** bmap's indirect case: first the indirect block, then its entry. */
    method BmapListed(ip: Inode, bn: nat) returns (addr: nat, ok: bool)
      requires Valid() && Holds(ip) && Addrs(blocks, ip.addrs) && NDIRECT <= bn < MAXFILE && ip.addrs[NDIRECT] != 0
      modifies `blocks, `logged, `owner
      ensures Valid() && Holds(ip)
      ensures Mapped(old(blocks), ip.addrs, blocks, ip.addrs, bn, addr, ok)
      ensures Slot(old(blocks), ip.addrs, bn) != 0 ==> ok && Same(old(blocks), ip.addrs, old(owner), old(logged), ip)
      ensures Grown(old(blocks), old(owner), {ip.addrs[NDIRECT]})
      ensures ok ==> addr in owner && owner[addr] == Ref(ip.inum, bn)
      ensures !ok ==> Exhausted() && Unowned(owner, Ref(ip.inum, bn))
      ensures Charged(sb, old(Now(ip)), Now(ip), ip.inum, bn, bn)
    {
      hide Charged;
      ChargedNone(sb, Now(ip), ip.inum, bn);
      addr, ok := Word(blocks[ip.addrs[NDIRECT]], bn - NDIRECT), true;
      assert addr == Slot(blocks, tab[ip.inum], bn);
      if addr == 0 {
        var r := AttachListed(ip, bn);
        if r.None? {
          EmptySlot(blocks, tab, owner, sb.first, ip.inum, bn);
          return 0, false;
        }
        addr := r.value;
      }
    }

    /** bmap: the block of slot bn, allocated (and, for a listed block, the
        indirect block with it) if the slot is empty; ok is false when balloc panics. */
    method Bmap(ip: Inode, bn: nat) returns (addr: nat, ok: bool)
      requires Valid() && Holds(ip) && Addrs(blocks, ip.addrs) && bn < MAXFILE
      modifies `blocks, `logged, `tab, `owner, ip`addrs
      ensures Valid() && Holds(ip) && OnlyAt(old(tab), tab, ip.inum)
      ensures Mapped(old(blocks), old(ip.addrs), blocks, ip.addrs, bn, addr, ok)
      ensures Slot(old(blocks), old(ip.addrs), bn) != 0 ==>
                ok && Same(old(blocks), old(ip.addrs), old(owner), old(logged), ip)
      ensures Grown(old(blocks), old(owner), {old(ip.addrs)[NDIRECT]})
      ensures ok ==> addr in owner && owner[addr] == Ref(ip.inum, bn)
      ensures !ok ==> Exhausted() && Unowned(owner, Ref(ip.inum, bn))
      ensures Charged(sb, old(Now(ip)), Now(ip), ip.inum, bn, bn)
    {
      hide Valid, Owned, Exhausted, Charged;
      if bn < NDIRECT {
        addr, ok := BmapDirect(ip, bn);
        return;
      }
      ghost var b0, t0, o0 := blocks, tab, owner;
      IsOwned(ip);
      if ip.addrs[NDIRECT] == 0 {
        var r := Attach(ip, INDIRECT);
        ChargedIndirect(sb, old(Now(ip)), Now(ip), ip.inum, bn);
        if r.None? {
          EmptySlot(b0, t0, o0, sb.first, ip.inum, bn);
          return 0, false;
        }
        AttachMapped(b0, t0, o0, sb.first, blocks, ip.inum, INDIRECT, r.value);
      } else {
        ChargedNone(sb, Now(ip), ip.inum, bn);
      }
      ghost var s1 := Now(ip);
      addr, ok := BmapListed(ip, bn);
      ChargedBoth(sb, old(Now(ip)), s1, Now(ip), ip.inum, bn);
    }

    /** ilock's reading of an inode that is not in memory. */
    method Load(inum: nat) returns (ip: Inode)
      requires Valid() && inum < |dinode| && tab[inum] == dinode[inum].addrs
      ensures fresh(ip) && ip.inum == inum && Holds(ip) && ip.size == dinode[inum].size
    {
      assert dinode[inum] == dinode[inum];
      ip := new Inode(inum, InodeAt(sb.inodestart, blocks, inum));
    }

    /** iupdate: the in-memory inode over its disk copy. */
    method Iupdate(ip: Inode)
      requires Valid() && Holds(ip) && ip.size < UINT_LIMIT
      modifies `blocks, `dinode, `logged
      ensures Valid() && dinode == old(dinode)[ip.inum := Dinode(ip.size, ip.addrs)]
      ensures logged == old(logged) + {IBlock(ip.inum)} && IBlock(ip.inum) < sb.bmapstart
      ensures forall x | 0 <= x < |blocks| && x != IBlock(ip.inum) :: blocks[x] == old(blocks)[x]
      ensures |blocks| == |old(blocks)|
    {
      hide FsOk, Encode, Decode;
      var x, d := IBlock(ip.inum), Dinode(ip.size, ip.addrs);
      IupdateOk(sb, blocks, tab, owner, dinode, ip.inum, d);
      Update(x, Encode(blocks[x], ip.inum % IPB, d));
      dinode := dinode[ip.inum := d];
    }

    function IBlock(inum: nat): nat
    {
      sb.inodestart + inum / IPB
    }

    /** One turn of writei's loop: the part of the write that falls into one block. */
    method WriteBlock(ip: Inode, o: nat, piece: seq<Byte>, ghost ext: nat) returns (ok: bool)
      requires Valid() && Holds(ip) && Addrs(blocks, ip.addrs) && HoleFree(blocks, ip.addrs, ext)
      requires o <= ext && 0 < |piece| <= BSIZE - o % BSIZE && o + |piece| <= MAXFILE * BSIZE
      modifies `blocks, `logged, `tab, `owner, ip`addrs
      ensures Valid() && Holds(ip) && OnlyAt(old(tab), tab, ip.inum)
      ensures ok ==> Wrote(old(blocks), old(ip.addrs), blocks, ip.addrs, ext, o, piece)
      ensures ok ==> OthersKept(old(blocks), old(owner), blocks, owner, ip.inum)
      ensures ok && o + |piece| <= ext ==> ip.addrs == old(ip.addrs)
      ensures Charged(sb, old(Now(ip)), Now(ip), ip.inum, o / BSIZE, o / BSIZE + if ok then 1 else 0)
      ensures !ok ==> Exhausted() && Unowned(owner, Ref(ip.inum, o / BSIZE))
    {
      hide FsOk, Charged, HoleFree, Wrote, OthersKept, OnlyAt, Kept;
      ghost var s0, t0 := Now(ip), tab;
      var bn := o / BSIZE;
      var addr;
      addr, ok := Bmap(ip, bn);
      if ok {
        WriteBlockOk(sb, s0, t0, Now(ip), tab, dinode, ip.inum, o, piece, ext, addr);
        Update(addr, Splice(blocks[addr], o % BSIZE, piece));
      }
    }

    /** What a caller of readi and writei holds: the inode locked, valid and
        written through, and its file without holes. */
    ghost predicate Ready(ip: Inode)
      reads this, ip
    {
      && Valid() && Holds(ip) && Addrs(blocks, ip.addrs) && HoleFree(blocks, ip.addrs, ip.size)
      && ip.inum < |dinode| && dinode[ip.inum] == Dinode(ip.size, ip.addrs)
    }

    /** readi. On a file without holes bmap finds every block, so nothing is
        allocated or logged. */
    method Readi(ip: Inode, off: nat, n: nat) returns (r: int, dst: seq<Byte>)
      requires Ready(ip) && off < UINT_LIMIT && n < UINT_LIMIT
      modifies `blocks, `logged, `tab, `owner, ip`addrs
      ensures Ready(ip) && Now(ip) == old(Now(ip)) && tab == old(tab)
      ensures r == if off > ip.size || off + n >= UINT_LIMIT then -1 else Min(n, ip.size - off)
      ensures r >= 0 ==> |dst| == r && Holding(blocks, ip.addrs, off, dst)
    {
      hide Ready, Holding;
      dst := [];
      if off > ip.size || (off + n) % UINT_LIMIT < off { return -1, dst; }
      var len := if (off + n) % UINT_LIMIT > ip.size then ip.size - off else n;
      ghost var s0, t0 := Now(ip), tab;
      HoldingNone(ip, off);
      var tot: nat := 0;
      while tot < len
        invariant tot <= len && Ready(ip) && Now(ip) == s0 && tab == t0
        invariant |dst| == tot && Holding(blocks, ip.addrs, off, dst)
      {
        var o := off + tot;
        var m := Min(len - tot, BSIZE - o % BSIZE);
        var piece := ReadBlock(ip, o, m);
        HoldingThen(blocks, ip.addrs, off, dst, piece);
        dst := dst + piece;
        tot := tot + m;
      }
      return len, dst;
    }

    /** One turn of readi's loop. */
    method ReadBlock(ip: Inode, o: nat, m: nat) returns (piece: seq<Byte>)
      requires Ready(ip) && 0 < m <= BSIZE - o % BSIZE && o + m <= ip.size
      modifies `blocks, `logged, `tab, `owner, ip`addrs
      ensures Ready(ip) && Now(ip) == old(Now(ip)) && tab == old(tab)
      ensures |piece| == m && Holding(blocks, ip.addrs, o, piece)
    {
      hide Owned, MapOk, Grown, Holding;
      ghost var t0, o0 := tab, owner;
      assert o / BSIZE * BSIZE < ip.size;
      assert Slot(blocks, ip.addrs, o / BSIZE) != 0;
      IsPlaced(ip, o / BSIZE);
      var addr, ok := Bmap(ip, o / BSIZE);
      assert tab == t0;
      piece := blocks[addr][o % BSIZE..o % BSIZE + m];
      HoldingPiece(blocks, ip.addrs, o, m);
    }

    lemma IsPlaced(ip: Inode, k: nat)
      requires Valid() && Holds(ip) && k <= INDIRECT && Addrs(blocks, ip.addrs) && Slot(blocks, ip.addrs, k) != 0
      ensures sb.first <= Slot(blocks, ip.addrs, k) < |blocks|
    {
      assert Slot(blocks, tab[ip.inum], k) != 0;
    }

    lemma HoldingNone(ip: Inode, off: nat)
      requires Ready(ip) && off <= ip.size
      ensures Holding(blocks, ip.addrs, off, [])
    {
    }

    /** itrunc: every block of the file goes back to the free map. No block is
        free already, so the panic in bfree (ok false) is out of reach. */
    method Itrunc(ip: Inode) returns (ok: bool)
      requires Valid() && Holds(ip)
      modifies `blocks, `logged, `tab, `owner, `dinode, ip`addrs, ip`size
      ensures ok && Valid() && Holds(ip) && ip.size == 0 && ip.addrs == NoAddrs()
      ensures tab == old(tab)[ip.inum := NoAddrs()] && owner == Others(old(owner), ip.inum)
      ensures dinode == old(dinode)[ip.inum := Dinode(0, NoAddrs())]
      ensures forall x | sb.first <= x < |old(blocks)| :: x < |blocks| && blocks[x] == old(blocks)[x]
      ensures logged == old(logged) + MapsOf(sb, old(owner).Keys - owner.Keys) + {IBlock(ip.inum)}
      ensures Journaled(old(blocks), blocks, logged) && Placed(sb, logged - old(logged))
      ensures old(logged) == {} ==> |logged| == |MapsOf(sb, old(owner).Keys - owner.Keys)| + 1
    {
      hide Freed, Owned, Cut, Others, MapsOf, Journaled;
      ghost var v0, i := Now(ip), ip.inum;
      TruncStart(ip);
      ok := TruncDirect(ip, v0);
      if ip.addrs[NDIRECT] != 0 {
        ok := TruncListed(ip, v0);
      }
      ip.size := 0;
      TruncDone(ip, v0);
      InodesFrame(sb.inodestart, v0.blocks, blocks, dinode, sb.bmapstart);
      assert ip.addrs == NoAddrs();
      tab, owner := tab[i := ip.addrs], Others(owner, i);
      ghost var b1, l1 := blocks, logged;
      Iupdate(ip);
      TruncLogged(sb, v0, b1, l1, blocks, i);
    }

    lemma TruncStart(ip: Inode)
      requires Valid() && Holds(ip)
      ensures Owned(blocks, tab, owner, sb.first) && Freed(Now(ip), ip.inum, 0) && |ip.addrs| == NDIRECT + 1
    {
      CutNone(owner, ip.inum);
      assert owner.Keys - Cut(owner, ip.inum, 0).Keys == {};
      assert MapsOf(sb, {}) == {};
    }

    lemma TruncDone(ip: Inode, v0: View)
      requires ip.inum < |tab| && Owned(v0.blocks, tab, v0.owner, sb.first)
      requires Freed(v0, ip.inum, if tab[ip.inum][NDIRECT] != 0 then INDIRECT + 1 else NDIRECT)
      ensures Owned(blocks, tab[ip.inum := NoAddrs()], Others(v0.owner, ip.inum), sb.first)
      ensures Layout() && MapOk(sb, blocks, Others(v0.owner, ip.inum)) && |blocks| == |v0.blocks|
      ensures forall x | 0 <= x < |blocks| && (x < sb.bmapstart || sb.first <= x) :: blocks[x] == v0.blocks[x]
      ensures logged == v0.logged + MapsOf(sb, v0.owner.Keys - Others(v0.owner, ip.inum).Keys)
      ensures Journaled(v0.blocks, blocks, logged) && sb.bmapstart < sb.first
      ensures forall b | b in v0.owner.Keys - Others(v0.owner, ip.inum).Keys :: b < sb.size
    {
      MetaPlaces(sb);
      CutAll(v0.blocks, tab, v0.owner, sb.first, ip.inum);
      Dropped(v0.blocks, tab, v0.owner, sb.first, blocks, ip.inum);
    }

    /** The direct blocks. */
    method TruncDirect(ip: Inode, ghost v0: View) returns (ok: bool)
      requires ip.inum < |tab| && Owned(v0.blocks, tab, v0.owner, sb.first) && tab[ip.inum] == ip.addrs
      requires Freed(v0, ip.inum, 0)
      modifies `blocks, `logged, ip`addrs
      ensures ok && Freed(v0, ip.inum, NDIRECT)
      ensures |old(ip.addrs)| == NDIRECT + 1 && ip.addrs == seq(NDIRECT, _ => 0) + [old(ip.addrs)[NDIRECT]]
    {
      hide Freed, Owned, Cut;
      ghost var a0 := ip.addrs;
      OwnedAddrs(v0.blocks, tab, v0.owner, sb.first, ip.inum);
      var i := 0;
      ok := true;
      while i < NDIRECT
        invariant i <= NDIRECT && ok && Freed(v0, ip.inum, i)
        invariant ip.addrs == seq(i, _ => 0) + a0[i..]
      {
        CutNext(v0.blocks, tab, v0.owner, sb.first, ip.inum, i);
        assert ip.addrs[i] == a0[i] == Slot(v0.blocks, a0, i);
        ZeroedNext(a0, i);
        if ip.addrs[i] != 0 {
          ok := FreeSlot(ip.addrs[i], v0, ip.inum, i);
          ip.addrs := ip.addrs[i := 0];
        } else {
          FreedSkip(v0, ip.inum, i);
        }
        i := i + 1;
      }
    }

    /** The blocks the indirect block lists, and the indirect block. */
    method TruncListed(ip: Inode, ghost v0: View) returns (ok: bool)
      requires ip.inum < |tab| && Owned(v0.blocks, tab, v0.owner, sb.first)
               && |ip.addrs| == |tab[ip.inum]| == NDIRECT + 1
      requires ip.addrs[NDIRECT] == tab[ip.inum][NDIRECT] != 0 && Freed(v0, ip.inum, NDIRECT)
      modifies `blocks, `logged, ip`addrs
      ensures ok && Freed(v0, ip.inum, INDIRECT + 1) && ip.addrs == old(ip.addrs)[NDIRECT := 0]
    {
      hide Freed, Owned, Cut;
      ghost var a1 := ip.addrs;
      var x := ip.addrs[NDIRECT];
      OwnedAddrs(v0.blocks, tab, v0.owner, sb.first, ip.inum);
      CutNext(v0.blocks, tab, v0.owner, sb.first, ip.inum, INDIRECT);
      var j := 0;
      ok := true;
      while j < NINDIRECT
        invariant j <= NINDIRECT && ok && Freed(v0, ip.inum, NDIRECT + j) && ip.addrs == a1
      {
        CutNext(v0.blocks, tab, v0.owner, sb.first, ip.inum, NDIRECT + j);
        FreedBlock(v0, ip.inum, NDIRECT + j, x);
        var w := Word(blocks[x], j);
        if w != 0 {
          ok := FreeSlot(w, v0, ip.inum, NDIRECT + j);
        } else {
          FreedSkip(v0, ip.inum, NDIRECT + j);
        }
        j := j + 1;
      }
      ok := FreeSlot(x, v0, ip.inum, INDIRECT);
      ip.addrs := ip.addrs[NDIRECT := 0];
    }

    lemma FreedSkip(v0: View, i: nat, k: nat)
      requires Freed(v0, i, k) && Cut(v0.owner, i, k + 1) == Cut(v0.owner, i, k)
      ensures Freed(v0, i, k + 1)
    {
    }

    lemma FreedBlock(v0: View, i: nat, k: nat, x: nat)
      requires Freed(v0, i, k) && sb.first <= x < |v0.blocks|
      ensures x < |blocks| && blocks[x] == v0.blocks[x]
    {
    }

    /** itrunc under way: slots below k of inode i are back in the free map, and the
        free-map blocks they are in are logged. */
    ghost predicate Freed(v0: View, i: nat, k: nat)
      reads this
    {
      && Layout() && MapOk(sb, blocks, Cut(v0.owner, i, k)) && |v0.blocks| == |blocks|
      && (forall x | 0 <= x < |blocks| && (x < sb.bmapstart || sb.first <= x) :: blocks[x] == v0.blocks[x])
      && logged == v0.logged + MapsOf(sb, v0.owner.Keys - Cut(v0.owner, i, k).Keys)
      && Journaled(v0.blocks, blocks, logged)
    }

    method FreeSlot(b: nat, ghost v0: View, ghost i: nat, ghost k: nat) returns (ok: bool)
      requires Freed(v0, i, k) && b in Cut(v0.owner, i, k) && sb.first <= b < |v0.blocks|
      requires Cut(v0.owner, i, k + 1) == Cut(v0.owner, i, k) - {b}
      modifies `blocks, `logged
      ensures ok && Freed(v0, i, k + 1)
    {
      hide MapOk, BitAt, Cut, Mark, MapsOf, Journaled;
      FreeStep(sb, blocks, v0.owner, i, k, b);
      FreeLogged(sb, v0, blocks, logged, i, k, b);
      ok := Bfree(b);
    }

    /** writei. ok is false when an allocation panics: exactly when the write needs more
        blocks than are free. */
    method Writei(ip: Inode, off: nat, src: seq<Byte>) returns (r: int, ok: bool)
      requires Ready(ip) && off < UINT_LIMIT && |src| < UINT_LIMIT
      modifies `blocks, `dinode, `logged, `tab, `owner, ip`addrs, ip`size
      ensures ok <==> Refused(old(ip.size), off, |src|) || Need(old(ip.size), off, |src|) <= |old(FreeBlocks())|
      ensures ok ==> Ready(ip) && OnlyAt(old(tab), tab, ip.inum)
      ensures ok ==> r == if off > old(ip.size) || off + |src| >= UINT_LIMIT || off + |src| > MAXFILE * BSIZE
                          then -1 else |src|
      ensures ok && r == -1 ==> blocks == old(blocks) && dinode == old(dinode) && logged == old(logged)
                                && ip.size == old(ip.size) && ip.addrs == old(ip.addrs) && owner == old(owner)
      ensures ok && r != -1 ==>
                WriteDone(sb, old(Now(ip)), old(dinode), old(ip.size), Now(ip), dinode, ip.size, ip.inum, off, src)
      ensures !ok ==> Valid() && Holds(ip) && OnlyAt(old(tab), tab, ip.inum) && Exhausted()
    {
      hide FsOk, Writing, HoleFree, BitAt, Charged, Stopped, Need, FreeIn, Span, Addrs, OnlyAt, WriteDone;
      var n := |src|;
      OnlyNone(tab, ip.inum);
      if off > ip.size || (off + n) % UINT_LIMIT < off { return -1, true; }
      if (off + n) % UINT_LIMIT > MAXFILE * BSIZE { return -1, true; }
      ghost var s0, t0, ds, size := Now(ip), tab, dinode, ip.size;
      ok := WriteBlocks(ip, off, src);
      if !ok {
        NeedMissed(sb, s0, t0, Now(ip), tab, dinode, size, off, n, ip.inum);
        return 0, false;
      }
      ghost var s1, t1 := Now(ip), tab;
      assert FsOk(sb, s1.blocks, t1, s1.owner, ds);
      if n > 0 && off + n > ip.size {
        ip.size := off + n;
        Iupdate(ip);
      }
      WriteOk(sb, s0, t0, ds, s1, t1, Now(ip), dinode, size, ip.size, off, src, ip.inum);
      return n, true;
    }

    /** The blocks the free map shows as free. */
    ghost function FreeBlocks(): set<nat>
      reads this
    {
      FreeIn(sb, blocks)
    }

    /** What a write can change, as a value. */
    ghost function Now(ip: Inode): View
      reads this, ip
    {
      View(blocks, ip.addrs, owner, logged)
    }

    /** writei's loop. */
    method WriteBlocks(ip: Inode, off: nat, src: seq<Byte>) returns (ok: bool)
      requires Valid() && Holds(ip) && Addrs(blocks, ip.addrs) && HoleFree(blocks, ip.addrs, ip.size)
      requires off <= ip.size && off + |src| <= MAXFILE * BSIZE
      modifies `blocks, `logged, `tab, `owner, ip`addrs
      ensures Valid() && Holds(ip) && OnlyAt(old(tab), tab, ip.inum)
      ensures ok ==> Writing(old(Now(ip)), Now(ip), ip.size, off, src, |src|, ip.inum)
      ensures ok ==> Charged(sb, old(Now(ip)), Now(ip), ip.inum, off / BSIZE, off / BSIZE + Span(off, |src|))
      ensures !ok ==> Exhausted() && Stopped(old(owner), owner, ip.inum, off, |src|)
    {
      hide Valid, Writing, HoleFree, Addrs, Exhausted, Charged, Span, Stopped;
      var n := |src|;
      ghost var t0, size, s0 := tab, ip.size, Now(ip);
      var tot := 0;
      ok := true;
      WritingStart(s0, size, off, src, ip.inum);
      ChargedNone(sb, s0, ip.inum, off / BSIZE);
      SpanNone(off);
      while tot < n
        invariant tot <= n && (0 < tot < n ==> (off + tot) % BSIZE == 0) && ok
        invariant Valid() && Holds(ip) && OnlyAt(t0, tab, ip.inum)
        invariant Writing(s0, Now(ip), size, off, src, tot, ip.inum)
        invariant Charged(sb, s0, Now(ip), ip.inum, off / BSIZE, off / BSIZE + Span(off, tot))
      {
        var m;
        ok, m := WriteNext(ip, off, src, tot, s0);
        if !ok { return; }
        tot := tot + m;
      }
    }

    /** One turn of the loop. */
    method WriteNext(ip: Inode, off: nat, src: seq<Byte>, tot: nat, ghost s0: View) returns (ok: bool, m: nat)
      requires Valid() && Holds(ip) && tot < |src| && (0 < tot ==> (off + tot) % BSIZE == 0)
      requires Writing(s0, Now(ip), ip.size, off, src, tot, ip.inum)
      requires Charged(sb, s0, Now(ip), ip.inum, off / BSIZE, off / BSIZE + Span(off, tot))
      modifies `blocks, `logged, `tab, `owner, ip`addrs
      ensures Valid() && Holds(ip) && OnlyAt(old(tab), tab, ip.inum)
      ensures 0 < m && tot + m <= |src| && (tot + m < |src| ==> (off + (tot + m)) % BSIZE == 0)
      ensures ok ==> Writing(s0, Now(ip), ip.size, off, src, tot + m, ip.inum)
      ensures ok ==> Charged(sb, s0, Now(ip), ip.inum, off / BSIZE, off / BSIZE + Span(off, tot + m))
      ensures !ok ==> Exhausted() && Stopped(s0.owner, owner, ip.inum, off, |src|)
    {
      hide Valid, Writing, Wrote, OthersKept, HoleFree, Addrs, Exhausted, Charged, Span, Stopped, Unowned;
      var n := |src|;
      var o := off + tot;
      m := if n - tot < BSIZE - o % BSIZE then n - tot else BSIZE - o % BSIZE;
      ghost var size, s1 := ip.size, Now(ip);
      assert m < n - tot ==> m == BSIZE - (off + tot) % BSIZE;
      SpanThen(off, tot, m);
      WritingNow(s0, s1, size, off, src, tot, ip.inum);
      ok := WriteBlock(ip, o, src[tot..tot + m], Max(size, o));
      SpanEnd(off, tot);
      if ok {
        WritingThen(s0, s1, Now(ip), size, off, src, tot, m, ip.inum);
        ChargedThen(sb, s0, s1, Now(ip), ip.inum, off / BSIZE, o / BSIZE);
      } else {
        StoppedHere(sb, s0, s1, Now(ip), ip.inum, off, n, tot);
      }
    }
  }

  // ----- writing an inode block -----

  lemma StorableAddrs(blocks: seq<Block>, tab: seq<seq<nat>>, owner: map<nat, Ref>, sb: Super, i: nat)
    requires Owned(blocks, tab, owner, sb.first) && sb.Sound() && |blocks| == sb.size && i < |tab|
    ensures |tab[i]| == NDIRECT + 1 && forall k | 0 <= k <= NDIRECT :: tab[i][k] < UINT_LIMIT
  {
    forall k | 0 <= k <= NDIRECT ensures tab[i][k] < UINT_LIMIT {
      assert tab[i][k] == Slot(blocks, tab[i], if k == NDIRECT then INDIRECT else k);
    }
  }

  /** The free map is in no block before its own. */
  lemma MetaMap(sb: Super, blocks: seq<Block>, owner: map<nat, Ref>, x: nat, data: Block)
    requires MapOk(sb, blocks, owner) && x < sb.bmapstart && x < |blocks|
    ensures MapOk(sb, blocks[x := data], owner)
  {
    var blocks' := blocks[x := data];
    forall b | 0 <= b < sb.size ensures BitAt(sb, blocks', b) <==> b < sb.first || b in owner {
      assert sb.BBlock(b) >= sb.bmapstart > x;
      assert BitAt(sb, blocks', b) == BitAt(sb, blocks, b);
    }
  }

  lemma IupdateOk(sb: Super, blocks: seq<Block>, tab: seq<seq<nat>>, owner: map<nat, Ref>, ds: seq<Dinode>, i: nat,
                  d: Dinode)
    requires FsOk(sb, blocks, tab, owner, ds) && i < |tab| && d.addrs == tab[i] && d.size < UINT_LIMIT
    ensures d.Storable() && |ds| == |tab|
    ensures var x := sb.inodestart + i / IPB;
            && x < sb.bmapstart < sb.first && x < |blocks|
            && FsOk(sb, blocks[x := Encode(blocks[x], i % IPB, d)], tab, owner, ds[i := d])
  {
    hide Encode, Decode, InodesOk, MapOk, Owned;
    StorableAddrs(blocks, tab, owner, sb, i);
    MetaPlaces(sb);
    assert i / IPB <= |tab| / IPB;
    InodePut(sb.inodestart, blocks, ds, i, d);
    var x := sb.inodestart + i / IPB;
    MetaMap(sb, blocks, owner, x, Encode(blocks[x], i % IPB, d));
    MetaOwned(sb, blocks, tab, owner, x, Encode(blocks[x], i % IPB, d));
  }

  lemma MetaPlaces(sb: Super)
    requires sb.Sound()
    ensures sb.bmapstart < sb.first
  {
    assert sb.BBlock(0) < sb.first;
  }

  lemma MetaOwned(sb: Super, blocks: seq<Block>, tab: seq<seq<nat>>, owner: map<nat, Ref>, x: nat, data: Block)
    requires Owned(blocks, tab, owner, sb.first) && x < sb.first && x < |blocks|
    ensures Owned(blocks[x := data], tab, owner, sb.first)
  {
    OwnedFrame(blocks, tab, owner, sb.first, blocks[x := data]);
  }

  // ----- what one change does to the whole -----

  /** The file system on the blocks, given who owns what and what the inodes hold. */
  ghost predicate FsOk(sb: Super, blocks: seq<Block>, tab: seq<seq<nat>>, owner: map<nat, Ref>, ds: seq<Dinode>)
  {
    && sb.Sound() && |blocks| == sb.size && |ds| == |tab| && sb.inodestart + |tab| / IPB < sb.bmapstart
    && Owned(blocks, tab, owner, sb.first) && MapOk(sb, blocks, owner) && InodesOk(sb.inodestart, blocks, ds)
  }

  lemma AttachOk(sb: Super, blocks: seq<Block>, tab: seq<seq<nat>>, owner: map<nat, Ref>, ds: seq<Dinode>,
                 i: nat, k: nat, b: nat, logged: set<nat>)
    requires FsOk(sb, blocks, tab, owner, ds) && i < |tab| && (k < NDIRECT || k == INDIRECT)
    requires Addrs(blocks, tab[i]) && Slot(blocks, tab[i], k) == 0
    requires sb.first <= b < sb.size && !BitAt(sb, blocks, b) && forall x | 0 <= x < b :: BitAt(sb, blocks, x)
    ensures var blocks' := Mark(sb, blocks, b, true)[b := ZeroBlock()];
            && b !in owner && Kept(blocks, blocks', owner, {})
            && FsOk(sb, blocks', tab[i := Hang(tab[i], k, b)], owner[b := Ref(i, k)], ds)
            && Charged(sb, View(blocks, tab[i], owner, logged),
                       View(blocks', Hang(tab[i], k, b), owner[b := Ref(i, k)], logged + {b, sb.BBlock(b)}), i, k, k)
  {
    hide Charged, Owned, MapOk, InodesOk;
    var blocks' := Mark(sb, blocks, b, true)[b := ZeroBlock()];
    AllocatedOwned(sb, blocks, tab, owner, b);
    AllocatedMap(sb, blocks, owner, b, Ref(i, k));
    AllocatedInodes(sb, blocks, ds, b);
    assert Slot(blocks', tab[i], k) == 0;
    HangOwned(blocks', tab, owner, sb.first, i, k, b);
    AttachCharged(sb, View(blocks, tab[i], owner, logged), blocks', Hang(tab[i], k, b), i, k, b);
  }

  lemma AllocatedInodes(sb: Super, blocks: seq<Block>, ds: seq<Dinode>, b: nat)
    requires sb.Sound() && |blocks| == sb.size && sb.inodestart + |ds| / IPB < sb.bmapstart && sb.first <= b < sb.size
    requires InodesOk(sb.inodestart, blocks, ds)
    ensures InodesOk(sb.inodestart, Mark(sb, blocks, b, true)[b := ZeroBlock()], ds)
  {
    hide InodesOk;
    MetaPlaces(sb);
    InodesFrame(sb.inodestart, blocks, Mark(sb, blocks, b, true)[b := ZeroBlock()], ds, sb.bmapstart);
  }

  /** Block b, new, listed as slot k in the indirect block. */
  ghost function Listed(sb: Super, v: View, inum: nat, k: nat, b: nat): (r: View)
    requires sb.Sound() && |v.blocks| == sb.size && b < sb.size && NDIRECT <= k < INDIRECT
    requires |v.addrs| == NDIRECT + 1 && v.addrs[NDIRECT] < sb.size
    ensures |r.blocks| == sb.size && r.addrs == v.addrs
  {
    var x := v.addrs[NDIRECT];
    var b1 := Mark(sb, v.blocks, b, true)[b := ZeroBlock()];
    View(b1[x := SetWord(b1[x], k - NDIRECT, b)], v.addrs, v.owner[b := Ref(inum, k)],
         v.logged + {b, sb.BBlock(b)} + {x})
  }

  lemma AttachListedOk(sb: Super, v: View, tab: seq<seq<nat>>, ds: seq<Dinode>, i: nat, k: nat, b: nat)
    requires FsOk(sb, v.blocks, tab, v.owner, ds) && i < |tab| && v.addrs == tab[i] && NDIRECT <= k < INDIRECT
    requires Addrs(v.blocks, v.addrs) && v.addrs[NDIRECT] != 0 && Slot(v.blocks, v.addrs, k) == 0
    requires sb.first <= b < sb.size && !BitAt(sb, v.blocks, b) && forall x | 0 <= x < b :: BitAt(sb, v.blocks, x)
    ensures sb.Sound() && |v.blocks| == sb.size && b !in v.owner && b != v.addrs[NDIRECT]
    ensures var r := Listed(sb, v, i, k, b);
            && Kept(v.blocks, r.blocks, v.owner, {v.addrs[NDIRECT]}) && Addrs(r.blocks, r.addrs)
            && r.blocks[b] == ZeroBlock()
            && (forall m {:trigger Slot(r.blocks, r.addrs, m)} | 0 <= m <= INDIRECT ::
                  Slot(r.blocks, r.addrs, m) == if m == k then b else Slot(v.blocks, v.addrs, m))
            && FsOk(sb, r.blocks, tab, r.owner, ds)
            && Charged(sb, v, r, i, k, k)
  {
    hide Charged, Owned, MapOk, InodesOk, Kept, Slot, BitAt, Mark, SetWord;
    var x := v.addrs[NDIRECT];
    var b1 := Mark(sb, v.blocks, b, true)[b := ZeroBlock()];
    var w := SetWord(b1[x], k - NDIRECT, b);
    OnlyIndirect(v.blocks, tab, v.owner, sb.first, i);
    OwnedPlace(v.blocks, tab, v.owner, sb.first, x);
    AttachListedMaps(sb, v.blocks, tab, v.owner, i, k, b);
    AllocatedMap(sb, v.blocks, v.owner, b, Ref(i, k));
    AllocatedInodes(sb, v.blocks, ds, b);
    MapFrame(sb, b1, v.owner[b := Ref(i, k)], x, w);
    MetaPlaces(sb);
    InodesFrame(sb.inodestart, b1, b1[x := w], ds, sb.bmapstart);
    ListedCharged(sb, v, w, i, k, b, x);
  }

  lemma AttachListedMaps(sb: Super, blocks: seq<Block>, tab: seq<seq<nat>>, owner: map<nat, Ref>, i: nat, k: nat,
                         b: nat)
    requires sb.Sound() && |blocks| == sb.size && i < |tab| && NDIRECT <= k < INDIRECT
    requires Owned(blocks, tab, owner, sb.first) && MapOk(sb, blocks, owner)
    requires Addrs(blocks, tab[i]) && tab[i][NDIRECT] != 0 && Slot(blocks, tab[i], k) == 0
    requires sb.first <= b < sb.size && !BitAt(sb, blocks, b)
    ensures var x := tab[i][NDIRECT];
            var b1 := Mark(sb, blocks, b, true)[b := ZeroBlock()];
            var b2 := b1[x := SetWord(b1[x], k - NDIRECT, b)];
            && b !in owner && b != x && Kept(blocks, b2, owner, {x}) && Addrs(b2, tab[i])
            && Owned(b2, tab, owner[b := Ref(i, k)], sb.first)
            && (forall m {:trigger Slot(b2, tab[i], m)} | 0 <= m <= INDIRECT ::
                  Slot(b2, tab[i], m) == if m == k then b else Slot(blocks, tab[i], m))
  {
    hide Owned, MapOk, BitAt;
    var x, a := tab[i][NDIRECT], tab[i];
    var b1 := Mark(sb, blocks, b, true)[b := ZeroBlock()];
    OnlyIndirect(blocks, tab, owner, sb.first, i);
    AllocatedOwned(sb, blocks, tab, owner, b);
    assert Slot(b1, tab[i], k) == 0;
    ListOwned(b1, tab, owner, sb.first, i, k, b);
    forall m | 0 <= m <= INDIRECT
      ensures Slot(b1[x := SetWord(b1[x], k - NDIRECT, b)], a, m) == if m == k then b else Slot(blocks, a, m)
    {
      ListSlot(b1, a, k, b, m);
      assert Slot(b1, tab[i], m) == Slot(blocks, tab[i], m);
    }
  }

  lemma OwnedPlace(blocks: seq<Block>, tab: seq<seq<nat>>, owner: map<nat, Ref>, first: nat, x: nat)
    requires Owned(blocks, tab, owner, first) && x in owner
    ensures first <= x < |blocks|
  {
  }

  lemma OwnedPlaces(blocks: seq<Block>, tab: seq<seq<nat>>, owner: map<nat, Ref>, first: nat)
    requires Owned(blocks, tab, owner, first)
    ensures forall x | x in owner :: first <= x < |blocks|
  {
  }

  /** The data block of one turn of writei's loop, after bmap. */
  lemma WriteBlockOk(sb: Super, s0: View, t0: seq<seq<nat>>, s1: View, t1: seq<seq<nat>>, ds: seq<Dinode>,
                     i: nat, o: nat, piece: seq<Byte>, ext: nat, addr: nat)
    requires FsOk(sb, s0.blocks, t0, s0.owner, ds) && FsOk(sb, s1.blocks, t1, s1.owner, ds)
    requires i < |t0| && t0[i] == s0.addrs && i < |t1| && t1[i] == s1.addrs && OnlyAt(t0, t1, i)
    requires Addrs(s0.blocks, s0.addrs) && HoleFree(s0.blocks, s0.addrs, ext)
    requires o <= ext && 0 < |piece| <= BSIZE - o % BSIZE && o + |piece| <= MAXFILE * BSIZE && o / BSIZE < MAXFILE
    requires Mapped(s0.blocks, s0.addrs, s1.blocks, s1.addrs, o / BSIZE, addr, true)
    requires Slot(s0.blocks, s0.addrs, o / BSIZE) != 0 ==>
               s1.blocks == s0.blocks && s1.addrs == s0.addrs && s1.owner == s0.owner && s1.logged == s0.logged
    requires Kept(s0.blocks, s1.blocks, s0.owner, {s0.addrs[NDIRECT]})
    requires forall x | x in s0.owner :: x in s1.owner && s1.owner[x] == s0.owner[x]
    requires addr in s1.owner && s1.owner[addr] == Ref(i, o / BSIZE)
    requires Charged(sb, s0, s1, i, o / BSIZE, o / BSIZE)
    ensures addr < |s1.blocks|
    ensures var bn := o / BSIZE;
            var b2 := s1.blocks[addr := Splice(s1.blocks[addr], o % BSIZE, piece)];
            && FsOk(sb, b2, t1, s1.owner, ds)
            && Wrote(s0.blocks, s0.addrs, b2, s1.addrs, ext, o, piece)
            && OthersKept(s0.blocks, s0.owner, b2, s1.owner, i)
            && (o + |piece| <= ext ==> s1.addrs == s0.addrs)
            && Charged(sb, s0, View(b2, s1.addrs, s1.owner, s1.logged + {addr}), i, bn, bn + 1)
  {
    hide Charged, Owned, MapOk, InodesOk, Wrote, OthersKept, Kept;
    OwnedPlace(s1.blocks, t1, s1.owner, sb.first, addr);
    var bn, data := o / BSIZE, Splice(s1.blocks[addr], o % BSIZE, piece);
    PutOwned(s1.blocks, t1, s1.owner, sb.first, i, bn, addr, data);
    MapFrame(sb, s1.blocks, s1.owner, addr, data);
    WroteOk(s0.blocks, t0, s0.owner, s0.addrs, s1.blocks, t1, s1.owner, s1.addrs, sb.first, i, bn, addr, ext, o, piece);
    KeptOthers(s0.blocks, t0, s0.owner, s1.blocks, s1.owner, sb.first, i, s0.addrs[NDIRECT], addr, bn, data);
    MetaPlaces(sb);
    InodesFrame(sb.inodestart, s1.blocks, s1.blocks[addr := data], ds, sb.bmapstart);
    OnlySlot(s1.blocks, t1, s1.owner, sb.first, i, bn, addr);
    ChargedData(sb, s0, s1, data, i, bn, addr);
  }

  /** The inode block is no block of the file, nor of any other. */
  lemma WriteiMeta(sb: Super, s0: View, t0: seq<seq<nat>>, s1: View, s2: View, tab: seq<seq<nat>>, ds: seq<Dinode>,
                   size: nat, off: nat, src: seq<Byte>, inum: nat)
    requires FsOk(sb, s0.blocks, t0, s0.owner, ds) && FsOk(sb, s1.blocks, tab, s1.owner, ds)
    requires inum < |tab| && tab[inum] == s1.addrs == s2.addrs
    requires Addrs(s0.blocks, s0.addrs) && off + |src| <= MAXFILE * BSIZE && size <= MAXFILE * BSIZE
    requires |s2.blocks| == |s1.blocks| && s2.owner == s1.owner
    requires sb.inodestart + inum / IPB < sb.bmapstart && s2.logged == s1.logged + {sb.inodestart + inum / IPB}
    requires forall x | 0 <= x < |s1.blocks| && x != sb.inodestart + inum / IPB :: s2.blocks[x] == s1.blocks[x]
    requires Journaled(s0.blocks, s1.blocks, s1.logged)
    requires Wrote(s0.blocks, s0.addrs, s1.blocks, s1.addrs, size, off, src)
    requires OthersKept(s0.blocks, s0.owner, s1.blocks, s1.owner, inum)
    ensures Wrote(s0.blocks, s0.addrs, s2.blocks, s2.addrs, size, off, src)
    ensures OthersKept(s0.blocks, s0.owner, s2.blocks, s2.owner, inum)
    ensures Addrs(s2.blocks, s2.addrs) && HoleFree(s2.blocks, s2.addrs, Max(size, off + |src|))
    ensures Journaled(s0.blocks, s2.blocks, s2.logged)
  {
    hide MapOk, InodesOk;
    var a := s1.addrs;
    MetaPlaces(sb);
    OwnedFrame(s1.blocks, tab, s1.owner, sb.first, s2.blocks);
    assert Addrs(s2.blocks, tab[inum]);
    HoleFreeFrame(s1.blocks, s2.blocks, tab, inum, Max(size, off + |src|));
    forall x | 0 <= x < Max(size, off + |src|) ensures ByteAt(s2.blocks, a, x) == ByteAt(s1.blocks, a, x) {
      assert Slot(s2.blocks, tab[inum], x / BSIZE) == Slot(s1.blocks, tab[inum], x / BSIZE);
      assert Slot(s1.blocks, a, x / BSIZE) != 0;
    }
  }

  /** What a write that goes through does: to the bytes of the file, to other files, to the
      inode on disk; which blocks it takes, and exactly what it logs. */
  ghost predicate WriteDone(sb: Super, s0: View, ds0: seq<Dinode>, size0: nat, s: View, ds: seq<Dinode>, size: nat,
                            inum: nat, off: nat, src: seq<Byte>)
  {
    var n, bs := |src|, NewOf(s0.owner, s.owner);
    && Addrs(s0.blocks, s0.addrs) && off <= size0 <= MAXFILE * BSIZE && off + n <= MAXFILE * BSIZE && inum < |ds0|
    && size == Max(size0, off + n) && ds == ds0[inum := Dinode(size, s.addrs)]
    && Wrote(s0.blocks, s0.addrs, s.blocks, s.addrs, size0, off, src)
    && OthersKept(s0.blocks, s0.owner, s.blocks, s.owner, inum)
    && |bs| == Need(size0, off, n) && Lowest(FreeIn(sb, s0.blocks), bs)
    && s.logged == s0.logged + Touched(sb, s0.owner, s.owner, inum, off / BSIZE, off / BSIZE + Span(off, n))
                             + (if off + n > size0 then {sb.inodestart + inum / IPB} else {})
    && Journaled(s0.blocks, s.blocks, s.logged) && Placed(sb, s.logged - s0.logged)
    && (s0.logged == {} ==> |s.logged| == Bill(size0, off, n, |MapsOf(sb, bs)|))
  }

  lemma WriteOk(sb: Super, s0: View, t0: seq<seq<nat>>, ds: seq<Dinode>, s1: View, t1: seq<seq<nat>>, s2: View,
                ds2: seq<Dinode>, size: nat, size2: nat, off: nat, src: seq<Byte>, i: nat)
    requires FsOk(sb, s0.blocks, t0, s0.owner, ds) && FsOk(sb, s1.blocks, t1, s1.owner, ds) && i < |t0| && i < |t1|
    requires t0[i] == s0.addrs && t1[i] == s1.addrs && Addrs(s0.blocks, s0.addrs) && HoleFree(s0.blocks, s0.addrs, size)
    requires Writing(s0, s1, size, off, src, |src|, i)
    requires Charged(sb, s0, s1, i, off / BSIZE, off / BSIZE + Span(off, |src|))
    requires if off + |src| > size then
               && size2 == off + |src| && ds2 == ds[i := Dinode(size2, s1.addrs)] && s2.addrs == s1.addrs
               && s2.owner == s1.owner && |s2.blocks| == |s1.blocks| && sb.inodestart + i / IPB < sb.bmapstart
               && s2.logged == s1.logged + {sb.inodestart + i / IPB}
               && forall x | 0 <= x < |s1.blocks| && x != sb.inodestart + i / IPB :: s2.blocks[x] == s1.blocks[x]
             else s2 == s1 && size2 == size && ds2 == ds && ds[i] == Dinode(size, s0.addrs)
    ensures Need(size, off, |src|) <= |FreeIn(sb, s0.blocks)|
    ensures Addrs(s2.blocks, s2.addrs) && HoleFree(s2.blocks, s2.addrs, size2) && ds2[i] == Dinode(size2, s2.addrs)
    ensures WriteDone(sb, s0, ds, size, s2, ds2, size2, i, off, src)
  {
    hide Owned, MapOk, InodesOk, Touched, Journaled, OthersKept, Wrote, Span, Need, NewOf, FreeIn, Lowest, Bill, MapsOf,
      Charged, HoleFree, Writing, Addrs, Placed;
    NeedMet(sb, s0, t0, s1, t1, ds, size, off, src, i);
    LoggedSum(sb, s0.logged, Touched(sb, s0.owner, s1.owner, i, off / BSIZE, off / BSIZE + Span(off, |src|)),
              if off + |src| > size then {sb.inodestart + i / IPB} else {});
    if off + |src| > size {
      WriteiMeta(sb, s0, t0, s1, s2, t1, ds, size, off, src, i);
    } else {
      assert ds[i := ds[i]] == ds;
    }
  }

  lemma LoggedSum(sb: Super, l0: set<nat>, t: set<nat>, ib: set<nat>)
    requires Placed(sb, t) && forall x | x in ib :: sb.inodestart <= x < sb.size
    ensures Placed(sb, l0 + t + ib - l0) && (l0 == {} ==> l0 + t + ib == t + ib) && (ib == {} ==> l0 + t + ib == l0 + t)
  {
  }

  // ----- how many blocks a write takes -----

  /** Blocks a write of n bytes at off adds to a file of that size. */
  function Need(size: nat, off: nat, n: nat): int
  {
    Count(size, off, n) + if size <= NDIRECT * BSIZE < off + n then 1 else 0
  }

  /** The slots that get them. */
  ghost function Gained(size: nat, off: nat, n: nat): set<nat>
  {
    Range(NBlocks(size), NBlocks(Max(size, off + n)))
    + if size <= NDIRECT * BSIZE < off + n then {INDIRECT} else {}
  }

  function Range(lo: nat, hi: nat): (r: set<nat>)
    ensures |r| == (if lo <= hi then hi - lo else 0) && forall k :: k in r <==> lo <= k < hi
    decreases hi
  {
    if hi <= lo then {} else Range(lo, hi - 1) + {hi - 1}
  }

  lemma GainedCard(size: nat, off: nat, n: nat)
    requires off + n <= MAXFILE * BSIZE && size <= MAXFILE * BSIZE
    ensures |Gained(size, off, n)| == Need(size, off, n)
  {
    assert NBlocks(Max(size, off + n)) <= MAXFILE;
  }

  /** The slots of some blocks. */
  ghost function SlotsOf(o: map<nat, Ref>, bs: set<nat>): set<nat>
  {
    set b | b in bs && b in o :: o[b].slot
  }

  lemma {:induction false} SlotsCard(o: map<nat, Ref>, bs: set<nat>)
    requires forall b | b in bs :: b in o
    requires forall b, c | b in bs && c in bs && o[b].slot == o[c].slot :: b == c
    ensures |SlotsOf(o, bs)| == |bs|
  {
    if bs != {} {
      var b :| b in bs;
      SlotsCard(o, bs - {b});
      assert SlotsOf(o, bs) == SlotsOf(o, bs - {b}) + {o[b].slot};
    }
  }

  ghost function FreeIn(sb: Super, blocks: seq<Block>): set<nat>
  {
    set b | 0 <= b < sb.size && sb.BBlock(b) < |blocks| && !BitAt(sb, blocks, b)
  }

  lemma FreeOf(sb: Super, blocks: seq<Block>, owner: map<nat, Ref>)
    requires MapOk(sb, blocks, owner)
    ensures FreeIn(sb, blocks) == set b | sb.first <= b < sb.size && b !in owner
  {
    forall b | 0 <= b < sb.size ensures sb.BBlock(b) < |blocks| {
      assert sb.BBlock(b) < sb.first;
    }
  }

  /** The new blocks of one file are in the slots that were empty, one in each. */
  lemma NewCard(b0: seq<Block>, t0: seq<seq<nat>>, o0: map<nat, Ref>, b1: seq<Block>, t1: seq<seq<nat>>, o1: map<nat,
                Ref>,
                first: nat, i: nat)
    requires Owned(b0, t0, o0, first) && Owned(b1, t1, o1, first) && i < |t0| && i < |t1|
    requires forall x | x in o0 :: x in o1 && o1[x] == o0[x]
    requires forall b | b in o1 && b !in o0 :: o1[b].inum == i
    ensures |NewOf(o0, o1)| == |SlotsOf(o1, NewOf(o0, o1))| && Addrs(b0, t0[i]) && Addrs(b1, t1[i])
    ensures forall k | k in SlotsOf(o1, NewOf(o0, o1)) ::
              k <= INDIRECT && Slot(b0, t0[i], k) == 0 && Slot(b1, t1[i], k) != 0
  {
    var bs := NewOf(o0, o1);
    forall b | b in bs
      ensures o1[b].slot <= INDIRECT && Slot(b0, t0[i], o1[b].slot) == 0 && Slot(b1, t1[i], o1[b].slot) == b != 0
    {
      assert Slot(b1, t1[i], o1[b].slot) == b;
    }
    SlotsCard(o1, bs);
  }

  lemma NewSlot(b0: seq<Block>, t0: seq<seq<nat>>, o0: map<nat, Ref>, b1: seq<Block>, t1: seq<seq<nat>>, o1: map<nat,
                Ref>,
                first: nat, i: nat, k: nat)
    requires Owned(b0, t0, o0, first) && Owned(b1, t1, o1, first) && i < |t0| && i < |t1| && k <= INDIRECT
    requires forall x | x in o0 :: x in o1 && o1[x] == o0[x]
    requires Addrs(b0, t0[i]) && Addrs(b1, t1[i]) && Slot(b0, t0[i], k) == 0 && Slot(b1, t1[i], k) != 0
    ensures k in SlotsOf(o1, NewOf(o0, o1))
  {
    var b := Slot(b1, t1[i], k);
    assert b in o1 && o1[b] == Ref(i, k);
    assert b !in o0;
  }

  lemma GainedSlot(b0: seq<Block>, a0: seq<nat>, b1: seq<Block>, a1: seq<nat>, size: nat, off: nat, n: nat, k: nat)
    requires Addrs(b0, a0) && HoleFree(b0, a0, size) && Addrs(b1, a1) && HoleFree(b1, a1, Max(size, off + n))
    requires off + n <= MAXFILE * BSIZE
    ensures k in Gained(size, off, n) <==> k <= INDIRECT && Slot(b0, a0, k) == 0 && Slot(b1, a1, k) != 0
  {
    assert NBlocks(Max(size, off + n)) <= MAXFILE;
    assert Slot(b0, a0, INDIRECT) == a0[NDIRECT] && Slot(b1, a1, INDIRECT) == a1[NDIRECT];
    if k < MAXFILE {
      assert Slot(b0, a0, k) != 0 <==> k * BSIZE < size;
      assert Slot(b1, a1, k) != 0 <==> k * BSIZE < Max(size, off + n);
    }
  }

  /** A write that went through has taken exactly the slots it had to. */
  lemma NewExactly(b0: seq<Block>, t0: seq<seq<nat>>, o0: map<nat, Ref>, b1: seq<Block>, t1: seq<seq<nat>>,
                   o1: map<nat, Ref>,
                   first: nat, i: nat, size: nat, off: nat, n: nat)
    requires Owned(b0, t0, o0, first) && Owned(b1, t1, o1, first) && i < |t0| && i < |t1|
    requires forall x | x in o0 :: x in o1 && o1[x] == o0[x]
    requires forall b | b in o1 && b !in o0 :: o1[b].inum == i
    requires Addrs(b0, t0[i]) && HoleFree(b0, t0[i], size) && Addrs(b1, t1[i])
             && HoleFree(b1, t1[i], Max(size, off + n))
    requires off + n <= MAXFILE * BSIZE
    ensures SlotsOf(o1, NewOf(o0, o1)) == Gained(size, off, n)
    ensures |NewOf(o0, o1)| == Need(size, off, n)
  {
    hide Owned, HoleFree, Slot, Gained, SlotsOf, Need;
    NewCard(b0, t0, o0, b1, t1, o1, first, i);
    var ks := SlotsOf(o1, NewOf(o0, o1));
    forall k: nat ensures k in ks <==> k in Gained(size, off, n) {
      GainedSlot(b0, t0[i], b1, t1[i], size, off, n, k);
      if k in Gained(size, off, n) { NewSlot(b0, t0, o0, b1, t1, o1, first, i, k); }
    }
    GainedSize(b0, t0[i], size);
    GainedCard(size, off, n);
  }

  lemma GainedSize(b0: seq<Block>, a0: seq<nat>, size: nat)
    requires Addrs(b0, a0) && HoleFree(b0, a0, size)
    ensures size <= MAXFILE * BSIZE
  {
  }

  /** Why writei stopped: slot bn is still empty, and the blocks taken since o0 are for slots before it. */
  ghost predicate StoppedAt(o0: map<nat, Ref>, o: map<nat, Ref>, inum: nat, off: nat, n: nat, bn: nat)
  {
    && off / BSIZE <= bn && bn * BSIZE < off + n && Unowned(o, Ref(inum, bn))
    && (forall x | x in o0 :: x in o && o[x] == o0[x])
    && (forall b | b in o && b !in o0 ::
          o[b].inum == inum && (o[b].slot < bn || (o[b].slot == INDIRECT && NDIRECT <= bn)))
  }

  ghost predicate Stopped(o0: map<nat, Ref>, o: map<nat, Ref>, inum: nat, off: nat, n: nat)
  {
    exists bn :: StoppedAt(o0, o, inum, off, n, bn)
  }

  lemma StoppedHere(sb: Super, s0: View, s1: View, s2: View, inum: nat, off: nat, n: nat, tot: nat)
    requires tot < n && (tot > 0 ==> (off + tot) % BSIZE == 0) && (off + tot) / BSIZE < MAXFILE
    requires Charged(sb, s0, s1, inum, off / BSIZE, (off + tot) / BSIZE)
    requires Charged(sb, s1, s2, inum, (off + tot) / BSIZE, (off + tot) / BSIZE)
    requires Unowned(s2.owner, Ref(inum, (off + tot) / BSIZE))
    ensures Stopped(s0.owner, s2.owner, inum, off, n)
  {
    var bn := (off + tot) / BSIZE;
    assert bn * BSIZE <= off + tot;
    forall b | b in s2.owner && b !in s0.owner
      ensures s2.owner[b].inum == inum && (s2.owner[b].slot < bn || (s2.owner[b].slot == INDIRECT && NDIRECT <= bn))
    {
      assert s2.owner[b] != Ref(inum, bn);
    }
    assert StoppedAt(s0.owner, s2.owner, inum, off, n, bn);
  }

  /** A write panics only for want of blocks. */
  lemma NeedMissed(sb: Super, s0: View, t0: seq<seq<nat>>, s1: View, t1: seq<seq<nat>>, ds: seq<Dinode>,
                   size: nat, off: nat, n: nat, i: nat)
    requires FsOk(sb, s0.blocks, t0, s0.owner, ds) && FsOk(sb, s1.blocks, t1, s1.owner, ds) && i < |t0|
    requires i < |t1| && t0[i] == s0.addrs && Addrs(s0.blocks, s0.addrs) && HoleFree(s0.blocks, s0.addrs, size)
    requires off <= size && off + n <= MAXFILE * BSIZE
    requires Stopped(s0.owner, s1.owner, i, off, n)
    requires forall x | 0 <= x < sb.size && sb.BBlock(x) < |s1.blocks| :: BitAt(sb, s1.blocks, x)
    ensures Need(size, off, n) > |FreeIn(sb, s0.blocks)|
  {
    hide Owned, MapOk, InodesOk, BitAt;
    var bn :| StoppedAt(s0.owner, s1.owner, i, off, n, bn);
    var bs := NewOf(s0.owner, s1.owner);
    AllTaken(sb, s0.blocks, s0.owner, s1.blocks, s1.owner);
    NewCard(s0.blocks, t0, s0.owner, s1.blocks, t1, s1.owner, sb.first, i);
    WasEmpty(s0.blocks, t0, s0.owner, s1.owner, sb.first, i, bn);
    StoppedSlots(s0.blocks, s0.addrs, s0.owner, s1.owner, size, off, n, i, bn);
    GainedCard(size, off, n);
    SubsetCard(SlotsOf(s1.owner, bs), Gained(size, off, n) - {bn});
  }

  lemma AllTaken(sb: Super, b0: seq<Block>, o0: map<nat, Ref>, b1: seq<Block>, o1: map<nat, Ref>)
    requires MapOk(sb, b0, o0) && MapOk(sb, b1, o1)
    requires forall x | 0 <= x < sb.size && sb.BBlock(x) < |b1| :: BitAt(sb, b1, x)
    ensures |FreeIn(sb, b0)| <= |NewOf(o0, o1)|
  {
    FreeOf(sb, b0, o0);
    FreeOf(sb, b1, o1);
    forall b | b in FreeIn(sb, b0) ensures b in NewOf(o0, o1) {
      assert b !in FreeIn(sb, b1);
    }
    SubsetCard(FreeIn(sb, b0), NewOf(o0, o1));
  }

  lemma WasEmpty(b0: seq<Block>, t0: seq<seq<nat>>, o0: map<nat, Ref>, o1: map<nat, Ref>, first: nat, i: nat, k: nat)
    requires Owned(b0, t0, o0, first) && i < |t0| && k < MAXFILE && Unowned(o1, Ref(i, k))
    requires forall x | x in o0 :: x in o1 && o1[x] == o0[x]
    ensures Addrs(b0, t0[i]) && Slot(b0, t0[i], k) == 0
  {
    assert Addrs(b0, t0[i]);
  }

  lemma StoppedSlots(b0: seq<Block>, a0: seq<nat>, o0: map<nat, Ref>, o1: map<nat, Ref>, size: nat, off: nat, n: nat,
                     i: nat, bn: nat)
    requires StoppedAt(o0, o1, i, off, n, bn) && Addrs(b0, a0) && HoleFree(b0, a0, size)
    requires off + n <= MAXFILE * BSIZE && off <= size && bn < MAXFILE && Slot(b0, a0, bn) == 0
    requires forall k | k in SlotsOf(o1, NewOf(o0, o1)) :: k <= INDIRECT && Slot(b0, a0, k) == 0
    ensures SlotsOf(o1, NewOf(o0, o1)) <= Gained(size, off, n) - {bn} && bn in Gained(size, off, n)
  {
  }

  /** A write that goes through found the blocks it needed. */
  lemma NeedMet(sb: Super, s0: View, t0: seq<seq<nat>>, s1: View, t1: seq<seq<nat>>, ds: seq<Dinode>,
                size: nat, off: nat, src: seq<Byte>, i: nat)
    requires FsOk(sb, s0.blocks, t0, s0.owner, ds) && FsOk(sb, s1.blocks, t1, s1.owner, ds) && i < |t0| && i < |t1|
    requires t0[i] == s0.addrs && t1[i] == s1.addrs && Addrs(s0.blocks, s0.addrs) && HoleFree(s0.blocks, s0.addrs, size)
    requires Writing(s0, s1, size, off, src, |src|, i)
    requires Charged(sb, s0, s1, i, off / BSIZE, off / BSIZE + Span(off, |src|))
    ensures Need(size, off, |src|) <= |FreeIn(sb, s0.blocks)|
    ensures Addrs(s1.blocks, s1.addrs) && off <= size <= MAXFILE * BSIZE && off + |src| <= MAXFILE * BSIZE
    ensures Wrote(s0.blocks, s0.addrs, s1.blocks, s1.addrs, size, off, src)
    ensures OthersKept(s0.blocks, s0.owner, s1.blocks, s1.owner, i)
    ensures HoleFree(s1.blocks, s1.addrs, Max(size, off + |src|)) && (off + |src| <= size ==> s1.addrs == s0.addrs)
    ensures s1.logged == s0.logged + Touched(sb, s0.owner, s1.owner, i, off / BSIZE, off / BSIZE + Span(off, |src|))
    ensures var bs := NewOf(s0.owner, s1.owner);
            && |bs| == Need(size, off, |src|) && Lowest(FreeIn(sb, s0.blocks), bs)
            && Journaled(s0.blocks, s1.blocks, s1.logged) && sb.inodestart + i / IPB < sb.size
            && Placed(sb, Touched(sb, s0.owner, s1.owner, i, off / BSIZE, off / BSIZE + Span(off, |src|)))
            && |Touched(sb, s0.owner, s1.owner, i, off / BSIZE, off / BSIZE + Span(off, |src|))
                + (if off + |src| > size then {sb.inodestart + i / IPB} else {})| == Bill(size, off, |src|,
                    |MapsOf(sb, bs)|)
  {
    hide Owned, MapOk, InodesOk, Touched, Packed, Journaled, OthersKept, Span, Need, NewOf, FreeIn, Lowest, Bill,
        MapsOf;
    assert src[..|src|] == src;
    NewExactly(s0.blocks, t0, s0.owner, s1.blocks, t1, s1.owner, sb.first, i, size, off, |src|);
    NewWereFree(sb, s0.blocks, s0.owner, s1.blocks, t1, s1.owner);
    LoggedCard(sb, s0, t0, s1, t1, ds, size, off, |src|, i);
    LoggedPlaces(sb, s0.owner, s1.blocks, t1, s1.owner, ds, i, off / BSIZE, off / BSIZE + Span(off, |src|));
  }

  lemma LoggedPlaces(sb: Super, o0: map<nat, Ref>, blocks: seq<Block>, tab: seq<seq<nat>>, owner: map<nat, Ref>,
                     ds: seq<Dinode>, i: nat, k0: nat, k1: nat)
    requires FsOk(sb, blocks, tab, owner, ds) && i < |tab|
    ensures Placed(sb, Touched(sb, o0, owner, i, k0, k1))
    ensures sb.inodestart + i / IPB < sb.size
  {
    hide Owned, MapOk, InodesOk, NewListed, MapsOf;
    OwnedPlaces(blocks, tab, owner, sb.first);
    MapsPlaces(sb, NewOf(o0, owner));
    MetaPlaces(sb);
    assert i / IPB <= |tab| / IPB;
  }

  lemma MapsPlaces(sb: Super, bs: set<nat>)
    requires sb.Sound() && forall b | b in bs :: b < sb.size
    ensures forall x | x in MapsOf(sb, bs) :: sb.bmapstart <= x < sb.first
  {
    forall x | x in MapsOf(sb, bs) ensures sb.bmapstart <= x < sb.first {
      var b :| b in bs && x == sb.BBlock(b);
      assert b < sb.size;
    }
  }

  /** bs are the lowest of the free blocks. */
  ghost predicate Lowest(free: set<nat>, bs: set<nat>)
  {
    bs <= free && forall b, x | b in bs && x in free && x < b :: x in bs
  }

  /** How many they are decides which. */
  lemma LowestUnique(free: set<nat>, a: set<nat>, b: set<nat>)
    requires Lowest(free, a) && Lowest(free, b) && |a| == |b|
    ensures a == b
  {
    if x :| x in a && x !in b {
      if y :| y in b && y !in a {
        assert false;
      } else {
        SubsetCard(b, a - {x});
      }
    } else {
      SubsetCard(a, b);
      if y :| y in b && y !in a { SubsetCard(a, b - {y}); }
    }
  }

  lemma NewWereFree(sb: Super, b0: seq<Block>, o0: map<nat, Ref>, b1: seq<Block>, t1: seq<seq<nat>>, o1: map<nat, Ref>)
    requires MapOk(sb, b0, o0) && MapOk(sb, b1, o1) && Owned(b1, t1, o1, sb.first) && Packed(o0, o1, sb.first)
    ensures Lowest(FreeIn(sb, b0), NewOf(o0, o1)) && |NewOf(o0, o1)| <= |FreeIn(sb, b0)|
  {
    FreeOf(sb, b0, o0);
    SubsetCard(NewOf(o0, o1), FreeIn(sb, b0));
  }

  /** Data, free-map, indirect and inode blocks are different blocks. */
  lemma LoggedCard(sb: Super, s0: View, t0: seq<seq<nat>>, s1: View, t1: seq<seq<nat>>, ds: seq<Dinode>,
                   size: nat, off: nat, n: nat, i: nat)
    requires FsOk(sb, s0.blocks, t0, s0.owner, ds) && FsOk(sb, s1.blocks, t1, s1.owner, ds) && i < |t0| && i < |t1|
    requires t0[i] == s0.addrs && t1[i] == s1.addrs && Addrs(s0.blocks, s0.addrs) && HoleFree(s0.blocks, s0.addrs, size)
    requires Addrs(s1.blocks, s1.addrs) && HoleFree(s1.blocks, s1.addrs, Max(size, off + n))
    requires off <= size && off + n <= MAXFILE * BSIZE
    requires SlotsOf(s1.owner, NewOf(s0.owner, s1.owner)) == Gained(size, off, n)
    requires forall b | b in s1.owner && b !in s0.owner :: s1.owner[b].inum == i
    ensures |Touched(sb, s0.owner, s1.owner, i, off / BSIZE, off / BSIZE + Span(off, n))
             + (if off + n > size then {sb.inodestart + i / IPB} else {})|
            == Bill(size, off, n, |MapsOf(sb, NewOf(s0.owner, s1.owner))|)
  {
    hide Owned, MapOk, InodesOk, Gained, Need, NewOf, MapsOf, Touched, SlotsOf, HoleFree, Span, DataOf, IndirectIn,
        Addrs;
    var k0, k1 := off / BSIZE, off / BSIZE + Span(off, n);
    var maps := MapsOf(sb, NewOf(s0.owner, s1.owner));
    var data, ind := DataOf(s1.owner, i, k0, k1), IndirectIn(s0.owner, s1.owner, i);
    var inode := if off + n > size then {sb.inodestart + i / IPB} else {};
    DataCard(s1.blocks, t1, s1.owner, sb.first, i, size, off, n);
    IndirectCard(sb, s0, s1, t1, ds, i, size, off, n);
    TouchedParts(sb, s0.owner, s1.owner, i, size, off, n);
    SpanFits(off, n);
    LoggedApart(sb, s0.owner, s1.blocks, t1, s1.owner, ds, i, k0, k1);
    ApartCard(data, ind, maps, inode);
  }

  lemma ApartCard(a: set<nat>, b: set<nat>, c: set<nat>, d: set<nat>)
    requires a !! b && a + b !! c && a + b + c !! d
    ensures |a + b + c + d| == |a| + |b| + |c| + |d|
  {
  }

  /** The indirect block, if it gets an entry. */
  ghost function IndirectIn(o0: map<nat, Ref>, o: map<nat, Ref>, inum: nat): set<nat>
  {
    set b | b in o && o[b] == Ref(inum, INDIRECT) && NewListed(o0, o)
  }

  lemma DataCard(blocks: seq<Block>, tab: seq<seq<nat>>, owner: map<nat, Ref>, first: nat, i: nat,
                 size: nat, off: nat, n: nat)
    requires Owned(blocks, tab, owner, first) && i < |tab| && Addrs(blocks, tab[i])
    requires HoleFree(blocks, tab[i], Max(size, off + n)) && off + n <= MAXFILE * BSIZE
    ensures |DataOf(owner, i, off / BSIZE, off / BSIZE + Span(off, n))| == Span(off, n)
  {
    hide Owned, Addrs, Slot, HoleFree, Span, DataOf;
    var k0, k1 := off / BSIZE, off / BSIZE + Span(off, n);
    forall k | k0 <= k < k1 ensures k in SlotsOf(owner, DataOf(owner, i, k0, k1)) {
      SpanSlot(blocks, tab[i], size, off, n, k);
      InData(blocks, tab, owner, first, i, k0, k1, k);
    }
    DataSlots(blocks, tab, owner, first, i, k0, k1);
    assert SlotsOf(owner, DataOf(owner, i, k0, k1)) == Range(k0, k1);
  }

  lemma InData(blocks: seq<Block>, tab: seq<seq<nat>>, owner: map<nat, Ref>, first: nat, i: nat, k0: nat, k1: nat,
               k: nat)
    requires Owned(blocks, tab, owner, first) && i < |tab| && Addrs(blocks, tab[i])
    requires k0 <= k < k1 && k < MAXFILE && Slot(blocks, tab[i], k) != 0
    ensures k in SlotsOf(owner, DataOf(owner, i, k0, k1))
  {
    assert Slot(blocks, tab[i], k) in DataOf(owner, i, k0, k1);
  }

  lemma DataSlots(blocks: seq<Block>, tab: seq<seq<nat>>, owner: map<nat, Ref>, first: nat, i: nat, k0: nat, k1: nat)
    requires Owned(blocks, tab, owner, first) && i < |tab|
    ensures |SlotsOf(owner, DataOf(owner, i, k0, k1))| == |DataOf(owner, i, k0, k1)|
    ensures forall k | k in SlotsOf(owner, DataOf(owner, i, k0, k1)) :: k0 <= k < k1
  {
    hide Slot;
    SlotsCard(owner, DataOf(owner, i, k0, k1));
  }

  lemma SpanSlot(blocks: seq<Block>, a: seq<nat>, size: nat, off: nat, n: nat, k: nat)
    requires Addrs(blocks, a) && HoleFree(blocks, a, Max(size, off + n)) && off + n <= MAXFILE * BSIZE
    requires off / BSIZE <= k < off / BSIZE + Span(off, n)
    ensures k < MAXFILE && Slot(blocks, a, k) != 0
  {
    assert k * BSIZE < off + n;
  }

  lemma IndirectCard(sb: Super, s0: View, s1: View, tab: seq<seq<nat>>, ds: seq<Dinode>, i: nat, size: nat, off: nat,
                     n: nat)
    requires FsOk(sb, s1.blocks, tab, s1.owner, ds) && i < |tab| && Addrs(s1.blocks, tab[i])
    requires HoleFree(s1.blocks, tab[i], Max(size, off + n)) && off + n <= MAXFILE * BSIZE
    requires SlotsOf(s1.owner, NewOf(s0.owner, s1.owner)) == Gained(size, off, n)
    ensures |IndirectIn(s0.owner, s1.owner, i)| == if NBlocks(off + n) > Max(NBlocks(size), NDIRECT) then 1 else 0
  {
    hide MapOk, InodesOk, HoleFree, SlotsOf, Gained;
    ListedGained(s0.owner, s1.owner, size, off, n);
    if NewListed(s0.owner, s1.owner) {
      HasIndirect(s1.blocks, tab[i], Max(size, off + n));
      OnlyIndirect(s1.blocks, tab, s1.owner, sb.first, i);
      assert IndirectIn(s0.owner, s1.owner, i) == {tab[i][NDIRECT]};
    } else {
      assert IndirectIn(s0.owner, s1.owner, i) == {};
    }
  }

  lemma HasIndirect(blocks: seq<Block>, a: seq<nat>, ext: nat)
    requires Addrs(blocks, a) && HoleFree(blocks, a, ext) && NBlocks(ext) > NDIRECT
    ensures a[NDIRECT] != 0
  {
  }

  lemma ListedGained(o0: map<nat, Ref>, o: map<nat, Ref>, size: nat, off: nat, n: nat)
    requires SlotsOf(o, NewOf(o0, o)) == Gained(size, off, n) && off + n <= MAXFILE * BSIZE
    ensures NewListed(o0, o) <==> NBlocks(off + n) > Max(NBlocks(size), NDIRECT)
    ensures NewListed(o0, o) ==> NBlocks(Max(size, off + n)) > NDIRECT
  {
    var k := Max(NBlocks(size), NDIRECT);
    if NewListed(o0, o) {
      var c :| c in o && c !in o0 && NDIRECT <= o[c].slot < INDIRECT;
      assert o[c].slot in SlotsOf(o, NewOf(o0, o));
    }
    if NBlocks(off + n) > k {
      assert k in Gained(size, off, n) && k < INDIRECT;
      var c :| c in NewOf(o0, o) && c in o && o[c].slot == k;
    }
  }

  lemma TouchedParts(sb: Super, o0: map<nat, Ref>, o: map<nat, Ref>, i: nat, size: nat, off: nat, n: nat)
    requires SlotsOf(o, NewOf(o0, o)) == Gained(size, off, n) && off <= size && off + n <= MAXFILE * BSIZE
    requires forall b | b in o && b !in o0 :: o[b].inum == i
    ensures Touched(sb, o0, o, i, off / BSIZE, off / BSIZE + Span(off, n)) ==
              DataOf(o, i, off / BSIZE, off / BSIZE + Span(off, n)) + IndirectIn(o0, o, i) + MapsOf(sb, NewOf(o0, o))
  {
    hide Gained, MapsOf, Span, NewListed;
    var k0, k1 := off / BSIZE, off / BSIZE + Span(off, n);
    ListedGained(o0, o, size, off, n);
    forall b | b in NewOf(o0, o) ensures b in DataOf(o, i, k0, k1) || b in IndirectIn(o0, o, i) {
      assert o[b].slot in SlotsOf(o, NewOf(o0, o));
      GainedSpan(size, off, n, o[b].slot);
    }
  }

  lemma GainedSpan(size: nat, off: nat, n: nat, k: nat)
    requires k in Gained(size, off, n) && off <= size && off + n <= MAXFILE * BSIZE
    ensures if k == INDIRECT then NBlocks(off + n) > Max(NBlocks(size), NDIRECT)
            else off / BSIZE <= k < off / BSIZE + Span(off, n)
  {
    assert NBlocks(off + n) <= MAXFILE;
  }

  lemma LoggedApart(sb: Super, o0: map<nat, Ref>, blocks: seq<Block>, tab: seq<seq<nat>>, owner: map<nat, Ref>,
                    ds: seq<Dinode>, i: nat, k0: nat, k1: nat)
    requires FsOk(sb, blocks, tab, owner, ds) && i < |tab| && k1 <= MAXFILE
    ensures DataOf(owner, i, k0, k1) !! IndirectIn(o0, owner, i)
    ensures DataOf(owner, i, k0, k1) + IndirectIn(o0, owner, i) !! MapsOf(sb, NewOf(o0, owner))
    ensures sb.inodestart + i / IPB !in
              DataOf(owner, i, k0, k1) + IndirectIn(o0, owner, i) + MapsOf(sb, NewOf(o0, owner))
  {
    hide MapOk, InodesOk;
    OwnedPlaces(blocks, tab, owner, sb.first);
    MetaPlaces(sb);
    assert i / IPB <= |tab| / IPB;
    MapsPlaces(sb, NewOf(o0, owner));
  }

  // ----- exactly what is logged -----

  /** The blocks a write through slots k0 to k1 of an inode hands to log_write, from who
      owned what before and after: the data blocks, the new blocks, their free-map blocks
      and, if it gets an entry, the indirect block. */
  ghost function Touched(sb: Super, o0: map<nat, Ref>, o: map<nat, Ref>, inum: nat, k0: nat, k1: nat): set<nat>
  {
    DataOf(o, inum, k0, k1)
    + NewOf(o0, o) + MapsOf(sb, NewOf(o0, o))
    + IndirectIn(o0, o, inum)
  }

  /** The blocks in slots k0 to k1. */
  function DataOf(o: map<nat, Ref>, inum: nat, k0: nat, k1: nat): set<nat>
  {
    set b | b in o && o[b].inum == inum && k0 <= o[b].slot < k1
  }

  function NewOf(o0: map<nat, Ref>, o: map<nat, Ref>): set<nat>
  {
    set b | b in o && b !in o0
  }

  /** The free-map blocks with the bits of these blocks. */
  function MapsOf(sb: Super, bs: set<nat>): set<nat>
  {
    set b | b in bs :: sb.BBlock(b)
  }

  lemma {:induction false} MapsCard(sb: Super, bs: set<nat>)
    ensures |MapsOf(sb, bs)| <= |bs|
  {
    if bs != {} {
      var b :| b in bs;
      MapsCard(sb, bs - {b});
      assert MapsOf(sb, bs) == MapsOf(sb, bs - {b}) + {sb.BBlock(b)};
    }
  }

  predicate NewListed(o0: map<nat, Ref>, o: map<nat, Ref>)
  {
    exists c | c in o :: c !in o0 && NDIRECT <= o[c].slot < INDIRECT
  }

  /** Blocks are taken lowest first. */
  ghost predicate Packed(o0: map<nat, Ref>, o: map<nat, Ref>, first: nat)
  {
    forall b, x | b in o && b !in o0 && first <= x < b :: x in o
  }

  /** Every block that has changed has been logged. */
  ghost predicate Journaled(b0: seq<Block>, b: seq<Block>, logged: set<nat>)
  {
    |b| == |b0| && forall x | 0 <= x < |b| && b[x] != b0[x] :: x in logged
  }

  /** What is logged, which blocks are new and that nothing is given up, between s0 and s. */
  ghost predicate Charged(sb: Super, s0: View, s: View, inum: nat, k0: nat, k1: nat)
  {
    && s.logged == s0.logged + Touched(sb, s0.owner, s.owner, inum, k0, k1)
    && (forall x | x in s0.owner :: x in s.owner && s.owner[x] == s0.owner[x])
    && (forall b | b in s.owner && b !in s0.owner ::
          s.owner[b].inum == inum && (k0 <= s.owner[b].slot <= k1 || (s.owner[b].slot == INDIRECT && k1 >= NDIRECT)))
    && Packed(s0.owner, s.owner, sb.first) && Journaled(s0.blocks, s.blocks, s.logged)
  }

  lemma ChargedNone(sb: Super, s: View, inum: nat, k: nat)
    ensures Charged(sb, s, s, inum, k, k)
  {
  }

  lemma AttachCharged(sb: Super, s: View, blocks: seq<Block>, a: seq<nat>, inum: nat, k: nat, b: nat)
    requires MapOk(sb, s.blocks, s.owner) && sb.first <= b < sb.size && b !in s.owner && (k < NDIRECT || k == INDIRECT)
    requires forall x | 0 <= x < b :: BitAt(sb, s.blocks, x)
    requires blocks == Mark(sb, s.blocks, b, true)[b := ZeroBlock()]
    ensures Charged(sb, s, View(blocks, a, s.owner[b := Ref(inum, k)], s.logged + {b, sb.BBlock(b)}), inum, k, k)
  {
    var o := s.owner[b := Ref(inum, k)];
    assert NewOf(s.owner, o) == {b};
    assert MapsOf(sb, {b}) == {sb.BBlock(b)};
    assert !NewListed(s.owner, o);
    assert Touched(sb, s.owner, o, inum, k, k) == {b, sb.BBlock(b)};
  }

  /** Inode i has one indirect block. */
  lemma OnlyIndirect(blocks: seq<Block>, tab: seq<seq<nat>>, owner: map<nat, Ref>, first: nat, i: nat)
    requires Owned(blocks, tab, owner, first) && i < |tab| && tab[i][NDIRECT] != 0
    ensures tab[i][NDIRECT] in owner && owner[tab[i][NDIRECT]] == Ref(i, INDIRECT)
    ensures forall b | b in owner && owner[b] == Ref(i, INDIRECT) :: b == tab[i][NDIRECT]
  {
    assert Slot(blocks, tab[i], INDIRECT) == tab[i][NDIRECT];
  }

  predicate Unowned(owner: map<nat, Ref>, r: Ref)
  {
    forall b | b in owner :: owner[b] != r
  }

  lemma EmptySlot(blocks: seq<Block>, tab: seq<seq<nat>>, owner: map<nat, Ref>, first: nat, i: nat, k: nat)
    requires Owned(blocks, tab, owner, first) && i < |tab| && k <= INDIRECT && Addrs(blocks, tab[i])
    requires Slot(blocks, tab[i], k) == 0
    ensures Unowned(owner, Ref(i, k))
  {
  }

  lemma OnlySlot(blocks: seq<Block>, tab: seq<seq<nat>>, owner: map<nat, Ref>, first: nat, i: nat, k: nat, addr: nat)
    requires Owned(blocks, tab, owner, first) && i < |tab| && addr in owner && owner[addr] == Ref(i, k)
    ensures forall b | b in owner && owner[b] == Ref(i, k) :: b == addr
  {
  }

  lemma ListedCharged(sb: Super, s: View, w: Block, inum: nat, k: nat, b: nat, x: nat)
    requires MapOk(sb, s.blocks, s.owner) && sb.first <= b < sb.size && b !in s.owner && NDIRECT <= k < INDIRECT
    requires forall y | 0 <= y < b :: BitAt(sb, s.blocks, y)
    requires x in s.owner && s.owner[x] == Ref(inum, INDIRECT) && x < sb.size
    requires forall c | c in s.owner && s.owner[c] == Ref(inum, INDIRECT) :: c == x
    ensures var blocks := Mark(sb, s.blocks, b, true)[b := ZeroBlock()][x := w];
            Charged(sb, s, View(blocks, s.addrs, s.owner[b := Ref(inum, k)], s.logged + {b, sb.BBlock(b)} + {x}),
                    inum, k, k)
  {
    var o := s.owner[b := Ref(inum, k)];
    assert NewOf(s.owner, o) == {b};
    assert MapsOf(sb, {b}) == {sb.BBlock(b)};
    assert b in o && NewListed(s.owner, o);
    assert IndirectIn(s.owner, o, inum) == {x};
    assert Touched(sb, s.owner, o, inum, k, k) == {b, sb.BBlock(b), x};
  }

  /** The charge for the indirect block itself. */
  lemma ChargedIndirect(sb: Super, s0: View, s: View, inum: nat, bn: nat)
    requires Charged(sb, s0, s, inum, INDIRECT, INDIRECT) && NDIRECT <= bn
    ensures Charged(sb, s0, s, inum, bn, bn)
  {
  }

  /** The indirect block and then its entry, or an entry alone. */
  lemma ChargedBoth(sb: Super, s0: View, s1: View, s2: View, inum: nat, bn: nat)
    requires Charged(sb, s0, s1, inum, bn, bn) && Charged(sb, s1, s2, inum, bn, bn) && bn <= INDIRECT
    ensures Charged(sb, s0, s2, inum, bn, bn)
  {
    hide Touched, Packed, Journaled;
    TouchedJoin(sb, s0.owner, s1.owner, s2.owner, inum, bn, bn, bn);
    PackedThen(s0.owner, s1.owner, s2.owner, sb.first);
    JournaledThen(s0.blocks, s1.blocks, s2.blocks, s1.logged, s2.logged);
  }

  /** The data block on top. */
  lemma ChargedData(sb: Super, s0: View, s: View, data: Block, inum: nat, bn: nat, addr: nat)
    requires Charged(sb, s0, s, inum, bn, bn) && addr in s.owner && s.owner[addr] == Ref(inum, bn) && addr < |s.blocks|
    requires forall b | b in s.owner && s.owner[b] == Ref(inum, bn) :: b == addr
    ensures Charged(sb, s0, s.(blocks := s.blocks[addr := data], logged := s.logged + {addr}), inum, bn, bn + 1)
  {
    hide Touched, Packed;
    TouchedData(sb, s0.owner, s.owner, inum, bn, addr);
  }

  lemma TouchedData(sb: Super, o0: map<nat, Ref>, o: map<nat, Ref>, inum: nat, bn: nat, addr: nat)
    requires addr in o && o[addr] == Ref(inum, bn) && forall b | b in o && o[b] == Ref(inum, bn) :: b == addr
    ensures Touched(sb, o0, o, inum, bn, bn + 1) == Touched(sb, o0, o, inum, bn, bn) + {addr}
  {
    hide NewOf, MapsOf, NewListed;
    assert DataOf(o, inum, bn, bn + 1) == {addr};
    assert DataOf(o, inum, bn, bn) == {};
  }

  /** Charges for consecutive slots add up. */
  lemma TouchedJoin(sb: Super, o0: map<nat, Ref>, o1: map<nat, Ref>, o2: map<nat, Ref>, inum: nat, k0: nat, k1: nat,
                    k2: nat)
    requires k0 <= k1 <= k2 <= INDIRECT
    requires forall x | x in o0 :: x in o1 && o1[x] == o0[x]
    requires forall x | x in o1 :: x in o2 && o2[x] == o1[x]
    requires forall b | b in o2 && b !in o1 :: o2[b].inum == inum && o2[b].slot >= k1
    ensures Touched(sb, o0, o2, inum, k0, k2) == Touched(sb, o0, o1, inum, k0, k1) + Touched(sb, o1, o2, inum, k1, k2)
  {
    hide NewListed;
    assert NewOf(o0, o2) == NewOf(o0, o1) + NewOf(o1, o2);
    assert DataOf(o2, inum, k0, k2) == DataOf(o1, inum, k0, k1) + DataOf(o2, inum, k1, k2);
    JoinListed(o0, o1, o2, inum);
  }

  lemma JoinListed(o0: map<nat, Ref>, o1: map<nat, Ref>, o2: map<nat, Ref>, inum: nat)
    requires forall x | x in o0 :: x in o1 && o1[x] == o0[x]
    requires forall x | x in o1 :: x in o2 && o2[x] == o1[x]
    ensures NewListed(o0, o2) <==> NewListed(o0, o1) || NewListed(o1, o2)
  {
  }

  lemma ChargedThen(sb: Super, s0: View, s1: View, s2: View, inum: nat, k0: nat, k: nat)
    requires k0 <= k < MAXFILE && Charged(sb, s0, s1, inum, k0, k) && Charged(sb, s1, s2, inum, k, k + 1)
    ensures Charged(sb, s0, s2, inum, k0, k + 1)
  {
    hide Touched, Packed, Journaled;
    TouchedJoin(sb, s0.owner, s1.owner, s2.owner, inum, k0, k, k + 1);
    PackedThen(s0.owner, s1.owner, s2.owner, sb.first);
    JournaledThen(s0.blocks, s1.blocks, s2.blocks, s1.logged, s2.logged);
  }

  lemma PackedThen(o0: map<nat, Ref>, o1: map<nat, Ref>, o2: map<nat, Ref>, first: nat)
    requires Packed(o0, o1, first) && Packed(o1, o2, first) && forall x | x in o1 :: x in o2
    ensures Packed(o0, o2, first)
  {
  }

  lemma JournaledThen(b0: seq<Block>, b1: seq<Block>, b2: seq<Block>, l1: set<nat>, l2: set<nat>)
    requires Journaled(b0, b1, l1) && Journaled(b1, b2, l2) && l1 <= l2
    ensures Journaled(b0, b2, l2)
  {
  }

  lemma SpanNone(off: nat)
    ensures Span(off, 0) == 0
  {
  }

  lemma SpanEnd(off: nat, tot: nat)
    requires tot > 0 ==> (off + tot) % BSIZE == 0
    ensures off / BSIZE + Span(off, tot) == (off + tot) / BSIZE
  {
  }

  lemma SpanFits(off: nat, n: nat)
    requires off + n <= MAXFILE * BSIZE
    ensures off / BSIZE + Span(off, n) <= MAXFILE
  {
  }

  lemma ZeroedNext(a: seq<nat>, i: nat)
    requires i < |a|
    ensures (seq(i, _ => 0) + a[i..])[i := 0] == seq(i + 1, _ => 0) + a[i + 1..]
    ensures a[i] == 0 ==> seq(i, _ => 0) + a[i..] == seq(i + 1, _ => 0) + a[i + 1..]
  {
  }

  /** dst is what the file holds from o on. */
  ghost predicate Holding(blocks: seq<Block>, a: seq<nat>, o: nat, dst: seq<Byte>)
  {
    && Addrs(blocks, a) && o + |dst| <= MAXFILE * BSIZE
    && forall x | o <= x < o + |dst| :: dst[x - o] == ByteAt(blocks, a, x)
  }

  lemma HoldingPiece(blocks: seq<Block>, a: seq<nat>, o: nat, m: nat)
    requires Addrs(blocks, a) && 0 < m <= BSIZE - o % BSIZE && o + m <= MAXFILE * BSIZE
    requires Slot(blocks, a, o / BSIZE) < |blocks|
    ensures Holding(blocks, a, o, blocks[Slot(blocks, a, o / BSIZE)][o % BSIZE..o % BSIZE + m])
  {
    forall x | o <= x < o + m
      ensures blocks[Slot(blocks, a, o / BSIZE)][o % BSIZE..o % BSIZE + m][x - o] == ByteAt(blocks, a, x)
    {
      assert x / BSIZE == o / BSIZE && x % BSIZE == o % BSIZE + (x - o);
    }
  }

  lemma HoldingThen(blocks: seq<Block>, a: seq<nat>, o: nat, dst: seq<Byte>, piece: seq<Byte>)
    requires Holding(blocks, a, o, dst) && Holding(blocks, a, o + |dst|, piece)
    ensures Holding(blocks, a, o, dst + piece)
  {
  }

  lemma OwnedAddrs(blocks: seq<Block>, tab: seq<seq<nat>>, owner: map<nat, Ref>, first: nat, i: nat)
    requires Owned(blocks, tab, owner, first) && i < |tab|
    ensures Addrs(blocks, tab[i])
  {
  }

  /** owner without the slots below k of inode i. */
  function Cut(owner: map<nat, Ref>, i: nat, k: nat): (r: map<nat, Ref>)
  {
    map b | b in owner && !(owner[b].inum == i && owner[b].slot < k) :: owner[b]
  }

  lemma CutNone(owner: map<nat, Ref>, i: nat)
    ensures Cut(owner, i, 0) == owner
  {
  }

  lemma CutNext(blocks: seq<Block>, tab: seq<seq<nat>>, owner: map<nat, Ref>, first: nat, i: nat, k: nat)
    requires Owned(blocks, tab, owner, first) && i < |tab| && k <= INDIRECT
    ensures var b := Slot(blocks, tab[i], k);
            if b == 0 then Cut(owner, i, k + 1) == Cut(owner, i, k)
            else b in Cut(owner, i, k) && first <= b < |blocks| && Cut(owner, i, k + 1) == Cut(owner, i, k) - {b}
  {
  }

  lemma CutAll(blocks: seq<Block>, tab: seq<seq<nat>>, owner: map<nat, Ref>, first: nat, i: nat)
    requires Owned(blocks, tab, owner, first) && i < |tab|
    ensures Cut(owner, i, INDIRECT + 1) == Others(owner, i)
    ensures tab[i][NDIRECT] == 0 ==> Cut(owner, i, NDIRECT) == Others(owner, i)
  {
    forall b | b in owner && owner[b].inum == i
      ensures owner[b].slot < INDIRECT + 1 && (tab[i][NDIRECT] == 0 ==> owner[b].slot < NDIRECT)
    {
      assert Slot(blocks, tab[i], owner[b].slot) == b;
    }
  }

  lemma BfreeMap(sb: Super, blocks: seq<Block>, owner: map<nat, Ref>, b: nat)
    requires MapOk(sb, blocks, owner) && sb.first <= b < sb.size && b in owner
    ensures MapOk(sb, Mark(sb, blocks, b, false), owner - {b})
  {
    forall x | 0 <= x < sb.size
      ensures BitAt(sb, Mark(sb, blocks, b, false), x) <==> x < sb.first || x in owner - {b}
    {
      MarkBit(sb, blocks, b, false, x);
    }
  }

  /** One bit less is set, and nothing else in the free map or outside it. */
  lemma FreeStep(sb: Super, blocks: seq<Block>, o0: map<nat, Ref>, i: nat, k: nat, b: nat)
    requires MapOk(sb, blocks, Cut(o0, i, k)) && sb.first <= b < sb.size && b in Cut(o0, i, k)
    requires Cut(o0, i, k + 1) == Cut(o0, i, k) - {b}
    ensures sb.BBlock(b) < |blocks| && BitAt(sb, blocks, b)
    ensures var blocks' := Mark(sb, blocks, b, false);
            && MapOk(sb, blocks', Cut(o0, i, k + 1)) && |blocks'| == |blocks|
            && (forall x | 0 <= x < sb.first :: BitAt(sb, blocks', x))
            && forall x | 0 <= x < |blocks| && (x < sb.bmapstart || sb.first <= x) :: blocks'[x] == blocks[x]
  {
    hide Cut;
    assert sb.BBlock(b) < sb.first;
    BfreeMap(sb, blocks, Cut(o0, i, k), b);
  }

  lemma FreeLogged(sb: Super, v0: View, blocks: seq<Block>, logged: set<nat>, i: nat, k: nat, b: nat)
    requires b in Cut(v0.owner, i, k) && Cut(v0.owner, i, k + 1) == Cut(v0.owner, i, k) - {b}
    requires logged == v0.logged + MapsOf(sb, v0.owner.Keys - Cut(v0.owner, i, k).Keys) && sb.BBlock(b) < |blocks|
    requires Journaled(v0.blocks, blocks, logged)
    ensures logged + {sb.BBlock(b)} == v0.logged + MapsOf(sb, v0.owner.Keys - Cut(v0.owner, i, k + 1).Keys)
    ensures Journaled(v0.blocks, Mark(sb, blocks, b, false), logged + {sb.BBlock(b)})
  {
    hide SetBit, ClearBit;
    var gone := v0.owner.Keys - Cut(v0.owner, i, k).Keys;
    assert v0.owner.Keys - Cut(v0.owner, i, k + 1).Keys == gone + {b};
    assert MapsOf(sb, gone + {b}) == MapsOf(sb, gone) + {sb.BBlock(b)};
  }

  /** What itrunc has logged, with the inode's block. */
  lemma TruncLogged(sb: Super, v0: View, b1: seq<Block>, l1: set<nat>, b2: seq<Block>, i: nat)
    requires sb.Sound() && l1 == v0.logged + MapsOf(sb, v0.owner.Keys - Others(v0.owner, i).Keys)
    requires forall b | b in v0.owner.Keys - Others(v0.owner, i).Keys :: b < sb.size
    requires Journaled(v0.blocks, b1, l1) && |b2| == |b1|
    requires forall x | 0 <= x < |b1| && x != sb.inodestart + i / IPB :: b2[x] == b1[x]
    requires sb.inodestart + i / IPB < sb.bmapstart
    ensures Journaled(v0.blocks, b2, l1 + {sb.inodestart + i / IPB})
    ensures Placed(sb, l1 + {sb.inodestart + i / IPB} - v0.logged)
    ensures v0.logged == {} ==>
              |l1 + {sb.inodestart + i / IPB}| == |MapsOf(sb, v0.owner.Keys - Others(v0.owner, i).Keys)| + 1
  {
    hide MapsOf, Others;
    MetaPlaces(sb);
    var maps := MapsOf(sb, v0.owner.Keys - Others(v0.owner, i).Keys);
    MapsPlaces(sb, v0.owner.Keys - Others(v0.owner, i).Keys);
    assert {} + maps == maps;
  }

  /** There are no more than this many free-map blocks. */
  lemma MapsBound(sb: Super, bs: set<nat>)
    requires sb.Sound() && forall b | b in bs :: b < sb.size
    ensures |MapsOf(sb, bs)| <= (sb.size - 1) / BPB + 1
  {
    var all := Range(sb.bmapstart, sb.bmapstart + (sb.size - 1) / BPB + 1);
    forall x | x in MapsOf(sb, bs) ensures x in all {
      var b :| b in bs && x == sb.BBlock(b);
      BitPlace(sb, b);
    }
    SubsetCard(MapsOf(sb, bs), all);
  }

  lemma BitPlace(sb: Super, b: nat)
    requires b < sb.size
    ensures sb.bmapstart <= sb.BBlock(b) < sb.bmapstart + (sb.size - 1) / BPB + 1
  {
  }

  lemma Dropped(b0: seq<Block>, tab: seq<seq<nat>>, owner: map<nat, Ref>, first: nat, blocks: seq<Block>, i: nat)
    requires Owned(b0, tab, owner, first) && i < |tab| && |blocks| == |b0|
    requires forall x | first <= x < |blocks| :: blocks[x] == b0[x]
    ensures Owned(blocks, tab[i := NoAddrs()], Others(owner, i), first)
  {
    OwnedFrame(b0, tab, owner, first, blocks);
    DropOwned(blocks, tab, owner, first, i);
  }

  /** An inode's view of the disk. */
  datatype View = View(blocks: seq<Block>, addrs: seq<nat>, owner: map<nat, Ref>, logged: set<nat>)

  /** How far writei's loop has come after tot bytes. */
  ghost predicate Writing(s0: View, s: View, size: nat, off: nat, src: seq<Byte>, tot: nat, inum: nat)
  {
    && Addrs(s0.blocks, s0.addrs) && Addrs(s.blocks, s.addrs)
    && tot <= |src| && off <= size <= MAXFILE * BSIZE && off + |src| <= MAXFILE * BSIZE
    && Wrote(s0.blocks, s0.addrs, s.blocks, s.addrs, size, off, src[..tot])
    && OthersKept(s0.blocks, s0.owner, s.blocks, s.owner, inum)
    && (off + tot <= size ==> s.addrs == s0.addrs)
  }

  lemma WritingStart(s: View, size: nat, off: nat, src: seq<Byte>, inum: nat)
    requires Addrs(s.blocks, s.addrs) && HoleFree(s.blocks, s.addrs, size)
    requires off <= size && off + |src| <= MAXFILE * BSIZE
    ensures Writing(s, s, size, off, src, 0, inum)
  {
    assert src[..0] == [];
  }

  lemma WritingNow(s0: View, s: View, size: nat, off: nat, src: seq<Byte>, tot: nat, inum: nat)
    requires Writing(s0, s, size, off, src, tot, inum)
    ensures Addrs(s.blocks, s.addrs) && HoleFree(s.blocks, s.addrs, Max(size, off + tot))
    ensures off + |src| <= MAXFILE * BSIZE && size <= MAXFILE * BSIZE
  {
  }

  lemma WritingThen(s0: View, s1: View, s2: View, size: nat, off: nat, src: seq<Byte>, tot: nat, m: nat, inum: nat)
    requires Writing(s0, s1, size, off, src, tot, inum)
    requires tot + m <= |src| && (tot > 0 ==> (off + tot) % BSIZE == 0)
    requires 0 < m <= BSIZE - (off + tot) % BSIZE
    requires Wrote(s1.blocks, s1.addrs, s2.blocks, s2.addrs, Max(size, off + tot), off + tot, src[tot..tot + m])
    requires OthersKept(s1.blocks, s1.owner, s2.blocks, s2.owner, inum)
    requires off + tot + m <= Max(size, off + tot) ==> s2.addrs == s1.addrs
    ensures Writing(s0, s2, size, off, src, tot + m, inum)
  {
    WroteThen(s0.blocks, s0.addrs, s1.blocks, s1.addrs, s2.blocks, s2.addrs, size, off, src, tot, m,
              Max(size, off + tot), off + tot, src[tot..tot + m]);
    OthersThen(s0.blocks, s0.owner, s1.blocks, s1.owner, s2.blocks, s2.owner, inum);
  }

  /** writei's early returns: past the end, 32-bit wrap-around, too large. */
  predicate Refused(size: nat, off: nat, n: nat)
  {
    off > size || off + n >= UINT_LIMIT || off + n > MAXFILE * BSIZE
  }

  /** How many blocks of a file the n bytes from off reach into. */
  function Span(off: nat, n: nat): nat
  {
    if n == 0 then 0 else (off + n - 1) / BSIZE - off / BSIZE + 1
  }

  /** The number of blocks a write logs, if the bits of the new ones are in m free-map blocks:
      data blocks, indirect block, free-map blocks and the inode's. */
  function Bill(size: nat, off: nat, n: nat, m: nat): nat
  {
    Span(off, n) + (if NBlocks(off + n) > Max(NBlocks(size), NDIRECT) then 1 else 0) + m
    + if off + n > size then 1 else 0
  }

  lemma WroteThen(b0: seq<Block>, a0: seq<nat>, b1: seq<Block>, a1: seq<nat>, b2: seq<Block>, a2: seq<nat>,
                  ext: nat, off: nat, src: seq<Byte>, tot: nat, m: nat, ext1: nat, o: nat, piece: seq<Byte>)
    requires o == off + tot && ext1 == Max(ext, o)
    requires Addrs(b0, a0) && Addrs(b1, a1) && ext <= MAXFILE * BSIZE && off <= ext
    requires tot + m <= |src| && off + |src| <= MAXFILE * BSIZE && piece == src[tot..tot + m]
    requires Wrote(b0, a0, b1, a1, ext, off, src[..tot])
    requires Wrote(b1, a1, b2, a2, ext1, o, piece)
    ensures Wrote(b0, a0, b2, a2, ext, off, src[..tot + m])
  {
    forall x | 0 <= x < Max(ext, off + (tot + m))
      ensures ByteAt(b2, a2, x) == if off <= x < off + (tot + m) then src[..tot + m][x - off] else ByteAt(b0, a0, x)
    {
      if x < Max(ext, off + tot) {
        assert ByteAt(b1, a1, x) == if off <= x < off + tot then src[..tot][x - off] else ByteAt(b0, a0, x);
      }
    }
  }

  lemma OthersThen(b0: seq<Block>, o0: map<nat, Ref>, b1: seq<Block>, o1: map<nat, Ref>,
                   b2: seq<Block>, o2: map<nat, Ref>, i: nat)
    requires OthersKept(b0, o0, b1, o1, i) && OthersKept(b1, o1, b2, o2, i)
    ensures OthersKept(b0, o0, b2, o2, i)
  {
  }

  lemma SpanThen(off: nat, tot: nat, m: nat)
    requires tot > 0 ==> (off + tot) % BSIZE == 0
    requires 0 < m <= BSIZE - (off + tot) % BSIZE
    ensures m == BSIZE - (off + tot) % BSIZE ==> (off + (tot + m)) % BSIZE == 0
    ensures Span(off, tot + m) == Span(off, tot) + 1
  {
  }

  lemma {:induction false} SubsetCard(x: set<nat>, y: set<nat>)
    requires x <= y
    ensures |x| <= |y|
  {
    if x != {} {
      var e :| e in x;
      SubsetCard(x - {e}, y - {e});
    }
  }

  /** After bmap the file has exactly the blocks the longer extent needs. */
  lemma BmapHoleFree(blocks: seq<Block>, a: seq<nat>, blocks': seq<Block>, a': seq<nat>,
                     bn: nat, addr: nat, ext: nat, o: nat, n: nat)
    requires bn < MAXFILE && Mapped(blocks, a, blocks', a', bn, addr, true) && HoleFree(blocks, a, ext)
    requires bn == o / BSIZE && o <= ext && 0 < n <= BSIZE - o % BSIZE
    ensures HoleFree(blocks', a', Max(ext, o + n))
  {
    forall k {:trigger Slot(blocks', a', k)} | 0 <= k < MAXFILE
      ensures Slot(blocks', a', k) != 0 <==> k * BSIZE < Max(ext, o + n)
    {
      if k != bn { assert Slot(blocks', a', k) == Slot(blocks, a, k); }
    }
  }

  lemma BmapByte(blocks: seq<Block>, tab: seq<seq<nat>>, owner: map<nat, Ref>, first: nat, i: nat,
                 blocks': seq<Block>, a': seq<nat>, bn: nat, addr: nat, x: nat)
    requires Owned(blocks, tab, owner, first) && i < |tab| && bn < MAXFILE
    requires Mapped(blocks, tab[i], blocks', a', bn, addr, true)
    requires Kept(blocks, blocks', owner, {tab[i][NDIRECT]})
    requires x < MAXFILE * BSIZE && Slot(blocks, tab[i], x / BSIZE) != 0
    ensures ByteAt(blocks', a', x) == ByteAt(blocks, tab[i], x)
  {
    var k := x / BSIZE;
    var b := Slot(blocks, tab[i], k);
    assert b in owner && owner[b] == Ref(i, k);
    assert Slot(blocks, tab[i], INDIRECT) == tab[i][NDIRECT];
    assert b != tab[i][NDIRECT];
    assert Slot(blocks', a', k) == b;
  }

  lemma PutByte(blocks: seq<Block>, tab: seq<seq<nat>>, owner: map<nat, Ref>, first: nat, i: nat,
                bn: nat, addr: nat, at: nat, piece: seq<Byte>, x: nat)
    requires Owned(blocks, tab, owner, first) && i < |tab| && bn < MAXFILE && at + |piece| <= BSIZE
    requires addr in owner && owner[addr] == Ref(i, bn) && addr < |blocks|
    requires x < MAXFILE * BSIZE && Slot(blocks, tab[i], x / BSIZE) != 0
    ensures var blocks' := blocks[addr := Splice(blocks[addr], at, piece)];
            && Addrs(blocks', tab[i])
            && ByteAt(blocks', tab[i], x) ==
                 if x / BSIZE == bn && at <= x % BSIZE < at + |piece| then piece[x % BSIZE - at]
                 else ByteAt(blocks, tab[i], x)
  {
    var k := x / BSIZE;
    var b := Slot(blocks, tab[i], k);
    assert b in owner && owner[b] == Ref(i, k);
    assert Slot(blocks, tab[i], INDIRECT) == tab[i][NDIRECT];
    SlotFrame(blocks, blocks[addr := Splice(blocks[addr], at, piece)], tab[i], k);
    if k == bn {
      assert Slot(blocks, tab[i], bn) == addr;
    } else {
      assert b != addr;
    }
  }

  lemma WroteOk(b0: seq<Block>, t0: seq<seq<nat>>, o0: map<nat, Ref>, a0: seq<nat>,
                b1: seq<Block>, t1: seq<seq<nat>>, o1: map<nat, Ref>, a1: seq<nat>,
                first: nat, i: nat, bn: nat, addr: nat, ext: nat, o: nat, piece: seq<Byte>)
    requires Owned(b0, t0, o0, first) && i < |t0| && t0[i] == a0 && HoleFree(b0, a0, ext)
    requires Owned(b1, t1, o1, first) && i < |t1| && t1[i] == a1
    requires bn == o / BSIZE && bn < MAXFILE && o <= ext && 0 < |piece| <= BSIZE - o % BSIZE
    requires Mapped(b0, a0, b1, a1, bn, addr, true) && Kept(b0, b1, o0, {a0[NDIRECT]})
    requires addr in o1 && o1[addr] == Ref(i, bn) && addr < |b1|
    ensures Wrote(b0, a0, b1[addr := Splice(b1[addr], o % BSIZE, piece)], a1, ext, o, piece)
  {
    var n := |piece|;
    var b2 := b1[addr := Splice(b1[addr], o % BSIZE, piece)];
    BmapHoleFree(b0, a0, b1, a1, bn, addr, ext, o, n);
    PutOwned(b1, t1, o1, first, i, bn, addr, Splice(b1[addr], o % BSIZE, piece));
    HoleFreeFrame(b1, b2, t1, i, Max(ext, o + n));
    forall x | 0 <= x < Max(ext, o + n)
      ensures ByteAt(b2, a1, x) == if o <= x < o + n then piece[x - o] else ByteAt(b0, a0, x)
    {
      assert x / BSIZE * BSIZE <= x;
      assert Slot(b1, a1, x / BSIZE) != 0;
      PutByte(b1, t1, o1, first, i, bn, addr, o % BSIZE, piece, x);
      if !(o <= x < o + n) {
        assert x < ext && Slot(b0, a0, x / BSIZE) != 0;
        BmapByte(b0, t0, o0, first, i, b1, a1, bn, addr, x);
      }
    }
  }

  lemma HoleFreeFrame(blocks: seq<Block>, blocks': seq<Block>, tab: seq<seq<nat>>, i: nat, ext: nat)
    requires i < |tab| && Addrs(blocks, tab[i]) && Addrs(blocks', tab[i]) && HoleFree(blocks, tab[i], ext)
    requires forall j, m {:trigger Slot(blocks', tab[j], m)} | j == i && 0 <= m <= INDIRECT ::
               Slot(blocks', tab[j], m) == Slot(blocks, tab[j], m)
    ensures HoleFree(blocks', tab[i], ext)
  {
  }

  lemma KeptOthers(b0: seq<Block>, t0: seq<seq<nat>>, o0: map<nat, Ref>, b1: seq<Block>, o1: map<nat, Ref>,
                   first: nat, i: nat, ind: nat, addr: nat, bn: nat, data: Block)
    requires Owned(b0, t0, o0, first) && i < |t0| && ind == t0[i][NDIRECT] && Kept(b0, b1, o0, {ind})
    requires forall x | x in o0 :: x in o1 && o1[x] == o0[x]
    requires addr in o1 && o1[addr] == Ref(i, bn) && addr < |b1|
    ensures OthersKept(b0, o0, b1[addr := data], o1, i)
  {
    assert Slot(b0, t0[i], INDIRECT) == ind;
  }

  /** The part of the file-system a file's data can be read from. */
  function ByteAt(blocks: seq<Block>, a: seq<nat>, x: nat): Byte
    requires Addrs(blocks, a) && x < MAXFILE * BSIZE
  {
    var b := Slot(blocks, a, x / BSIZE);
    if b < |blocks| then blocks[b][x % BSIZE] else 0
  }

  /** Exactly the blocks below ext exist, and the indirect block if they need it. */
  ghost predicate HoleFree(blocks: seq<Block>, a: seq<nat>, ext: nat)
    requires Addrs(blocks, a)
  {
    && ext <= MAXFILE * BSIZE
    && (forall k {:trigger Slot(blocks, a, k)} | 0 <= k < MAXFILE :: Slot(blocks, a, k) != 0 <==> k * BSIZE < ext)
    && (a[NDIRECT] != 0 <==> NDIRECT * BSIZE < ext)
  }

  function Splice(f: Block, at: nat, piece: seq<Byte>): (r: Block)
    requires at + |piece| <= BSIZE
  {
    f[..at] + piece + f[at + |piece|..]
  }

  /** The file's bytes below ext, with piece written at o. */
  ghost predicate Wrote(blocks: seq<Block>, a: seq<nat>, blocks': seq<Block>, a': seq<nat>, ext: nat, o: nat,
      piece: seq<Byte>)
    requires Addrs(blocks, a) && o + |piece| <= MAXFILE * BSIZE && ext <= MAXFILE * BSIZE
  {
    && Addrs(blocks', a') && HoleFree(blocks', a', Max(ext, o + |piece|))
    && forall x | 0 <= x < Max(ext, o + |piece|) ::
         ByteAt(blocks', a', x) == if o <= x < o + |piece| then piece[x - o] else ByteAt(blocks, a, x)
  }

  /** The blocks of all other files are where and as they were. */
  ghost predicate OthersKept(blocks: seq<Block>, owner: map<nat, Ref>, blocks': seq<Block>, owner': map<nat, Ref>,
      inum: nat)
  {
    && |blocks'| == |blocks|
    && forall x | x in owner && owner[x].inum != inum && x < |blocks| ::
         x in owner' && owner'[x] == owner[x] && blocks'[x] == blocks[x]
  }

  /** How many blocks a file of s bytes has. */
  function NBlocks(s: nat): nat { (s + BSIZE - 1) / BSIZE }

  function Count(ext: nat, o: nat, n: nat): int
  {
    NBlocks(Max(ext, o + n)) - NBlocks(ext)
  }

  /** bmap's answer, and what it does to the inode's other slots: nothing. */
  ghost predicate Mapped(blocks: seq<Block>, a: seq<nat>, blocks': seq<Block>, a': seq<nat>, bn: nat, addr: nat,
      ok: bool)
    requires bn < MAXFILE
  {
    && Addrs(blocks, a) && Addrs(blocks', a')
    && (ok ==> addr != 0 && Slot(blocks', a', bn) == addr)
    && (ok ==> forall m {:trigger Slot(blocks', a', m)} | 0 <= m < MAXFILE && m != bn ::
                 Slot(blocks', a', m) == Slot(blocks, a, m))
    && (ok && Slot(blocks, a, bn) != 0 ==> addr == Slot(blocks, a, bn))
    && (ok && Slot(blocks, a, bn) == 0 ==> addr < |blocks'| && blocks'[addr] == ZeroBlock())
    && (ok ==> (a'[NDIRECT] == 0 <==> a[NDIRECT] == 0 && bn < NDIRECT))
    && (a[NDIRECT] != 0 ==> a'[NDIRECT] == a[NDIRECT])
  }

  /** Hanging a block in slot k leaves the other slots as they were. */
  lemma AttachMapped(blocks: seq<Block>, tab: seq<seq<nat>>, owner: map<nat, Ref>, first: nat,
                     blocks': seq<Block>, i: nat, k: nat, b: nat)
    requires Owned(blocks, tab, owner, first) && i < |tab| && (k < NDIRECT || k == INDIRECT)
    requires Kept(blocks, blocks', owner, {}) && 0 < b < |blocks'| && Slot(blocks, tab[i], k) == 0
    requires k == INDIRECT ==> blocks'[b] == ZeroBlock()
    ensures Addrs(blocks', Hang(tab[i], k, b))
    ensures forall m {:trigger Slot(blocks', Hang(tab[i], k, b), m)} | 0 <= m <= INDIRECT ::
              Slot(blocks', Hang(tab[i], k, b), m) == if m == k then b else Slot(blocks, tab[i], m)
  {
    var a := tab[i];
    assert Slot(blocks, a, INDIRECT) == a[NDIRECT];
    forall m | 0 <= m <= INDIRECT
      ensures Slot(blocks', Hang(a, k, b), m) == if m == k then b else Slot(blocks, a, m)
    {
      SlotFrame(blocks, blocks', a, m);
      HangSlot(blocks', a, k, b, m);
    }
  }

  /** A block past the metadata is not in the free map. */
  lemma MapFrame(sb: Super, blocks: seq<Block>, owner: map<nat, Ref>, x: nat, data: Block)
    requires MapOk(sb, blocks, owner) && sb.first <= x < sb.size
    ensures MapOk(sb, blocks[x := data], owner)
  {
    var blocks' := blocks[x := data];
    forall b | 0 <= b < sb.size ensures BitAt(sb, blocks', b) <==> b < sb.first || b in owner {
      assert sb.BBlock(b) < sb.first && blocks'[sb.BBlock(b)] == blocks[sb.BBlock(b)];
      assert BitAt(sb, blocks', b) == BitAt(sb, blocks, b);
    }
  }
}
