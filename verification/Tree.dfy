/** Which disk blocks belong to which file: direct blocks, the indirect block,
    and the blocks it lists (the addrs[] of an inode, NDIRECT + 1 entries). */
module Tree {
  import opened Common
  import opened Blocks

  const NDIRECT: nat := 12
  const NINDIRECT: nat := WPB
  const MAXFILE: nat := NDIRECT + NINDIRECT
  const INDIRECT: nat := MAXFILE             // the slot of the indirect block itself

  /** Where a block hangs: slot k < MAXFILE holds the k-th block of the file. */
  datatype Ref = Ref(inum: nat, slot: nat)

  predicate Addrs(blocks: seq<Block>, a: seq<nat>)
  {
    |a| == NDIRECT + 1 && a[NDIRECT] < |blocks|
  }

  /** The block in a slot, 0 for none. */
  function Slot(blocks: seq<Block>, a: seq<nat>, k: nat): nat
    requires Addrs(blocks, a) && k <= INDIRECT
  {
    if k < NDIRECT then a[k]
    else if k == INDIRECT then a[NDIRECT]
    else if a[NDIRECT] == 0 then 0
    else Word(blocks[a[NDIRECT]], k - NDIRECT)
  }

  /** owner names, for every block in a slot, that one slot; and no other block. */
  ghost predicate Owned(blocks: seq<Block>, tab: seq<seq<nat>>, owner: map<nat, Ref>, first: nat)
  {
    && 0 < first
    && (forall i | 0 <= i < |tab| :: Addrs(blocks, tab[i]))
    && (forall i, k {:trigger Slot(blocks, tab[i], k)} | 0 <= i < |tab| && 0 <= k <= INDIRECT ::
          Slot(blocks, tab[i], k) != 0 ==>
            Slot(blocks, tab[i], k) in owner && owner[Slot(blocks, tab[i], k)] == Ref(i, k))
    && (forall b | b in owner ::
          && first <= b < |blocks| && owner[b].inum < |tab| && owner[b].slot <= INDIRECT
          && Slot(blocks, tab[owner[b].inum], owner[b].slot) == b)
  }

  /** Slots can only be changed through indirect blocks. */
  lemma SlotFrame(blocks: seq<Block>, blocks': seq<Block>, a: seq<nat>, k: nat)
    requires Addrs(blocks, a) && |blocks'| == |blocks| && k <= INDIRECT
    requires a[NDIRECT] != 0 ==> blocks'[a[NDIRECT]] == blocks[a[NDIRECT]]
    ensures Slot(blocks', a, k) == Slot(blocks, a, k)
  {
  }

  /** Writing blocks that are not indirect blocks of any file. */
  lemma OwnedFrame(blocks: seq<Block>, tab: seq<seq<nat>>, owner: map<nat, Ref>, first: nat, blocks': seq<Block>)
    requires Owned(blocks, tab, owner, first) && |blocks'| == |blocks|
    requires forall b | b in owner && owner[b].slot == INDIRECT :: blocks'[b] == blocks[b]
    ensures Owned(blocks', tab, owner, first)
    ensures forall i, k {:trigger Slot(blocks', tab[i], k)} | 0 <= i < |tab| && 0 <= k <= INDIRECT ::
              Slot(blocks', tab[i], k) == Slot(blocks, tab[i], k)
  {
    forall i, k {:trigger Slot(blocks', tab[i], k)} | 0 <= i < |tab| && 0 <= k <= INDIRECT
      ensures Slot(blocks', tab[i], k) == Slot(blocks, tab[i], k)
    {
      assert Slot(blocks, tab[i], INDIRECT) == tab[i][NDIRECT];
      SlotFrame(blocks, blocks', tab[i], k);
    }
  }

  /** A fresh, zeroed block b becomes slot k of inode i: a[] after the change. */
  function Hang(a: seq<nat>, k: nat, b: nat): (r: seq<nat>)
    requires |a| == NDIRECT + 1 && (k < NDIRECT || k == INDIRECT)
    ensures |r| == |a|
  {
    a[if k == INDIRECT then NDIRECT else k := b]
  }

  lemma HangSlot(blocks: seq<Block>, a: seq<nat>, k: nat, b: nat, m: nat)
    requires Addrs(blocks, a) && (k < NDIRECT || k == INDIRECT) && m <= INDIRECT && 0 < b < |blocks|
    requires k == INDIRECT ==> a[NDIRECT] == 0 && blocks[b] == ZeroBlock()
    ensures Slot(blocks, Hang(a, k, b), m) == if m == k then b else Slot(blocks, a, m)
  {
    if k == INDIRECT && NDIRECT <= m < INDIRECT {
      ZeroWord(m - NDIRECT);
    }
  }

  lemma HangOwned(blocks: seq<Block>, tab: seq<seq<nat>>, owner: map<nat, Ref>, first: nat, i: nat, k: nat, b: nat)
    requires Owned(blocks, tab, owner, first) && i < |tab| && (k < NDIRECT || k == INDIRECT)
    requires first <= b < |blocks| && b !in owner && Slot(blocks, tab[i], k) == 0
    requires k == INDIRECT ==> blocks[b] == ZeroBlock()
    ensures Owned(blocks, tab[i := Hang(tab[i], k, b)], owner[b := Ref(i, k)], first)
  {
    var tab', owner' := tab[i := Hang(tab[i], k, b)], owner[b := Ref(i, k)];
    forall j, m {:trigger Slot(blocks, tab'[j], m)} | 0 <= j < |tab'| && 0 <= m <= INDIRECT
      ensures Slot(blocks, tab'[j], m) != 0 ==>
                Slot(blocks, tab'[j], m) in owner' && owner'[Slot(blocks, tab'[j], m)] == Ref(j, m)
    {
      if j == i { HangSlot(blocks, tab[i], k, b, m); }
      assert j != i ==> tab'[j] == tab[j];
      assert Slot(blocks, tab[j], m) != b;
    }
    forall x | x in owner'
      ensures owner'[x].inum < |tab'| && owner'[x].slot <= INDIRECT
      ensures Slot(blocks, tab'[owner'[x].inum], owner'[x].slot) == x
    {
      if x == b { HangSlot(blocks, tab[i], k, b, k); }
      else if owner[x].inum == i {
        assert owner[x].slot != k;
        HangSlot(blocks, tab[i], k, b, owner[x].slot);
      }
    }
  }

  /** A fresh block b becomes slot k of inode i through its indirect block. */
  lemma ListSlot(blocks: seq<Block>, a: seq<nat>, k: nat, b: nat, m: nat)
    requires Addrs(blocks, a) && a[NDIRECT] != 0 && NDIRECT <= k < INDIRECT && m <= INDIRECT && b < UINT_LIMIT
    ensures var blocks' := blocks[a[NDIRECT] := SetWord(blocks[a[NDIRECT]], k - NDIRECT, b)];
            Slot(blocks', a, m) == if m == k then b else Slot(blocks, a, m)
  {
    if NDIRECT <= m < INDIRECT {
      WordOfSetWord(blocks[a[NDIRECT]], k - NDIRECT, b, m - NDIRECT);
    }
  }

  lemma ListOwned(blocks: seq<Block>, tab: seq<seq<nat>>, owner: map<nat, Ref>, first: nat, i: nat, k: nat, b: nat)
    requires Owned(blocks, tab, owner, first) && i < |tab| && NDIRECT <= k < INDIRECT && tab[i][NDIRECT] != 0
    requires first <= b < |blocks| && b < UINT_LIMIT && b !in owner && Slot(blocks, tab[i], k) == 0
    ensures var x := tab[i][NDIRECT];
            Owned(blocks[x := SetWord(blocks[x], k - NDIRECT, b)], tab, owner[b := Ref(i, k)], first)
  {
    var x, owner' := tab[i][NDIRECT], owner[b := Ref(i, k)];
    assert Slot(blocks, tab[i], INDIRECT) == x;
    var blocks' := blocks[x := SetWord(blocks[x], k - NDIRECT, b)];
    forall j, m | 0 <= j < |tab| && 0 <= m <= INDIRECT
      ensures Slot(blocks', tab[j], m) == if j == i && m == k then b else Slot(blocks, tab[j], m)
    {
      ListSlot(blocks, tab[i], k, b, m);
      if j != i {
        assert Slot(blocks, tab[j], INDIRECT) == tab[j][NDIRECT];
        SlotFrame(blocks, blocks', tab[j], m);
      }
    }
  }

  /** All of inode i's blocks are let go. */
  lemma DropOwned(blocks: seq<Block>, tab: seq<seq<nat>>, owner: map<nat, Ref>, first: nat, i: nat)
    requires Owned(blocks, tab, owner, first) && i < |tab|
    ensures Owned(blocks, tab[i := seq(NDIRECT + 1, _ => 0)], Others(owner, i), first)
  {
    var tab', owner' := tab[i := seq(NDIRECT + 1, _ => 0)], Others(owner, i);
    forall j, m {:trigger Slot(blocks, tab'[j], m)} | 0 <= j < |tab'| && 0 <= m <= INDIRECT
      ensures Slot(blocks, tab'[j], m) != 0 ==>
                Slot(blocks, tab'[j], m) in owner' && owner'[Slot(blocks, tab'[j], m)] == Ref(j, m)
    {
      assert j != i ==> tab'[j] == tab[j] && Slot(blocks, tab[j], m) == Slot(blocks, tab'[j], m);
    }
  }

  function Others(owner: map<nat, Ref>, i: nat): (r: map<nat, Ref>)
  {
    map b | b in owner && owner[b].inum != i :: owner[b]
  }

  /** Writing a data block moves no slot. */
  lemma PutOwned(blocks: seq<Block>, tab: seq<seq<nat>>, owner: map<nat, Ref>, first: nat, i: nat, k: nat, b: nat,
      data: Block)
    requires Owned(blocks, tab, owner, first) && b in owner && owner[b] == Ref(i, k) && k < INDIRECT
    ensures b < |blocks| && Owned(blocks[b := data], tab, owner, first)
    ensures forall j, m {:trigger Slot(blocks[b := data], tab[j], m)} | 0 <= j < |tab| && 0 <= m <= INDIRECT ::
              Slot(blocks[b := data], tab[j], m) == Slot(blocks, tab[j], m)
  {
    OwnedFrame(blocks, tab, owner, first, blocks[b := data]);
  }
}
