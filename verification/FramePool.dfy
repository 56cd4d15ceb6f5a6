/** kalloc.c: the free list of page frames, linked through the frames. */
module FramePool {
  import opened PageTable

  const KERNBASE: nat := 0x80000000

  /** P2V of a frame. */
  function Addr(f: nat): nat { KERNBASE + f * PGSIZE }
  function FrameOf(a: nat): nat requires a >= KERNBASE { (a - KERNBASE) / PGSIZE }

  /** What memset(v, 1, PGSIZE) leaves. */
  function Junk(): Page { seq(NPT, _ => 0x01010101) }

  /** The list at address a, linked through the first word of each frame, is free. */
  ghost predicate Linked(mem: seq<Page>, a: nat, free: seq<nat>)
    decreases free
  {
    if free == [] then a == 0
    else a == Addr(free[0]) && free[0] < |mem| && Linked(mem, mem[free[0]][0], free[1..])
  }

  ghost predicate Distinct(s: seq<nat>)
  {
    s == [] || (s[0] !in s[1..] && Distinct(s[1..]))
  }

  lemma {:induction false} LinkedFrame(mem: seq<Page>, a: nat, free: seq<nat>, mem': seq<Page>)
    requires Linked(mem, a, free) && |mem'| == |mem|
    requires forall f | f in free && f < |mem| :: mem'[f] == mem[f]
    ensures Linked(mem', a, free)
    decreases free
  {
    if free != [] {
      LinkedFrame(mem, mem[free[0]][0], free[1..], mem');
    }
  }

  /** Every frame from first on is either free or in use. */
  ghost predicate Accounted(free: seq<nat>, owner: map<nat, Role>, first: nat, n: nat)
  {
    && (forall f | f in free || f in owner :: first <= f < n)
    && (forall f | first <= f < n :: f in owner <==> f !in free)
  }

  /** free is the free list, and with the frames in use makes up all memory from first on. */
  ghost predicate PoolOk(mem: seq<Page>, head: nat, free: seq<nat>, owner: map<nat, Role>, first: nat)
  {
    0 < first <= |mem| && Linked(mem, head, free) && Distinct(free) && Accounted(free, owner, first, |mem|)
  }

  lemma PoolTake(mem: seq<Page>, head: nat, free: seq<nat>, owner: map<nat, Role>, first: nat)
    requires PoolOk(mem, head, free, owner, first) && head != 0
    ensures free != [] && head >= KERNBASE && FrameOf(head) == free[0] < |mem| && free[0] !in owner && first <= free[0]
    ensures PoolOk(mem, mem[free[0]][0], free[1..], owner[free[0] := Taken], first)
  {
    assert FrameOf(Addr(free[0])) == free[0];
    assert free == [free[0]] + free[1..];
    assert forall f :: f in free <==> f == free[0] || f in free[1..];
  }

  lemma PoolGive(mem: seq<Page>, head: nat, free: seq<nat>, owner: map<nat, Role>, first: nat, f: nat)
    requires PoolOk(mem, head, free, owner, first) && f in owner
    ensures f < |mem| && PoolOk(mem[f := Junk()[0 := head]], Addr(f), [f] + free, owner - {f}, first)
  {
    var mem', free' := mem[f := Junk()[0 := head]], [f] + free;
    assert f !in free && free'[1..] == free;
    LinkedFrame(mem, head, free, mem');
    assert forall x :: x in free' <==> x == f || x in free;
  }

  /** Writing frames in use, or using them for something else. */
  lemma PoolFrame(mem: seq<Page>, head: nat, free: seq<nat>, owner: map<nat, Role>, first: nat,
                  mem': seq<Page>, owner': map<nat, Role>)
    requires PoolOk(mem, head, free, owner, first) && |mem'| == |mem| && owner'.Keys == owner.Keys
    requires forall f | first <= f < |mem| && f !in owner :: mem'[f] == mem[f]
    ensures PoolOk(mem', head, free, owner', first)
  {
    assert forall f :: f in owner' <==> f in owner;
    LinkedFrame(mem, head, free, mem');
  }

  /** The free frames are known once the frames in use are. */
  lemma FreeExactly(mem: seq<Page>, head: nat, free: seq<nat>, owner: map<nat, Role>,
                    mem': seq<Page>, head': nat, free': seq<nat>, owner': map<nat, Role>, first: nat, f: nat)
    requires PoolOk(mem, head, free, owner, first) && PoolOk(mem', head', free', owner', first) && |mem'| == |mem|
    requires owner.Keys == owner'.Keys
    ensures f in free <==> f in free'
    ensures |free| == |free'|
  {
    assert forall x :: x in owner' <==> x in owner;
    FreeCount(mem, head, free, owner, first);
    FreeCount(mem', head', free', owner', first);
  }

  /** No frame is lost: those in use and those on the list are all there are. */
  lemma FreeCount(mem: seq<Page>, head: nat, free: seq<nat>, owner: map<nat, Role>, first: nat)
    requires PoolOk(mem, head, free, owner, first)
    ensures |owner.Keys| + |free| == |mem| - first
  {
    CountDistinct(free);
    assert owner.Keys + Elems(free) == Range(first, |mem|) && owner.Keys * Elems(free) == {};
  }

  ghost function Elems(s: seq<nat>): (r: set<nat>)
    ensures forall x :: x in r <==> x in s
  {
    if s == [] then {} else Elems(s[1..]) + {s[0]}
  }

  lemma {:induction false} CountDistinct(s: seq<nat>)
    requires Distinct(s)
    ensures |Elems(s)| == |s|
  {
    if s != [] {
      CountDistinct(s[1..]);
    }
  }

  ghost function Range(lo: nat, hi: nat): (r: set<nat>)
    requires lo <= hi
    ensures |r| == hi - lo && forall x :: x in r <==> lo <= x < hi
    decreases hi
  {
    if lo == hi then {} else Range(lo, hi - 1) + {hi - 1}
  }
}
