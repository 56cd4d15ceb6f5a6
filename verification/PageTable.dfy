/** Two-level page tables in physical page frames, and which frame serves what.
    Frames and virtual pages are numbered; P2V and V2P are a fixed offset. */
module PageTable {
  const PGSIZE: nat := 4096
  const NPT: nat := 1024                     // NPDENTRIES and NPTENTRIES
  const VPAGES: nat := NPT * NPT             // virtual pages
  const USER: nat := 0x80000                 // KERNBASE / PGSIZE
  const NFRAMES: nat := 0xE000               // PHYSTOP / PGSIZE

  /** The 32-bit words of a frame. */
  type Page = s: seq<nat> | |s| == NPT witness seq(NPT, _ => 0)

  function ZeroPage(): Page { seq(NPT, _ => 0) }

  /** PTE_P, PTE_ADDR / PGSIZE and PTE_FLAGS. */
  predicate Present(e: nat) { e % 2 == 1 }
  function Frame(e: nat): nat { e / PGSIZE }
  function Flags(e: nat): nat { e % PGSIZE }

  /** PTE_W and PTE_U. */
  predicate Writable(e: nat) { e / 2 % 2 == 1 }
  predicate User(e: nat) { e / 4 % 2 == 1 }

  /** pa | perm | PTE_P for a page-aligned pa. */
  function Entry(f: nat, perm: nat): nat
  {
    f * PGSIZE + if Present(perm) then perm else perm + 1
  }

  lemma EntryParts(f: nat, perm: nat)
    requires perm < PGSIZE
    ensures Present(Entry(f, perm)) && Frame(Entry(f, perm)) == f
    ensures Flags(Entry(f, perm)) == if Present(perm) then perm else perm + 1
  {
  }

  /** What a frame in use is: a page directory, the table behind entry d of
      directory pd, user page v of pd, or memory of some other kind. */
  datatype Role = Taken | Dir | Table(pd: nat, d: nat) | Leaf(pd: nat, v: nat)

  function Pde(mem: seq<Page>, p: nat, d: nat): nat
    requires p < |mem| && d < NPT
  {
    mem[p][d]
  }

  /** The flat view: the entry mapping page v, 0 for an unmapped page. */
  function Pte(mem: seq<Page>, p: nat, v: nat): nat
    requires p < |mem| && v < VPAGES
  {
    var e := Pde(mem, p, v / NPT);
    if Present(e) && Frame(e) < |mem| && Present(mem[Frame(e)][v % NPT]) then mem[Frame(e)][v % NPT] else 0
  }

  predicate IsDir(owner: map<nat, Role>, p: nat) { p in owner && owner[p].Dir? }

  ghost predicate TablesOk(mem: seq<Page>, owner: map<nat, Role>)
    requires forall f | f in owner :: f < |mem|
  {
    && (forall p, d {:trigger Pde(mem, p, d)} | IsDir(owner, p) && 0 <= d < NPT && Present(Pde(mem, p, d)) ::
          && Frame(Pde(mem, p, d)) in owner && owner[Frame(Pde(mem, p, d))] == Table(p, d)
          && Flags(Pde(mem, p, d)) == 7)
    && (forall f | f in owner && owner[f].Table? ::
          && IsDir(owner, owner[f].pd) && owner[f].d < NPT
          && Present(Pde(mem, owner[f].pd, owner[f].d)) && Frame(Pde(mem, owner[f].pd, owner[f].d)) == f)
  }

  ghost predicate LeavesOk(mem: seq<Page>, owner: map<nat, Role>)
    requires forall f | f in owner :: f < |mem|
  {
    && (forall p, v {:trigger Pte(mem, p, v)} | IsDir(owner, p) && 0 <= v < USER && Pte(mem, p, v) != 0 ::
          Frame(Pte(mem, p, v)) in owner && owner[Frame(Pte(mem, p, v))] == Leaf(p, v))
    && (forall f | f in owner && owner[f].Leaf? ::
          && IsDir(owner, owner[f].pd) && owner[f].v < USER
          && Pte(mem, owner[f].pd, owner[f].v) != 0 && Frame(Pte(mem, owner[f].pd, owner[f].v)) == f)
  }

  /** owner tells for every frame in use the one thing it is used for. */
  ghost predicate Owned(mem: seq<Page>, owner: map<nat, Role>, first: nat)
  {
    && 0 < first <= |mem|
    && (forall f | f in owner :: first <= f < |mem|)
    && TablesOk(mem, owner) && LeavesOk(mem, owner)
  }

  /** A program in user mode can use page v: both entries on the way to it allow that. */
  predicate Reaches(mem: seq<Page>, p: nat, v: nat)
    requires p < |mem| && v < VPAGES
  {
    Pte(mem, p, v) != 0 && User(Pte(mem, p, v)) && User(Pde(mem, p, v / NPT))
  }

  /** It can write it, too. */
  predicate Writes(mem: seq<Page>, p: nat, v: nat)
    requires p < |mem| && v < VPAGES
  {
    Reaches(mem, p, v) && Writable(Pte(mem, p, v)) && Writable(Pde(mem, p, v / NPT))
  }

  /** The page's own entry decides. */
  lemma ReachesExactly(mem: seq<Page>, owner: map<nat, Role>, first: nat, p: nat, v: nat)
    requires Owned(mem, owner, first) && IsDir(owner, p) && v < VPAGES
    ensures Reaches(mem, p, v) <==> User(Pte(mem, p, v))
    ensures Writes(mem, p, v) <==> User(Pte(mem, p, v)) && Writable(Pte(mem, p, v))
  {
    hide LeavesOk;
    FlagBits(Pde(mem, p, v / NPT));
  }

  lemma FlagBits(e: nat)
    ensures Flags(e) == 7 ==> Present(e) && Writable(e) && User(e)
    ensures Flags(e) == 3 ==> Present(e) && Writable(e) && !User(e)
    ensures Flags(e) == 1 ==> Present(e) && !Writable(e) && !User(e)
  {
  }

  /** All address spaces map what they did. */
  ghost predicate SameMaps(mem: seq<Page>, mem': seq<Page>, owner: map<nat, Role>)
  {
    && |mem'| == |mem|
    && forall q: nat, u: nat {:trigger Pte(mem', q, u)} | IsDir(owner, q) && q < |mem| && 0 <= u < VPAGES ::
         Pte(mem', q, u) == Pte(mem, q, u)
  }

  /** Writing frames that are neither directories nor tables. */
  lemma OwnedFrame(mem: seq<Page>, owner: map<nat, Role>, first: nat, mem': seq<Page>)
    requires Owned(mem, owner, first) && |mem'| == |mem|
    requires forall f | f in owner && (owner[f].Dir? || owner[f].Table?) :: mem'[f] == mem[f]
    ensures Owned(mem', owner, first) && SameMaps(mem, mem', owner)
  {
    forall q: nat, d: nat {:trigger Pde(mem', q, d)} | IsDir(owner, q) &&
        0 <= d < NPT ensures Pde(mem', q, d) == Pde(mem, q, d) {
    }
    forall q: nat, u: nat {:trigger Pte(mem', q, u)} | IsDir(owner, q) && 0 <= u < VPAGES
      ensures Pte(mem', q, u) == Pte(mem, q, u)
    {
      var e := Pde(mem, q, u / NPT);
      assert Pde(mem', q, u / NPT) == e;
      assert Present(e) ==> Frame(e) in owner && owner[Frame(e)].Table?;
    }
  }

  /** A frame comes into use, still for nothing here. */
  lemma TakeOwned(mem: seq<Page>, owner: map<nat, Role>, first: nat, f: nat)
    requires Owned(mem, owner, first) && f !in owner && first <= f < |mem|
    ensures Owned(mem, owner[f := Taken], first)
  {
    var owner' := owner[f := Taken];
    assert forall p: nat :: IsDir(owner', p) <==> IsDir(owner, p);
  }

  lemma ReleaseOwned(mem: seq<Page>, owner: map<nat, Role>, first: nat, f: nat)
    requires Owned(mem, owner, first) && f in owner && owner[f].Taken?
    ensures Owned(mem, owner - {f}, first)
  {
    var owner' := owner - {f};
    assert forall p: nat :: IsDir(owner', p) <==> IsDir(owner, p);
  }

  /** A zeroed frame becomes an empty directory. */
  lemma DirOwned(mem: seq<Page>, owner: map<nat, Role>, first: nat, f: nat)
    requires Owned(mem, owner, first) && f in owner && owner[f].Taken? && mem[f] == ZeroPage()
    ensures Owned(mem, owner[f := Dir], first)
    ensures forall v | 0 <= v < VPAGES :: Pte(mem, f, v) == 0
  {
    var owner' := owner[f := Dir];
    assert forall p: nat :: IsDir(owner', p) <==> p == f || IsDir(owner, p);
    assert forall d | 0 <= d < NPT :: !Present(Pde(mem, f, d));
  }

  /** walkpgdir's new table: entry d of directory p starts to refer to f. */
  function Grown(mem: seq<Page>, p: nat, d: nat, f: nat): seq<Page>
    requires p < |mem| && d < NPT
  {
    mem[p := mem[p][d := Entry(f, 6)]]
  }

  lemma TableOwned(mem: seq<Page>, owner: map<nat, Role>, first: nat, p: nat, d: nat, f: nat)
    requires Owned(mem, owner, first) && IsDir(owner, p) && d < NPT && !Present(Pde(mem, p, d))
    requires f in owner && owner[f].Taken? && mem[f] == ZeroPage()
    ensures Owned(Grown(mem, p, d, f), owner[f := Table(p, d)], first)
    ensures SameMaps(mem, Grown(mem, p, d, f), owner)
  {
    var mem', owner' := Grown(mem, p, d, f), owner[f := Table(p, d)];
    EntryParts(f, 6);
    forall q: nat, e: nat {:trigger Pde(mem', q, e)} | IsDir(owner, q) && 0 <= e < NPT
      ensures Pde(mem', q, e) == if q == p && e == d then Entry(f, 6) else Pde(mem, q, e)
    {
    }
    forall q: nat, u: nat {:trigger Pte(mem', q, u)} | IsDir(owner, q) && 0 <= u < VPAGES
      ensures Pte(mem', q, u) == Pte(mem, q, u)
    {
      var e := Pde(mem, q, u / NPT);
      assert Pde(mem', q, u / NPT) == if q == p && u / NPT == d then Entry(f, 6) else e;
      assert Present(e) ==> Frame(e) in owner && owner[Frame(e)].Table? && Frame(e) != p;
    }
    assert forall q: nat :: IsDir(owner', q) <==> IsDir(owner, q);
  }

  /** Storing x in the table entry of page v. */
  function Stored(mem: seq<Page>, p: nat, v: nat, x: nat): seq<Page>
    requires p < |mem| && v < VPAGES && Frame(Pde(mem, p, v / NPT)) < |mem|
  {
    var t := Frame(Pde(mem, p, v / NPT));
    mem[t := mem[t][v % NPT := x]]
  }

  /** Only page v of directory p is mapped differently: to x. */
  ghost predicate MapsTo(mem: seq<Page>, mem': seq<Page>, owner: map<nat, Role>, p: nat, v: nat, x: nat)
  {
    && |mem'| == |mem|
    && forall q: nat, u: nat {:trigger Pte(mem', q, u)} | IsDir(owner, q) && q < |mem| && 0 <= u < VPAGES ::
         Pte(mem', q, u) == if q == p && u == v then x else Pte(mem, q, u)
  }

  lemma StoredMaps(mem: seq<Page>, owner: map<nat, Role>, first: nat, p: nat, v: nat, x: nat)
    requires Owned(mem, owner, first) && IsDir(owner, p) && v < VPAGES && Present(Pde(mem, p, v / NPT))
    requires Present(x) || x == 0
    ensures Frame(Pde(mem, p, v / NPT)) < |mem| && MapsTo(mem, Stored(mem, p, v, x), owner, p, v, x)
    ensures TablesOk(Stored(mem, p, v, x), owner)
  {
    var t := Frame(Pde(mem, p, v / NPT));
    var mem' := Stored(mem, p, v, x);
    assert owner[t] == Table(p, v / NPT);
    forall q: nat, d: nat {:trigger Pde(mem', q, d)} | IsDir(owner, q) &&
        0 <= d < NPT ensures Pde(mem', q, d) == Pde(mem, q, d) {
    }
    forall q: nat, u: nat {:trigger Pte(mem', q, u)} | IsDir(owner, q) && 0 <= u < VPAGES
      ensures Pte(mem', q, u) == if q == p && u == v then x else Pte(mem, q, u)
    {
      var e := Pde(mem, q, u / NPT);
      assert Pde(mem', q, u / NPT) == e;
      if Present(e) && Frame(e) == t {
        assert owner[Frame(e)] == Table(q, u / NPT);
      }
    }
  }

  /** mappages' step: page v becomes mapped; a user page takes its frame over. */
  lemma LeafOwned(mem: seq<Page>, owner: map<nat, Role>, first: nat, p: nat, v: nat, x: nat)
    requires Owned(mem, owner, first) && IsDir(owner, p) && v < VPAGES && Present(Pde(mem, p, v / NPT))
    requires Present(x) && Pte(mem, p, v) == 0
    requires v < USER ==> Frame(x) in owner && owner[Frame(x)].Taken?
    ensures Frame(Pde(mem, p, v / NPT)) < |mem| && MapsTo(mem, Stored(mem, p, v, x), owner, p, v, x)
    ensures Owned(Stored(mem, p, v, x), if v < USER then owner[Frame(x) := Leaf(p, v)] else owner, first)
  {
    StoredMaps(mem, owner, first, p, v, x);
    var mem' := Stored(mem, p, v, x);
    if v < USER {
      var owner' := owner[Frame(x) := Leaf(p, v)];
      assert forall q: nat :: IsDir(owner', q) <==> IsDir(owner, q);
      assert Pte(mem', p, v) == x;
    }
  }

  /** deallocuvm's step: a mapped user page is unmapped, its frame let go. */
  lemma UnmapOwned(mem: seq<Page>, owner: map<nat, Role>, first: nat, p: nat, v: nat)
    requires Owned(mem, owner, first) && IsDir(owner, p) && v < USER && Pte(mem, p, v) != 0
    ensures Present(Pde(mem, p, v / NPT)) && Frame(Pde(mem, p, v / NPT)) < |mem|
    ensures MapsTo(mem, Stored(mem, p, v, 0), owner, p, v, 0)
    ensures Frame(Pte(mem, p, v)) in owner && owner[Frame(Pte(mem, p, v))] == Leaf(p, v)
    ensures Owned(Stored(mem, p, v, 0), owner - {Frame(Pte(mem, p, v))}, first)
  {
    StoredMaps(mem, owner, first, p, v, 0);
    var mem', owner' := Stored(mem, p, v, 0), owner - {Frame(Pte(mem, p, v))};
    assert forall q: nat :: IsDir(owner', q) <==> IsDir(owner, q);
    assert Pte(mem', p, v) == 0;
  }

  /** owner without the pages of p from lo to hi. */
  function Trimmed(owner: map<nat, Role>, p: nat, lo: nat, hi: nat): (r: map<nat, Role>)
  {
    map f | f in owner && !(owner[f].Leaf? && owner[f].pd == p && lo <= owner[f].v < hi) :: owner[f]
  }

  /** owner without p's user pages and without its tables below entry k. */
  function Cut(owner: map<nat, Role>, p: nat, k: nat): (r: map<nat, Role>)
  {
    map f | f in owner && !(owner[f].Table? && owner[f].pd == p && owner[f].d < k) :: owner[f]
  }

  /** owner without address space p. */
  function Without(owner: map<nat, Role>, p: nat): (r: map<nat, Role>)
  {
    map f | f in owner && f != p && !(owner[f].Table? && owner[f].pd == p) && !(owner[f].Leaf? && owner[f].pd == p)
      :: owner[f]
  }

  lemma WithoutOwned(mem: seq<Page>, owner: map<nat, Role>, first: nat, p: nat, mem': seq<Page>)
    requires Owned(mem, owner, first) && IsDir(owner, p) && |mem'| == |mem|
    requires forall f | f in Without(owner, p) :: mem'[f] == mem[f]
    ensures Owned(mem', Without(owner, p), first) && SameMaps(mem, mem', Without(owner, p))
  {
    var owner' := Without(owner, p);
    assert forall q: nat :: IsDir(owner', q) <==> q != p && IsDir(owner, q);
    assert TablesOk(mem, owner');
    assert LeavesOk(mem, owner');
    OwnedFrame(mem, owner', first, mem');
  }
}
