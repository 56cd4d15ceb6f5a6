/** vm.c over kalloc.c: every operation keeps the tables a flat map of pages to
    frames and gives back every frame it does not keep. */
module VirtualMemory {
  import opened Common
  import opened PageTable
  import opened FramePool

  const EXTMEM: nat := 0x100                 // in pages, as everything below
  const DEVSPACE: nat := 0xFE000
  const PTE_W: nat := 2
  const PTE_U: nat := 4

  class Vm {
    const first: nat                         // the frame of `end`
    const data: nat                          // the frame of the kernel's `data`
    var mem: seq<Page>
    var head: nat                            // kmem.freelist
    ghost var free: seq<nat>
    ghost var owner: map<nat, Role>

    ghost predicate Pool()
      reads this
    {
      PoolOk(mem, head, free, owner, first)
    }

    ghost predicate Valid()
      reads this
    {
      Pool() && Owned(mem, owner, first) && |mem| == NFRAMES && EXTMEM < data < NFRAMES
    }

    /** kinit: every frame from `end` on is freed once. */
    constructor (f: nat, d: nat)
      requires 0 < f <= NFRAMES && EXTMEM < d < NFRAMES
      ensures Valid() && owner == map[] && first == f && data == d
    {
      hide PoolOk, AllTaken;
      first, data := f, d;
      mem, head := seq(NFRAMES, _ => ZeroPage()), 0;
      free, owner := [], AllTaken(f);
      new;
      NoneFreed(mem, f);
      var p := f;                            // freerange
      while p + 1 <= NFRAMES
        invariant f <= p <= NFRAMES && |mem| == NFRAMES && Pool()
        invariant owner == AllTaken(p)
      {
        FreedNext(p);
        var ok := Kfree(p);
        p := p + 1;
      }
      AllFreed();
    }

    method Kalloc() returns (f: nat)
      requires Pool()
      modifies `head, `free, `owner
      ensures Pool()
      ensures f == 0 ==> free == [] == old(free) && owner == old(owner) && head == old(head)
      ensures f != 0 ==> old(free) != [] && f == old(free)[0] && free == old(free)[1..]
      ensures f != 0 ==> f !in old(owner) && owner == old(owner)[f := Taken] && first <= f < |mem|
    {
      var r := head;
      if r == 0 { return 0; }
      PoolTake(mem, head, free, owner, first);
      f := FrameOf(r);
      head := mem[f][0];
      free, owner := free[1..], owner[f := Taken];
    }

    /** kfree; ok is false on the panic. */
    method Kfree(f: nat) returns (ok: bool)
      requires Pool() && f in owner
      modifies `mem, `head, `free, `owner
      ensures ok && Pool() && f < |old(mem)| && mem == old(mem)[f := Junk()[0 := old(head)]]
      ensures head == Addr(f) && free == [f] + old(free) && owner == old(owner) - {f}
    {
      PoolGive(mem, head, free, owner, first, f);
      if f < first || f >= |mem| { return false; }
      mem := mem[f := Junk()[0 := head]];
      head := Addr(f);
      free, owner := [f] + free, owner - {f};
      return true;
    }

    /** walkpgdir: the table with page v's entry, 0 if there is none. */
    method Walk(pd: nat, v: nat, alloc: bool) returns (t: nat)
      requires Valid() && IsDir(owner, pd) && v < VPAGES
      modifies `mem, `head, `free, `owner
      ensures Valid() && pd < |mem| && pd < |old(mem)|
      ensures t == 0 ==> !Present(Pde(mem, pd, v / NPT)) && (alloc ==> free == [])
      ensures t != 0 ==> Present(Pde(mem, pd, v / NPT)) && Frame(Pde(mem, pd, v / NPT)) == t < |mem|
      ensures !alloc || t == 0 || Present(Pde(old(mem), pd, v / NPT)) ==>
                mem == old(mem) && head == old(head) && free == old(free) && owner == old(owner)
      ensures alloc && t != 0 && !Present(Pde(old(mem), pd, v / NPT)) ==>
                && t !in old(owner) && owner == old(owner)[t := Table(pd, v / NPT)]
                && |free| == |old(free)| - 1
      ensures SameMaps(old(mem), mem, old(owner)) && Untouched(old(mem), mem, old(owner), pd)
      ensures SamePdes(old(mem), mem, pd, v / NPT)
    {
      hide PoolOk, TablesOk, LeavesOk, Pte;
      OwnedTable(mem, owner, first, pd, v / NPT);
      var pde := mem[pd][v / NPT];
      if Present(pde) {
        return Frame(pde);
      }
      if !alloc { return 0; }
      ghost var o0 := owner;
      t := Kalloc();
      if t == 0 { return 0; }
      GrowOk(mem, head, free, o0, owner, first, pd, v / NPT, t);
      EntryParts(t, PTE_W + PTE_U);
      mem := mem[t := ZeroPage()];
      mem := mem[pd := mem[pd][v / NPT := t * PGSIZE + 1 + PTE_W + PTE_U]];
      owner := owner[t := Table(pd, v / NPT)];
    }

    /** One turn of mappages' loop: page v is mapped by entry x; ok is false if it is mapped already. */
    method MapOne(pd: nat, v: nat, x: nat) returns (r: int, ok: bool)
      requires Valid() && IsDir(owner, pd) && v < VPAGES && Present(x) && pd < |mem|
      requires v < USER ==> Frame(x) in owner && owner[Frame(x)].Taken?
      modifies `mem, `head, `free, `owner
      ensures Valid() && IsDir(owner, pd) && pd < |old(mem)|
      ensures ok <==> Pte(old(mem), pd, v) == 0
      ensures ok ==> r == if old(free) == [] && !Present(Pde(old(mem), pd, v / NPT)) then -1 else 0
      ensures !ok || r < 0 ==> mem == old(mem) && head == old(head) && free == old(free) && owner == old(owner)
      ensures ok && r == 0 ==>
                MapsTo(old(mem), mem, old(owner), pd, v, x) && Placed(old(owner), owner, pd, v, 1, Frame(x))
      ensures ok ==> Untouched(old(mem), mem, old(owner), pd) && SamePdes(old(mem), mem, pd, v / NPT)
      ensures ok && r == 0 ==> Present(Pde(mem, pd, v / NPT))
      ensures ok ==> |free| == |old(free)| - if r < 0 || Present(Pde(old(mem), pd, v / NPT)) then 0 else 1
    {
      hide PoolOk, TablesOk, LeavesOk, MapsTo, Placed;
      ghost var m0, o0 := mem, owner;
      TableAt(mem, owner, first, pd, v);
      var t := Walk(pd, v, true);
      if t == 0 { return -1, true; }
      ghost var m1, o1 := mem, owner;
      assert Pte(mem, pd, v) == Pte(m0, pd, v);
      if Present(mem[t][v % NPT]) { return 0, false; }
      PutOk(m0, o0, m1, head, free, o1, first, pd, v, x);
      mem := mem[t := mem[t][v % NPT := x]];
      if v < USER { owner := owner[Frame(x) := Leaf(pd, v)]; }
      return 0, true;
    }

    /** mappages. k pages have been mapped; ok is false on the remap panic: a page of the
        range is mapped already and memory lasts until there. */
    method Mappages(pd: nat, va: nat, size: nat, pa: nat, perm: nat) returns (r: int, ok: bool, ghost k: nat)
      requires Valid() && IsDir(owner, pd) && pd < |mem|
      requires 0 < size && va + size <= VPAGES * PGSIZE && pa % PGSIZE == 0 && perm < PGSIZE
      requires Ours(owner, va / PGSIZE, NPages(va, size), Frame(pa))
      modifies `mem, `head, `free, `owner
      ensures Valid() && IsDir(owner, pd) && pd < |old(mem)|
      ensures var c := Clear(old(mem), pd, va / PGSIZE, NPages(va, size));
              && k <= c && (ok <==> c == NPages(va, size) || |old(free)| < Tables(old(mem), pd, va / PGSIZE, c))
              && (!ok ==> k == c)
      ensures ok ==> r == if k == NPages(va, size) then 0 else -1
      ensures Mapped(old(mem), mem, old(owner), owner, pd, va / PGSIZE, k, Frame(pa), perm)
      ensures |free| == |old(free)| - Tables(old(mem), pd, va / PGSIZE, k)
      ensures ok ==> (r < 0 <==> |old(free)| < Tables(old(mem), pd, va / PGSIZE, NPages(va, size)))
      ensures k == 0 ==> mem == old(mem) && owner == old(owner) && free == old(free)
    {
      hide PoolOk, Owned, Mapped, Ours, Clear, Pte, Entry, Tables, MapsTo, Untouched, Placed, SamePdes;
      ghost var m0, o0, v, n := mem, owner, va / PGSIZE, NPages(va, size);
      ghost var free0, c := free, Clear(mem, pd, v, n);
      TablesNone(mem, pd, v);
      var a, last, p := va / PGSIZE * PGSIZE, (va + size - 1) / PGSIZE * PGSIZE, pa;
      k := 0;
      MappedNone(mem, owner, pd, v, Frame(pa), perm);
      while true
        invariant Valid() && IsDir(owner, pd) && pd < |mem|
        invariant k < n && k <= c && a == (v + k) * PGSIZE && p == pa + k * PGSIZE
        invariant Ours(owner, v + k, n - k, Frame(pa) + k)
        invariant Mapped(m0, mem, o0, owner, pd, v, k, Frame(pa), perm)
        invariant |free| == |free0| - Tables(m0, pd, v, k)
        invariant k == 0 ==> mem == m0 && owner == o0 && free == free0
        decreases n - k
      {
        ghost var m1, o1 := mem, owner;
        EntryParts(Frame(p), perm);
        OursHead(owner, v + k, n - k, Frame(pa) + k);
        StillThere(m0, m1, o0, o1, pd, v, k, Frame(pa), perm, n);
        r, ok := MapOne(pd, a / PGSIZE, Entry(Frame(p), perm));
        TablesThen(m0, m1, o0, o1, pd, v, k, Frame(pa), perm, n, c);
        if !ok || r < 0 { return; }
        MappedThen(m0, m1, mem, o0, o1, owner, pd, v, k, Frame(pa), perm, n);
        k := k + 1;
        if a == last { break; }
        a, p := a + PGSIZE, p + PGSIZE;
      }
    }

    /** deallocuvm, for oldsz in user space; ok is false on the panic. */
    method Deallocuvm(pd: nat, oldsz: nat, newsz: nat) returns (r: nat, ok: bool)
      requires Valid() && IsDir(owner, pd) && oldsz <= USER * PGSIZE
      modifies `mem, `head, `free, `owner
      ensures ok && Valid() && IsDir(owner, pd)
      ensures r == if newsz >= oldsz then oldsz else newsz
      ensures Cleared(old(mem), mem, old(owner), owner, pd, PagesOf(newsz), Max(PagesOf(newsz), PagesOf(oldsz)))
      ensures Unmapped(old(mem), mem, pd, newsz, oldsz)
    {
      hide PoolOk, Owned, Cleared, Pte, Unmapped;
      ghost var m0, o0, lo, hi := mem, owner, PagesOf(newsz), PagesOf(oldsz);
      ClearedNone(mem, owner, pd, lo);
      OwnedTable(mem, owner, first, pd, 0);
      if newsz >= oldsz {
        ClearedPages(mem, mem, owner, owner, pd, newsz, oldsz);
        return oldsz, true;
      }
      var a := (newsz + PGSIZE - 1) / PGSIZE * PGSIZE;
      while a < oldsz
        invariant Valid() && IsDir(owner, pd) && a % PGSIZE == 0 && lo <= Min(a / PGSIZE, hi)
        invariant Cleared(m0, mem, o0, owner, pd, lo, Min(a / PGSIZE, hi))
        decreases oldsz - a
      {
        ghost var m1, o1 := mem, owner;
        var v := a / PGSIZE;
        var t := Walk(pd, v, false);
        OwnedTable(mem, owner, first, pd, v / NPT);
        if t == 0 {
          Jump(v);
          a := (v / NPT + 1) * NPT * PGSIZE - PGSIZE;
          SkipVacant(mem, pd, v, Min(a / PGSIZE + 1, hi));
          ClearedSkip(m0, mem, o0, owner, first, pd, lo, v, Min(a / PGSIZE + 1, hi));
        } else {
          ok := UnmapOne(pd, v, t);
          ClearedThen(m0, m1, mem, o0, o1, owner, pd, lo, v);
        }
        NextPage(a);
        a := a + PGSIZE;
      }
      ClearedPages(m0, mem, o0, owner, pd, newsz, oldsz);
      return newsz, true;
    }

    /** One turn of the loop: page v, whose table is t, is unmapped if it is mapped. */
    method UnmapOne(pd: nat, v: nat, t: nat) returns (ok: bool)
      requires Valid() && IsDir(owner, pd) && v < USER
      requires pd < |mem| && Present(Pde(mem, pd, v / NPT)) && Frame(Pde(mem, pd, v / NPT)) == t < |mem|
      modifies `mem, `head, `free, `owner
      ensures ok && Valid() && IsDir(owner, pd)
      ensures Cleared(old(mem), mem, old(owner), owner, pd, v, v + 1)
    {
      hide PoolOk, Owned, Cleared;
      var pte := mem[t][v % NPT];
      if !Present(pte) {
        ClearedSkip(mem, mem, owner, owner, first, pd, v, v, v + 1);
        return true;
      }
      assert Pte(mem, pd, v) == pte;
      UnmapOk(mem, head, free, owner, first, pd, v);
      var pa := Frame(pte);
      if pa == 0 { return false; }
      ok := Kfree(pa);
      mem := mem[t := mem[t][v % NPT := 0]];
    }

    /** freevm: the address space is gone, and its frames are free. */
    method Freevm(pd: nat) returns (ok: bool)
      requires Valid() && IsDir(owner, pd)
      modifies `mem, `head, `free, `owner
      ensures ok && Valid() && owner == Without(old(owner), pd)
      ensures |mem| == |old(mem)| && SameMaps(old(mem), mem, owner)
      ensures forall f | f in owner && f < |old(mem)| :: mem[f] == old(mem)[f]
    {
      hide PoolOk, Owned, Cleared, Pte, Cut, Without;
      ghost var m0, o0 := mem, owner;
      var r;
      r, ok := Deallocuvm(pd, USER * PGSIZE, 0);
      ghost var m1, o1 := mem, owner;
      assert PagesOf(0) == 0 && PagesOf(USER * PGSIZE) == USER;
      CutNone(o1, pd);
      var i := 0;
      while i < NPT
        invariant i <= NPT && Pool() && owner == Cut(o1, pd, i) && |mem| == |m1| && ok
        invariant forall f | f in owner && f < |mem| :: mem[f] == m1[f]
      {
        CutNext(m1, o1, first, pd, i);
        if Present(mem[pd][i]) {
          ok := Kfree(Frame(mem[pd][i]));
        }
        i := i + 1;
      }
      CutAll(m0, m1, o0, o1, first, pd);
      ok := Kfree(pd);
      FreevmDone(m0, m1, o0, o1, first, pd, mem);
    }

    /** setupkvm; 0 exactly when memory is short of a directory and its 64 tables. */
    method Setupkvm() returns (pd: nat, ok: bool)
      requires Valid()
      modifies `mem, `head, `free, `owner
      ensures ok && Valid() && Preserved(old(mem), mem, old(owner))
      ensures pd == 0 <==> |old(free)| < 65
      ensures pd == 0 ==> owner == old(owner)
      ensures pd != 0 ==> && pd !in old(owner) && IsDir(owner, pd) && pd < |mem|
                          && Extends(old(owner), owner, pd) && NoLeaves(owner, pd) && |free| == |old(free)| - 65
                          && forall u {:trigger Pte(mem, pd, u)} | 0 <= u < VPAGES ::
                               Pte(mem, pd, u) == KernelMap(data, u)
      ensures pd != 0 ==> forall u {:trigger Pte(mem, pd, u)} | 0 <= u < VPAGES ::
                            KernelPage(data, u, Pte(mem, pd, u)) && !Reaches(mem, pd, u)
      ensures pd != 0 ==> forall d {:trigger Pde(mem, pd, d)} | 0 <= d < NPT ::
                            Present(Pde(mem, pd, d)) <==> USER / NPT <= d < Bound(data, 3) / NPT || DEVSPACE / NPT <= d
    {
      hide PoolOk, Owned, Mapped, Ours, Clear, Tables, KernelMap, Built, KernelPage, Reaches;
      ghost var m0, o0, free0 := mem, owner, free;
      pd := Kalloc();
      if pd == 0 { return 0, true; }
      FreshDir(mem, head, free, o0, owner, first, data, pd);
      mem := mem[pd := ZeroPage()];
      owner := owner[pd := Dir];
      ok := true;
      var i := 0;
      while i < |Kmaps(data)|
        invariant i <= 4 && ok && Valid() && IsDir(owner, pd) && pd < |mem|
        invariant Built(m0, mem, o0, owner, data, pd, i) && |free| == |free0| - 1 - TablesOf(data, i)
      {
        var k := Kmaps(data)[i];
        ghost var m1, o1, n := mem, owner, 0;
        var size := (k.physEnd - k.physStart) % (VPAGES * PGSIZE);
        SegmentVacant(m0, mem, o0, owner, data, pd, i);
        var r;
        r, ok, n := Mappages(pd, k.virt, size, k.physStart, k.perm);
        BuiltThen(m0, m1, mem, o0, o1, owner, data, pd, i, n);
        if r < 0 {
          ghost var o2 := owner;
          ok := Freevm(pd);
          BuiltGone(m0, m1, o0, o1, o2, data, pd, i);
          return 0, ok;
        }
        i := i + 1;
      }
      BuiltDone(m0, mem, o0, owner, data, pd);
      KernelPages(mem, owner, first, data, pd);
    }

    /** What allocuvm and copyuvm do for a page: kalloc, fill, mappages. The frame
        is m, 0 if there was none; r is mappages' answer. */
    method PlacePage(pd: nat, v: nat, w: Want) returns (m: nat, r: int, ok: bool)
      requires Valid() && IsDir(owner, pd) && pd < |mem| && v < USER && w.flags < PGSIZE && Pte(mem, pd, v) == 0
      modifies `mem, `head, `free, `owner
      ensures ok && Valid() && IsDir(owner, pd) && pd < |old(mem)|
      ensures m == 0 <==> old(free) == []
      ensures m == 0 ==> r == -1 && mem == old(mem) && head == old(head) && free == old(free) && owner == old(owner)
      ensures m != 0 && r < 0 ==> && m !in old(owner) && first <= m < |mem| && owner == old(owner)[m := Taken]
                                  && mem == old(mem)[m := w.content]
      ensures r == if |old(free)| < 1 + NeedsTable(old(mem), pd, v) then -1 else 0
      ensures r == 0 ==> PagePut(old(mem), mem, old(owner), owner, pd, v, m, w)
                         && |free| == |old(free)| - 1 - NeedsTable(old(mem), pd, v)
    {
      hide PoolOk, TablesOk, LeavesOk, Mapped, Pte, Ours, Clear, Tables;
      ghost var m0, o0 := mem, owner;
      m := Kalloc();
      if m == 0 { return 0, -1, true; }
      FillOk(mem, head, free, o0, owner, first, pd, v, m, w.content);
      mem := mem[m := w.content];
      ghost var m1, n := mem, 0;
      VacantOne(mem, owner, pd, v, m);
      TablesOne(mem, pd, v);
      r, ok, n := Mappages(pd, v * PGSIZE, PGSIZE, m * PGSIZE, w.flags);
      if r == 0 {
        PagePutOk(m0, m1, mem, o0, owner, pd, v, m, w);
      }
    }

    /** allocuvm: the new pages are zeroed, or nothing but empty tables remains of the
        attempt. It fails exactly when memory is short. */
    method Allocuvm(pd: nat, oldsz: nat, newsz: nat) returns (r: nat, ok: bool)
      requires Valid() && IsDir(owner, pd) && pd < |mem|
      requires oldsz <= newsz < USER * PGSIZE ==>
                 forall u {:trigger Pte(mem, pd, u)} | PagesOf(oldsz) <= u < PagesOf(newsz) :: Pte(mem, pd, u) == 0
      modifies `mem, `head, `free, `owner
      ensures ok && Valid() && IsDir(owner, pd) && pd < |old(mem)|
      ensures newsz >= USER * PGSIZE ==> r == 0
      ensures newsz < oldsz && newsz < USER * PGSIZE ==> r == oldsz
      ensures !(oldsz <= newsz < USER * PGSIZE) ==> mem == old(mem) && free == old(free) && owner == old(owner)
      ensures oldsz <= newsz < USER * PGSIZE ==>
                var lo := PagesOf(oldsz);
                var n := PagesOf(newsz) - lo;
                if |old(free)| < n + Tables(old(mem), pd, lo, n) then r == 0 &&
                    Undone(old(mem), mem, old(owner), owner, pd)
                else r == newsz && Filled(old(mem), mem, old(owner), owner, pd, lo, n, Zeroed(n))
      ensures oldsz <= newsz < USER * PGSIZE && r != 0 ==>
                NewPages(mem, old(owner), owner, pd, oldsz, newsz)
    {
      hide PoolOk, Owned, Pte, Filled, PagePut, Cleared, Undone, Tables, MapsTo, SameMaps, NewPages;
      assert pd < |mem|;
      if newsz >= USER * PGSIZE { return 0, true; }
      if newsz < oldsz { return oldsz, true; }
      ghost var m0, o0, free0, lo, n := mem, owner, free, PagesOf(oldsz), PagesOf(newsz) - PagesOf(oldsz);
      var a := (oldsz + PGSIZE - 1) / PGSIZE * PGSIZE;
      FilledNone(mem, owner, pd, lo, Zeroed(n));
      TablesNone(mem, pd, lo);
      while a < newsz
        invariant a % PGSIZE == 0 && lo <= a / PGSIZE <= lo + n
        invariant Valid() && IsDir(owner, pd)
        invariant Filled(m0, mem, o0, owner, pd, lo, a / PGSIZE - lo, Zeroed(n))
        invariant |free| == |free0| - (a / PGSIZE - lo) - Tables(m0, pd, lo, a / PGSIZE - lo)
        decreases newsz - a
      {
        ghost var m1, o1 := mem, owner;
        var v := a / PGSIZE;
        FilledStep(m0, m1, o0, o1, pd, lo, v - lo, Zeroed(n));
        var f, r1;
        f, r1, ok := PlacePage(pd, v, Want(ZeroPage(), PTE_W + PTE_U));
        if r1 < 0 {
          ghost var m2, o2 := mem, owner;
          var s;
          s, ok := Deallocuvm(pd, newsz, oldsz);
          ghost var m3, o3 := mem, owner;
          Rollback(m0, m1, m2, m3, o0, o1, o2, o3, first, pd, lo, v - lo, n, f);
          if f != 0 {
            ok := Kfree(f);
            RollbackFrame(m0, m3, o0, o3, first, pd, f, mem);
          }
          return 0, ok;
        }
        FilledThen(m0, m1, mem, o0, o1, owner, pd, lo, v - lo, Zeroed(n), f);
        NextPage(a);
        a := a + PGSIZE;
      }
      ZeroedNew(m0, mem, o0, owner, first, pd, oldsz, newsz, n);
      return newsz, true;
    }

    /** What copyuvm does for a page of pd: walkpgdir, kalloc, memmove, mappages into d, and
        kfree if that fails. ok is false if pd has no such page, which copyuvm panics on. */
    method CopyPage(pd: nat, d: nat, v: nat) returns (r: int, ok: bool, ghost f: nat)
      requires Valid() && IsDir(owner, pd) && IsDir(owner, d) && pd < |mem| && d < |mem| && v < USER
      requires Pte(mem, d, v) == 0
      modifies `mem, `head, `free, `owner
      ensures Valid() && |mem| == |old(mem)| && pd < |mem| && d < |mem|
      ensures ok <==> Pte(old(mem), pd, v) != 0
      ensures ok ==> r == if |old(free)| < 1 + NeedsTable(old(mem), d, v) then -1 else 0
      ensures !ok || r < 0 ==> owner == old(owner) && forall x | x in owner && x < |mem| :: mem[x] == old(mem)[x]
      ensures ok && r == 0 ==>
                && IsDir(owner, d) && |free| == |old(free)| - 1 - NeedsTable(old(mem), d, v)
                && PagePut(old(mem), mem, old(owner), owner, d, v, f, WantOf(old(mem), Pte(old(mem), pd, v)))
    {
      hide PoolOk, Owned, PagePut, Pte;
      f := 0;
      PageAt(mem, owner, first, pd, v);
      var t := Walk(pd, v, false);
      if t == 0 { return 0, false, 0; }
      var pte := mem[t][v % NPT];
      if !Present(pte) { return 0, false, 0; }
      ghost var m0 := mem;
      var m;
      m, r, ok := PlacePage(d, v, Want(mem[Frame(pte)], Flags(pte)));
      f := m;
      if r < 0 && m != 0 {
        ghost var m1 := mem;
        ok := Kfree(m);
        CopyUndone(m0, m1, mem, old(owner), first, m);
        assert owner == old(owner);
      }
    }

    /** copyuvm: a copy in new frames, or, when memory is short, everything back. A page below
        sz that pd does not have is a panic (ok is false), if memory lasts until there. */
    method Copyuvm(pd: nat, sz: nat) returns (d: nat, ok: bool)
      requires Valid() && IsDir(owner, pd) && pd < |mem| && sz <= USER * PGSIZE
      modifies `mem, `head, `free, `owner
      ensures Valid() && pd < |old(mem)|
      ensures var h := Unbroken(old(mem), pd, PagesOf(sz));
              && (ok <==> h == PagesOf(sz) || |old(free)| < CopyCost(h))
              && (ok ==> (d == 0 <==> |old(free)| < CopyCost(h)))
      ensures ok ==> Preserved(old(mem), mem, old(owner)) && (d == 0 ==> owner == old(owner))
      ensures ok && d != 0 ==> IsCopy(old(mem), mem, old(owner), owner, data, pd, d, PagesOf(sz))
    {
      hide PoolOk, Owned, Pte, Filled, PagePut, Tables, KernelMap, IsCopy, Unbroken, Wants, NeedsTable,
        SameMaps, Undone;
      ghost var m0, o0, free0, n := mem, owner, free, PagesOf(sz);
      ghost var h := Unbroken(m0, pd, n);
      d, ok := Setupkvm();
      if d == 0 { return 0, ok; }
      ghost var m1, o1, ws := mem, owner, Wants(m0, pd, n);
      FilledNone(mem, owner, d, 0, ws);
      TablesNone(mem, d, 0);
      CopyStart(m0, m1, o0, first, d);
      var i := 0;
      while i < sz
        invariant i % PGSIZE == 0 && i / PGSIZE <= h && ok && Valid() && IsDir(owner, d)
        invariant Filled(m1, mem, o1, owner, d, 0, i / PGSIZE, ws)
        invariant |free| == |free0| - 65 - i / PGSIZE - Tables(m1, d, 0, i / PGSIZE)
        decreases sz - i
      {
        ghost var m2, o2 := mem, owner;
        var v := i / PGSIZE;
        CopyStep(m0, m1, m2, o0, o1, o2, first, data, pd, d, v, n);
        var r;
        ghost var f;
        r, ok, f := CopyPage(pd, d, v);
        CopyTables(m1, d, v, data);
        CopyTables(m1, d, v + 1, data);
        CostGrows(v + 1, h);
        if !ok { return; }
        if r < 0 {
          ghost var m4 := mem;
          ok := Freevm(d);
          CopyGone(m0, m1, m2, m4, mem, o0, o1, o2, data, d, v, ws);
          return 0, ok;
        }
        FilledThen(m1, m2, mem, o1, o2, owner, d, 0, v, ws, f);
        NextPage(i);
        i := i + PGSIZE;
      }
      CopyTables(m1, d, n, data);
      PagesHeld(m0, o0, first, pd, n);
      CopyDone(m0, m1, mem, o0, o1, owner, data, pd, d, n);
    }
  }

  /** How many pages of an address space come before its first hole, of the first n. */
  ghost function Unbroken(m: seq<Page>, pd: nat, n: nat): (h: nat)
    requires pd < |m| && n <= USER
    ensures h <= n && (forall u {:trigger Pte(m, pd, u)} | 0 <= u < h :: Pte(m, pd, u) != 0)
    ensures h < n ==> Pte(m, pd, h) == 0
  {
    if n == 0 then 0
    else
      var k := Unbroken(m, pd, n - 1);
      if k == n - 1 && Pte(m, pd, k) != 0 then n else k
  }

  /** Frames a copy of h pages takes: the kernel's tables and directory, the pages, and their tables. */
  function CopyCost(h: nat): nat { 65 + h + (h + NPT - 1) / NPT }

  lemma CostGrows(k: nat, h: nat)
    ensures k <= h ==> CopyCost(k) <= CopyCost(h)
  {
  }

  /** What walkpgdir finds for page v. */
  lemma PageAt(m: seq<Page>, o: map<nat, Role>, first: nat, p: nat, v: nat)
    requires Owned(m, o, first) && IsDir(o, p) && v < USER
    ensures p < |m| && (!Present(Pde(m, p, v / NPT)) ==> Pte(m, p, v) == 0)
    ensures Present(Pde(m, p, v / NPT)) ==>
              var t := Frame(Pde(m, p, v / NPT));
              && t < |m| && Pte(m, p, v) == if Present(m[t][v % NPT]) then m[t][v % NPT] else 0
    ensures Pte(m, p, v) != 0 ==>
              var e := Pte(m, p, v);
              Present(e) && Frame(e) < |m| && WantOf(m, e) == Want(m[Frame(e)], Flags(e)) && Flags(e) < PGSIZE
  {
    hide LeavesOk;
    OwnedTable(m, o, first, p, v / NPT);
    if Pte(m, p, v) != 0 { LeafAt(m, o, first, p, v); }
  }

  lemma LeafAt(m: seq<Page>, o: map<nat, Role>, first: nat, p: nat, v: nat)
    requires Owned(m, o, first) && IsDir(o, p) && v < USER && p < |m| && Pte(m, p, v) != 0
    ensures Frame(Pte(m, p, v)) in o && o[Frame(Pte(m, p, v))] == Leaf(p, v)
    ensures Frame(Pte(m, p, v)) < |m| && Present(Pte(m, p, v))
  {
    hide TablesOk;
  }

  ghost function AllTaken(lo: nat): (r: map<nat, Role>)
    requires lo <= NFRAMES
    ensures forall x :: x in r <==> lo <= x < NFRAMES
    decreases NFRAMES - lo
  {
    if lo == NFRAMES then map[] else AllTaken(lo + 1)[lo := Taken]
  }

  lemma NoneFreed(mem: seq<Page>, f: nat)
    requires 0 < f <= NFRAMES == |mem|
    ensures PoolOk(mem, 0, [], AllTaken(f), f)
  {
  }

  lemma FreedNext(p: nat)
    requires p < NFRAMES
    ensures p in AllTaken(p) && AllTaken(p) - {p} == AllTaken(p + 1)
  {
  }

  lemma AllFreed()
    ensures AllTaken(NFRAMES) == map[]
  {
  }

  /** Entry d apart, directory p is as it was. */
  ghost predicate SamePdes(m0: seq<Page>, m: seq<Page>, p: nat, d: nat)
  {
    |m| == |m0| && (p < |m| ==> forall e {:trigger Pde(m, p, e)} | 0 <= e < NPT &&
        e != d :: Pde(m, p, e) == Pde(m0, p, e))
  }

  /** How many of the tables from lo to hi directory p does not have yet. */
  ghost function Missing(m: seq<Page>, p: nat, lo: nat, hi: nat): (r: nat)
    requires p < |m| && hi <= NPT
    ensures r <= if lo < hi then hi - lo else 0
    decreases hi
  {
    if lo >= hi then 0 else Missing(m, p, lo, hi - 1) + if Present(Pde(m, p, hi - 1)) then 0 else 1
  }

  /** How many tables it takes to map n pages from v on. */
  ghost function Tables(m: seq<Page>, p: nat, v: nat, n: nat): nat
    requires p < |m| && v + n <= VPAGES
  {
    if n == 0 then 0 else Missing(m, p, v / NPT, (v + n - 1) / NPT + 1)
  }

  lemma TablesNone(m: seq<Page>, p: nat, v: nat)
    requires p < |m| && v <= VPAGES
    ensures Tables(m, p, v, 0) == 0
  {
  }

  lemma TablesNext(m: seq<Page>, p: nat, v: nat, k: nat)
    requires p < |m| && v + k < VPAGES
    ensures Tables(m, p, v, k + 1) == Tables(m, p, v, k) +
              if (k > 0 && (v + k) / NPT == (v + k - 1) / NPT) || Present(Pde(m, p, (v + k) / NPT)) then 0 else 1
  {
    if k > 0 && (v + k) / NPT != (v + k - 1) / NPT {
      assert (v + k) / NPT == (v + k - 1) / NPT + 1;
    }
  }

  lemma {:induction false} TablesMono(m: seq<Page>, p: nat, v: nat, k: nat, n: nat)
    requires p < |m| && v + n <= VPAGES && k <= n
    ensures Tables(m, p, v, k) <= Tables(m, p, v, n)
    decreases n
  {
    if k < n {
      TablesNext(m, p, v, n - 1);
      TablesMono(m, p, v, k, n - 1);
    }
  }

  lemma TablesThen(m0: seq<Page>, m1: seq<Page>, o0: map<nat, Role>, o1: map<nat, Role>,
                   p: nat, v: nat, k: nat, f: nat, perm: nat, n: nat, c: nat)
    requires p < |m1| && Mapped(m0, m1, o0, o1, p, v, k, f, perm) && k < n && v + n <= VPAGES && c <= n
    ensures |m0| == |m1| && (k < c ==> Tables(m0, p, v, k + 1) <= Tables(m0, p, v, c))
    ensures Tables(m0, p, v, k + 1) == Tables(m0, p, v, k) + if Present(Pde(m1, p, (v + k) / NPT)) then 0 else 1
    ensures Tables(m0, p, v, k + 1) <= Tables(m0, p, v, n)
  {
    TablesNext(m0, p, v, k);
    TablesMono(m0, p, v, k + 1, n);
    if k < c { TablesMono(m0, p, v, k + 1, c); }
  }

  /** The frames in use outside directory p and its tables hold what they held. */
  ghost predicate Untouched(mem: seq<Page>, mem': seq<Page>, owner: map<nat, Role>, p: nat)
  {
    && |mem'| == |mem|
    && forall f | f in owner && f < |mem| && f != p && !(owner[f].Table? && owner[f].pd == p) :: mem'[f] == mem[f]
  }

  /** The n frames from f on serve as user pages from v on of p; else only tables of p are new. */
  ghost predicate Placed(owner: map<nat, Role>, owner': map<nat, Role>, p: nat, v: nat, n: nat, f: nat)
  {
    && (forall x: nat | x in owner :: x in owner' && owner'[x] ==
          if f <= x < f + n && v + (x - f) < USER then Leaf(p, v + (x - f)) else owner[x])
    && (forall x | x in owner' && x !in owner :: owner'[x].Table? && owner'[x].pd == p)
  }

  function NPages(va: nat, size: nat): nat
    requires size > 0
  {
    (va + size - 1) / PGSIZE - va / PGSIZE + 1
  }

  /** n pages from v on are not mapped, and the frames meant for user pages among them are waiting. */
  ghost predicate Vacant(mem: seq<Page>, owner: map<nat, Role>, p: nat, v: nat, n: nat, f: nat)
    requires p < |mem|
  {
    Ours(owner, v, n, f) && Clear(mem, p, v, n) == n
  }

  /** The frames for user pages among the n from v on have been handed out for it. */
  ghost predicate Ours(owner: map<nat, Role>, v: nat, n: nat, f: nat)
  {
    v + n <= VPAGES && forall x: nat | f <= x < f + n && v + (x - f) < USER :: x in owner && owner[x].Taken?
  }

  /** How many of the n pages from v on come before the first that is mapped. */
  ghost function Clear(m: seq<Page>, p: nat, v: nat, n: nat): (c: nat)
    requires p < |m| && v + n <= VPAGES
    ensures c <= n && (forall u {:trigger Pte(m, p, u)} | v <= u < v + c :: Pte(m, p, u) == 0)
    ensures c < n ==> Pte(m, p, v + c) != 0
  {
    if n == 0 then 0
    else
      var k := Clear(m, p, v, n - 1);
      if k == n - 1 && Pte(m, p, v + k) == 0 then n else k
  }

  lemma OursHead(owner: map<nat, Role>, v: nat, n: nat, f: nat)
    requires 0 < n && Ours(owner, v, n, f)
    ensures v < VPAGES && (v < USER ==> f in owner && owner[f].Taken?)
  {
  }

  /** The pages not yet reached are as they were. */
  lemma StillThere(m0: seq<Page>, m1: seq<Page>, o0: map<nat, Role>, o1: map<nat, Role>,
                   p: nat, v: nat, k: nat, f: nat, perm: nat, n: nat)
    requires p < |m0| && p < |m1| && Mapped(m0, m1, o0, o1, p, v, k, f, perm) && IsDir(o0, p)
    requires k < n && v + n <= VPAGES
    ensures Pte(m1, p, v + k) == Pte(m0, p, v + k)
  {
  }

  /** A mapped page has its table. */
  lemma TableAt(m: seq<Page>, o: map<nat, Role>, first: nat, p: nat, v: nat)
    requires Owned(m, o, first) && IsDir(o, p) && v < VPAGES && p < |m|
    ensures Pte(m, p, v) != 0 ==> Present(Pde(m, p, v / NPT))
    ensures Present(Pde(m, p, v / NPT)) ==> Frame(Pde(m, p, v / NPT)) < |m|
  {
    hide LeavesOk;
    OwnedTable(m, o, first, p, v / NPT);
  }

  /** mappages' effect after k pages. */
  ghost predicate Mapped(m0: seq<Page>, m: seq<Page>, o0: map<nat, Role>, o: map<nat, Role>,
                         p: nat, v: nat, k: nat, f: nat, perm: nat)
  {
    && |m| == |m0| && Placed(o0, o, p, v, k, f) && Untouched(m0, m, o0, p)
    && (p < |m| ==> forall d {:trigger Pde(m, p, d)} | 0 <= d < NPT ::
          Present(Pde(m, p, d)) <==> Present(Pde(m0, p, d)) || (k > 0 && v / NPT <= d <= (v + k - 1) / NPT))
    && forall q: nat, u: nat {:trigger Pte(m, q, u)} | IsDir(o0, q) && q < |m| && 0 <= u < VPAGES ::
         Pte(m, q, u) == if q == p && v <= u < v + k then Entry(f + (u - v), perm) else Pte(m0, q, u)
  }

  lemma MappedNone(m: seq<Page>, o: map<nat, Role>, p: nat, v: nat, f: nat, perm: nat)
    ensures Mapped(m, m, o, o, p, v, 0, f, perm)
  {
  }

  lemma MappedThen(m0: seq<Page>, m1: seq<Page>, m2: seq<Page>, o0: map<nat, Role>, o1: map<nat, Role>, o2: map<nat,
      Role>,
                   p: nat, v: nat, k: nat, f: nat, perm: nat, n: nat)
    requires Mapped(m0, m1, o0, o1, p, v, k, f, perm) && k < n
    requires p < |m1| && IsDir(o1, p) && Ours(o1, v + k, n - k, f + k)
    requires MapsTo(m1, m2, o1, p, v + k, Entry(f + k, perm)) && Placed(o1, o2, p, v + k, 1, f + k)
    requires Untouched(m1, m2, o1, p) && SamePdes(m1, m2, p, (v + k) / NPT) && Present(Pde(m2, p, (v + k) / NPT))
    requires p < |m0| && Ours(o0, v, n, f)
    ensures Mapped(m0, m2, o0, o2, p, v, k + 1, f, perm)
    ensures Ours(o2, v + k + 1, n - k - 1, f + k + 1)
  {
  }

  lemma NextPage(a: nat)
    requires a % PGSIZE == 0
    ensures (a + PGSIZE) % PGSIZE == 0 && (a + PGSIZE) / PGSIZE == a / PGSIZE + 1
  {
  }

  /** The last page under the table of page v. */
  lemma Jump(v: nat)
    ensures var a := (v / NPT + 1) * NPT * PGSIZE - PGSIZE;
            a % PGSIZE == 0 && a / PGSIZE == (v / NPT + 1) * NPT - 1 && a >= v * PGSIZE
  {
  }

  /** PGROUNDUP, in pages. */
  function PagesOf(sz: nat): nat { (sz + PGSIZE - 1) / PGSIZE }

  /** deallocuvm's effect: p's pages from lo to k are unmapped and their frames given back. */
  ghost predicate Cleared(m0: seq<Page>, m: seq<Page>, o0: map<nat, Role>, o: map<nat, Role>, p: nat, lo: nat, k: nat)
  {
    && |m| == |m0| && o == Trimmed(o0, p, lo, k)
    && (forall q: nat, u: nat {:trigger Pte(m, q, u)} | IsDir(o0, q) && q < |m| && u < VPAGES ::
          Pte(m, q, u) == if q == p && lo <= u < k then 0 else Pte(m0, q, u))
    && (forall f | f in o && f < |m| && f != p && !(o[f].Table? && o[f].pd == p) :: m[f] == m0[f])
  }

  /** The pages of p that begin at newsz or later and below oldsz are gone, the others as they were. */
  ghost predicate Unmapped(m0: seq<Page>, m: seq<Page>, p: nat, newsz: nat, oldsz: nat)
  {
    p < |m0| == |m| && forall u {:trigger Pte(m, p, u)} | 0 <= u < VPAGES ::
      Pte(m, p, u) == if newsz <= u * PGSIZE < oldsz then 0 else Pte(m0, p, u)
  }

  lemma ClearedPages(m0: seq<Page>, m: seq<Page>, o0: map<nat, Role>, o: map<nat, Role>, p: nat, newsz: nat, oldsz: nat)
    requires Cleared(m0, m, o0, o, p, PagesOf(newsz), Max(PagesOf(newsz), PagesOf(oldsz)))
    requires IsDir(o0, p) && p < |m0|
    ensures Unmapped(m0, m, p, newsz, oldsz)
  {
    hide Pte;
    forall u: nat {:trigger Pte(m, p, u)} | u < VPAGES
      ensures Pte(m, p, u) == if newsz <= u * PGSIZE < oldsz then 0 else Pte(m0, p, u)
    {
      assert newsz <= u * PGSIZE <==> PagesOf(newsz) <= u;
      assert u * PGSIZE < oldsz <==> u < PagesOf(oldsz);
    }
  }

  lemma ClearedNone(m: seq<Page>, o: map<nat, Role>, p: nat, lo: nat)
    ensures Cleared(m, m, o, o, p, lo, lo)
  {
    assert Trimmed(o, p, lo, lo) == o;
  }

  /** The jump over a missing table passes no mapped page. */
  lemma ClearedSkip(m0: seq<Page>, m: seq<Page>, o0: map<nat, Role>, o: map<nat, Role>, first: nat,
                    p: nat, lo: nat, v: nat, k: nat)
    requires (m == m0 && o == o0 && lo == v) || Cleared(m0, m, o0, o, p, lo, v)
    requires Owned(m, o, first) && IsDir(o, p) && lo <= v <= k <= USER
    requires forall u {:trigger Pte(m, p, u)} | v <= u < k :: Pte(m, p, u) == 0
    ensures Cleared(m0, m, o0, o, p, lo, k)
  {
    ClearedNone(m, o, p, lo);
  }

  lemma SkipVacant(m: seq<Page>, p: nat, v: nat, k: nat)
    requires p < |m| && v < VPAGES && !Present(Pde(m, p, v / NPT)) && k <= (v / NPT + 1) * NPT
    ensures forall u {:trigger Pte(m, p, u)} | v <= u < k :: Pte(m, p, u) == 0
  {
    forall u | v <= u < k ensures Pte(m, p, u) == 0 {
      assert u / NPT == v / NPT;
    }
  }

  lemma ClearedThen(m0: seq<Page>, m1: seq<Page>, m2: seq<Page>, o0: map<nat, Role>, o1: map<nat, Role>, o2: map<nat,
      Role>,
                    p: nat, lo: nat, v: nat)
    requires Cleared(m0, m1, o0, o1, p, lo, v) && Cleared(m1, m2, o1, o2, p, v, v + 1) && lo <= v
    ensures Cleared(m0, m2, o0, o2, p, lo, v + 1)
  {
  }

  /** The unmapped page's frame on the free list. */
  lemma UnmapPool(mem: seq<Page>, head: nat, free: seq<nat>, owner: map<nat, Role>, first: nat, f: nat, t: nat, v: nat)
    requires PoolOk(mem, head, free, owner, first) && f in owner && t in owner && t != f && v < VPAGES
    ensures f < |mem| && t < |mem|
    ensures var m1 := mem[f := Junk()[0 := head]];
            PoolOk(m1[t := m1[t][v % NPT := 0]], Addr(f), [f] + free, owner - {f}, first)
  {
    hide Linked, Distinct;
    PoolGive(mem, head, free, owner, first, f);
    var m1 := mem[f := Junk()[0 := head]];
    PoolFrame(m1, Addr(f), [f] + free, owner - {f}, first, m1[t := m1[t][v % NPT := 0]], owner - {f});
  }

  lemma UnmapOk(mem: seq<Page>, head: nat, free: seq<nat>, owner: map<nat, Role>, first: nat, p: nat, v: nat)
    requires PoolOk(mem, head, free, owner, first) && Owned(mem, owner, first) && IsDir(owner, p) && v < USER
    requires Pte(mem, p, v) != 0
    ensures var f := Frame(Pte(mem, p, v)); var t := Frame(Pde(mem, p, v / NPT));
            && f in owner && owner[f].Leaf? && 0 < f < |mem| && t < |mem|
            && var m1 := mem[f := Junk()[0 := head]];
               var m2 := m1[t := m1[t][v % NPT := 0]];
               && PoolOk(m2, Addr(f), [f] + free, owner - {f}, first) && Owned(m2, owner - {f}, first)
               && Cleared(mem, m2, owner, owner - {f}, p, v, v + 1)
  {
    hide PoolOk, Owned, Pte, Pde;
    OwnedTable(mem, owner, first, p, v / NPT);
    var f, t := Frame(Pte(mem, p, v)), Frame(Pde(mem, p, v / NPT));
    UnmapTables(mem, owner, first, p, v, Junk()[0 := head]);
    UnmapPool(mem, head, free, owner, first, f, t, v);
  }

  /** The rest of the page tables, whatever becomes of the frame. */
  lemma UnmapTables(mem: seq<Page>, owner: map<nat, Role>, first: nat, p: nat, v: nat, junk: Page)
    requires Owned(mem, owner, first) && IsDir(owner, p) && v < USER && p < |mem| && Pte(mem, p, v) != 0
    ensures var f := Frame(Pte(mem, p, v)); var t := Frame(Pde(mem, p, v / NPT));
            && f in owner && owner[f].Leaf? && 0 < f < |mem| && t in owner && t != f && t < |mem|
            && var m1 := mem[f := junk];
               var m2 := m1[t := m1[t][v % NPT := 0]];
               Owned(m2, owner - {f}, first) && Cleared(mem, m2, owner, owner - {f}, p, v, v + 1)
  {
    hide TablesOk;
    var f, t := Frame(Pte(mem, p, v)), Frame(Pde(mem, p, v / NPT));
    UnmapOwned(mem, owner, first, p, v);
    OwnedTable(mem, owner, first, p, v / NPT);
    var m1 := mem[f := junk];
    var s := Stored(mem, p, v, 0);
    assert m1[t := m1[t][v % NPT := 0]] == s[f := junk];
    OwnedFrame(s, owner - {f}, first, s[f := junk]);
  }

  lemma CutNone(o: map<nat, Role>, p: nat)
    ensures Cut(o, p, 0) == o
  {
  }

  lemma CutNext(m: seq<Page>, o: map<nat, Role>, first: nat, p: nat, i: nat)
    requires Owned(m, o, first) && IsDir(o, p) && i < NPT
    ensures first <= p < |m| && p in Cut(o, p, i)
    ensures if Present(Pde(m, p, i))
            then Frame(Pde(m, p, i)) in Cut(o, p, i) && Cut(o, p, i + 1) == Cut(o, p, i) - {Frame(Pde(m, p, i))}
            else Cut(o, p, i + 1) == Cut(o, p, i)
  {
  }

  lemma CutAll(m0: seq<Page>, m1: seq<Page>, o0: map<nat, Role>, o1: map<nat, Role>, first: nat, p: nat)
    requires Owned(m0, o0, first) && IsDir(o0, p) && Owned(m1, o1, first) && Cleared(m0, m1, o0, o1, p, 0, USER)
    ensures p in Cut(o1, p, NPT) && Cut(o1, p, NPT) - {p} == Without(o0, p) == Without(o1, p)
  {
  }

  lemma FreevmDone(m0: seq<Page>, m1: seq<Page>, o0: map<nat, Role>, o1: map<nat, Role>, first: nat, p: nat,
      m: seq<Page>)
    requires Owned(m1, o1, first) && IsDir(o1, p) && Cleared(m0, m1, o0, o1, p, 0, USER) && |m| == |m1|
    requires Without(o0, p) == Without(o1, p)
    requires forall f | f in Without(o1, p) && f < |m1| :: m[f] == m1[f]
    ensures Owned(m, Without(o0, p), first) && SameMaps(m0, m, Without(o0, p)) && |m| == |m0|
    ensures forall f | f in Without(o0, p) && f < |m| :: m[f] == m0[f]
  {
    WithoutOwned(m1, o1, first, p, m);
  }

  /** struct kmap. */
  datatype Kmap = Kmap(virt: nat, physStart: nat, physEnd: nat, perm: nat)

  function Kmaps(data: nat): (r: seq<Kmap>)
    ensures |r| == 4
  {
    [Kmap(USER * PGSIZE, 0, EXTMEM * PGSIZE, PTE_W),
     Kmap((USER + EXTMEM) * PGSIZE, EXTMEM * PGSIZE, data * PGSIZE, 0),
     Kmap((USER + data) * PGSIZE, data * PGSIZE, NFRAMES * PGSIZE, PTE_W),
     Kmap(DEVSPACE * PGSIZE, DEVSPACE * PGSIZE, 0, PTE_W)]
  }

  /** The kernel's half of every address space: physical memory, its text read-only, and the devices. */
  function KernelMap(data: nat, u: nat): nat
  {
    if u < USER then 0
    else if u < USER + NFRAMES then Entry(u - USER, if EXTMEM <= u - USER < data then 0 else PTE_W)
    else if u < DEVSPACE then 0
    else Entry(u, PTE_W)
  }

  /** Page u of every address space: physical memory from USER on and the devices at their own
      addresses, all of it writable but the kernel's text, and nothing of it for user mode. */
  predicate KernelPage(data: nat, u: nat, e: nat)
  {
    if u < USER || USER + NFRAMES <= u < DEVSPACE then e == 0
    else
      && Present(e) && !User(e) && Frame(e) == (if u < DEVSPACE then u - USER else u)
      && (Writable(e) <==> !(USER + EXTMEM <= u < USER + data))
  }

  lemma KernelPages(m: seq<Page>, o: map<nat, Role>, first: nat, data: nat, p: nat)
    requires Owned(m, o, first) && IsDir(o, p) && p < |m| && data < NFRAMES
    requires forall u {:trigger Pte(m, p, u)} | 0 <= u < VPAGES :: Pte(m, p, u) == KernelMap(data, u)
    ensures forall u {:trigger Pte(m, p, u)} | 0 <= u < VPAGES ::
              KernelPage(data, u, Pte(m, p, u)) && !Reaches(m, p, u)
  {
    hide Owned, KernelPage, KernelMap, Reaches, Pte;
    forall u: nat {:trigger Pte(m, p, u)} | u < VPAGES
      ensures KernelPage(data, u, Pte(m, p, u)) && !Reaches(m, p, u)
    {
      KernelPageOk(data, u);
      ReachesExactly(m, o, first, p, u);
    }
  }

  lemma KernelPageOk(data: nat, u: nat)
    requires data < NFRAMES
    ensures KernelPage(data, u, KernelMap(data, u)) && !User(KernelMap(data, u))
  {
    hide Entry;
    var f := if u < DEVSPACE then if u < USER then 0 else u - USER else u;
    EntryParts(f, 0);
    EntryParts(f, PTE_W);
    FlagBits(Entry(f, 0));
    FlagBits(Entry(f, PTE_W));
  }

  /** The first page no entry before the i-th of kmap maps. */
  function Bound(data: nat, i: nat): nat
  {
    if i == 0 then USER
    else if i == 1 then USER + EXTMEM
    else if i == 2 then USER + data
    else if i == 3 then USER + NFRAMES
    else VPAGES
  }

  /** The tables the first i entries of kmap need. */
  function TablesOf(data: nat, i: nat): nat
  {
    if i == 0 then 0 else if i == 1 then 1 else if i == 2 then (data - 1) / NPT + 1 else if i == 3 then 56 else 64
  }

  ghost predicate Preserved(m0: seq<Page>, m: seq<Page>, o0: map<nat, Role>)
  {
    |m| == |m0| && forall f | f in o0 && f < |m| :: m[f] == m0[f]
  }

  /** What is new in o belongs to address space p. */
  ghost predicate Extends(o0: map<nat, Role>, o: map<nat, Role>, p: nat)
  {
    && (forall x | x in o0 :: x in o && o[x] == o0[x])
    && (forall x | x in o && x !in o0 :: x == p || (o[x].Table? && o[x].pd == p) || (o[x].Leaf? && o[x].pd == p))
  }

  ghost predicate NoLeaves(o: map<nat, Role>, p: nat)
  {
    forall x | x in o && o[x].Leaf? :: o[x].pd != p
  }

  /** setupkvm after i entries of kmap. */
  ghost predicate Built(m0: seq<Page>, m: seq<Page>, o0: map<nat, Role>, o: map<nat, Role>, data: nat, p: nat, i: nat)
  {
    && Preserved(m0, m, o0) && Extends(o0, o, p) && NoLeaves(o, p) && p !in o0 && IsDir(o, p) && p < |m|
    && (forall x | x in o0 :: !(o0[x].Table? && o0[x].pd == p))
    && (forall u {:trigger Pte(m, p, u)} | 0 <= u < VPAGES ::
          Pte(m, p, u) == if u < Bound(data, i) then KernelMap(data, u) else 0)
    && (forall d {:trigger Pde(m, p, d)} | 0 <= d < NPT ::
          Present(Pde(m, p, d)) <==>
            USER / NPT <= d < USER / NPT + TablesOf(data, Min(i, 3)) || (i == 4 && DEVSPACE / NPT <= d))
  }

  lemma NoRoles(m: seq<Page>, o: map<nat, Role>, first: nat, p: nat)
    requires Owned(m, o, first) && !IsDir(o, p)
    ensures NoLeaves(o, p) && forall x | x in o :: !(o[x].Table? && o[x].pd == p)
  {
  }

  lemma FreshDir(m: seq<Page>, head: nat, free: seq<nat>, o0: map<nat, Role>, o1: map<nat, Role>, first: nat,
      data: nat, p: nat)
    requires PoolOk(m, head, free, o1, first) && Owned(m, o0, first) && p !in o0 && o1 == o0[p := Taken]
    requires first <= p < |m| && EXTMEM < data < NFRAMES
    ensures var m', o' := m[p := ZeroPage()], o1[p := Dir];
            && PoolOk(m', head, free, o', first) && Owned(m', o', first) && Built(m, m', o0, o', data, p, 0)
  {
    hide PoolOk, TablesOk, LeavesOk;
    var m', o' := m[p := ZeroPage()], o1[p := Dir];
    NoRoles(m, o0, first, p);
    TakeOwned(m, o0, first, p);
    OwnedFrame(m, o1, first, m');
    DirOwned(m', o1, first, p);
    PoolFrame(m, head, free, o1, first, m', o');
  }

  /** kmap's entries lie one after the other and agree with KernelMap. */
  lemma Segment(data: nat, i: nat, u: nat)
    requires EXTMEM < data < NFRAMES && i < 4 && u < VPAGES
    ensures (Kmaps(data)[i].physEnd - Kmaps(data)[i].physStart) % (VPAGES * PGSIZE) > 0
    ensures var k := Kmaps(data)[i];
            var v, n := k.virt / PGSIZE, NPages(k.virt, (k.physEnd - k.physStart) % (VPAGES * PGSIZE));
            && Bound(data, i) <= v && v + n == Bound(data, i + 1)
            && (v <= u < v + n ==> KernelMap(data, u) == Entry(Frame(k.physStart) + (u - v), k.perm))
            && (Bound(data, i) <= u < v ==> KernelMap(data, u) == 0)
  {
  }

  lemma SegmentTables(data: nat, i: nat)
    requires EXTMEM < data < NFRAMES && i < 4
    ensures var k := Kmaps(data)[i];
            var size := (k.physEnd - k.physStart) % (VPAGES * PGSIZE);
            && 0 < size && k.virt + size <= VPAGES * PGSIZE && k.physStart % PGSIZE == 0 && k.perm < PGSIZE
            && var v, n := k.virt / PGSIZE, NPages(k.virt, size);
               if i == 3 then v == DEVSPACE && n == VPAGES - DEVSPACE && TablesOf(data, 3) == 56 &&
                   TablesOf(data, 4) == 64
               else && USER <= v && v / NPT <= USER / NPT + TablesOf(data, i)
                    && (v + n - 1) / NPT + 1 == USER / NPT + TablesOf(data, i + 1)
                    && TablesOf(data, i) <= TablesOf(data, i + 1)
    ensures TablesOf(data, Min(i, 3)) <= 56
    ensures var k := Kmaps(data)[i]; NPages(k.virt, (k.physEnd - k.physStart) % (VPAGES * PGSIZE)) > 0
  {
  }

  lemma SegmentVacant(m0: seq<Page>, m: seq<Page>, o0: map<nat, Role>, o: map<nat, Role>, data: nat, p: nat, i: nat)
    requires Built(m0, m, o0, o, data, p, i) && EXTMEM < data < NFRAMES && i < 4
    ensures p < |m|
    ensures var k := Kmaps(data)[i];
            var size := (k.physEnd - k.physStart) % (VPAGES * PGSIZE);
            && 0 < size && k.virt + size <= VPAGES * PGSIZE && k.physStart % PGSIZE == 0 && k.perm < PGSIZE
            && Vacant(m, o, p, k.virt / PGSIZE, NPages(k.virt, size), Frame(k.physStart))
            && Tables(m, p, k.virt / PGSIZE, NPages(k.virt, size)) == TablesOf(data, i + 1) - TablesOf(data, i)
  {
    hide Preserved, Extends, Pte, Entry, KernelMap, NoLeaves, Kmaps, TablesOf, Vacant, Tables, Bound;
    Segment(data, i, 0);
    SegmentTables(data, i);
    var k := Kmaps(data)[i];
    var v, n := k.virt / PGSIZE, NPages(k.virt, (k.physEnd - k.physStart) % (VPAGES * PGSIZE));
    SegmentClear(m, o, p, Bound(data, i), v, n, Frame(k.physStart), data, i);
    if i == 3 {
      TablesFrom(m, p, v, n, v / NPT);
    } else {
      TablesFrom(m, p, v, n, USER / NPT + TablesOf(data, i));
    }
  }

  lemma SegmentClear(m: seq<Page>, o: map<nat, Role>, p: nat, from: nat, v: nat, n: nat, f: nat, data: nat, i: nat)
    requires p < |m| && USER <= v && from <= v && v + n <= VPAGES
    requires forall u {:trigger Pte(m, p, u)} | 0 <= u < VPAGES ::
               Pte(m, p, u) == if u < from then KernelMap(data, u) else 0
    ensures Vacant(m, o, p, v, n, f)
  {
    hide Pte, KernelMap;
  }

  lemma TablesFrom(m: seq<Page>, p: nat, v: nat, n: nat, mid: nat)
    requires p < |m| && 0 < n && v + n <= VPAGES && v / NPT <= mid <= (v + n - 1) / NPT + 1
    requires forall d {:trigger Pde(m, p, d)} | v / NPT <= d <= (v + n - 1) / NPT :: Present(Pde(m, p, d)) <==> d < mid
    ensures Tables(m, p, v, n) == (v + n - 1) / NPT + 1 - mid
  {
    MissingFrom(m, p, v / NPT, mid, (v + n - 1) / NPT + 1);
  }

  /** The tables are there up to mid, and none after. */
  lemma {:induction false} MissingFrom(m: seq<Page>, p: nat, lo: nat, mid: nat, hi: nat)
    requires p < |m| && hi <= NPT && mid <= hi
    requires forall d {:trigger Pde(m, p, d)} | lo <= d < hi :: Present(Pde(m, p, d)) <==> d < mid
    ensures Missing(m, p, lo, hi) == hi - if lo <= mid then mid else Min(lo, hi)
    decreases hi
  {
    if lo < hi {
      assert Present(Pde(m, p, hi - 1)) <==> hi - 1 < mid;
      MissingFrom(m, p, lo, Min(mid, hi - 1), hi - 1);
    }
  }

  lemma BuiltThen(m0: seq<Page>, m1: seq<Page>, m2: seq<Page>, o0: map<nat, Role>, o1: map<nat, Role>, o2: map<nat,
      Role>,
                  data: nat, p: nat, i: nat, n: nat)
    requires Built(m0, m1, o0, o1, data, p, i) && EXTMEM < data < NFRAMES && i < 4
    requires var k := Kmaps(data)[i];
             && n <= NPages(k.virt, (k.physEnd - k.physStart) % (VPAGES * PGSIZE))
             && Mapped(m1, m2, o1, o2, p, k.virt / PGSIZE, n, Frame(k.physStart), k.perm)
    ensures Preserved(m0, m2, o0) && Extends(o0, o2, p) && NoLeaves(o2, p) && p !in o0
    ensures var k := Kmaps(data)[i];
            n == NPages(k.virt, (k.physEnd - k.physStart) % (VPAGES * PGSIZE)) ==> Built(m0, m2, o0, o2, data, p, i + 1)
  {
    hide KernelMap, Pte, Kmaps;
    var k := Kmaps(data)[i];
    var v, size := k.virt / PGSIZE, (k.physEnd - k.physStart) % (VPAGES * PGSIZE);
    Segment(data, i, 0);
    KernelHalf(o1, o2, p, v, n, Frame(k.physStart));
    if n == NPages(k.virt, size) {
      BuiltMaps(m0, m1, m2, o0, o1, o2, data, p, i, n);
      BuiltPdes(m0, m1, m2, o0, o1, o2, data, p, i, n);
    }
  }

  /** Mapping kernel pages only adds tables. */
  lemma KernelHalf(o1: map<nat, Role>, o2: map<nat, Role>, p: nat, v: nat, n: nat, f: nat)
    requires Placed(o1, o2, p, v, n, f) && v >= USER
    ensures forall x | x in o1 :: x in o2 && o2[x] == o1[x]
    ensures forall x | x in o2 && x !in o1 :: o2[x].Table? && o2[x].pd == p
  {
  }

  lemma BuiltMaps(m0: seq<Page>, m1: seq<Page>, m2: seq<Page>, o0: map<nat, Role>, o1: map<nat, Role>, o2: map<nat,
      Role>,
                  data: nat, p: nat, i: nat, n: nat)
    requires Built(m0, m1, o0, o1, data, p, i) && EXTMEM < data < NFRAMES && i < 4
    requires var k := Kmaps(data)[i];
             && n == NPages(k.virt, (k.physEnd - k.physStart) % (VPAGES * PGSIZE))
             && Mapped(m1, m2, o1, o2, p, k.virt / PGSIZE, n, Frame(k.physStart), k.perm)
    ensures p < |m2|
    ensures forall u {:trigger Pte(m2, p, u)} | 0 <= u < VPAGES ::
              Pte(m2, p, u) == if u < Bound(data, i + 1) then KernelMap(data, u) else 0
  {
    hide KernelMap, Pte, Kmaps, Entry, Bound;
    forall u {:trigger Pte(m2, p, u)} | 0 <= u < VPAGES
      ensures Pte(m2, p, u) == if u < Bound(data, i + 1) then KernelMap(data, u) else 0
    {
      Segment(data, i, u);
    }
  }

  lemma BuiltPdes(m0: seq<Page>, m1: seq<Page>, m2: seq<Page>, o0: map<nat, Role>, o1: map<nat, Role>, o2: map<nat,
      Role>,
                  data: nat, p: nat, i: nat, n: nat)
    requires Built(m0, m1, o0, o1, data, p, i) && EXTMEM < data < NFRAMES && i < 4
    requires var k := Kmaps(data)[i];
             && n == NPages(k.virt, (k.physEnd - k.physStart) % (VPAGES * PGSIZE))
             && Mapped(m1, m2, o1, o2, p, k.virt / PGSIZE, n, Frame(k.physStart), k.perm)
    ensures p < |m2|
    ensures forall d {:trigger Pde(m2, p, d)} | 0 <= d < NPT ::
              Present(Pde(m2, p, d)) <==>
                USER / NPT <= d < USER / NPT + TablesOf(data, Min(i + 1, 3)) || (i + 1 == 4 && DEVSPACE / NPT <= d)
  {
    hide KernelMap, Pte, Entry, Placed, Untouched, Extends, Preserved, NoLeaves, Kmaps, TablesOf;
    SegmentTables(data, i);
    forall d {:trigger Pde(m2, p, d)} | 0 <= d < NPT
      ensures Present(Pde(m2, p, d)) <==>
                USER / NPT <= d < USER / NPT + TablesOf(data, Min(i + 1, 3)) || (i + 1 == 4 && DEVSPACE / NPT <= d)
    {
      assert Present(Pde(m1, p, d)) <==>
          USER / NPT <= d < USER / NPT + TablesOf(data, Min(i, 3));
    }
  }

  lemma BuiltGone(m0: seq<Page>, m1: seq<Page>, o0: map<nat, Role>, o1: map<nat, Role>, o2: map<nat, Role>,
                  data: nat, p: nat, i: nat)
    requires Built(m0, m1, o0, o1, data, p, i) && Extends(o0, o2, p) && NoLeaves(o2, p)
    ensures Without(o2, p) == o0
  {
  }

  /** freevm undoes setupkvm and copyuvm: without the new address space every frame is
      used for what it was used for before, so by FreeExactly the same frames are free. */
  lemma FreevmUndoes(m: seq<Page>, o0: map<nat, Role>, o: map<nat, Role>, first: nat, p: nat)
    requires Owned(m, o0, first) && p !in o0 && Extends(o0, o, p)
    ensures Without(o, p) == o0
  {
    NoRoles(m, o0, first, p);
    var w := Without(o, p);
    forall x | x in o0 ensures x in w && w[x] == o0[x] {
      assert x in o && o[x] == o0[x];
    }
  }

  lemma BuiltDone(m0: seq<Page>, m: seq<Page>, o0: map<nat, Role>, o: map<nat, Role>, data: nat, p: nat)
    requires Built(m0, m, o0, o, data, p, 4)
    ensures Preserved(m0, m, o0) && Extends(o0, o, p) && NoLeaves(o, p) && p !in o0 && p < |m|
    ensures forall u {:trigger Pte(m, p, u)} | 0 <= u < VPAGES :: Pte(m, p, u) == KernelMap(data, u)
    ensures forall d {:trigger Pde(m, p, d)} | 0 <= d < NPT ::
              Present(Pde(m, p, d)) <==> USER / NPT <= d < Bound(data, 3) / NPT || DEVSPACE / NPT <= d
  {
  }

  /** What a new page is to hold and its permissions. */
  datatype Want = Want(content: Page, flags: nat)

  function NeedsTable(m: seq<Page>, p: nat, v: nat): nat
    requires p < |m| && v < VPAGES
  {
    if Present(Pde(m, p, v / NPT)) then 0 else 1
  }

  /** Page v of p is frame f, new and filled; besides only tables of p are new. */
  ghost predicate PagePut(m0: seq<Page>, m: seq<Page>, o0: map<nat, Role>, o: map<nat, Role>, p: nat, v: nat, f: nat,
      w: Want)
  {
    && |m| == |m0| && f !in o0 && f in o && o[f] == Leaf(p, v) && f < |m| && m[f] == w.content && v < VPAGES
    && (forall x | x in o0 :: x in o && o[x] == o0[x])
    && (forall x | x in o && x !in o0 && x != f :: o[x].Table? && o[x].pd == p)
    && Untouched(m0, m, o0, p) && MapsTo(m0, m, o0, p, v, Entry(f, w.flags))
    && (p < |m| ==> forall d {:trigger Pde(m, p, d)} | 0 <= d < NPT ::
          Present(Pde(m, p, d)) <==> Present(Pde(m0, p, d)) || d == v / NPT)
  }

  lemma FillOk(m: seq<Page>, head: nat, free: seq<nat>, o0: map<nat, Role>, o1: map<nat, Role>, first: nat,
               p: nat, v: nat, f: nat, c: Page)
    requires PoolOk(m, head, free, o1, first) && Owned(m, o0, first) && f !in o0 && o1 == o0[f := Taken]
    requires first <= f < |m| && IsDir(o0, p) && v < VPAGES
    ensures PoolOk(m[f := c], head, free, o1, first) && Owned(m[f := c], o1, first)
    ensures SameMaps(m, m[f := c], o0) && p < |m| && p != f
    ensures forall d {:trigger Pde(m[f := c], p, d)} | 0 <= d < NPT :: Pde(m[f := c], p, d) == Pde(m, p, d)
  {
    hide PoolOk, TablesOk, LeavesOk;
    TakeOwned(m, o0, first, f);
    OwnedFrame(m, o1, first, m[f := c]);
    PoolFrame(m, head, free, o1, first, m[f := c], o1);
  }

  lemma VacantOne(m: seq<Page>, o: map<nat, Role>, p: nat, v: nat, f: nat)
    requires p < |m| && v < VPAGES && Pte(m, p, v) == 0 && f in o && o[f].Taken?
    ensures NPages(v * PGSIZE, PGSIZE) == 1 && v * PGSIZE / PGSIZE == v && Frame(f * PGSIZE) == f
    ensures Vacant(m, o, p, v, 1, f)
  {
  }

  lemma TablesOne(m: seq<Page>, p: nat, v: nat)
    requires p < |m| && v < VPAGES
    ensures Tables(m, p, v, 1) == NeedsTable(m, p, v) && Tables(m, p, v, 0) == 0
  {
    TablesNext(m, p, v, 0);
  }

  lemma PagePutOk(m0: seq<Page>, m1: seq<Page>, m2: seq<Page>, o0: map<nat, Role>, o2: map<nat, Role>,
                  p: nat, v: nat, f: nat, w: Want)
    requires f !in o0 && f < |m0| && m1 == m0[f := w.content] && SameMaps(m0, m1, o0) && IsDir(o0, p) && p != f &&
             p < |m0|
    requires Mapped(m1, m2, o0[f := Taken], o2, p, v, 1, f, w.flags) && v < USER
    ensures PagePut(m0, m2, o0, o2, p, v, f, w)
  {
    hide Pte;
    var o1 := o0[f := Taken];
    assert forall q: nat :: IsDir(o1, q) <==> IsDir(o0, q);
    assert m1[p] == m0[p];
    forall d {:trigger Pde(m2, p, d)} | 0 <= d < NPT
      ensures Present(Pde(m2, p, d)) <==> Present(Pde(m0, p, d)) || d == v / NPT
    {
      assert Pde(m1, p, d) == Pde(m0, p, d);
    }
  }

  function Zeroed(n: nat): seq<Want> { seq(n, _ => Want(ZeroPage(), PTE_W + PTE_U)) }

  /** Page u is a frame new since o0, full of zeros, for user mode to read and write. */
  predicate NewPage(m: seq<Page>, o0: map<nat, Role>, o: map<nat, Role>, p: nat, u: nat)
    requires p < |m| && u < VPAGES
  {
    var e := Pte(m, p, u);
    && Flags(e) == 7 && Frame(e) !in o0 && Frame(e) in o && o[Frame(e)] == Leaf(p, u)
    && Frame(e) < |m| && (forall k | 0 <= k < NPT :: m[Frame(e)][k] == 0) && Writes(m, p, u)
  }

  /** So is every page of p that begins at oldsz or later and below newsz. */
  ghost predicate NewPages(m: seq<Page>, o0: map<nat, Role>, o: map<nat, Role>, p: nat, oldsz: nat, newsz: nat)
  {
    p < |m| && forall u | 0 <= u < VPAGES && oldsz <= u * PGSIZE < newsz :: NewPage(m, o0, o, p, u)
  }

  lemma ZeroedNew(m0: seq<Page>, m: seq<Page>, o0: map<nat, Role>, o: map<nat, Role>, first: nat, p: nat, oldsz: nat,
                  newsz: nat, n: nat)
    requires oldsz <= newsz <= USER * PGSIZE && n == PagesOf(newsz) - PagesOf(oldsz)
    requires Filled(m0, m, o0, o, p, PagesOf(oldsz), n, Zeroed(n)) && Owned(m, o, first) && IsDir(o, p) && p < |m|
    ensures NewPages(m, o0, o, p, oldsz, newsz)
  {
    hide Owned, Pte, NewPage;
    var lo := PagesOf(oldsz);
    forall u | 0 <= u < VPAGES && oldsz <= u * PGSIZE < newsz ensures NewPage(m, o0, o, p, u) {
      assert lo <= u < lo + n;
      assert Serves(m, o0, o, p, u, Pte(m, p, u), Zeroed(n)[u - lo]);
      ServesZero(m, o0, o, first, p, u);
    }
  }

  lemma ServesZero(m: seq<Page>, o0: map<nat, Role>, o: map<nat, Role>, first: nat, p: nat, u: nat)
    requires Owned(m, o, first) && IsDir(o, p) && p < |m| && u < VPAGES
    requires Serves(m, o0, o, p, u, Pte(m, p, u), Want(ZeroPage(), PTE_W + PTE_U))
    ensures NewPage(m, o0, o, p, u)
  {
    hide Owned, Pte, Writes;
    EntryParts(Frame(Pte(m, p, u)), PTE_W + PTE_U);
    ReachesExactly(m, o, first, p, u);
    FlagBits(Pte(m, p, u));
  }

  /** Entry e maps a frame new since o0 as w wants it. */
  ghost predicate Serves(m: seq<Page>, o0: map<nat, Role>, o: map<nat, Role>, p: nat, u: nat, e: nat, w: Want)
  {
    && w.flags < PGSIZE && Frame(e) !in o0 && Frame(e) in o && o[Frame(e)] == Leaf(p, u) && Frame(e) < |m|
    && m[Frame(e)] == w.content && e == Entry(Frame(e), w.flags)
  }

  /** k new pages from lo on, each as wanted; nothing else is mapped differently. */
  ghost predicate Filled(m0: seq<Page>, m: seq<Page>, o0: map<nat, Role>, o: map<nat, Role>,
                         p: nat, lo: nat, k: nat, ws: seq<Want>)
  {
    && |m| == |m0| && k <= |ws| && Extends(o0, o, p) && Untouched(m0, m, o0, p)
    && (p < |m| ==> forall d {:trigger Pde(m, p, d)} | 0 <= d < NPT ::
          Present(Pde(m, p, d)) <==> Present(Pde(m0, p, d)) || (k > 0 && lo / NPT <= d <= (lo + k - 1) / NPT))
    && (forall q: nat, u: nat {:trigger Pte(m, q, u)} | IsDir(o0, q) && q < |m| && u < VPAGES && !(q == p &&
        lo <= u < lo + k) ::
          Pte(m, q, u) == Pte(m0, q, u))
    && (p < |m| && lo + k <= VPAGES ==> forall u {:trigger Pte(m, p, u)} | lo <= u < lo + k ::
          Serves(m, o0, o, p, u, Pte(m, p, u), ws[u - lo]))
  }

  lemma FilledNone(m: seq<Page>, o: map<nat, Role>, p: nat, lo: nat, ws: seq<Want>)
    ensures Filled(m, m, o, o, p, lo, 0, ws)
  {
  }

  /** What a step of allocuvm or copyuvm starts from. */
  lemma FilledStep(m0: seq<Page>, m1: seq<Page>, o0: map<nat, Role>, o1: map<nat, Role>, p: nat, lo: nat, k: nat,
      ws: seq<Want>)
    requires Filled(m0, m1, o0, o1, p, lo, k, ws) && IsDir(o0, p) && p < |m0| && k < |ws| && lo + |ws| <= VPAGES
    ensures |m1| == |m0| && Pte(m1, p, lo + k) == Pte(m0, p, lo + k)
    ensures Tables(m0, p, lo, k + 1) == Tables(m0, p, lo, k) + NeedsTable(m1, p, lo + k)
    ensures Tables(m0, p, lo, k + 1) <= Tables(m0, p, lo, |ws|)
  {
    TablesNext(m0, p, lo, k);
    TablesMono(m0, p, lo, k + 1, |ws|);
  }

  lemma FilledThen(m0: seq<Page>, m1: seq<Page>, m2: seq<Page>, o0: map<nat, Role>, o1: map<nat, Role>, o2: map<nat,
      Role>,
                   p: nat, lo: nat, k: nat, ws: seq<Want>, f: nat)
    requires Filled(m0, m1, o0, o1, p, lo, k, ws) && k < |ws| && lo + |ws| <= USER && ws[k].flags < PGSIZE
    requires PagePut(m1, m2, o1, o2, p, lo + k, f, ws[k]) && IsDir(o0, p) && p < |m0|
    ensures Filled(m0, m2, o0, o2, p, lo, k + 1, ws)
  {
    hide Pte, Entry;
    EntryParts(f, ws[k].flags);
    forall u {:trigger Pte(m2, p, u)} | lo <= u < lo + k + 1
      ensures Serves(m2, o0, o2, p, u, Pte(m2, p, u), ws[u - lo])
    {
      if u < lo + k {
        assert Serves(m1, o0, o1, p, u, Pte(m1, p, u), ws[u - lo]);
      }
    }
  }

  /** The maps and all frames in use are as they were, but for new empty tables of p. */
  ghost predicate Undone(m0: seq<Page>, m: seq<Page>, o0: map<nat, Role>, o: map<nat, Role>, p: nat)
  {
    && SameMaps(m0, m, o0) && Untouched(m0, m, o0, p)
    && (forall x | x in o0 :: x in o && o[x] == o0[x])
    && (forall x | x in o && x !in o0 :: o[x].Table? && o[x].pd == p)
  }

  /** deallocuvm takes back what allocuvm has done; f is the frame it still holds. */
  lemma Rollback(m0: seq<Page>, m1: seq<Page>, m2: seq<Page>, m3: seq<Page>,
                 o0: map<nat, Role>, o1: map<nat, Role>, o2: map<nat, Role>, o3: map<nat, Role>,
                 first: nat, p: nat, lo: nat, k: nat, n: nat, f: nat)
    requires Filled(m0, m1, o0, o1, p, lo, k, Zeroed(n)) && IsDir(o0, p) && p < |m0| && k <= n && lo + n <= USER
    requires Owned(m0, o0, first) && Owned(m1, o1, first) && Owned(m3, o3, first)
    requires forall u {:trigger Pte(m0, p, u)} | lo <= u < lo + n :: Pte(m0, p, u) == 0
    requires if f == 0 then m2 == m1 && o2 == o1
             else f !in o1 && f < |m1| && m2 == m1[f := ZeroPage()] && o2 == o1[f := Taken]
    requires Cleared(m2, m3, o2, o3, p, lo, lo + n)
    ensures f == 0 ==> Undone(m0, m3, o0, o3, p)
    ensures f != 0 ==> f in o3 && o3[f].Taken? && f !in o0 && Undone(m0, m3, o0, o3 - {f}, p)
  {
    hide Pte, TablesOk, LeavesOk, Serves;
    OwnedFrame(m1, o1, first, m2);
    RollbackOwners(m0, m1, o0, o1, o2, o3, first, p, lo, k, n, f);
    assert forall q: nat :: IsDir(o0, q) ==> IsDir(o1, q) && IsDir(o2, q);
    assert SameMaps(m0, m3, o0) by {
      forall q: nat, u: nat {:trigger Pte(m3, q, u)} | IsDir(o0, q) && q < |m0| && u < VPAGES
        ensures Pte(m3, q, u) == Pte(m0, q, u)
      {
        assert q == p && lo <= u < lo + n ==> Pte(m0, q, u) == 0;
        assert Pte(m2, q, u) == Pte(m1, q, u);
      }
    }
  }

  lemma RollbackOwners(m0: seq<Page>, m1: seq<Page>, o0: map<nat, Role>, o1: map<nat, Role>, o2: map<nat, Role>,
      o3: map<nat, Role>,
                       first: nat, p: nat, lo: nat, k: nat, n: nat, f: nat)
    requires Owned(m0, o0, first) && Owned(m1, o1, first)
    requires Filled(m0, m1, o0, o1, p, lo, k, Zeroed(n)) && IsDir(o0, p) && p < |m0| && k <= n && lo + n <= USER
    requires forall u {:trigger Pte(m0, p, u)} | lo <= u < lo + n :: Pte(m0, p, u) == 0
    requires f != 0 ==> f !in o1
    requires o2 == (if f == 0 then o1 else o1[f := Taken]) && o3 == Trimmed(o2, p, lo, lo + n)
    ensures forall x | x in o0 :: x in o3 && o3[x] == o0[x]
    ensures forall x | x in o3 && x !in o0 && x != f :: o3[x].Table? && o3[x].pd == p
    ensures f != 0 ==> f in o3 && o3[f].Taken? && f !in o0
  {
    hide Pte, TablesOk;
    forall x | x in o1 && x !in o0 && o1[x].Leaf? ensures lo <= o1[x].v < lo + k {
      assert Frame(Pte(m1, p, o1[x].v)) == x;
    }
  }

  lemma RollbackFrame(m0: seq<Page>, m3: seq<Page>, o0: map<nat, Role>, o3: map<nat, Role>, first: nat, p: nat,
      f: nat, m4: seq<Page>)
    requires Owned(m3, o3, first) && f in o3 && o3[f].Taken? && f !in o0 && Undone(m0, m3, o0, o3 - {f}, p)
    requires f < |m3| && |m4| == |m3| && (forall x | x in o3 && x != f && x < |m3| :: m4[x] == m3[x])
    ensures Owned(m4, o3 - {f}, first) && Undone(m0, m4, o0, o3 - {f}, p)
  {
    ReleaseOwned(m3, o3, first, f);
    OwnedFrame(m3, o3 - {f}, first, m4);
  }

  /** d is a new address space: the first n pages hold what pd's do, with the same
      permissions, in frames that were not in use; the rest is the kernel's. */
  ghost predicate IsCopy(m0: seq<Page>, m: seq<Page>, o0: map<nat, Role>, o: map<nat, Role>, data: nat, pd: nat,
      d: nat, n: nat)
  {
    && d !in o0 && IsDir(o, d) && pd < |m0| == |m| && d < |m| && n <= USER && Extends(o0, o, d)
    && (forall u {:trigger Pte(m, d, u)} | 0 <= u < n :: IsCopied(m0, m, o0, Pte(m0, pd, u), Pte(m, d, u)))
    && (forall u {:trigger Pte(m, d, u)} | n <= u < VPAGES :: Pte(m, d, u) == KernelMap(data, u))
  }

  ghost predicate IsCopied(m0: seq<Page>, m: seq<Page>, o0: map<nat, Role>, e0: nat, e: nat)
  {
    && Flags(e) == Flags(e0) && Frame(e) !in o0 && Frame(e) < |m| && Frame(e0) < |m0|
    && m[Frame(e)] == m0[Frame(e0)]
  }

  ghost function Wants(m: seq<Page>, pd: nat, n: nat): (r: seq<Want>)
    requires pd < |m| && n <= USER
    ensures |r| == n
  {
    seq(n, u requires 0 <= u < n => WantOf(m, Pte(m, pd, u)))
  }

  function WantOf(m: seq<Page>, e: nat): Want
  {
    Want(if Frame(e) < |m| then m[Frame(e)] else ZeroPage(), Flags(e))
  }

  /** In a new address space every table of the user half is missing. */
  lemma CopyTables(m: seq<Page>, d: nat, n: nat, data: nat)
    requires d < |m| && n <= USER
    requires forall e {:trigger Pde(m, d, e)} | 0 <= e < NPT ::
               Present(Pde(m, d, e)) <==> USER / NPT <= e < Bound(data, 3) / NPT || DEVSPACE / NPT <= e
    ensures Tables(m, d, 0, n) == (n + NPT - 1) / NPT
  {
    if n > 0 {
      MissingFrom(m, d, 0, 0, (n - 1) / NPT + 1);
    }
  }

  lemma CopyStart(m0: seq<Page>, m1: seq<Page>, o0: map<nat, Role>, first: nat, d: nat)
    requires Owned(m0, o0, first) && Preserved(m0, m1, o0) && d !in o0
    ensures SameMaps(m0, m1, o0) && NoLeaves(o0, d) && forall x | x in o0 :: !(o0[x].Table? && o0[x].pd == d)
  {
    OwnedFrame(m0, o0, first, m1);
    NoRoles(m0, o0, first, d);
  }

  lemma CopyStep(m0: seq<Page>, m1: seq<Page>, m2: seq<Page>, o0: map<nat, Role>, o1: map<nat, Role>,
                 o2: map<nat, Role>, first: nat, data: nat, pd: nat, d: nat, v: nat, n: nat)
    requires Owned(m0, o0, first) && Owned(m1, o1, first) && IsDir(o0, pd) && IsDir(o1, d) && d !in o0
    requires Preserved(m0, m1, o0) && Extends(o0, o1, d) && NoLeaves(o1, d) && v < n <= USER && pd < |m0| && d < |m1|
    requires Filled(m1, m2, o1, o2, d, 0, v, Wants(m0, pd, n)) && Pte(m1, d, v) == KernelMap(data, v)
    requires SameMaps(m0, m1, o0)
    ensures |m2| == |m0| && IsDir(o2, pd) && Pte(m2, pd, v) == Pte(m0, pd, v) && Pte(m2, d, v) == 0
    ensures Pte(m0, pd, v) != 0 ==>
              Wants(m0, pd, n)[v] == WantOf(m2, Pte(m2, pd, v)) && Wants(m0, pd, n)[v].flags < PGSIZE
    ensures Tables(m1, d, 0, v + 1) == Tables(m1, d, 0, v) + NeedsTable(m2, d, v)
  {
    hide Owned, Tables, NeedsTable;
    FilledStep(m1, m2, o1, o2, d, 0, v, Wants(m0, pd, n));
    if Pte(m0, pd, v) != 0 {
      LeafAt(m0, o0, first, pd, v);
      var f := Frame(Pte(m0, pd, v));
      assert f in o1 && m1[f] == m0[f] && m2[f] == m1[f];
    }
  }

  lemma PagesHeld(m: seq<Page>, o: map<nat, Role>, first: nat, p: nat, n: nat)
    requires Owned(m, o, first) && IsDir(o, p) && n <= USER && p < |m|
    requires forall u {:trigger Pte(m, p, u)} | 0 <= u < n :: Pte(m, p, u) != 0
    ensures forall u {:trigger Pte(m, p, u)} | 0 <= u < n :: Present(Pte(m, p, u)) && Frame(Pte(m, p, u)) < |m|
  {
  }

  lemma CopyUndone(m2: seq<Page>, m3: seq<Page>, m4: seq<Page>, o2: map<nat, Role>, first: nat, f: nat)
    requires Owned(m2, o2, first) && f !in o2 && f < |m2| && |m3| == |m2| && |m4| == |m2|
    requires forall x | x in o2 && x < |m2| :: m3[x] == m2[x] && m4[x] == m3[x]
    ensures Owned(m4, o2, first)
  {
    OwnedFrame(m2, o2, first, m4);
  }

  lemma CopyGone(m0: seq<Page>, m1: seq<Page>, m2: seq<Page>, m4: seq<Page>, m5: seq<Page>,
                 o0: map<nat, Role>, o1: map<nat, Role>, o2: map<nat, Role>, data: nat, d: nat, v: nat, ws: seq<Want>)
    requires Preserved(m0, m1, o0) && Extends(o0, o1, d) && d !in o0 && Filled(m1, m2, o1, o2, d, 0, v, ws)
    requires NoLeaves(o0, d) && forall x | x in o0 :: !(o0[x].Table? && o0[x].pd == d)
    requires |m4| == |m2| && (forall x | x in o2 && x < |m2| :: m4[x] == m2[x])
    requires |m5| == |m4| && (forall x | x in Without(o2, d) && x < |m4| :: m5[x] == m4[x])
    ensures Without(o2, d) == o0 && Preserved(m0, m5, o0)
  {
  }

  lemma CopyDone(m0: seq<Page>, m1: seq<Page>, m2: seq<Page>, o0: map<nat, Role>, o1: map<nat, Role>, o2: map<nat,
      Role>,
                 data: nat, pd: nat, d: nat, n: nat)
    requires Preserved(m0, m1, o0) && Extends(o0, o1, d) && NoLeaves(o1, d) && d !in o0 && IsDir(o1, d)
    requires d < |m1| && pd < |m0| && n <= USER && Filled(m1, m2, o1, o2, d, 0, n, Wants(m0, pd, n))
    requires forall u {:trigger Pte(m1, d, u)} | 0 <= u < VPAGES :: Pte(m1, d, u) == KernelMap(data, u)
    requires forall u {:trigger Pte(m0, pd, u)} | 0 <= u < n :: Present(Pte(m0, pd, u)) && Frame(Pte(m0, pd, u)) < |m0|
    requires forall x | x in o0 :: !(o0[x].Table? && o0[x].pd == d)
    ensures IsCopy(m0, m2, o0, o2, data, pd, d, n) && Preserved(m0, m2, o0)
  {
    hide Pte, KernelMap, IsCopied;
    forall u {:trigger Pte(m2, d, u)} | 0 <= u < n
      ensures IsCopied(m0, m2, o0, Pte(m0, pd, u), Pte(m2, d, u))
    {
      assert Serves(m2, o1, o2, d, u, Pte(m2, d, u), Wants(m0, pd, n)[u]);
      ServesCopy(m0, m2, o0, o1, o2, d, u, Pte(m0, pd, u), Pte(m2, d, u));
    }
  }

  lemma ServesCopy(m0: seq<Page>, m: seq<Page>, o0: map<nat, Role>, o1: map<nat, Role>, o: map<nat, Role>,
                   d: nat, u: nat, e0: nat, e: nat)
    requires Serves(m, o1, o, d, u, e, WantOf(m0, e0)) && Present(e0) && Frame(e0) < |m0|
    requires forall x | x in o0 :: x in o1
    ensures IsCopied(m0, m, o0, e0, e)
  {
    EntryParts(Frame(e), Flags(e0));
  }

  lemma OwnedTable(mem: seq<Page>, owner: map<nat, Role>, first: nat, p: nat, d: nat)
    requires Owned(mem, owner, first) && IsDir(owner, p) && d < NPT
    ensures 0 < first <= p < |mem|
    ensures Present(Pde(mem, p, d)) ==> first <= Frame(Pde(mem, p, d)) < |mem| && Frame(Pde(mem, p, d)) in owner
                                        && owner[Frame(Pde(mem, p, d))] == Table(p, d)
  {
  }

  lemma GrowOk(mem: seq<Page>, head: nat, free: seq<nat>, o0: map<nat, Role>, o1: map<nat, Role>, first: nat,
               p: nat, d: nat, t: nat)
    requires PoolOk(mem, head, free, o1, first) && Owned(mem, o0, first) && IsDir(o0, p) && d < NPT
    requires t !in o0 && o1 == o0[t := Taken] && first <= t < |mem| && !Present(Pde(mem, p, d))
    ensures var mem', o' := Grown(mem[t := ZeroPage()], p, d, t), o1[t := Table(p, d)];
            && PoolOk(mem', head, free, o', first) && Owned(mem', o', first)
            && SameMaps(mem, mem', o0) && Untouched(mem, mem', o0, p) && SamePdes(mem, mem', p, d)
  {
    hide TablesOk, LeavesOk, PoolOk;
    var m1 := mem[t := ZeroPage()];
    TakeOwned(mem, o0, first, t);
    OwnedFrame(mem, o1, first, m1);
    TableOwned(m1, o1, first, p, d, t);
    PoolFrame(mem, head, free, o1, first, Grown(m1, p, d, t), o1[t := Table(p, d)]);
  }

  lemma PutOk(m0: seq<Page>, o0: map<nat, Role>, m1: seq<Page>, head: nat, free: seq<nat>, o1: map<nat, Role>,
      first: nat,
              p: nat, v: nat, x: nat)
    requires PoolOk(m1, head, free, o1, first) && Owned(m1, o1, first) && IsDir(o1, p) && v < VPAGES && Present(x)
    requires Present(Pde(m1, p, v / NPT)) && Pte(m1, p, v) == 0
    requires v < USER ==> Frame(x) in o1 && o1[Frame(x)].Taken?
    requires SameMaps(m0, m1, o0) && Untouched(m0, m1, o0, p) && IsDir(o0, p) && SamePdes(m0, m1, p, v / NPT)
    requires o1 == o0 || (exists t: nat :: t !in o0 && o1 == o0[t := Table(p, v / NPT)])
    ensures Frame(Pde(m1, p, v / NPT)) < |m1|
    ensures var m2, o2 := Stored(m1, p, v, x), if v < USER then o1[Frame(x) := Leaf(p, v)] else o1;
            && PoolOk(m2, head, free, o2, first) && Owned(m2, o2, first)
            && MapsTo(m0, m2, o0, p, v, x) && Placed(o0, o2, p, v, 1, Frame(x)) && Untouched(m0, m2, o0, p)
            && SamePdes(m0, m2, p, v / NPT) && Pde(m2, p, v / NPT) == Pde(m1, p, v / NPT)
  {
    hide TablesOk, LeavesOk, PoolOk;
    LeafOwned(m1, o1, first, p, v, x);
    OwnedTable(m1, o1, first, p, v / NPT);
    var m2 := Stored(m1, p, v, x);
    assert m2[p] == m1[p];
    forall e {:trigger Pde(m2, p, e)} | 0 <= e < NPT ensures Pde(m2, p, e) == Pde(m1, p, e) {
    }
    PoolFrame(m1, head, free, o1, first, m2, if v < USER then o1[Frame(x) := Leaf(p, v)] else o1);
  }
}
