/** log.c on top of the buffer cache: the in-memory log, the loops that copy
    blocks between cache, log and home, and the admission of operations. */
module WriteAheadLog {
  import opened Common
  import opened Blocks
  import opened Disk
  import opened BufferCache
  import opened LogDisk

  /** Reference counts are back where they were, nothing is locked, and no
      buffer that could be recycled has been used up. */
  ghost predicate Settled(was: seq<Buf>, now: seq<Buf>)
  {
    && |was| == |now| == NBUF
    && forall i | 0 <= i < NBUF ::
         now[i].refcnt == was[i].refcnt && !now[i].locked && (was[i].Free() ==> now[i].Free())
  }

  /** Nobody holds a buffer's sleep-lock. */
  ghost predicate Quiet(buf: seq<Buf>)
  {
    forall i | 0 <= i < |buf| :: !buf[i].locked
  }

  ghost predicate HasFree(buf: seq<Buf>)
  {
    exists i :: 0 <= i < |buf| && buf[i].Free()
  }

  ghost predicate HasTwoFree(buf: seq<Buf>)
  {
    exists i, j :: 0 <= i < j < |buf| && buf[i].Free() && buf[j].Free()
  }

  class Wal {
    const bc: Bcache
    const l: Log
    var outstanding: int
    var committing: bool
    var n: nat                  // lh.n
    var block: seq<nat>         // lh.block

    ghost predicate Valid()
      reads this, bc
    {
      && bc.Valid()
      && |block| == LOGSIZE && n <= LOGSIZE
      && Loggable(l, bc.disk, Lh())
    }

    function Lh(): (s: seq<nat>)
      requires |block| == LOGSIZE && n <= LOGSIZE
      reads this
    {
      block[..n]
    }

    /** Exactly the blocks named in the log are pinned in the cache. */
    ghost predicate Pinned()
      reads this, bc
      requires |block| == LOGSIZE && n <= LOGSIZE
    {
      forall b :: DirtyIn(bc.buf, b) <==> b in Lh()
    }

    constructor (c: Bcache, layout: Log)
      ensures bc == c && l == layout
      ensures outstanding == 0 && !committing && n == 0 && |block| == LOGSIZE
    {
      bc, l := c, layout;
      outstanding, committing, n, block := 0, false, 0, seq(LOGSIZE, _ => 0);
    }

    /** Two breads in a row, of different blocks. */
    method BreadTwo(a: nat, b: nat) returns (ok: bool, i: nat, j: nat)
      requires bc.Valid() && a != b && a < |bc.disk| && b < |bc.disk|
      requires Quiet(bc.buf)
      modifies bc`buf, bc`disk, bc`view, bc`writes
      ensures bc.Valid() && bc.disk == old(bc.disk) && bc.view == old(bc.view) && bc.writes == old(bc.writes)
      ensures ok ==>
                && i < NBUF && j < NBUF && i != j
                && bc.buf == old(bc.buf)
                     [i := Buf(ROOTDEV, a, true, DirtyIn(old(bc.buf), a), old(bc.buf)[i].refcnt + 1, true, bc.view[a])]
                     [j := Buf(ROOTDEV, b, true, DirtyIn(old(bc.buf), b), old(bc.buf)[j].refcnt + 1, true, bc.view[b])]
                && (old(bc.buf)[i].Free() ==> !DirtyIn(old(bc.buf), a))
                && (old(bc.buf)[j].Free() ==> !DirtyIn(old(bc.buf), b))
      ensures forall x :: DirtyIn(bc.buf, x) == DirtyIn(old(bc.buf), x)
      ensures HasTwoFree(old(bc.buf)) ==> ok
      ensures HasFree(old(bc.buf)) && DirtyIn(old(bc.buf), b) ==> ok
    {
      i, j := 0, 0;
      var r := bc.Bread(a);
      if r.None? { return false, i, j; }
      i := r.value;
      assert bc.buf[i].Holds(ROOTDEV, a);
      label one:
      r := bc.Bread(b);
      if r.None? {
        forall k | 0 <= k < NBUF && k != i ensures !old(bc.buf)[k].Free() {
          assert !old@one(bc.buf)[k].Free();
        }
        return false, i, j;
      }
      j := r.value;
      assert bc.buf[j].Holds(ROOTDEV, b);
      assert i != j;
      return true, i, j;
    }

    /** Both buffers are released; the one for block b has become clean. */
    lemma PairSettled(was: seq<Buf>, i: nat, j: nat, f: Buf, g: Buf)
      requires |was| == NBUF && i < NBUF && j < NBUF && i != j
      requires Quiet(was)
      requires f.refcnt == was[i].refcnt && !f.locked && (was[i].Free() ==> !f.dirty)
      requires g.refcnt == was[j].refcnt && !g.locked && (was[j].Free() ==> !g.dirty)
      ensures Settled(was, was[i := f][j := g])
    {
    }

    /** How both copying loops end a turn: one buffer's contents are copied into another,
        that one is written to disk, and both are given back. */
    method CopyOut(src: nat, dst: nat)
      requires bc.Valid() && src < NBUF && dst < NBUF && src != dst
      requires bc.buf[src].locked && bc.buf[src].valid && bc.buf[src].data == bc.view[bc.buf[src].bno]
      requires bc.buf[dst].locked && bc.buf[dst].valid
      modifies bc
      ensures bc.Valid()
      ensures var f, g := old(bc.buf)[src], old(bc.buf)[dst];
              && bc.buf == old(bc.buf)
                   [dst := g.(data := f.data, dirty := false, locked := false, refcnt := g.refcnt - 1)]
                   [src := f.(locked := false, refcnt := f.refcnt - 1)]
              && bc.disk == old(bc.disk)[g.bno := f.data]
              && bc.view == old(bc.view)[g.bno := f.data]
              && bc.writes == old(bc.writes) + [Write(g.bno, f.data)]
              && forall x :: DirtyIn(bc.buf, x) == (x != g.bno && DirtyIn(old(bc.buf), x))
    {
      hide Bcache.Valid;
      bc.Sizes();
      bc.Apart(src, dst);
      bc.Store(dst, bc.buf[src].data);
      bc.Bwrite(dst);
      bc.Brelse(src);
      bc.Brelse(dst);
    }

    /** One turn of either loop, by block numbers. */
    ghost predicate Copied(was: seq<Buf>, now: seq<Buf>, dst: nat)
    {
      Settled(was, now) && forall x :: DirtyIn(now, x) == (x != dst && DirtyIn(was, x))
    }

    /** One turn of write_log's loop. */
    method WriteLogBlock(logb: nat, home: nat) returns (ok: bool)
      requires bc.Valid() && logb != home && logb < |bc.disk| && home < |bc.disk|
      requires Quiet(bc.buf)
      modifies bc
      ensures bc.Valid()
      ensures !ok ==> bc.disk == old(bc.disk) && bc.writes == old(bc.writes)
      ensures ok ==>
                && Copied(old(bc.buf), bc.buf, logb)
                && bc.writes == old(bc.writes) + [Write(logb, old(bc.view)[home])]
                && bc.view == old(bc.view)[logb := old(bc.view)[home]]
                && bc.disk == old(bc.disk)[logb := old(bc.view)[home]]
      ensures HasFree(old(bc.buf)) && DirtyIn(old(bc.buf), home) ==> ok
    {
      var to, from;
      ok, to, from := BreadTwo(logb, home);
      if ok {
        CopyOut(from, to);
        PairSettled(old(bc.buf), to, from, bc.buf[to], bc.buf[from]);
      }
    }

    /** One turn of install_trans's loop. */
    method InstallBlock(logb: nat, home: nat) returns (ok: bool)
      requires bc.Valid() && logb != home && logb < |bc.disk| && home < |bc.disk|
      requires Quiet(bc.buf)
      modifies bc
      ensures bc.Valid()
      ensures !ok ==> bc.disk == old(bc.disk) && bc.writes == old(bc.writes)
      ensures ok ==>
                && Copied(old(bc.buf), bc.buf, home)
                && bc.writes == old(bc.writes) + [Write(home, old(bc.view)[logb])]
                && bc.view == old(bc.view)[home := old(bc.view)[logb]]
                && bc.disk == old(bc.disk)[home := old(bc.view)[logb]]
      ensures HasFree(old(bc.buf)) && DirtyIn(old(bc.buf), home) ==> ok
      ensures HasTwoFree(old(bc.buf)) ==> ok
    {
      var lbuf, dbuf;
      ok, lbuf, dbuf := BreadTwo(logb, home);
      if ok {
        CopyOut(lbuf, dbuf);
        PairSettled(old(bc.buf), lbuf, dbuf, bc.buf[lbuf], bc.buf[dbuf]);
      }
    }

    lemma SettledTrans(a: seq<Buf>, b: seq<Buf>, c: seq<Buf>)
      requires Settled(a, b) && Settled(b, c)
      ensures Settled(a, c)
    {
    }

    lemma SettledSelf(a: seq<Buf>)
      requires |a| == NBUF && Quiet(a)
      ensures Settled(a, a)
    {
    }

    lemma SettledFree(a: seq<Buf>, b: seq<Buf>)
      requires Settled(a, b)
      ensures Quiet(a) ==> Quiet(b)
      ensures HasFree(a) ==> HasFree(b)
      ensures HasTwoFree(a) ==> HasTwoFree(b)
    {
      if i, j :| 0 <= i < j < |a| && a[i].Free() && a[j].Free() {
        assert b[i].Free() && b[j].Free();
      }
    }

    /** write_log: copy each logged block from the cache to the log.  ok is
        false when the machine stopped in bget for want of a buffer; done is
        the block writes issued by then. */
    method WriteLog() returns (ok: bool, ghost done: seq<Write>)
      requires Valid() && Quiet(bc.buf) && Pinned()
      modifies bc
      ensures bc.Valid()
      ensures Issued(old(bc.disk), old(bc.writes), done, bc.disk, bc.writes)
      ensures done <= LogWrites(l, Lh(), old(bc.view))
      ensures ok ==>
                && done == LogWrites(l, Lh(), old(bc.view))
                && bc.view == Apply(old(bc.view), done)
                && Pinned() && Settled(old(bc.buf), bc.buf)
      ensures HasFree(old(bc.buf)) ==> ok
    {
      hide Bcache.Valid, Settled, HasFree, HasTwoFree, Quiet, Issued, Apply;
      bc.Sizes();
      SettledSelf(bc.buf);
      ghost var lh := Lh();
      ghost var ws, seen := LogWrites(l, lh, bc.view), bc.view;
      ghost var b0, d0, w0 := bc.buf, bc.disk, bc.writes;
      var tail := 0;
      done := [];
      IssuedNone(bc.disk, bc.writes);
      IssuedNone(bc.view, bc.writes);
      while tail < n
        invariant tail <= n && bc.Valid() && |bc.disk| == |seen|
        invariant done == ws[..tail]
        invariant Settled(b0, bc.buf)
        invariant Pinned()
        invariant Issued(d0, w0, done, bc.disk, bc.writes)
        invariant Issued(seen, w0, done, bc.view, bc.writes)
      {
        var logb, home := l.start + tail + 1, block[tail];
        assert lh[tail] == home;
        ghost var b1 := bc.buf;
        SettledFree(b0, bc.buf);
        IssuedApply(seen, w0, done, bc.view, bc.writes);
        IssuedNext(d0, w0, done, bc.disk, bc.writes, ws[tail]);
        IssuedNext(seen, w0, done, bc.view, bc.writes, ws[tail]);
        LogKeepsHomes(l, seen, lh, tail, home);
        assert ws[tail] == Write(logb, bc.view[home]);
        ok := WriteLogBlock(logb, home);
        if !ok { return; }
        SettledTrans(b0, b1, bc.buf);
        tail, done := tail + 1, done + [ws[tail]];
      }
      IssuedApply(seen, w0, done, bc.view, bc.writes);
      ok := true;
    }

    /** write_head's stores into the header block. */
    method FillHeader(h: Block) returns (hb: Block)
      requires |block| == LOGSIZE && n <= LOGSIZE && Storable(Lh())
      ensures hb == Header(h, Lh())
    {
      hb := SetWord(h, 0, n);
      var i := 0;
      while i < n
        invariant i <= n && hb == HeaderOf(h, Lh(), i)
      {
        hb := SetWord(hb, 1 + i, block[i]);
        i := i + 1;
      }
    }

    /** Overwrite a held buffer, bwrite it and let go of it. */
    method WriteOut(i: nat, d: Block)
      requires bc.Valid() && i < NBUF && bc.buf[i].locked && bc.buf[i].valid
      modifies bc
      ensures bc.Valid()
      ensures var f := old(bc.buf)[i];
              && bc.buf == old(bc.buf)[i := f.(data := d, dirty := false, locked := false, refcnt := f.refcnt - 1)]
              && bc.disk == old(bc.disk)[f.bno := d]
              && bc.view == old(bc.view)[f.bno := d]
              && bc.writes == old(bc.writes) + [Write(f.bno, d)]
              && forall x :: DirtyIn(bc.buf, x) == (x != f.bno && DirtyIn(old(bc.buf), x))
    {
      bc.Store(i, d);
      bc.Bwrite(i);
      bc.Brelse(i);
    }

    /** write_head: the in-memory header over the header block, and out. */
    method WriteHead() returns (ok: bool)
      requires Valid() && Quiet(bc.buf) && !DirtyIn(bc.buf, l.start)
      modifies bc
      ensures bc.Valid()
      ensures !ok ==> bc.disk == old(bc.disk) && bc.writes == old(bc.writes)
      ensures ok ==>
                && Valid() && Copied(old(bc.buf), bc.buf, l.start)
                && bc.writes == old(bc.writes) + [Write(l.start, Header(old(bc.view)[l.start], Lh()))]
                && bc.view == old(bc.view)[l.start := Header(old(bc.view)[l.start], Lh())]
                && bc.disk == old(bc.disk)[l.start := Header(old(bc.view)[l.start], Lh())]
      ensures HasFree(old(bc.buf)) ==> ok
    {
      assert !LockedIn(bc.buf, l.start);
      var r := bc.Bread(l.start);
      if r.None? { return false; }
      var b := r.value;
      var hb := FillHeader(bc.buf[b].data);
      WriteOut(b, hb);
      assert Settled(old(bc.buf), bc.buf);
      return true;
    }

    /** install_trans: copy the log blocks to their homes. */
    method InstallTrans() returns (ok: bool, ghost done: seq<Write>)
      requires Valid() && Quiet(bc.buf)
      modifies bc
      ensures bc.Valid()
      ensures Issued(old(bc.disk), old(bc.writes), done, bc.disk, bc.writes)
      ensures done <= InstallWrites(l, Lh(), old(bc.view))
      ensures ok ==>
                && done == InstallWrites(l, Lh(), old(bc.view))
                && bc.view == Apply(old(bc.view), done)
                && Settled(old(bc.buf), bc.buf)
                && forall b :: DirtyIn(bc.buf, b) == (b !in Lh() && DirtyIn(old(bc.buf), b))
      ensures HasFree(old(bc.buf)) && old(Pinned()) ==> ok
      ensures HasTwoFree(old(bc.buf)) ==> ok
    {
      hide Bcache.Valid, Settled, HasFree, HasTwoFree, Quiet, Issued, Apply;
      bc.Sizes();
      SettledSelf(bc.buf);
      ghost var lh := Lh();
      ghost var ws, seen := InstallWrites(l, lh, bc.view), bc.view;
      ghost var b0, d0, w0 := bc.buf, bc.disk, bc.writes;
      var tail := 0;
      done := [];
      IssuedNone(bc.disk, bc.writes);
      IssuedNone(bc.view, bc.writes);
      while tail < n
        invariant tail <= n && bc.Valid() && |bc.disk| == |seen|
        invariant done == ws[..tail]
        invariant Settled(b0, bc.buf)
        invariant forall b :: DirtyIn(bc.buf, b) == (b !in lh[..tail] && DirtyIn(b0, b))
        invariant Issued(d0, w0, done, bc.disk, bc.writes)
        invariant Issued(seen, w0, done, bc.view, bc.writes)
      {
        var logb, home := l.start + tail + 1, block[tail];
        assert lh[tail] == home;
        TakeNext(lh, tail);
        ghost var b1 := bc.buf;
        SettledFree(b0, bc.buf);
        IssuedApply(seen, w0, done, bc.view, bc.writes);
        IssuedNext(d0, w0, done, bc.disk, bc.writes, ws[tail]);
        IssuedNext(seen, w0, done, bc.view, bc.writes, ws[tail]);
        InstallKeepsLog(l, seen, lh, tail, logb);
        assert ws[tail] == Write(home, bc.view[logb]);
        assert |bc.view| == |seen|;
        ok := InstallBlock(logb, home);
        if !ok { return; }
        SettledTrans(b0, b1, bc.buf);
        tail, done := tail + 1, done + [ws[tail]];
      }
      IssuedApply(seen, w0, done, bc.view, bc.writes);
      assert lh[..n] == lh;
      ok := true;
    }

    lemma TakeNext(lh: seq<nat>, k: nat)
      requires k < |lh|
      ensures forall b :: b in lh[..k + 1] <==> b in lh[..k] || b == lh[k]
    {
      assert lh[..k + 1] == lh[..k] + [lh[k]];
    }

    /** The home writes read from the log are those read from the cache. */
    lemma InstallsView(lh: seq<nat>, view: Image, h: Block)
      requires Loggable(l, view, lh)
      ensures var v := Apply(view, LogWrites(l, lh, view));
              && |v| == |view| && v[l.start] == view[l.start]
              && InstallWrites(l, lh, v[l.start := h]) == HomeWrites(lh, view)
    {
      var ws := LogWrites(l, lh, view);
      assert ws[..|lh|] == ws;
      LogKeepsHomes(l, view, lh, |lh|, l.start);
      var v := Apply(view, ws)[l.start := h];
      forall i | 0 <= i < |lh| ensures InstallWrites(l, lh, v)[i] == HomeWrites(lh, view)[i] {
        LogHolds(l, view, lh, |lh|, i);
      }
    }

    lemma InstallKeepsHeader(lh: seq<nat>, v: Image)
      requires Loggable(l, v, lh)
      ensures Apply(v, InstallWrites(l, lh, v))[l.start] == v[l.start]
    {
      InstallKeepsLog(l, v, lh, |lh|, l.start);
      assert InstallWrites(l, lh, v)[..|lh|] == InstallWrites(l, lh, v);
    }

    /** write_log and the header write that commits. */
    method CommitPoint() returns (ok: bool, ghost done: seq<Write>)
      requires Valid() && Quiet(bc.buf) && Pinned()
      modifies bc
      ensures bc.Valid()
      ensures Issued(old(bc.disk), old(bc.writes), done, bc.disk, bc.writes)
      ensures var ws := LogWrites(l, Lh(), old(bc.view)) + [Write(l.start, Header(old(bc.view)[l.start], Lh()))];
              done <= ws && (ok ==> done == ws)
      ensures ok ==> bc.view == Apply(old(bc.view), done) && Pinned() && Settled(old(bc.buf), bc.buf)
      ensures HasFree(old(bc.buf)) ==> ok
    {
      ghost var h := Write(l.start, Header(bc.view[l.start], Lh()));
      InstallsView(Lh(), bc.view, ZeroBlock());
      ok, done := WriteLog();
      if !ok { return; }
      SettledFree(old(bc.buf), bc.buf);
      label logged:
      IssuedNext(old(bc.disk), old(bc.writes), done, bc.disk, bc.writes, h);
      IssuedNext(old(bc.view), old(bc.writes), done, bc.view, bc.writes, h);
      ok := WriteHead();
      if !ok { return; }
      SettledTrans(old(bc.buf), old@logged(bc.buf), bc.buf);
      done := done + [h];
    }

    /** install_trans and the header write that empties the log; the second half
        of commit and the whole of recover_from_log after read_head. */
    method InstallAndErase() returns (ok: bool, ghost done: seq<Write>)
      requires Valid() && Quiet(bc.buf) && forall b :: DirtyIn(bc.buf, b) ==> b in Lh()
      modifies `n, bc
      ensures bc.Valid()
      ensures Issued(old(bc.disk), old(bc.writes), done, bc.disk, bc.writes)
      ensures var ws := InstallWrites(l, old(Lh()), old(bc.view)) + [Write(l.start, Header(old(bc.view)[l.start], []))];
              done <= ws && (ok ==> done == ws)
      ensures ok ==>
                && n == 0 && bc.view == Apply(old(bc.view), done) && Settled(old(bc.buf), bc.buf)
                && forall b :: !DirtyIn(bc.buf, b)
      ensures HasFree(old(bc.buf)) && old(Pinned()) ==> ok
      ensures HasTwoFree(old(bc.buf)) ==> ok
    {
      ghost var h := Write(l.start, Header(bc.view[l.start], []));
      InstallKeepsHeader(Lh(), bc.view);
      ok, done := InstallTrans();
      if !ok { return; }
      SettledFree(old(bc.buf), bc.buf);
      label installed:
      IssuedNext(old(bc.disk), old(bc.writes), done, bc.disk, bc.writes, h);
      IssuedNext(old(bc.view), old(bc.writes), done, bc.view, bc.writes, h);
      n := 0;
      assert Lh() == [];
      ok := WriteHead();
      if !ok { return; }
      SettledTrans(old(bc.buf), old@installed(bc.buf), bc.buf);
      done := done + [h];
    }

    /** commit.  Whether it runs to its end or the machine stops in it, the
        writes it has issued are an initial part of CommitWrites. */
    method Commit() returns (ok: bool, ghost done: seq<Write>)
      requires Valid() && Quiet(bc.buf) && Pinned()
      modifies `n, bc
      ensures bc.Valid()
      ensures Issued(old(bc.disk), old(bc.writes), done, bc.disk, bc.writes)
      ensures var ws := CommitWrites(l, old(Lh()), old(bc.view), old(bc.view)[l.start]);
              done <= ws && (ok ==> done == ws)
      ensures ok ==>
                && n == 0 && bc.view == Apply(old(bc.view), done) && Settled(old(bc.buf), bc.buf)
                && forall b :: !DirtyIn(bc.buf, b)
      ensures HasFree(old(bc.buf)) ==> ok
    {
      hide Settled, HasFree, Header, LogWrites, InstallWrites, HomeWrites, Issued, Apply, Loggable, Storable,
           Bcache.Valid;
      bc.Sizes();
      if n == 0 {
        assert Lh() == [];
        CommitNone(bc.buf, bc.disk, bc.view, bc.writes);
        return true, [];
      }
      ghost var b0, d0, v0, w0 := bc.buf, bc.disk, bc.view, bc.writes;
      LoggableSize(l, d0, v0, Lh());
      CommitView(Lh(), v0);
      ok, done := CommitPoint();
      if !ok { return; }
      SettledFree(b0, bc.buf);
      IssuedApply(d0, w0, done, bc.disk, bc.writes);
      LoggableSize(l, d0, bc.disk, Lh());
      ghost var b1, d1, w1, more := bc.buf, bc.disk, bc.writes, [];
      ok, more := InstallAndErase();
      IssuedThen(d0, w0, done, d1, w1,
                 more, bc.disk, bc.writes);
      ApplyConcat(v0, done, more);
      done := done + more;
      if !ok { return; }
      SettledTrans(b0, b1, bc.buf);
    }

    lemma CommitView(lh: seq<nat>, v: Image)
      requires Loggable(l, v, lh)
      ensures var w := Apply(v, LogWrites(l, lh, v) + [Write(l.start, Header(v[l.start], lh))]);
              && w[l.start] == Header(v[l.start], lh)
              && InstallWrites(l, lh, w) == HomeWrites(lh, v)
    {
      InstallsView(lh, v, Header(v[l.start], lh));
      var p, w := LogWrites(l, lh, v), Write(l.start, Header(v[l.start], lh));
      assert (p + [w])[..|p|] == p;
    }

    /** read_head: the header block's list into memory. */
    method ReadHead() returns (ok: bool)
      requires bc.Valid() && Quiet(bc.buf) && |block| == LOGSIZE && l.Fits(bc.view)
      requires HeaderCount(bc.view[l.start]) <= LOGSIZE
      modifies `n, `block, bc
      ensures bc.Valid() && bc.disk == old(bc.disk) && bc.view == old(bc.view) && bc.writes == old(bc.writes)
      ensures ok ==>
                && |block| == LOGSIZE && n <= LOGSIZE && Lh() == HeaderBlocks(bc.view[l.start])
                && Settled(old(bc.buf), bc.buf) && forall b :: DirtyIn(bc.buf, b) == DirtyIn(old(bc.buf), b)
      ensures HasFree(old(bc.buf)) ==> ok
    {
      assert !LockedIn(bc.buf, l.start);
      var r := bc.Bread(l.start);
      if r.None? { return false; }
      LoadHeader(bc.buf[r.value].data);
      bc.Brelse(r.value);
      assert Settled(old(bc.buf), bc.buf);
      return true;
    }

    /** read_head's loop. */
    method LoadHeader(h: Block)
      requires |block| == LOGSIZE && HeaderCount(h) <= LOGSIZE
      modifies `n, `block
      ensures |block| == LOGSIZE && n <= LOGSIZE && Lh() == HeaderBlocks(h)
    {
      n := Word(h, 0);
      var i := 0;
      while i < n
        invariant i <= n == HeaderCount(h) && |block| == LOGSIZE
        invariant forall k | 0 <= k < i :: block[k] == HeaderBlocks(h)[k]
      {
        block := block[i := Word(h, 1 + i)];
        i := i + 1;
      }
    }

    /** recover_from_log, at boot: the cache is empty. */
    method RecoverFromLog() returns (ok: bool, ghost done: seq<Write>)
      requires bc.Valid() && Quiet(bc.buf) && |block| == LOGSIZE
      requires Readable(l, bc.disk) && forall b :: !DirtyIn(bc.buf, b)
      modifies `n, `block, bc
      ensures bc.Valid()
      ensures Issued(old(bc.disk), old(bc.writes), done, bc.disk, bc.writes)
      ensures done <= RecoverWrites(l, old(bc.disk)) && (ok ==> done == RecoverWrites(l, old(bc.disk)))
      ensures ok ==>
                && |block| == LOGSIZE && n == 0 && bc.view == bc.disk && Settled(old(bc.buf), bc.buf)
                && forall b :: !DirtyIn(bc.buf, b)
      ensures HasTwoFree(old(bc.buf)) ==> ok
    {
      assert bc.view == bc.disk;
      IssuedNone(bc.disk, bc.writes);
      done := [];
      ok := ReadHead();
      if !ok { return; }
      SettledFree(old(bc.buf), bc.buf);
      label loaded:
      ok, done := InstallAndErase();
      if !ok { return; }
      SettledTrans(old(bc.buf), old@loaded(bc.buf), bc.buf);
    }

    /** One pass of begin_op's loop under log.lock: either the operation is
        admitted, or the caller goes to sleep on the log. */
    method TryBegin() returns (admitted: bool)
      modifies `outstanding
      ensures admitted <==> old(!committing && n + (outstanding + 1) * MAXOPBLOCKS <= LOGSIZE)
      ensures outstanding == old(outstanding) + (if admitted then 1 else 0)
    {
      if committing {
        admitted := false;
      } else if n + (outstanding + 1) * MAXOPBLOCKS > LOGSIZE {
        admitted := false;
      } else {
        outstanding := outstanding + 1;
        admitted := true;
      }
    }

    /** end_op: the last operation out commits.  ok is false when it panics,
        in end_op itself or for want of a buffer inside commit. */
    method EndOp() returns (ok: bool, ghost done: seq<Write>)
      requires Valid() && Quiet(bc.buf) && Pinned()
      modifies `outstanding, `committing, `n, bc
      ensures bc.Valid() && outstanding == old(outstanding) - 1
      ensures Issued(old(bc.disk), old(bc.writes), done, bc.disk, bc.writes)
      ensures old(committing) ==> !ok && done == []
      ensures !old(committing) && outstanding != 0 ==>
                ok && done == [] && n == old(n) && !committing && bc.view == old(bc.view) && bc.buf == old(bc.buf)
      ensures !old(committing) && outstanding == 0 ==>
                && done <= CommitWrites(l, old(Lh()), old(bc.view), old(bc.view)[l.start])
                && (ok ==> && done == CommitWrites(l, old(Lh()), old(bc.view), old(bc.view)[l.start])
                           && !committing && n == 0 && bc.view == Apply(old(bc.view), done)
                           && forall b :: !DirtyIn(bc.buf, b))
      ensures HasFree(old(bc.buf)) && !old(committing) ==> ok
    {
      IssuedNone(bc.disk, bc.writes);
      done := [];
      outstanding := outstanding - 1;
      if committing { return false, []; }
      ok := true;
      if outstanding == 0 {
        committing := true;
        ok, done := Commit();
        if !ok { return; }
        committing := false;
      }
    }

    /** log_write of a buffer the caller holds and has modified.  ok is false
        when it panics, which it does exactly on the stated condition. */
    method LogWrite(i: nat) returns (ok: bool)
      requires Valid() && Pinned()
      requires i < NBUF && bc.buf[i].locked && bc.buf[i].valid
      requires !l.Owns(bc.buf[i].bno) && bc.buf[i].bno < UINT_LIMIT
      modifies `n, `block, bc
      ensures ok <==> old(n < LOGSIZE && n < l.size - 1 && outstanding >= 1)
      ensures Valid() && Pinned() && bc.disk == old(bc.disk) && bc.writes == old(bc.writes)
      ensures Lh() == if ok then Absorb(old(Lh()), old(bc.buf)[i].bno) else old(Lh())
      ensures Lh() == if ok && old(bc.buf)[i].bno !in old(Lh()) then old(Lh()) + [old(bc.buf)[i].bno] else old(Lh())
      ensures bc.view == if ok then old(bc.view)[old(bc.buf)[i].bno := old(bc.buf)[i].data] else old(bc.view)
      ensures bc.buf == if ok then old(bc.buf)[i := old(bc.buf)[i].(dirty := true)] else old(bc.buf)
    {
      if n >= LOGSIZE || n >= l.size - 1 { return false; }
      if outstanding < 1 { return false; }
      var b := bc.buf[i].bno;
      var k := 0;
      while k < n && block[k] != b                     // log absorption
        invariant k <= n && b !in Lh()[..k]
      {
        assert Lh()[..k + 1] == Lh()[..k] + [Lh()[k]];
        k := k + 1;
      }
      ghost var lh := Lh();
      assert lh[..n] == lh;
      assert k < n ==> lh[k] == b;
      block := block[k := b];
      if k == n {
        n := n + 1;
      }
      assert Lh() == Absorb(lh, b);
      bc.Pin(i);
      return true;
    }
  }

  lemma LoggableSize(l: Log, d: Image, e: Image, lh: seq<nat>)
    requires Loggable(l, d, lh) && |e| == |d|
    ensures Loggable(l, e, lh)
  {
  }

  lemma CommitNone(b: seq<Buf>, d: Image, v: Image, ws: seq<Write>)
    requires |b| == NBUF && Quiet(b)
    ensures Issued(d, ws, [], d, ws) && Apply(v, []) == v && Settled(b, b)
  {
  }

  /** Logging a block that is already in the log changes nothing in the list. */
  function Absorb(lh: seq<nat>, b: nat): seq<nat>
  {
    if b in lh then lh else lh + [b]
  }
}
