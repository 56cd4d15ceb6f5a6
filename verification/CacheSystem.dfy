/** bio.c with any number of users at once: bget counts a reference while it has
    bcache.lock and waits for the buffer's sleep-lock only afterwards, and brelse gives
    the sleep-lock back before the reference. */
module CacheSystem {
  import opened Common
  import opened Blocks
  import opened Disk

  /** A buffer; bno is None while it is for no block, lock the user inside its sleep-lock. */
  datatype Buffer = Buffer(bno: Option<nat>, valid: bool, dirty: bool, ref: nat, lock: Option<nat>, data: Block)
  {
    /** What bget may recycle. */
    predicate Free() { ref == 0 && !dirty }
  }

  /** Where a user of a buffer is: before acquiresleep; inside, the valid flag not yet looked
      at; with the block's contents; with contents of its own that it has neither logged nor
      written; the sleep-lock given back. */
  datatype Pc = Waiting | Entered | Reading | Edited | Leaving

  /** A user of buffer i. */
  datatype User = User(i: nat, pc: Pc)

  datatype State = State(buf: seq<Buffer>, user: map<nat, User>, disk: Image)

  datatype Step =
    | Get(k: nat, b: nat, i: nat)            // bget up to release(&bcache.lock): buffer i is for block b
    | Lock(k: nat)                           // acquiresleep
    | Read(k: nat)                           // bread's look at the valid flag, and the read
    | Edit(k: nat, data: Block)
    | Pin(k: nat)                            // log_write
    | Write(k: nat)                          // bwrite
    | Unlock(k: nat)                         // brelse's releasesleep
    | Drop(k: nat)                           // the rest of brelse

  predicate Inside(pc: Pc) { pc.Entered? || pc.Reading? || pc.Edited? }

  /** Buffer i is what bget comes to for block b: the one that has it, or, if none has, one it may recycle. */
  predicate Picks(buf: seq<Buffer>, b: nat, i: nat)
  {
    i < |buf| && (buf[i].bno == Some(b) || (buf[i].Free() && forall j | 0 <= j < |buf| :: buf[j].bno != Some(b)))
  }

  predicate Enabled(s: State, e: Step)
  {
    match e
    case Get(k, b, i) => k !in s.user && b < |s.disk| && Picks(s.buf, b, i)
    case _ =>
      && e.k in s.user && s.user[e.k].i < |s.buf|
      && var f, pc := s.buf[s.user[e.k].i], s.user[e.k].pc;
         && f.bno.Some? && f.bno.value < |s.disk|
         && match e
            case Lock(_) => pc.Waiting? && f.lock.None?
            case Read(_) => pc.Entered?
            case Edit(_, _) => pc.Reading? || pc.Edited?
            case Pin(_) => pc.Reading? || pc.Edited?
            case Write(_) => pc.Reading? || pc.Edited?
            case Unlock(_) => pc.Reading? || pc.Edited?
            case Drop(_) => pc.Leaving? && f.ref > 0
  }

  function Got(f: Buffer, b: nat): Buffer
  {
    if f.bno == Some(b) then f.(ref := f.ref + 1) else f.(bno := Some(b), valid := false, dirty := false, ref := 1)
  }

  datatype After = After(buf: Buffer, pc: Pc, block: Block)

  /** The buffer, the user's place and the block on disk after a user's step. */
  function Acted(e: Step, f: Buffer, pc: Pc, d: Block): After
    requires !e.Get? && !e.Drop?
  {
    match e
    case Lock(k) => After(f.(lock := Some(k)), Entered, d)
    case Read(_) => After(if f.valid then f else f.(valid := true, data := d), Reading, d)
    case Edit(_, data) => After(f.(data := data), Edited, d)
    case Pin(_) => After(f.(dirty := true), Reading, d)
    case Write(_) => After(f.(dirty := false), Reading, f.data)
    case Unlock(_) => After(f.(lock := None), Leaving, d)
  }

  function Do(s: State, e: Step): State
    requires Enabled(s, e)
  {
    match e
    case Get(k, b, i) => s.(buf := s.buf[i := Got(s.buf[i], b)], user := s.user[k := User(i, Waiting)])
    case Drop(k) =>
      var i := s.user[k].i;
      s.(buf := s.buf[i := s.buf[i].(ref := s.buf[i].ref - 1)], user := s.user - {k})
    case _ =>
      var i := s.user[e.k].i;
      var r := Acted(e, s.buf[i], s.user[e.k].pc, s.disk[s.buf[i].bno.value]);
      s.(buf := s.buf[i := r.buf], user := s.user[e.k := User(i, r.pc)], disk := s.disk[s.buf[i].bno.value := r.block])
  }

  // ----- what every step keeps -----

  /** The users of buffer i. */
  ghost function On(user: map<nat, User>, i: nat): set<nat>
  {
    set k | k in user && user[k].i == i
  }

  /** Its holder has changed it and said so to nobody. */
  predicate Unsaved(s: State, i: nat)
    requires i < |s.buf|
  {
    s.buf[i].lock.Some? && s.buf[i].lock.value in s.user && s.user[s.buf[i].lock.value].pc.Edited?
  }

  ghost predicate BufferOk(s: State, i: nat)
    requires i < |s.buf|
  {
    var f := s.buf[i];
    && f.ref == |On(s.user, i)|
    && (f.lock.Some? ==> f.lock.value in s.user && s.user[f.lock.value].i == i && Inside(s.user[f.lock.value].pc))
    && (f.bno.Some? ==> f.bno.value < |s.disk|) && (f.ref > 0 || f.valid ==> f.bno.Some?) && (f.dirty ==> f.valid)
    && (f.valid && !f.dirty && !Unsaved(s, i) ==> f.data == s.disk[f.bno.value])
  }

  predicate UserOk(s: State, k: nat)
    requires k in s.user
  {
    var u := s.user[k];
    && u.i < |s.buf| && (Inside(u.pc) ==> s.buf[u.i].lock == Some(k))
    && (u.pc.Reading? || u.pc.Edited? ==> s.buf[u.i].valid)
  }

  ghost predicate Inv(s: State)
  {
    && (forall i {:trigger BufferOk(s, i)} {:trigger s.buf[i]} | 0 <= i < |s.buf| :: BufferOk(s, i))
    && (forall k {:trigger UserOk(s, k)} {:trigger s.user[k]} | k in s.user :: UserOk(s, k))
    && (forall i, j {:trigger s.buf[i], s.buf[j]} |
          0 <= i < j < |s.buf| && s.buf[i].bno.Some? && s.buf[j].bno.Some? :: s.buf[i].bno != s.buf[j].bno)
  }

  /** binit. */
  function Init(n: nat, disk: Image): State
  {
    State(seq(n, _ => Buffer(None, false, false, 0, None, ZeroBlock())), map[], disk)
  }

  lemma InitOk(n: nat, disk: Image)
    ensures Inv(Init(n, disk))
  {
    forall i | 0 <= i < n ensures BufferOk(Init(n, disk), i) { assert On(map[], i) == {}; }
  }

  /** Giving a buffer back whose new contents were neither logged nor written. */
  predicate Forgets(s: State, e: Step)
  {
    && e.Unlock? && e.k in s.user && s.user[e.k].i < |s.buf|
    && var f := s.buf[s.user[e.k].i];
       s.user[e.k].pc.Edited? && !f.dirty && f.bno.Some? && f.bno.value < |s.disk| && f.data != s.disk[f.bno.value]
  }

  lemma OnPut(user: map<nat, User>, k: nat, u: User, i: nat)
    ensures On(user[k := u], i) == if u.i == i then On(user, i) + {k} else On(user, i) - {k}
  {
  }

  lemma OnDrop(user: map<nat, User>, k: nat, i: nat)
    ensures On(user - {k}, i) == On(user, i) - {k}
  {
  }

  lemma LockedUsed(s: State, i: nat)
    requires Inv(s) && i < |s.buf|
    ensures s.buf[i].lock.Some? ==> s.buf[i].lock.value in On(s.user, i)
  {
    assert BufferOk(s, i);
  }

  lemma Unused(s: State, i: nat)
    requires Inv(s) && i < |s.buf| && s.buf[i].ref == 0
    ensures s.buf[i].lock.None? && forall k | k in s.user :: s.user[k].i != i
  {
    assert BufferOk(s, i);
    assert On(s.user, i) == {};
    LockedUsed(s, i);
    forall k | k in s.user ensures s.user[k].i != i { assert k !in On(s.user, i); }
  }

  lemma GetBuffer(s: State, k: nat, b: nat, i: nat, m: nat)
    requires Inv(s) && Enabled(s, Get(k, b, i)) && m < |s.buf|
    ensures BufferOk(Do(s, Get(k, b, i)), m)
  {
    assert BufferOk(s, m);
    OnPut(s.user, k, User(i, Waiting), m);
    assert k !in On(s.user, m);
    if s.buf[m].ref == 0 { Unused(s, m); }
  }

  lemma GetKept(s: State, k: nat, b: nat, i: nat)
    requires Inv(s) && Enabled(s, Get(k, b, i))
    ensures Inv(Do(s, Get(k, b, i)))
  {
    hide BufferOk;
    var s' := Do(s, Get(k, b, i));
    forall m | 0 <= m < |s'.buf| ensures BufferOk(s', m) { GetBuffer(s, k, b, i, m); }
    if s.buf[i].ref == 0 { Unused(s, i); }
    forall t | t in s'.user ensures UserOk(s', t) { if t != k { assert UserOk(s, t); } }
  }

  lemma DropBuffer(s: State, k: nat, m: nat)
    requires Inv(s) && Enabled(s, Drop(k)) && m < |s.buf|
    ensures BufferOk(Do(s, Drop(k)), m)
  {
    assert BufferOk(s, m) && UserOk(s, k);
    OnDrop(s.user, k, m);
    assert k in On(s.user, m) <==> m == s.user[k].i;
  }

  lemma DropKept(s: State, k: nat)
    requires Inv(s) && Enabled(s, Drop(k))
    ensures Inv(Do(s, Drop(k)))
  {
    hide BufferOk;
    var s' := Do(s, Drop(k));
    forall m | 0 <= m < |s'.buf| ensures BufferOk(s', m) { DropBuffer(s, k, m); }
    forall t | t in s'.user ensures UserOk(s', t) { assert UserOk(s, t); }
  }

  lemma ActBuffer(s: State, e: Step, m: nat)
    requires Inv(s) && Enabled(s, e) && !e.Get? && !e.Drop? && m < |s.buf|
    ensures BufferOk(Do(s, e), m) <==> !(Forgets(s, e) && m == s.user[e.k].i)
  {
    hide BufferOk, UserOk, Forgets;
    var i := s.user[e.k].i;
    assert BufferOk(s, m) && BufferOk(s, i) && UserOk(s, e.k);
    if m == i {
      OwnBuffer(s, e);
    } else {
      assert s.buf[m].bno.Some? ==> s.buf[m].bno != s.buf[i].bno;
      OtherBuffer(s, e, m);
    }
  }

  lemma OwnBuffer(s: State, e: Step)
    requires Enabled(s, e) && !e.Get? && !e.Drop? && BufferOk(s, s.user[e.k].i) && UserOk(s, e.k)
    ensures BufferOk(Do(s, e), s.user[e.k].i) <==> !Forgets(s, e)
  {
    var i := s.user[e.k].i;
    OnPut(s.user, e.k, Do(s, e).user[e.k], i);
    assert On(s.user, i) + {e.k} == On(s.user, i);
  }

  lemma OtherBuffer(s: State, e: Step, m: nat)
    requires Enabled(s, e) && !e.Get? && !e.Drop? && m < |s.buf| && m != s.user[e.k].i && BufferOk(s, m)
    requires s.buf[m].bno.Some? ==> s.buf[m].bno != s.buf[s.user[e.k].i].bno
    ensures BufferOk(Do(s, e), m)
  {
    OnPut(s.user, e.k, Do(s, e).user[e.k], m);
    assert e.k !in On(s.user, m);
  }

  lemma ActKept(s: State, e: Step)
    requires Inv(s) && Enabled(s, e) && !e.Get? && !e.Drop?
    ensures Inv(Do(s, e)) <==> !Forgets(s, e)
  {
    hide BufferOk;
    var s' := Do(s, e);
    forall m | 0 <= m < |s'.buf| ensures BufferOk(s', m) <==> !(Forgets(s, e) && m == s.user[e.k].i) {
      ActBuffer(s, e, m);
    }
    assert UserOk(s, e.k) && (Forgets(s, e) ==> !BufferOk(s', s.user[e.k].i));
    forall t | t in s'.user ensures UserOk(s', t) { assert UserOk(s, t); }
  }

  /** Every step keeps the invariant, except giving back a buffer with unsaved changes. */
  lemma StepKept(s: State, e: Step)
    requires Inv(s) && Enabled(s, e)
    ensures Inv(Do(s, e)) <==> !Forgets(s, e)
  {
    hide Inv;
    match e
    case Get(k, b, i) => GetKept(s, k, b, i);
    case Drop(k) => DropKept(s, k);
    case _ => ActKept(s, e);
  }

  // ----- what users see -----

  /** What the cache shows for block b: the contents of its buffer, or else the disk's. */
  ghost function Seen(s: State, b: nat): Block
    requires b < |s.disk|
  {
    if i :| 0 <= i < |s.buf| && s.buf[i].valid && s.buf[i].bno == Some(b) then s.buf[i].data else s.disk[b]
  }

  lemma SeenIn(s: State, b: nat, i: nat)
    requires Inv(s) && b < |s.disk| && i < |s.buf| && s.buf[i].bno == Some(b)
    ensures Seen(s, b) == if s.buf[i].valid then s.buf[i].data else s.disk[b]
  {
    hide BufferOk, UserOk;
  }

  /** The block a user has. */
  function BlockOf(s: State, k: nat): Option<nat>
  {
    if k in s.user && s.user[k].i < |s.buf| then s.buf[s.user[k].i].bno else None
  }

  lemma SeenNone(s: State, b: nat)
    requires b < |s.disk| && forall i | 0 <= i < |s.buf| :: s.buf[i].bno != Some(b)
    ensures Seen(s, b) == s.disk[b]
  {
  }

  /** The buffer a step is about. */
  function Target(s: State, e: Step): nat
    requires Enabled(s, e)
  {
    if e.Get? then e.i else s.user[e.k].i
  }

  /** The other buffers and the other blocks are left alone. */
  lemma OthersSame(s: State, e: Step)
    requires Inv(s) && Enabled(s, e)
    ensures Target(s, e) < |s.buf| == |Do(s, e).buf| && |Do(s, e).disk| == |s.disk|
    ensures forall j | 0 <= j < |s.buf| && j != Target(s, e) :: Do(s, e).buf[j] == s.buf[j]
    ensures forall b | 0 <= b < |s.disk| && s.buf[Target(s, e)].bno != Some(b) :: Do(s, e).disk[b] == s.disk[b]
  {
    hide BufferOk, UserOk;
  }

  /** The step on the buffer of block b itself. */
  lemma TargetSeen(s: State, e: Step, b: nat)
    requires Inv(s) && Enabled(s, e) && Inv(Do(s, e)) && b < |s.disk| == |Do(s, e).disk| && Target(s, e) < |s.buf|
    requires s.buf[Target(s, e)].bno == Some(b) && Do(s, e).buf[Target(s, e)].bno == Some(b)
    ensures Seen(Do(s, e), b) == if e.Edit? then e.data else Seen(s, b)
  {
    hide Inv;
    SeenIn(s, b, Target(s, e));
    SeenIn(Do(s, e), b, Target(s, e));
    if !e.Get? { Looked(s, e.k); }
  }

  lemma Looked(s: State, k: nat)
    requires Inv(s) && k in s.user
    ensures UserOk(s, k)
  {
  }

  /** A buffer is recycled only when the disk has what it holds. */
  lemma RecycledSaved(s: State, k: nat, c: nat, i: nat, b: nat)
    requires Inv(s) && Enabled(s, Get(k, c, i)) && s.buf[i].bno == Some(b) && b != c && b < |s.disk|
    ensures Seen(s, b) == s.disk[b]
  {
    assert BufferOk(s, i);
    Unused(s, i);
    SeenIn(s, b, i);
  }

  /** To its users the cache is the blocks and nothing more: a step changes what is seen of a
      block only by an edit, made by the one user inside its sleep-lock. */
  lemma StepSeen(s: State, e: Step, b: nat)
    requires Inv(s) && Enabled(s, e) && !Forgets(s, e) && b < |s.disk|
    ensures |Do(s, e).disk| == |s.disk|
    ensures Seen(Do(s, e), b) == if e.Edit? && BlockOf(s, e.k) == Some(b) then e.data else Seen(s, b)
  {
    hide Inv, Seen, Do, Picks;
    StepKept(s, e);
    OthersSame(s, e);
    Same(s, e);
    var i, s' := Target(s, e), Do(s, e);
    if j :| 0 <= j < |s.buf| && j != i && s.buf[j].bno == Some(b) {
      OneBuffer(s, i, j);
      SeenIn(s, b, j);
      SeenIn(s', b, j);
    } else if s.buf[i].bno == Some(b) {
      if s'.buf[i].bno == Some(b) {
        TargetSeen(s, e, b);
      } else {
        RecycledSaved(s, e.k, e.b, i, b);
        SeenNone(s', b);
      }
    } else {
      SeenNone(s, b);
      if s'.buf[i].bno == Some(b) { SeenIn(s', b, i); } else { SeenNone(s', b); }
    }
  }

  /** Only bget gives a buffer another block, and then it is not valid. */
  lemma Same(s: State, e: Step)
    requires Inv(s) && Enabled(s, e)
    ensures var i := Target(s, e);
            && i < |s.buf| == |Do(s, e).buf|
            && (Do(s, e).buf[i].bno != s.buf[i].bno ==>
                  && e.Get? && s.buf[i].bno != Some(e.b) && !Do(s, e).buf[i].valid && Do(s, e).disk == s.disk)
            && (!e.Get? ==> BlockOf(s, e.k) == s.buf[i].bno)
  {
    hide BufferOk, UserOk;
  }

  /** A block has one buffer. */
  lemma OneBuffer(s: State, i: nat, j: nat)
    requires Inv(s) && i < |s.buf| && j < |s.buf| && i != j && s.buf[j].bno.Some?
    ensures s.buf[i].bno != s.buf[j].bno
  {
    hide BufferOk, UserOk;
  }

  /** Users of one block use one buffer, and one of them at most is inside its sleep-lock. */
  lemma Exclusive(s: State, t: nat, u: nat)
    requires Inv(s) && BlockOf(s, t).Some? && BlockOf(s, t) == BlockOf(s, u)
    ensures s.user[t].i == s.user[u].i
    ensures Inside(s.user[t].pc) && Inside(s.user[u].pc) ==> t == u
  {
    hide BufferOk;
    assert UserOk(s, t) && UserOk(s, u);
  }

  /** Inside it a reader has what is seen of the block; what is neither dirty nor being edited is on disk. */
  lemma ReaderSees(s: State, k: nat)
    requires Inv(s) && k in s.user && (s.user[k].pc.Reading? || s.user[k].pc.Edited?)
    ensures BlockOf(s, k).Some? && BlockOf(s, k).value < |s.disk|
    ensures s.buf[s.user[k].i].data == Seen(s, BlockOf(s, k).value)
    ensures s.user[k].pc.Reading? && !s.buf[s.user[k].i].dirty ==>
              s.buf[s.user[k].i].data == s.disk[BlockOf(s, k).value]
  {
    assert UserOk(s, k) && BufferOk(s, s.user[k].i);
    SeenIn(s, s.buf[s.user[k].i].bno.value, s.user[k].i);
  }

  /** A buffer stays with its block while it is referenced or dirty, and dirty until it is written. */
  lemma NotRecycled(s: State, e: Step, i: nat)
    requires Inv(s) && Enabled(s, e) && i < |s.buf| && !s.buf[i].Free()
    ensures i < |Do(s, e).buf| && Do(s, e).buf[i].bno == s.buf[i].bno
    ensures s.buf[i].dirty ==> Do(s, e).buf[i].dirty || (e.Write? && Target(s, e) == i)
  {
    hide BufferOk, UserOk;
  }

  // ----- whole runs -----

  /** s' is reached from s by steps, none of which gives back unsaved changes. */
  ghost predicate Runs(s: State, steps: seq<Step>, s': State)
    decreases |steps|
  {
    if steps == [] then s' == s
    else Enabled(s, steps[0]) && !Forgets(s, steps[0]) && Runs(Do(s, steps[0]), steps[1..], s')
  }

  /** The last edit of block b in a run, or what it held at the start. */
  ghost function LastEdit(s: State, steps: seq<Step>, b: nat, start: Block): Block
    decreases |steps|
  {
    if steps == [] || !Enabled(s, steps[0]) then start
    else
      var e := steps[0];
      LastEdit(Do(s, e), steps[1..], b, if e.Edit? && BlockOf(s, e.k) == Some(b) then e.data else start)
  }

  /** bget gives its caller a buffer for the block asked for, and it stays one until the caller lets go of it. */
  lemma StepHas(s: State, e: Step, k: nat)
    requires Inv(s) && Enabled(s, e)
    ensures e.Get? ==> BlockOf(Do(s, e), e.k) == Some(e.b)
    ensures k in s.user && BlockOf(s, k).Some? && !(e.Get? && e.k == k) ==>
              BlockOf(Do(s, e), k) == if e == Drop(k) then None else BlockOf(s, k)
  {
    hide BufferOk;
    if k in s.user {
      assert UserOk(s, k);
      UsedBuffer(s, k);
      if e.Get? && e.i == s.user[k].i { assert s.buf[e.i].bno == Some(e.b); }
    }
  }

  lemma UsedBuffer(s: State, k: nat)
    requires Inv(s) && k in s.user
    ensures s.user[k].i < |s.buf| && s.buf[s.user[k].i].ref > 0 && s.buf[s.user[k].i].bno.Some?
  {
    assert UserOk(s, k) && BufferOk(s, s.user[k].i) && k in On(s.user, s.user[k].i);
  }

  lemma {:induction false} RunHas(s: State, steps: seq<Step>, s': State, k: nat, b: nat)
    requires Inv(s) && Runs(s, steps, s') && BlockOf(s, k) == Some(b) && Drop(k) !in steps
    ensures BlockOf(s', k) == Some(b)
    decreases |steps|
  {
    hide Inv, Do, Forgets;
    if steps != [] {
      StepKept(s, steps[0]);
      StepHas(s, steps[0], k);
      RunHas(Do(s, steps[0]), steps[1..], s', k, b);
    }
  }

  /** Whatever order the users' steps come in: the invariant holds, and a reader of a block has
      the last edit of it. */
  lemma {:induction false} RunKept(s: State, steps: seq<Step>, s': State, b: nat)
    requires Inv(s) && Runs(s, steps, s') && b < |s.disk|
    ensures Inv(s') && b < |s'.disk| && Seen(s', b) == LastEdit(s, steps, b, Seen(s, b))
    decreases |steps|
  {
    hide Inv, Enabled, Do, Seen, Forgets;
    if steps != [] {
      StepKept(s, steps[0]);
      StepSeen(s, steps[0], b);
      RunKept(Do(s, steps[0]), steps[1..], s', b);
    }
  }

  /** From binit on, over any disk and with any number of buffers. */
  lemma RunSafe(n: nat, d: Image, steps: seq<Step>, s: State, k: nat)
    requires Runs(Init(n, d), steps, s) && BlockOf(s, k).Some? && BlockOf(s, k).value < |d|
    requires s.user[k].pc.Reading? || s.user[k].pc.Edited?
    ensures var b := BlockOf(s, k).value; s.buf[s.user[k].i].data == LastEdit(Init(n, d), steps, b, d[b])
    ensures forall u | BlockOf(s, u) == BlockOf(s, k) && Inside(s.user[u].pc) :: u == k
  {
    hide Inv, Runs, Seen, LastEdit;
    var b := BlockOf(s, k).value;
    InitOk(n, d);
    SeenNone(Init(n, d), b);
    RunKept(Init(n, d), steps, s, b);
    ReaderSees(s, k);
    forall u | BlockOf(s, u) == BlockOf(s, k) && Inside(s.user[u].pc) ensures u == k { Exclusive(s, u, k); }
  }

  // ----- whole calls -----

  /** bread, undisturbed: the caller alone has the block, with what is seen of it. */
  lemma BreadWhole(s: State, k: nat, b: nat, i: nat) returns (s1: State, s2: State, s': State)
    requires Inv(s) && Enabled(s, Get(k, b, i)) && s.buf[i].lock.None?
    ensures s1 == Do(s, Get(k, b, i)) && Enabled(s1, Lock(k)) && s2 == Do(s1, Lock(k))
    ensures Enabled(s2, Read(k)) && s' == Do(s2, Read(k))
    ensures Inv(s') && s'.disk == s.disk && s'.user == s.user[k := User(i, Reading)]
    ensures |s'.buf| == |s.buf| && s'.buf[i].bno == Some(b) && s'.buf[i].lock == Some(k)
    ensures s'.buf[i].data == Seen(s, b)
  {
    hide Inv, BufferOk, UserOk, Seen;
    StepKept(s, Get(k, b, i));
    StepSeen(s, Get(k, b, i), b);
    s1 := Do(s, Get(k, b, i));
    StepKept(s1, Lock(k));
    StepSeen(s1, Lock(k), b);
    s2 := Do(s1, Lock(k));
    StepKept(s2, Read(k));
    StepSeen(s2, Read(k), b);
    s' := Do(s2, Read(k));
    ReaderSees(s', k);
  }

  lemma InsideBuffer(s: State, k: nat)
    requires Inv(s) && k in s.user && Inside(s.user[k].pc)
    ensures var i := s.user[k].i;
            && i < |s.buf| && s.buf[i].ref > 0 && s.buf[i].lock == Some(k)
            && s.buf[i].bno.Some? && s.buf[i].bno.value < |s.disk|
  {
    UsedBuffer(s, k);
    assert UserOk(s, k) && BufferOk(s, s.user[k].i);
  }

  /** bwrite and brelse, undisturbed: the block on disk is what the buffer holds, and the buffer is
      clean, unlocked and referenced once less. */
  lemma BwriteWhole(s: State, k: nat) returns (s1: State, s2: State, s': State)
    requires Inv(s) && k in s.user && (s.user[k].pc.Reading? || s.user[k].pc.Edited?)
    ensures Enabled(s, Step.Write(k)) && s1 == Do(s, Step.Write(k)) && Enabled(s1, Unlock(k)) && s2 == Do(s1, Unlock(k))
    ensures Enabled(s2, Drop(k)) && s' == Do(s2, Drop(k)) && s'.user == s.user - {k}
    ensures var i := s.user[k].i;
            && i < |s.buf| && s.buf[i].bno.Some? && s.buf[i].bno.value < |s.disk| && s.buf[i].ref > 0
            && s'.disk == s.disk[s.buf[i].bno.value := s.buf[i].data]
            && s'.buf == s.buf[i := s.buf[i].(dirty := false, lock := None, ref := s.buf[i].ref - 1)]
  {
    hide Inv;
    InsideBuffer(s, k);
    s1 := Do(s, Step.Write(k));
    s2 := Do(s1, Unlock(k));
    s' := Do(s2, Drop(k));
    assert s.user[k := User(s.user[k].i, Reading)][k := User(s.user[k].i, Leaving)] - {k} == s.user - {k};
  }
}
