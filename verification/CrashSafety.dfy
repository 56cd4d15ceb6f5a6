/** What the log does for the file system: whatever every batch of operations keeps true of
    the contents is true of the durable contents in every run, crashes included. */
module CrashSafety {
  import opened Common
  import opened Blocks
  import opened Disk
  import opened LogDisk
  import opened Tree
  import opened DiskInode
  import opened LogSystem
  import opened FileSystem
  import OpenFile

  /** P does not look into the log area. */
  ghost predicate OfHomes(P: Image -> bool, l: Log)
  {
    forall x, y | SameHomes(l, x, y) && P(x) :: P(y)
  }

  /** The contents when last no operation was under way. */
  ghost function NextBase(s: State, a: Spec, base: Image, step: Step): Image
  {
    var a' := SpecDo(s, a, step);
    if step.Crash? then a'.durable else if step.End? && a'.active == {} then a'.current else base
  }

  /** Every batch of operations, from one moment without operations to the next, takes
      contents with P to contents with P. */
  ghost predicate Batches(P: Image -> bool, l: Log, s: State, a: Spec, base: Image, steps: seq<Step>)
    decreases |steps|
  {
    steps == [] ||
    (var a' := SpecDo(s, a, steps[0]);
     && Shape(l, s) && Enabled(l, s, steps[0])
     && (steps[0].End? && a'.active == {} && P(base) ==> P(a'.current))
     && Batches(P, l, Do(l, s, steps[0]), a', NextBase(s, a, base, steps[0]), steps[1..]))
  }

  /** P holds of what is durable, and what is there when nothing is under way is the last batch's. */
  ghost predicate Safe(P: Image -> bool, a: Spec, base: Image)
  {
    P(base) && P(a.durable) && (a.active == {} ==> a.current == base)
  }

  lemma StepSafe(P: Image -> bool, l: Log, s: State, a: Spec, base: Image, step: Step)
    requires Admission(l, s) && Represents(l, s, a) && Enabled(l, s, step) && Safe(P, a, base)
    requires step.End? && SpecDo(s, a, step).active == {} && P(base) ==> P(SpecDo(s, a, step).current)
    ensures Safe(P, SpecDo(s, a, step), NextBase(s, a, base, step))
  {
  }

  lemma {:induction false} RunBatches(P: Image -> bool, l: Log, s: State, a: Spec, base: Image, steps: seq<Step>,
                                      s': State, a': Spec) returns (base': Image)
    requires Admission(l, s) && Represents(l, s, a) && Runs(l, s, a, steps, s', a')
    requires l.size > LOGSIZE || (Settled(l, s) && Calm(l, s, steps))
    requires Safe(P, a, base) && Batches(P, l, s, a, base, steps)
    ensures Admission(l, s') && Represents(l, s', a') && Safe(P, a', base')
    decreases |steps|
  {
    hide Admission, Represents, Settled, Crowds, Overruns, Safe, NextBase;
    base' := base;
    if steps != [] {
      var step := steps[0];
      StepRefines(l, s, a, step);
      if l.size > LOGSIZE {
        LargeRoom(l, s, step);
      } else {
        IdleUnlessOps(l, s);
        SettledRoom(l, s, step);
        SettledKept(l, s, step);
      }
      StepSafe(P, l, s, a, base, step);
      base' := RunBatches(P, l, Do(l, s, step), SpecDo(s, a, step), NextBase(s, a, base, step), steps[1..], s', a');
    }
  }

  /** At any moment of any run, a crash and a full recovery leave contents with P, and so do
      all operations having ended. */
  lemma RunDurable(P: Image -> bool, l: Log, d: Image, steps: seq<Step>, s: State, a: Spec)
    requires Clean(l, d, d) && Runs(l, Boot(d), Spec(d, d, {}), steps, s, a)
    requires l.size > LOGSIZE || Calm(l, Boot(d), steps)
    requires OfHomes(P, l) && P(d) && Batches(P, l, Boot(d), Spec(d, d, {}), d, steps)
    ensures P(a.durable) && Readable(l, s.disk)
    ensures P(RecoverCut(l, s.disk, |RecoverWrites(l, s.disk)|))
    ensures a.active == {} ==> P(a.current)
  {
    hide Admission, Represents, Settled, RecoverCut, RecoverWrites;
    BootOk(l, d);
    var base := RunBatches(P, l, Boot(d), Spec(d, d, {}), d, steps, s, a);
    RunSafe(l, d, steps, s, a);
    var r := RecoverCut(l, s.disk, |RecoverWrites(l, s.disk)|);
    HomesBack(l, r, a.durable);
  }

  lemma HomesBack(l: Log, d: Image, cur: Image)
    requires Clean(l, d, cur)
    ensures SameHomes(l, cur, d)
  {
  }

  // ----- the file system's invariant -----

  /** The blocks hold a file system: free map, inodes and indirect blocks tell one story. */
  ghost predicate FsImage(sb: Super, d: Image)
  {
    exists tab, owner, ds :: FsOk(sb, d, tab, owner, ds) && Through(tab, ds)
  }

  ghost function Intact(sb: Super): Image -> bool
  {
    (d: Image) => FsImage(sb, d)
  }

  lemma FsHomes(sb: Super, l: Log)
    requires l.start + l.size <= sb.inodestart
    ensures OfHomes(Intact(sb), l)
  {
    forall x, y | SameHomes(l, x, y) && FsImage(sb, x) ensures FsImage(sb, y) {
      var tab, owner, ds :| FsOk(sb, x, tab, owner, ds) && Through(tab, ds);
      FsElsewhere(sb, x, y, tab, owner, ds);
    }
  }

  lemma FsElsewhere(sb: Super, x: Image, y: Image, tab: seq<seq<nat>>, owner: map<nat, Ref>, ds: seq<Dinode>)
    requires FsOk(sb, x, tab, owner, ds) && |y| == |x| && forall b | sb.inodestart <= b < |x| :: y[b] == x[b]
    ensures FsOk(sb, y, tab, owner, ds)
  {
    hide InodesOk, Owned, BitAt;
    MetaPlaces(sb);
    OwnedPlaces(x, tab, owner, sb.first);
    OwnedFrame(x, tab, owner, sb.first, y);
    InodesFrame(sb.inodestart, x, y, ds, sb.bmapstart);
    forall b | 0 <= b < sb.size ensures BitAt(sb, y, b) == BitAt(sb, x, b) {
      assert sb.BBlock(b) < sb.first;
      SameBit(sb, x, y, b);
    }
  }

  lemma SameBit(sb: Super, x: Image, y: Image, b: nat)
    requires sb.BBlock(b) < |x| == |y| && y[sb.BBlock(b)] == x[sb.BBlock(b)]
    ensures BitAt(sb, y, b) == BitAt(sb, x, b)
  {
  }

  /** In every run whose batches keep the file system's invariant, it holds of what a
      crash leaves, once recovery is through. */
  lemma FsDurable(sb: Super, l: Log, d: Image, steps: seq<Step>, s: State, a: Spec)
    requires l.start + l.size <= sb.inodestart && FsImage(sb, d)
    requires Clean(l, d, d) && Runs(l, Boot(d), Spec(d, d, {}), steps, s, a)
    requires l.size > LOGSIZE || Calm(l, Boot(d), steps)
    requires Batches(Intact(sb), l, Boot(d), Spec(d, d, {}), d, steps)
    ensures FsImage(sb, a.durable) && Readable(l, s.disk)
    ensures FsImage(sb, RecoverCut(l, s.disk, |RecoverWrites(l, s.disk)|))
  {
    hide FsImage, Runs, Calm, Clean, Batches;
    FsHomes(sb, l);
    RunDurable(Intact(sb), l, d, steps, s, a);
  }

  // ----- a file-system operation as a batch -----

  /** The contents when last no operation was under way, at the end of a run. */
  ghost function LastBase(l: Log, s: State, a: Spec, base: Image, steps: seq<Step>): Image
    decreases |steps|
  {
    if steps == [] || !Shape(l, s) || !Enabled(l, s, steps[0]) then base
    else LastBase(l, Do(l, s, steps[0]), SpecDo(s, a, steps[0]), NextBase(s, a, base, steps[0]), steps[1..])
  }

  /** A run whose batches keep P has come to s, standing for a. */
  ghost predicate Kept(P: Image -> bool, l: Log, s0: State, a0: Spec, steps: seq<Step>, s: State, a: Spec, base: Image)
  {
    && Runs(l, s0, a0, steps, s, a) && Batches(P, l, s0, a0, a0.current, steps)
    && base == LastBase(l, s0, a0, a0.current, steps)
  }

  lemma {:induction false} BatchesSnoc(P: Image -> bool, l: Log, s0: State, a0: Spec, base0: Image, steps: seq<Step>,
                                       s: State, a: Spec, step: Step)
    requires Runs(l, s0, a0, steps, s, a) && Batches(P, l, s0, a0, base0, steps)
    requires Shape(l, s) && Enabled(l, s, step)
    requires var base := LastBase(l, s0, a0, base0, steps);
             step.End? && SpecDo(s, a, step).active == {} && P(base) ==> P(SpecDo(s, a, step).current)
    ensures Batches(P, l, s0, a0, base0, steps + [step])
    ensures LastBase(l, s0, a0, base0, steps + [step]) ==
              NextBase(s, a, LastBase(l, s0, a0, base0, steps), step)
    decreases |steps|
  {
    hide Shape, Enabled, Do, SpecDo, NextBase;
    if steps == [] {
      assert [step][1..] == [];
      assert steps + [step] == [step];
      assert Batches(P, l, Do(l, s, step), SpecDo(s, a, step), NextBase(s, a, base0, step), []);
    } else {
      assert (steps + [step])[1..] == steps[1..] + [step];
      BatchesSnoc(P, l, Do(l, s0, steps[0]), SpecDo(s0, a0, steps[0]), NextBase(s0, a0, base0, steps[0]), steps[1..],
                  s, a, step);
    }
  }

  /** One step more. */
  lemma Extend(P: Image -> bool, l: Log, s0: State, a0: Spec, steps: seq<Step>, s: State, a: Spec, base: Image,
               step: Step)
      returns (steps': seq<Step>, s': State, a': Spec)
    requires Kept(P, l, s0, a0, steps, s, a, base) && Admission(l, s) && Represents(l, s, a) && l.size > LOGSIZE
    requires Enabled(l, s, step)
    requires step.End? && SpecDo(s, a, step).active == {} && P(base) ==> P(SpecDo(s, a, step).current)
    ensures Shape(l, s) && s' == Do(l, s, step) && a' == SpecDo(s, a, step)
    ensures Kept(P, l, s0, a0, steps', s', a', NextBase(s, a, base, step)) && Admission(l, s') && Represents(l, s', a')
  {
    hide Admission, Represents, Enabled, Runs, Batches, LastBase;
    LargeRoom(l, s, step);
    StepRefines(l, s, a, step);
    AdmissionShape(l, s);
    RunsSnoc(l, s0, a0, steps, s, a, step);
    BatchesSnoc(P, l, s0, a0, a0.current, steps, s, a, step);
    steps', s', a' := steps + [step], Do(l, s, step), SpecDo(s, a, step);
  }

  /** The blocks xs as b1 has them, over d. */
  function Overlay(d: Image, xs: seq<nat>, b1: Image): (r: Image)
    requires |b1| == |d| && forall k | 0 <= k < |xs| :: xs[k] < |d|
    ensures |r| == |d|
    decreases |xs|
  {
    if xs == [] then d else Overlay(d[xs[0] := b1[xs[0]]], xs[1..], b1)
  }

  lemma {:induction false} OverlayAll(d: Image, xs: seq<nat>, b1: Image)
    requires |b1| == |d| && forall k | 0 <= k < |xs| :: xs[k] < |d|
    requires forall x | 0 <= x < |d| && b1[x] != d[x] :: x in xs
    ensures Overlay(d, xs, b1) == b1
    decreases |xs|
  {
    if xs != [] {
      var d' := d[xs[0] := b1[xs[0]]];
      forall x | 0 <= x < |d'| && b1[x] != d'[x] ensures x in xs[1..] {
        assert x in xs && x != xs[0];
      }
      OverlayAll(d', xs[1..], b1);
    }
  }

  /** The blocks an operation may still hand to log_write. */
  ghost predicate MayLog(l: Log, s: State, p: nat, xs: seq<nat>)
  {
    && s.phase.Idle? && p in s.ops && p !in s.passed && |s.ops[p]| + |xs| <= LogDisk.MAXOPBLOCKS
    && (forall i, j | 0 <= i < j < |xs| :: xs[i] != xs[j])
    && forall k | 0 <= k < |xs| :: xs[k] !in s.ops[p] && xs[k] < |s.disk| && xs[k] < UINT_LIMIT && !l.Owns(xs[k])
  }

  /** It logs them: no test fails, and what readers see is what the operation made of it. */
  lemma {:induction false} LogAll(P: Image -> bool, l: Log, s0: State, a0: Spec, steps: seq<Step>, s: State, a: Spec,
                                  base: Image, p: nat, xs: seq<nat>, b1: Image)
      returns (steps': seq<Step>, s': State, a': Spec)
    requires Kept(P, l, s0, a0, steps, s, a, base) && Admission(l, s) && Represents(l, s, a) && l.size > LOGSIZE
    requires MayLog(l, s, p, xs) && |b1| == |a.current|
    ensures Kept(P, l, s0, a0, steps', s', a', base) && Admission(l, s') && Represents(l, s', a')
    ensures s'.phase.Idle? && s'.ops.Keys == s.ops.Keys && s'.passed == s.passed && a'.active == a.active
            && a'.durable == a.durable
    ensures |a.current| == |s.disk| && a'.current == Overlay(a.current, xs, b1)
    decreases |xs|
  {
    hide Admission, Represents, Kept;
    SameLength(l, s, a);
    if xs == [] {
      steps', s', a' := steps, s, a;
    } else {
      var x := xs[0];
      TestPasses(l, s, p, x);
      var r1, s1, a1 := Extend(P, l, s0, a0, steps, s, a, base, Test(p));
      var r2, s2, a2 := Extend(P, l, s0, a0, r1, s1, a1, base, Append(p, x, b1[x]));
      assert s2.ops == s.ops[p := s.ops[p] + {x}] && s2.passed == s.passed;
      LoggedOne(l, s, s2, p, xs);
      steps', s', a' := LogAll(P, l, s0, a0, r2, s2, a2, base, p, xs[1..], b1);
    }
  }

  lemma SameLength(l: Log, s: State, a: Spec)
    requires Admission(l, s) && Represents(l, s, a)
    ensures |a.current| == |s.disk| == |s.view|
  {
  }

  lemma TestPasses(l: Log, s: State, p: nat, x: nat)
    requires Admission(l, s) && l.size > LOGSIZE && s.phase.Idle? && p in s.ops && p !in s.passed
    requires |s.ops[p]| < LogDisk.MAXOPBLOCKS
    ensures Shape(l, s) && Enabled(l, s, Test(p)) && |s.ops[p] + {x}| <= LogDisk.MAXOPBLOCKS
  {
    hide Slack;
    PanicsExactly(l, s, p);
  }

  lemma LoggedOne(l: Log, s: State, s2: State, p: nat, xs: seq<nat>)
    requires MayLog(l, s, p, xs) && xs != [] && |s2.disk| == |s.disk|
    requires s2.phase.Idle? && s2.ops == s.ops[p := s.ops[p] + {xs[0]}] && s2.passed == s.passed
    ensures MayLog(l, s2, p, xs[1..])
  {
    assert |s.ops[p] + {xs[0]}| == |s.ops[p]| + 1;
  }

  lemma KeptNone(P: Image -> bool, l: Log, s: State, a: Spec)
    ensures Kept(P, l, s, a, [], s, a, a.current)
  {
  }

  lemma IdleEmpty(l: Log, s: State, a: Spec)
    requires Admission(l, s) && Represents(l, s, a) && s.phase.Idle? && s.ops == map[]
    ensures s.lh == [] && s.passed == {} && a.active == {} && |a.current| == |s.disk|
    ensures Admits(s)
  {
    hide Slack, Loggable;
  }

  /** An operation that keeps P, alone on an idle machine: begin_op, its blocks, end_op. */
  lemma OperationRun(P: Image -> bool, l: Log, s: State, a: Spec, p: nat, xs: seq<nat>, b1: Image)
      returns (steps: seq<Step>, s': State, a': Spec)
    requires Admission(l, s) && Represents(l, s, a) && l.size > LOGSIZE
    requires s.phase.Idle? && s.ops == map[] && p !in s.asleep
    requires |xs| <= LogDisk.MAXOPBLOCKS && forall i, j | 0 <= i < j < |xs| :: xs[i] != xs[j]
    requires forall k | 0 <= k < |xs| :: xs[k] < |s.disk| && xs[k] < UINT_LIMIT && !l.Owns(xs[k])
    requires |b1| == |a.current| && forall x | 0 <= x < |b1| && b1[x] != a.current[x] :: x in xs
    requires P(a.current) ==> P(b1)
    ensures Runs(l, s, a, steps, s', a') && Batches(P, l, s, a, a.current, steps)
    ensures a'.current == b1 && a'.active == {} && a'.durable == a.durable && s'.phase == Copying(0)
  {
    hide Admission, Represents, Runs, Batches, LastBase;
    KeptNone(P, l, s, a);
    IdleEmpty(l, s, a);
    var r1, s1, a1 := Extend(P, l, s, a, [], s, a, a.current, Begin(p));
    assert s1.ops == map[p := {}];
    var r2, s2, a2 := LogAll(P, l, s, a, r1, s1, a1, a.current, p, xs, b1);
    OverlayAll(a.current, xs, b1);
    assert s2.ops - {p} == map[];
    steps, s', a' := Extend(P, l, s, a, r2, s2, a2, a.current, End(p));
  }

  /** One operation of filewrite, through the log: a batch that keeps the file system's invariant. */
  method ChunkBatch(l: Log, f: OpenFile.File, fs: Fs, piece: seq<Byte>, p: nat, ghost s: State, ghost a: Spec)
      returns (r: int, ok: bool, ghost steps: seq<Step>, ghost s': State, ghost a': Spec)
    requires fs.Ready(f.ip) && f.off < UINT_LIMIT && 0 < |piece| <= OpenFile.CHUNK && Through(fs.tab, fs.dinode)
    requires l.start + l.size <= fs.sb.inodestart && l.size > LOGSIZE
    requires Admission(l, s) && Represents(l, s, a) && s.phase.Idle? && s.ops == map[] && p !in s.asleep
    requires a.current == fs.blocks
    modifies f`off, fs`blocks, fs`dinode, fs`logged, fs`tab, fs`owner, f.ip`addrs, f.ip`size
    ensures ok ==> fs.Ready(f.ip) && Through(fs.tab, fs.dinode)
    ensures ok ==> r == if Refused(old(f.ip.size), old(f.off), |piece|) then -1 else |piece|
    ensures ok ==> OpenFile.Put(old(fs.Now(f.ip)), fs.Now(f.ip), old(f.ip.size), f.ip.size, old(f.off),
                       if r < 0 then [] else piece, f.ip.inum)
    ensures ok ==> Runs(l, s, a, steps, s', a') && Batches(Intact(fs.sb), l, s, a, a.current, steps)
    ensures ok ==> a'.current == fs.blocks && a'.active == {} && a'.durable == a.durable && s'.phase == Copying(0)
    ensures !ok ==> fs.Exhausted()
  {
    hide Admission, Represents, Runs, Batches, FsOk, OpenFile.Put, Fs.Exhausted, Through, Addrs, HoleFree;
    ghost var b0 := fs.blocks;
    ghost var op;
    r, ok, op := f.WriteChunk(fs, piece);
    steps, s', a' := [], s, a;
    if ok {
      IsImage(fs);
      IdleEmpty(l, s, a);
      ghost var xs := Listing(op);
      assert forall k | 0 <= k < |xs| :: xs[k] in op;
      steps, s', a' := OperationRun(Intact(fs.sb), l, s, a, p, xs, fs.blocks);
    }
  }

  /** iput's truncation likewise, on a disk of at most nine free-map blocks. */
  method TruncBatch(l: Log, fs: Fs, ip: Inode, p: nat, ghost s: State, ghost a: Spec)
      returns (ok: bool, ghost steps: seq<Step>, ghost s': State, ghost a': Spec)
    requires fs.Valid() && fs.Holds(ip) && Through(fs.tab, fs.dinode) && fs.sb.size <= (LogDisk.MAXOPBLOCKS - 1) * BPB
    requires l.start + l.size <= fs.sb.inodestart && l.size > LOGSIZE
    requires Admission(l, s) && Represents(l, s, a) && s.phase.Idle? && s.ops == map[] && p !in s.asleep
    requires a.current == fs.blocks
    modifies fs`blocks, fs`dinode, fs`logged, fs`tab, fs`owner, ip`addrs, ip`size
    ensures ok && fs.Valid() && fs.Holds(ip) && Through(fs.tab, fs.dinode) && ip.size == 0
    ensures fs.owner == Others(old(fs.owner), ip.inum)
    ensures Runs(l, s, a, steps, s', a') && Batches(Intact(fs.sb), l, s, a, a.current, steps)
    ensures a'.current == fs.blocks && a'.active == {} && a'.durable == a.durable && s'.phase == Copying(0)
  {
    hide Admission, Represents, Runs, Batches, FsOk, Through, Others, MapsOf;
    ghost var t0, ds0, o0 := fs.tab, fs.dinode, fs.owner;
    fs.logged := {};
    TruncBound(fs, o0);
    ok := fs.Itrunc(ip);
    TruncThrough(t0, ds0, fs.tab, fs.dinode, ip.inum);
    IsImage(fs);
    IdleEmpty(l, s, a);
    ghost var xs := Listing(fs.logged);
    assert fs.logged - {} == fs.logged;
    assert forall k | 0 <= k < |xs| :: xs[k] in fs.logged;
    TruncFits(fs.sb, o0, fs.owner);
    steps, s', a' := OperationRun(Intact(fs.sb), l, s, a, p, xs, fs.blocks);
  }

  lemma TruncBound(fs: Fs, o0: map<nat, Ref>)
    requires fs.Valid() && o0 == fs.owner
    ensures fs.sb.Sound() && forall b | b in o0 :: b < fs.sb.size
  {
  }

  lemma TruncFits(sb: Super, o0: map<nat, Ref>, o: map<nat, Ref>)
    requires sb.Sound() && sb.size <= (LogDisk.MAXOPBLOCKS - 1) * BPB && forall b | b in o0 :: b < sb.size
    ensures |MapsOf(sb, o0.Keys - o.Keys)| + 1 <= LogDisk.MAXOPBLOCKS
  {
    MapsBound(sb, o0.Keys - o.Keys);
  }

  lemma TruncThrough(tab: seq<seq<nat>>, ds: seq<Dinode>, tab': seq<seq<nat>>, ds': seq<Dinode>, i: nat)
    requires Through(tab, ds) && i < |tab|
    requires tab' == tab[i := NoAddrs()] && ds' == ds[i := Dinode(0, NoAddrs())]
    ensures Through(tab', ds')
  {
  }

  lemma IsImage(fs: Fs)
    requires fs.Valid() && Through(fs.tab, fs.dinode)
    ensures FsImage(fs.sb, fs.blocks) && |fs.blocks| == fs.sb.size <= UINT_LIMIT
  {
    assert FsOk(fs.sb, fs.blocks, fs.tab, fs.owner, fs.dinode);
  }

  lemma {:induction false} Listing(bs: set<nat>) returns (xs: seq<nat>)
    ensures |xs| == |bs| && forall b :: b in bs <==> b in xs
    ensures forall i, j | 0 <= i < j < |xs| :: xs[i] != xs[j]
  {
    if bs == {} {
      xs := [];
    } else {
      var b :| b in bs;
      xs := Listing(bs - {b});
      xs := [b] + xs;
    }
  }
}
