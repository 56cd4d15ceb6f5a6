/** The log as a whole machine: any number of file-system operations beginning,
    logging and ending in any order, the commit and the recovery taken one block
    write at a time, and a crash possible between any two steps.  It refines a
    disk on which each batch of operations happens all at once or not at all. */
module LogSystem {
  import opened Common
  import opened Blocks
  import opened Disk
  import opened LogDisk
  import opened WriteAheadLog

  /** Where log.c is.  Copying(k), HeadDue: in commit, before the header write.
      Installing, EraseDue: after it, or in recovery.  Booting: before read_head. */
  datatype Phase =
    | Idle
    | Copying(k: nat)
    | HeadDue
    | Installing(k: nat, recovering: bool)
    | EraseDue(recovering: bool)
    | Booting

  /** disk survives a crash; the rest is memory.  view is what bread returns for
      each block, ops the outstanding operations with the blocks each has logged,
      passed those of them between the size test of log_write, which is made
      without the lock, and the critical section after it, asleep the processes
      sleeping in begin_op. */
  datatype State = State(disk: Image, view: Image, lh: seq<nat>, ops: map<nat, set<nat>>,
                         passed: set<nat>, asleep: set<nat>, phase: Phase)
  {
    predicate Committing() { !phase.Idle? && !Recovering() }
    predicate Recovering()
    {
      phase.Booting? || (phase.Installing? && phase.recovering) || (phase.EraseDue? && phase.recovering)
    }
  }

  datatype Step =
    | Begin(p: nat)
    | Sleep(p: nat)
    | Test(p: nat)                           // log_write: not too big a transaction
    | Append(p: nat, b: nat, data: Block)    // log_write from acquire to release
    | End(p: nat)
    | Io
    | Crash
    | ReadHead

  predicate Admits(s: State)
  {
    s.phase.Idle? && |s.lh| + (|s.ops| + 1) * MAXOPBLOCKS <= LOGSIZE
  }

  /** log_write's "too big a transaction" test. */
  predicate TooBig(l: Log, lh: seq<nat>)
  {
    |lh| >= LOGSIZE || |lh| >= l.size - 1
  }

  /** What the kernel allows, given that an operation logs at most MAXOPBLOCKS
      different blocks and that a panic stops the machine. */
  predicate Enabled(l: Log, s: State, a: Step)
  {
    match a
    case Begin(p) => p !in s.ops && p !in s.asleep && Admits(s)
    case Sleep(p) => p !in s.ops && p !in s.asleep && !Admits(s) && !s.Recovering()
    case Test(p) => p in s.ops && p !in s.passed && s.phase.Idle? && !TooBig(l, s.lh)
    case Append(p, b, _) =>
      && p in s.ops && p in s.passed && s.phase.Idle?
      && b < |s.disk| && b < UINT_LIMIT && !l.Owns(b)
      && |s.ops[p] + {b}| <= MAXOPBLOCKS
    case End(p) => p in s.ops && p !in s.passed && s.phase.Idle?
    case Io => !s.phase.Idle? && !s.phase.Booting?
    case Crash => true
    case ReadHead => s.phase.Booting?
  }

  function Done(s: State): State
  {
    s.(lh := [], phase := Idle, asleep := {})
  }

  function WriteBlock(s: State, b: nat, data: Block): State
    requires b < |s.disk| == |s.view|
  {
    s.(disk := s.disk[b := data], view := s.view[b := data])
  }

  /** One block write of commit or of recovery, or the move to the next loop. */
  function DoIo(l: Log, s: State): State
    requires !s.phase.Idle? && !s.phase.Booting?
    requires |s.view| == |s.disk| && l.Fits(s.disk) && l.start + |s.lh| < |s.disk| && Storable(s.lh)
    requires forall k | 0 <= k < |s.lh| :: s.lh[k] < |s.disk|
  {
    match s.phase
    case Copying(k) =>
      if s.lh == [] then Done(s)
      else if k < |s.lh| then
        WriteBlock(s, l.start + 1 + k, s.view[s.lh[k]]).(phase := Copying(k + 1))
      else s.(phase := HeadDue)
    case HeadDue =>
      WriteBlock(s, l.start, Header(s.view[l.start], s.lh)).(phase := Installing(0, false))
    case Installing(k, r) =>
      if k < |s.lh| then
        WriteBlock(s, s.lh[k], s.view[l.start + 1 + k]).(phase := Installing(k + 1, r))
      else s.(phase := EraseDue(r))
    case EraseDue(_) =>
      Done(WriteBlock(s, l.start, Header(s.view[l.start], [])))
  }

  function DoAppend(s: State, p: nat, b: nat, data: Block): State
    requires p in s.ops && b < |s.view|
  {
    s.(view := s.view[b := data], lh := Absorb(s.lh, b), ops := s.ops[p := s.ops[p] + {b}], passed := s.passed - {p})
  }

  function Do(l: Log, s: State, a: Step): State
    requires Enabled(l, s, a) && Shape(l, s)
  {
    match a
    case Begin(p) => s.(ops := s.ops[p := {}])
    case Sleep(p) => s.(asleep := s.asleep + {p})
    case Test(p) => s.(passed := s.passed + {p})
    case Append(p, b, data) => DoAppend(s, p, b, data)
    case End(p) =>
      var rest := s.ops - {p};
      if rest == map[] then s.(ops := rest, phase := Copying(0))
      else s.(ops := rest, asleep := {})
    case Io => DoIo(l, s)
    case Crash => State(s.disk, s.disk, [], map[], {}, {}, Booting)
    case ReadHead =>
      if HeaderCount(s.disk[l.start]) <= LOGSIZE then
        s.(lh := HeaderBlocks(s.disk[l.start]), phase := Installing(0, true))
      else s
  }

  /** The list fits the log area; without that a commit writes past its end. */
  predicate Shape(l: Log, s: State)
  {
    && |s.view| == |s.disk| && l.Fits(s.disk) && Storable(s.lh) && |s.lh| < l.size
    && forall k | 0 <= k < |s.lh| :: s.lh[k] < |s.disk|
  }

  /** One more block than the log area holds. */
  predicate Overruns(l: Log, s: State, a: Step)
  {
    a.Append? && a.b !in s.lh && |s.lh| >= l.size - 1
  }

  // ----- the reservation arithmetic -----

  /** What the outstanding operations may still add to the log. */
  ghost function Slack(ops: map<nat, set<nat>>): int
  {
    if ops == map[] then 0
    else
      var p :| p in ops;
      MAXOPBLOCKS - |ops[p]| + Slack(ops - {p})
  }

  lemma {:induction false} SlackWithout(ops: map<nat, set<nat>>, p: nat)
    requires p in ops
    ensures Slack(ops) == MAXOPBLOCKS - |ops[p]| + Slack(ops - {p})
    decreases |ops|
  {
    var q :| q in ops && Slack(ops) == MAXOPBLOCKS - |ops[q]| + Slack(ops - {q});
    if p != q {
      SlackWithout(ops - {q}, p);
      SlackWithout(ops - {p}, q);
      assert (ops - {q}) - {p} == (ops - {p}) - {q};
    }
  }

  lemma SlackNone()
    ensures Slack(map[]) == 0
  {
  }

  lemma SlackUpdate(ops: map<nat, set<nat>>, p: nat, x: set<nat>)
    ensures Slack(ops[p := x]) == MAXOPBLOCKS - |x| + Slack(ops - {p})
  {
    SlackWithout(ops[p := x], p);
    assert ops[p := x] - {p} == ops - {p};
  }

  lemma {:induction false} SlackBounds(ops: map<nat, set<nat>>)
    requires forall p | p in ops :: |ops[p]| <= MAXOPBLOCKS
    ensures 0 <= Slack(ops) <= |ops| * MAXOPBLOCKS
    decreases |ops|
  {
    if ops != map[] {
      var p :| p in ops;
      SlackWithout(ops, p);
      SlackBounds(ops - {p});
      assert |ops - {p}| == |ops| - 1;
    }
  }

  // ----- the invariant -----

  /** Admission control: the log never runs out of room for what has been let in,
      one committer and no operation beside it, and nobody sleeps unwoken. */
  ghost predicate Admission(l: Log, s: State)
  {
    && Shape(l, s) && Loggable(l, s.disk, s.lh)
    && |s.lh| + Slack(s.ops) <= LOGSIZE
    && (forall p | p in s.ops :: |s.ops[p]| <= MAXOPBLOCKS && forall b | b in s.ops[p] :: b in s.lh)
    && s.passed <= s.ops.Keys && (!s.phase.Idle? ==> s.ops == map[])
    && (s.phase.Idle? && s.ops == map[] ==> s.lh == [])
    && (s.asleep != {} ==> s.ops != map[] || s.Committing())
    && (s.phase.Booting? ==> s.lh == [] && s.view == s.disk)
    && (s.Recovering() ==> s.asleep == {})
  }

  /** The disk a user of the file system may reason with: what is durable, what
      reads return, and who is in the middle of an operation. */
  datatype Spec = Spec(durable: Image, current: Image, active: set<nat>)

  /** What can happen to that disk. */
  datatype Event =
    | Nothing                                     // operations may come and go
    | Change(p: nat, b: nat, data: Block)         // operation p changes a block
    | Commit                                      // everything so far becomes durable
    | Lose                                        // everything since the last commit is lost

  ghost predicate SpecNext(l: Log, a: Spec, e: Event, a': Spec)
  {
    match e
    case Nothing => a'.durable == a.durable && a'.current == a.current
    case Change(p, b, data) =>
      p in a.active && b < |a.current| && !l.Owns(b) && a' == a.(current := a.current[b := data])
    case Commit => a.active == {} && a' == a.(durable := a.current)
    case Lose => a' == Spec(a.durable, a.durable, {})
  }

  function EventOf(s: State, step: Step): Event
  {
    match step
    case Append(p, b, data) => Change(p, b, data)
    case Io => if s.phase.HeadDue? then Commit else Nothing
    case Crash => Lose
    case _ => Nothing
  }

  /** The machine in state s stands for the disk a. */
  ghost predicate Represents(l: Log, s: State, a: Spec)
    requires Admission(l, s)
  {
    && |a.durable| == |a.current| == |s.disk|
    && a.active == s.ops.Keys
    && (forall b | 0 <= b < |s.disk| && b !in s.lh :: s.view[b] == s.disk[b])
    && (s.Recovering() ==> a.current == a.durable && s.view == s.disk)
    && (!s.Recovering() ==> SameHomes(l, s.view, a.current))
    && match s.phase
       case Idle => Clean(l, s.disk, a.durable)
       case Copying(k) =>
         && k <= |s.lh| && Clean(l, s.disk, a.durable)
         && forall i | 0 <= i < k :: s.disk[l.start + 1 + i] == s.view[s.lh[i]]
       case HeadDue =>
         && Clean(l, s.disk, a.durable)
         && forall i | 0 <= i < |s.lh| :: s.disk[l.start + 1 + i] == s.view[s.lh[i]]
       case Installing(k, _) =>
         && k <= |s.lh| && Logged(l, s.disk, s.lh, a.durable) && SameHomes(l, a.durable, a.current)
         && forall i | 0 <= i < k :: s.disk[s.lh[i]] == a.durable[s.lh[i]]
       case EraseDue(_) =>
         && Logged(l, s.disk, s.lh, a.durable) && SameHomes(l, a.durable, a.current)
         && forall i | 0 <= i < |s.lh| :: s.disk[s.lh[i]] == a.durable[s.lh[i]]
       case Booting => Durable(l, s.disk, a.durable)
  }

  /** What a step of the machine does to the disk it stands for: the header write
      of a commit is the one moment the durable contents change. */
  function SpecDo(s: State, a: Spec, step: Step): Spec
  {
    match step
    case Begin(p) => a.(active := a.active + {p})
    case Sleep(_) => a
    case Test(_) => a
    case Append(_, b, data) => if b < |a.current| then a.(current := a.current[b := data]) else a
    case End(p) => a.(active := a.active - {p})
    case Io => if s.phase.HeadDue? then a.(durable := a.current) else a
    case Crash => Spec(a.durable, a.durable, {})
    case ReadHead => a
  }

  // ----- admission -----

  /** The reservations are kept by every step, the size of the log area by all but
      an append beyond it. */
  lemma AdmissionKept(l: Log, s: State, a: Step)
    requires Admission(l, s) && Enabled(l, s, a)
    requires a.ReadHead? ==> Readable(l, s.disk)
    ensures Admission(l, Do(l, s, a)) <==> !Overruns(l, s, a)
    ensures Overruns(l, s, a) ==> |Do(l, s, a).lh| >= l.size
  {
    hide Admission, TooBig;
    match a
    case Append(p, b, data) => AppendFits(l, s, p, b, data);
    case End(p) => EndFits(l, s, p);
    case Io => IoFits(l, s);
    case _ => OthersFit(l, s, a);
  }

  lemma OthersFit(l: Log, s: State, a: Step)
    requires Admission(l, s) && Enabled(l, s, a)
    requires a.Begin? || a.Sleep? || a.Test? || a.Crash? || a.ReadHead?
    requires a.ReadHead? ==> Readable(l, s.disk)
    ensures Admission(l, Do(l, s, a))
  {
    hide Slack, Header, Admission;
    match a
    case Begin(p) => BeginOk(l, s, p);
    case Sleep(p) => assert Admission(l, s.(asleep := s.asleep + {p})) by { SleepOk(l, s, p); }
    case Test(p) => TestOk(l, s, p);
    case Crash => CrashOk(l, s);
    case ReadHead => ReadHeadOk(l, s);
  }

  lemma SleepOk(l: Log, s: State, p: nat)
    requires Admission(l, s) && Enabled(l, s, Sleep(p))
    ensures Admission(l, s.(asleep := s.asleep + {p}))
  {
    hide Slack, Loggable, Storable;
  }

  lemma TestOk(l: Log, s: State, p: nat)
    requires Admission(l, s) && Enabled(l, s, Test(p))
    ensures Admission(l, s.(passed := s.passed + {p}))
  {
    hide Slack, Loggable, Storable;
  }

  lemma BeginOk(l: Log, s: State, p: nat)
    requires Admission(l, s) && Enabled(l, s, Begin(p))
    ensures Admission(l, s.(ops := s.ops[p := {}]))
  {
    hide Slack, Loggable, Storable;
    BeginFits(s, p);
  }

  lemma CrashOk(l: Log, s: State)
    requires Admission(l, s)
    ensures Admission(l, Do(l, s, Crash))
  {
    hide Slack;
    SlackNone();
  }

  lemma ReadHeadOk(l: Log, s: State)
    requires Admission(l, s) && s.phase.Booting? && Readable(l, s.disk)
    ensures Admission(l, Do(l, s, ReadHead))
  {
    hide Slack;
    SlackNone();
  }

  lemma BeginFits(s: State, p: nat)
    requires Admits(s) && p !in s.ops
    requires forall p | p in s.ops :: |s.ops[p]| <= MAXOPBLOCKS
    ensures |s.lh| + Slack(s.ops[p := {}]) <= LOGSIZE
  {
    SlackUpdate(s.ops, p, {});
    assert s.ops - {p} == s.ops;
    SlackBounds(s.ops);
  }

  lemma EndFits(l: Log, s: State, p: nat)
    requires Admission(l, s) && Enabled(l, s, End(p))
    ensures Admission(l, Do(l, s, End(p)))
  {
    var rest := s.ops - {p};
    SlackWithout(s.ops, p);
    assert forall q | q in rest :: q in s.ops && rest[q] == s.ops[q];
  }

  lemma IoFits(l: Log, s: State)
    requires Admission(l, s) && Enabled(l, s, Io)
    ensures Admission(l, Do(l, s, Io))
  {
    hide Slack, Header;
    var s' := DoIo(l, s);
    assert |s'.disk| == |s.disk| && |s'.view| == |s.view| && s'.ops == s.ops;
    assert s'.lh == s.lh || (s'.lh == [] && s'.phase.Idle?);
  }

  /** The operation's reservation covers the block. */
  lemma AppendRoom(s: State, p: nat, b: nat)
    requires |s.lh| + Slack(s.ops) <= LOGSIZE && p in s.ops
    requires forall b | b in s.ops[p] :: b in s.lh
    ensures |Absorb(s.lh, b)| + Slack(s.ops[p := s.ops[p] + {b}]) <= LOGSIZE
  {
    SlackWithout(s.ops, p);
    SlackUpdate(s.ops, p, s.ops[p] + {b});
    if b !in s.lh {
      assert b !in s.ops[p];
      assert |s.ops[p] + {b}| == |s.ops[p]| + 1;
    } else {
      SubsetCard(s.ops[p], s.ops[p] + {b});
    }
  }

  lemma AbsorbKeeps(l: Log, d: Image, lh: seq<nat>, b: nat)
    requires Loggable(l, d, lh) && b < |d| && b < UINT_LIMIT && !l.Owns(b)
    requires |Absorb(lh, b)| <= LOGSIZE && |Absorb(lh, b)| < l.size
    ensures Loggable(l, d, Absorb(lh, b))
    ensures forall x :: x in Absorb(lh, b) <==> x in lh || x == b
  {
  }

  /** Room for the appended block is reserved whether or not the test was made. */
  lemma AppendReserved(s: State, p: nat, b: nat)
    requires |s.lh| + Slack(s.ops) <= LOGSIZE && p in s.ops && |s.ops[p] + {b}| <= MAXOPBLOCKS
    requires forall p | p in s.ops :: |s.ops[p]| <= MAXOPBLOCKS && forall b | b in s.ops[p] :: b in s.lh
    ensures |Absorb(s.lh, b)| <= LOGSIZE
  {
    AppendRoom(s, p, b);
    var ops := s.ops[p := s.ops[p] + {b}];
    assert forall q | q in ops :: q == p || ops[q] == s.ops[q];
    SlackBounds(ops);
  }

  lemma AppendFits(l: Log, s: State, p: nat, b: nat, data: Block)
    requires Admission(l, s) && Enabled(l, s, Append(p, b, data))
    ensures Admission(l, DoAppend(s, p, b, data)) <==> !Overruns(l, s, Append(p, b, data))
    ensures Overruns(l, s, Append(p, b, data)) ==> |DoAppend(s, p, b, data).lh| >= l.size
  {
    hide Loggable, Storable, Slack, TooBig;
    AppendReserved(s, p, b);
    if |Absorb(s.lh, b)| < l.size { AppendInRoom(l, s, p, b, data); }
  }

  lemma AppendInRoom(l: Log, s: State, p: nat, b: nat, data: Block)
    requires Admission(l, s) && Enabled(l, s, Append(p, b, data))
    requires |Absorb(s.lh, b)| < l.size && |Absorb(s.lh, b)| <= LOGSIZE
    ensures Admission(l, DoAppend(s, p, b, data))
  {
    hide Slack, TooBig, Loggable, Storable, Absorb;
    AppendRoom(s, p, b);
    AbsorbKeeps(l, s.disk, s.lh, b);
    ListFits(l, s.disk, Absorb(s.lh, b));
  }

  lemma ListFits(l: Log, d: Image, lh: seq<nat>)
    requires Loggable(l, d, lh)
    ensures Storable(lh) && |lh| < l.size && forall k | 0 <= k < |lh| :: lh[k] < |d|
  {
  }

  lemma {:induction false} SubsetCard(a: set<nat>, b: set<nat>)
    requires a <= b
    ensures |a| <= |b|
  {
    if a != {} {
      var x :| x in a;
      SubsetCard(a - {x}, b - {x});
    }
  }

  // ----- refinement -----

  /** A crash now would recover to the durable contents. */
  lemma RepresentsDurable(l: Log, s: State, a: Spec)
    requires Admission(l, s) && Represents(l, s, a)
    ensures Durable(l, s.disk, a.durable)
  {
  }

  lemma ChangeRefines(l: Log, s: State, a: Spec, p: nat, b: nat, data: Block)
    requires Admission(l, s) && Represents(l, s, a) && Enabled(l, s, Append(p, b, data))
    requires Admission(l, Do(l, s, Append(p, b, data)))
    ensures Represents(l, Do(l, s, Append(p, b, data)), SpecDo(s, a, Append(p, b, data)))
  {
    AbsorbKeeps(l, s.disk, s.lh, b);
    assert s.ops[p := s.ops[p] + {b}].Keys == s.ops.Keys;
  }

  lemma CopyingRefines(l: Log, s: State, a: Spec)
    requires Admission(l, s) && Represents(l, s, a) && s.phase.Copying?
    requires Admission(l, DoIo(l, s))
    ensures Represents(l, DoIo(l, s), a)
  {
    hide Slack, Logged, HeaderCount, HeaderBlocks, Storable;
    var s' := DoIo(l, s);
    if s.lh != [] && s.phase.k < |s.lh| {
      assert s.view[s.lh[s.phase.k]] == s'.view[s.lh[s.phase.k]];
      assert s'.disk[l.start] == s.disk[l.start];
    }
  }

  lemma HeadRefines(l: Log, s: State, a: Spec)
    requires Admission(l, s) && Represents(l, s, a) && s.phase.HeadDue?
    requires Admission(l, DoIo(l, s))
    ensures Represents(l, DoIo(l, s), a.(durable := a.current))
  {
    HeaderRoundTrip(s.view[l.start], s.lh);
  }

  lemma InstallRefines(l: Log, s: State, a: Spec)
    requires Admission(l, s) && Represents(l, s, a) && s.phase.Installing?
    requires Admission(l, DoIo(l, s))
    ensures Represents(l, DoIo(l, s), a)
  {
    var k := s.phase.k;
    if k < |s.lh| {
      assert s.view[l.start + 1 + k] == s.disk[l.start + 1 + k] == a.durable[s.lh[k]];
      InstallPoint(l, s.disk, s.lh, a.durable, k, s.view[l.start + 1 + k]);
    }
  }

  lemma EraseRefines(l: Log, s: State, a: Spec)
    requires Admission(l, s) && Represents(l, s, a) && s.phase.EraseDue?
    requires Admission(l, DoIo(l, s))
    ensures Represents(l, DoIo(l, s), a)
  {
    assert s.view[l.start] == s.disk[l.start];
    EraseStep(l, s.disk, s.lh, a.durable);
    var s' := DoIo(l, s);
    forall b | 0 <= b < |s.disk| ensures s'.view[b] == s'.disk[b] {
      if b in s.lh {
        var k :| 0 <= k < |s.lh| && s.lh[k] == b;
        assert s.disk[s.lh[k]] == a.durable[s.lh[k]];
        assert !l.Owns(b) && s.view[b] == a.current[b];
      }
    }
  }

  lemma ReadHeadRefines(l: Log, s: State, a: Spec)
    requires Admission(l, s) && Represents(l, s, a) && s.phase.Booting?
    ensures Readable(l, s.disk)
    ensures Admission(l, Do(l, s, ReadHead)) ==> Represents(l, Do(l, s, ReadHead), a)
  {
    DurableReadable(l, s.disk, a.durable);
    if Clean(l, s.disk, a.durable) { CleanLogged(l, s.disk, a.durable); }
  }

  /** Operations coming and going, and the crash. */
  lemma OtherRefines(l: Log, s: State, a: Spec, step: Step)
    requires Admission(l, s) && Represents(l, s, a) && Enabled(l, s, step)
    requires step.Begin? || step.Sleep? || step.Test? || step.End? || step.Crash?
    requires Admission(l, Do(l, s, step))
    ensures Represents(l, Do(l, s, step), SpecDo(s, a, step))
  {
    match step
    case Begin(p) =>
      assert s.ops[p := {}].Keys == s.ops.Keys + {p};
    case Sleep(_) =>
    case Test(_) =>
    case End(p) =>
      assert (s.ops - {p}).Keys == s.ops.Keys - {p};
    case Crash => RepresentsDurable(l, s, a);
  }

  lemma IoRefines(l: Log, s: State, a: Spec)
    requires Admission(l, s) && Represents(l, s, a) && Enabled(l, s, Io)
    requires Admission(l, DoIo(l, s))
    ensures Represents(l, DoIo(l, s), SpecDo(s, a, Io))
  {
    match s.phase
    case Copying(_) => CopyingRefines(l, s, a);
    case HeadDue => HeadRefines(l, s, a);
    case Installing(_, _) => InstallRefines(l, s, a);
    case EraseDue(_) => EraseRefines(l, s, a);
  }

  /** Every step of the machine that does not overrun the log area is a step of the
      disk it stands for. */
  lemma StepRefines(l: Log, s: State, a: Spec, step: Step)
    requires Admission(l, s) && Represents(l, s, a) && Enabled(l, s, step)
    ensures Admission(l, Do(l, s, step)) <==> !Overruns(l, s, step)
    ensures Overruns(l, s, step) ==> |Do(l, s, step).lh| >= l.size
    ensures !Overruns(l, s, step) ==> Represents(l, Do(l, s, step), SpecDo(s, a, step))
    ensures SpecNext(l, a, EventOf(s, step), SpecDo(s, a, step))
  {
    hide Admission, Represents, Overruns, SpecNext;
    if step.ReadHead? { ReadHeadRefines(l, s, a); }
    AdmissionKept(l, s, step);
    if Overruns(l, s, step) {
    } else if step.Append? {
      ChangeRefines(l, s, a, step.p, step.b, step.data);
    } else if step.Io? {
      IoRefines(l, s, a);
    } else if !step.ReadHead? {
      OtherRefines(l, s, a, step);
    }
    StepIsEvent(l, s, a, step);
  }

  lemma StepIsEvent(l: Log, s: State, a: Spec, step: Step)
    requires Admission(l, s) && Represents(l, s, a) && Enabled(l, s, step)
    ensures SpecNext(l, a, EventOf(s, step), SpecDo(s, a, step))
  {
  }

  // ----- whole runs -----

  /** s' is reached from s by steps, and a' from a by what they mean. */
  ghost predicate Runs(l: Log, s: State, a: Spec, steps: seq<Step>, s': State, a': Spec)
    decreases |steps|
  {
    if steps == [] then s' == s && a' == a
    else
      && Shape(l, s) && Enabled(l, s, steps[0])
      && Runs(l, Do(l, s, steps[0]), SpecDo(s, a, steps[0]), steps[1..], s', a')
  }

  lemma {:induction false} RunRefines(l: Log, s: State, a: Spec, steps: seq<Step>, s': State, a': Spec)
    requires Admission(l, s) && Represents(l, s, a) && Runs(l, s, a, steps, s', a')
    ensures Shape(l, s') <==> Admission(l, s')
    ensures Admission(l, s') ==> Represents(l, s', a')
    decreases |steps|
  {
    hide Represents, Overruns, Enabled;
    if steps != [] {
      StepRefines(l, s, a, steps[0]);
      if Overruns(l, s, steps[0]) {
        assert !Shape(l, Do(l, s, steps[0]));
      } else {
        RunRefines(l, Do(l, s, steps[0]), SpecDo(s, a, steps[0]), steps[1..], s', a');
      }
    }
  }

  /** The machine just switched on over a disk whose log is empty. */
  function Boot(d: Image): State
  {
    State(d, d, [], map[], {}, {}, Booting)
  }

  /** An operation takes the last place in the log area (one block of it is the header)
      while another is between its test and its append. */
  predicate Crowds(l: Log, s: State, step: Step)
  {
    step.Append? && step.b !in s.lh && |s.lh| == l.size - 2 && !(s.passed <= {step.p})
  }

  /** A run without such a step. */
  ghost predicate Calm(l: Log, s: State, steps: seq<Step>)
    decreases |steps|
  {
    steps == [] ||
    (Shape(l, s) && Enabled(l, s, steps[0]) && !Crowds(l, s, steps[0]) && Calm(l, Do(l, s, steps[0]), steps[1..]))
  }

  /** Nobody has passed a test that would fail by now. */
  predicate Settled(l: Log, s: State) { |s.lh| >= l.size - 1 ==> s.passed == {} }

  lemma DoIoPassed(l: Log, s: State)
    requires Admission(l, s)
    ensures !s.phase.Idle? ==> s.passed == {}
    ensures !s.phase.Idle? && !s.phase.Booting? ==> DoIo(l, s).passed == s.passed
  {
    hide Slack, Header;
  }

  lemma SettledKept(l: Log, s: State, step: Step)
    requires Admission(l, s) && Settled(l, s) && Enabled(l, s, step) && !Overruns(l, s, step)
    requires step.ReadHead? ==> s.passed == {}
    ensures Settled(l, Do(l, s, step)) <==> !Crowds(l, s, step)
  {
    hide Slack, Loggable, Storable, HeaderBlocks, HeaderCount, Header, DoIo;
    DoIoPassed(l, s);
    if step.Append? && |s.passed - {step.p}| == 0 {
      assert s.passed == {step.p};
    }
  }

  lemma IdleUnlessOps(l: Log, s: State)
    requires Admission(l, s)
    ensures Shape(l, s) && s.passed <= s.ops.Keys && (!s.phase.Idle? ==> s.passed == {})
  {
    hide Loggable, Slack;
  }

  lemma {:induction false} CalmFits(l: Log, s: State, a: Spec, steps: seq<Step>, s': State, a': Spec)
    requires Admission(l, s) && Represents(l, s, a) && Runs(l, s, a, steps, s', a')
    requires Settled(l, s) && Calm(l, s, steps)
    ensures Admission(l, s') && Represents(l, s', a')
    decreases |steps|
  {
    hide Admission, Represents, Settled, Crowds;
    if steps != [] {
      IdleUnlessOps(l, s);
      StepRefines(l, s, a, steps[0]);
      SettledRoom(l, s, steps[0]);
      SettledKept(l, s, steps[0]);
      CalmFits(l, Do(l, s, steps[0]), SpecDo(s, a, steps[0]), steps[1..], s', a');
    }
  }

  lemma SettledRoom(l: Log, s: State, step: Step)
    requires Settled(l, s) && Enabled(l, s, step)
    ensures !Overruns(l, s, step)
  {
  }

  /** A log area of more than LOGSIZE blocks has room for everything admitted. */
  lemma LargeRoom(l: Log, s: State, step: Step)
    requires Admission(l, s) && Enabled(l, s, step) && l.size > LOGSIZE
    ensures !Overruns(l, s, step)
  {
    if step.Append? { AppendReserved(s, step.p, step.b); }
  }

  lemma {:induction false} LargeFits(l: Log, s: State, a: Spec, steps: seq<Step>, s': State, a': Spec)
    requires Admission(l, s) && Represents(l, s, a) && Runs(l, s, a, steps, s', a') && l.size > LOGSIZE
    ensures Admission(l, s') && Represents(l, s', a')
    decreases |steps|
  {
    hide Admission, Represents, Overruns, Enabled;
    if steps != [] {
      StepRefines(l, s, a, steps[0]);
      LargeRoom(l, s, steps[0]);
      LargeFits(l, Do(l, s, steps[0]), SpecDo(s, a, steps[0]), steps[1..], s', a');
    }
  }

  /** Over every run from boot, crashes and interrupted recoveries included, if the
      log area has more than LOGSIZE blocks or the run is calm: a full recovery at
      any moment leaves exactly the durable contents, which a commit alone can
      change and only when no operation is under way. */
  lemma RunSafe(l: Log, d: Image, steps: seq<Step>, s: State, a: Spec)
    requires Clean(l, d, d)
    requires Runs(l, Boot(d), Spec(d, d, {}), steps, s, a)
    requires l.size > LOGSIZE || Calm(l, Boot(d), steps)
    ensures Admission(l, s) && Readable(l, s.disk)
    ensures Clean(l, RecoverCut(l, s.disk, |RecoverWrites(l, s.disk)|), a.durable)
    ensures !s.Recovering() ==> SameHomes(l, s.view, a.current)
    ensures s.phase.Idle? && s.ops == map[] ==> SameHomes(l, s.view, s.disk) && SameHomes(l, s.disk, a.durable)
  {
    BootOk(l, d);
    if l.size > LOGSIZE {
      LargeFits(l, Boot(d), Spec(d, d, {}), steps, s, a);
    } else {
      CalmFits(l, Boot(d), Spec(d, d, {}), steps, s, a);
    }
    RepresentsDurable(l, s, a);
    DurableReadable(l, s.disk, a.durable);
    RecoverCutDurable(l, s.disk, a.durable, |RecoverWrites(l, s.disk)|);
  }

  lemma BootOk(l: Log, d: Image)
    requires Clean(l, d, d)
    ensures Admission(l, Boot(d)) && Represents(l, Boot(d), Spec(d, d, {})) && Settled(l, Boot(d))
  {
    CleanLogged(l, d, d);
  }

  // ----- panics and sleepers -----

  /** An admitted operation that has logged fewer than its MAXOPBLOCKS blocks fails
      the test exactly when the log area, header included, is no larger than LOGSIZE
      and is full. */
  lemma PanicsExactly(l: Log, s: State, p: nat)
    requires Admission(l, s) && p in s.ops && |s.ops[p]| < MAXOPBLOCKS
    ensures TooBig(l, s.lh) <==> l.size <= LOGSIZE && |s.lh| == l.size - 1
    ensures l.size == LOGSIZE && TooBig(l, s.lh) ==> Slack(s.ops) == 1 && |s.ops[p]| == MAXOPBLOCKS - 1
  {
    SlackWithout(s.ops, p);
    assert forall q | q in s.ops - {p} :: (s.ops - {p})[q] == s.ops[q];
    SlackBounds(s.ops - {p});
  }

  /** Whoever sleeps in begin_op will be woken: an operation is outstanding, whose
      end_op wakes sleepers or starts a commit, or a commit is running, whose end does. */
  lemma SleepersWoken(l: Log, s: State)
    requires Admission(l, s) && s.asleep != {}
    ensures s.ops != map[] || s.Committing()
    ensures forall p | Enabled(l, s, End(p)) :: var s' := Do(l, s, End(p)); s'.asleep == {} || s'.Committing()
    ensures s.Committing() && (s.phase.EraseDue? || (s.phase.Copying? && s.lh == [])) ==>
              DoIo(l, s).asleep == {} && Admits(DoIo(l, s))
  {
  }

  /** begin_op that is not let in sleeps, and a sleeper sleeps until the end of an operation that is not
      the last, the end of a commit, or a crash. */
  lemma SleeperWaits(l: Log, s: State, a: Step, p: nat)
    requires Shape(l, s) && Enabled(l, s, a) && (p in s.asleep || a == Sleep(p))
    ensures p !in Do(l, s, a).asleep <==>
              || a.Crash? || (a.End? && s.ops - {a.p} != map[])
              || (a.Io? && Do(l, s, a).phase.Idle?)
  {
    hide Header;
  }

  // ----- what can happen -----

  /** Some run from boot over disk d ends here. */
  ghost predicate Reached(l: Log, d: Image, s: State, a: Spec)
  {
    exists steps :: Runs(l, Boot(d), Spec(d, d, {}), steps, s, a)
  }

  lemma {:induction false} RunsSnoc(l: Log, s: State, a: Spec, steps: seq<Step>, s1: State, a1: Spec, step: Step)
    requires Runs(l, s, a, steps, s1, a1) && Shape(l, s1) && Enabled(l, s1, step)
    ensures Runs(l, s, a, steps + [step], Do(l, s1, step), SpecDo(s1, a1, step))
    decreases |steps|
  {
    hide Shape, Enabled, Do, SpecDo;
    if steps == [] {
      assert [step][1..] == [];
      assert steps + [step] == [step];
    } else {
      RunsSnoc(l, Do(l, s, steps[0]), SpecDo(s, a, steps[0]), steps[1..], s1, a1, step);
      assert (steps + [step])[1..] == steps[1..] + [step];
    }
  }

  lemma Reach(l: Log, d: Image, s: State, a: Spec, step: Step) returns (s': State, a': Spec)
    requires Reached(l, d, s, a) && Shape(l, s) && Enabled(l, s, step)
    ensures s' == Do(l, s, step) && Reached(l, d, s', a')
  {
    hide Shape, Enabled, Do, SpecDo, Runs;
    var steps :| Runs(l, Boot(d), Spec(d, d, {}), steps, s, a);
    RunsSnoc(l, Boot(d), Spec(d, d, {}), steps, s, a, step);
    s', a' := Do(l, s, step), SpecDo(s, a, step);
  }

  /** Idle, with n operations that have logged nothing. */
  predicate Quiet(s: State, lh: seq<nat>, ops: map<nat, set<nat>>, n: nat)
  {
    s.phase.Idle? && s.lh == lh && s.ops == ops && s.passed == {} && s.asleep == {} && |s.disk| == |s.view| == n
  }

  lemma ReachIdle(l: Log, d: Image) returns (s: State, a: Spec)
    requires Clean(l, d, d)
    ensures Reached(l, d, s, a) && Quiet(s, [], map[], |d|)
  {
    hide Runs;
    s, a := Boot(d), Spec(d, d, {});
    assert Reached(l, d, s, a) by { RunsNone(l, s, a); }
    s, a := Reach(l, d, s, a, ReadHead);
    assert s.lh == [] && s.phase == Installing(0, true);
    s, a := Reach(l, d, s, a, Io);
    s, a := Reach(l, d, s, a, Io);
  }

  lemma RunsNone(l: Log, s: State, a: Spec)
    ensures Runs(l, s, a, [], s, a)
  {
  }

  lemma ReachThree(l: Log, d: Image) returns (s: State, a: Spec)
    requires Clean(l, d, d)
    ensures Reached(l, d, s, a) && Quiet(s, [], map[0 := {}, 1 := {}, 2 := {}], |d|)
  {
    hide Reached, Clean;
    s, a := ReachIdle(l, d);
    LogFits(l, d);
    s, a := Reach(l, d, s, a, Begin(0));
    assert s.ops == map[0 := {}];
    s, a := Reach(l, d, s, a, Begin(1));
    assert s.ops == map[0 := {}, 1 := {}] && s.ops.Keys == {0, 1};
    assert |s.ops| == |s.ops.Keys|;
    s, a := Reach(l, d, s, a, Begin(2));
  }

  lemma LogFits(l: Log, d: Image)
    requires Clean(l, d, d)
    ensures l.Fits(d)
  {
  }

  /** How many of the first k blocks operation p has logged, the three taking turns. */
  function Share(p: nat, k: nat): (n: nat)
    requires p < 3
  {
    (k + 2 - p) / 3
  }

  /** Operations 0, 1 and 2 have logged the k blocks from base on. */
  ghost predicate Filled(s: State, base: nat, k: nat, n: nat)
  {
    && Quiet(s, s.lh, s.ops, n)
    && |s.lh| == k && (forall i | 0 <= i < k :: s.lh[i] == base + i)
    && s.ops.Keys == {0, 1, 2}
    && forall p | 0 <= p < 3 :: Logs(s.ops, p, base, k)
  }

  ghost predicate Logs(ops: map<nat, set<nat>>, p: nat, base: nat, k: nat)
    requires p < 3
  {
    p in ops && |ops[p]| == Share(p, k) && forall b | b in ops[p] :: b < base + k
  }

  /** The disk has the log area and LOGSIZE + 2 blocks behind it. */
  predicate Roomy(l: Log, d: Image) { l.Fits(d) && l.start + l.size + LOGSIZE + 2 <= |d| < UINT_LIMIT }

  lemma FillLogs(ops: map<nat, set<nat>>, base: nat, k: nat, q: nat)
    requires q < 3 && Logs(ops, q, base, k) && Logs(ops, k % 3, base, k)
    ensures Logs(ops[k % 3 := ops[k % 3] + {base + k}], q, base, k + 1)
  {
    hide Share;
    var p := k % 3;
    ShareNext(q, k);
    assert |ops[p] + {base + k}| == |ops[p]| + 1;
  }

  lemma ShareNext(q: nat, k: nat)
    requires q < 3
    ensures Share(q, k + 1) == Share(q, k) + if q == k % 3 then 1 else 0
  {
  }

  /** The operation whose turn it is has room in its reservation. */
  lemma FillTurn(s: State, base: nat, k: nat, n: nat)
    requires Filled(s, base, k, n) && k < LOGSIZE
    ensures k % 3 in s.ops && |s.ops[k % 3] + {base + k}| <= MAXOPBLOCKS && base + k !in s.lh
  {
    assert Logs(s.ops, k % 3, base, k);
    FillLogs(s.ops, base, k, k % 3);
    assert Logs(s.ops[k % 3 := s.ops[k % 3] + {base + k}], k % 3, base, k + 1);
  }

  lemma FilledShape(l: Log, s: State, base: nat, k: nat, n: nat)
    requires Filled(s, base, k, n) && k < l.size && k <= LOGSIZE
    requires base == l.start + l.size && base + k < n < UINT_LIMIT
    ensures Shape(l, s)
  {
  }

  lemma FillOne(s: State, base: nat, k: nat, n: nat, z: Block)
    requires Filled(s, base, k, n) && k < LOGSIZE && base + k < n && k % 3 in s.ops
    ensures |s.view| == n && Filled(DoAppend(s.(passed := {k % 3}), k % 3, base + k, z), base, k + 1, n)
  {
    FillTurn(s, base, k, n);
    var s' := DoAppend(s.(passed := {k % 3}), k % 3, base + k, z);
    assert s'.ops.Keys == s.ops.Keys;
    var k' := k + 1;
    forall q | 0 <= q < 3 ensures Logs(s'.ops, q, base, k') {
      assert Logs(s.ops, q, base, k);
      FillLogs(s.ops, base, k, q);
    }
  }

  /** Three operations fill the log area. */
  lemma {:induction false} ReachFilled(l: Log, d: Image, k: nat) returns (s: State, a: Spec)
    requires Clean(l, d, d) && Roomy(l, d) && k < l.size && k <= LOGSIZE
    ensures Reached(l, d, s, a) && Filled(s, l.start + l.size, k, |d|)
    decreases k
  {
    hide Reached, Clean, Filled;
    if k == 0 {
      s, a := ReachThree(l, d);
      FilledNone(s, l.start + l.size, |d|);
    } else {
      var p, b := (k - 1) % 3, l.start + l.size + (k - 1);
      s, a := ReachFilled(l, d, k - 1);
      FillTurn(s, l.start + l.size, k - 1, |d|);
      FillOne(s, l.start + l.size, k - 1, |d|, ZeroBlock());
      FilledShape(l, s, l.start + l.size, k - 1, |d|);
      FilledQuiet(s, l.start + l.size, k - 1, |d|);
      var s0 := s;
      s, a := Reach(l, d, s, a, Test(p));
      assert s == s0.(passed := {p});
      s, a := Reach(l, d, s, a, Append(p, b, ZeroBlock()));
    }
  }

  lemma FilledNone(s: State, base: nat, n: nat)
    requires Quiet(s, [], map[0 := {}, 1 := {}, 2 := {}], n)
    ensures Filled(s, base, 0, n)
  {
  }

  lemma FilledQuiet(s: State, base: nat, k: nat, n: nat)
    requires Filled(s, base, k, n)
    ensures Quiet(s, s.lh, s.ops, n) && |s.lh| == k && s.ops.Keys == {0, 1, 2}
  {
  }

  /** An operation that has room left in its reservation comes to the "too big a
      transaction" panic. */
  ghost predicate CanPanic(l: Log, d: Image)
  {
    exists s, a, p :: Reached(l, d, s, a) && InReserve(s, p) && TooBig(l, s.lh)
  }

  predicate InReserve(s: State, p: nat)
  {
    s.phase.Idle? && p in s.ops && p !in s.passed && |s.ops[p]| < MAXOPBLOCKS
  }

  /** The log list outgrows the log area: the commit will write past its end. */
  ghost predicate CanOverrun(l: Log, d: Image)
  {
    exists s, a :: Reached(l, d, s, a) && |s.lh| >= l.size
  }

  /** Operations within their bounds can panic exactly on a log area of at most LOGSIZE
      blocks, such as mkfs makes. */
  lemma PanicReachable(l: Log, d: Image)
    requires Clean(l, d, d) && Roomy(l, d)
    ensures CanPanic(l, d) <==> l.size <= LOGSIZE
  {
    hide Reached, Filled, Clean;
    if l.size <= LOGSIZE {
      var s, a := ReachFilled(l, d, l.size - 1);
      FillOneLeft(s, l.start + l.size, l.size - 1, |d|);
      assert Reached(l, d, s, a) && InReserve(s, (l.size - 1) % 3) && TooBig(l, s.lh);
    } else if CanPanic(l, d) {
      var s, a, p :| Reached(l, d, s, a) && InReserve(s, p) && TooBig(l, s.lh);
      ReachedFits(l, d, s, a);
      PanicsExactly(l, s, p);
    }
  }

  lemma FillOneLeft(s: State, base: nat, k: nat, n: nat)
    requires Filled(s, base, k, n) && k < LOGSIZE
    ensures InReserve(s, k % 3) && |s.lh| == k
  {
    assert Logs(s.ops, k % 3, base, k);
  }

  lemma ReachedFits(l: Log, d: Image, s: State, a: Spec)
    requires Clean(l, d, d) && Reached(l, d, s, a) && l.size > LOGSIZE
    ensures Admission(l, s)
  {
    hide Runs, Admission;
    var steps :| Runs(l, Boot(d), Spec(d, d, {}), steps, s, a);
    RunSafe(l, d, steps, s, a);
  }

  /** The test and the append are not one critical section: of two operations that
      pass the test for the last place, the second is listed for a block behind the area.  It can
      happen exactly when the area has at most LOGSIZE blocks, and at least two. */
  lemma OverrunReachable(l: Log, d: Image)
    requires Clean(l, d, d) && Roomy(l, d)
    ensures CanOverrun(l, d) <==> 2 <= l.size <= LOGSIZE
  {
    hide Reached, Filled, Clean;
    if 2 <= l.size <= LOGSIZE {
      var s, a := Overrun(l, d);
      assert Reached(l, d, s, a) && |s.lh| >= l.size;
    } else if CanOverrun(l, d) {
      var s, a :| Reached(l, d, s, a) && |s.lh| >= l.size;
      NoOverrun(l, d, s, a);
    }
  }

  lemma Overrun(l: Log, d: Image) returns (s: State, a: Spec)
    requires Clean(l, d, d) && Roomy(l, d) && 2 <= l.size <= LOGSIZE
    ensures Reached(l, d, s, a) && |s.lh| >= l.size
  {
    hide Reached, Clean, Filled;
    var k, base := l.size - 2, l.start + l.size;
    var p, q := k % 3, (k + 1) % 3;
    s, a := ReachFilled(l, d, k);
    FillTwo(l, s, base, k, |d|);
    s, a := Reach(l, d, s, a, Test(p));
    s, a := Reach(l, d, s, a, Test(q));
    s, a := Reach(l, d, s, a, Append(p, base + k, ZeroBlock()));
    s, a := Reach(l, d, s, a, Append(q, base + k + 1, ZeroBlock()));
  }

  lemma FillTwo(l: Log, s: State, base: nat, k: nat, n: nat)
    requires Filled(s, base, k, n) && k + 1 < LOGSIZE && k + 2 == l.size
    requires base == l.start + l.size && base + k < n < UINT_LIMIT
    ensures k % 3 in s.ops && (k + 1) % 3 in s.ops && k % 3 != (k + 1) % 3
    ensures |s.ops[k % 3] + {base + k}| <= MAXOPBLOCKS && |s.ops[(k + 1) % 3] + {base + k + 1}| <= MAXOPBLOCKS
    ensures base + k !in s.lh && base + k + 1 !in s.lh && Shape(l, s) && |s.lh| == k
    ensures Quiet(s, s.lh, s.ops, n)
  {
    assert Logs(s.ops, k % 3, base, k) && Logs(s.ops, (k + 1) % 3, base, k);
  }

  lemma NoOverrun(l: Log, d: Image, s: State, a: Spec)
    requires Clean(l, d, d) && Reached(l, d, s, a) && (l.size <= 1 || l.size > LOGSIZE)
    ensures |s.lh| < l.size
  {
    hide Runs, Admission;
    var steps :| Runs(l, Boot(d), Spec(d, d, {}), steps, s, a);
    if l.size <= 1 { TinyCalm(l, Boot(d), Spec(d, d, {}), steps, s, a); }
    RunSafe(l, d, steps, s, a);
    AdmissionShape(l, s);
  }

  lemma AdmissionShape(l: Log, s: State)
    requires Admission(l, s)
    ensures Shape(l, s)
  {
  }

  lemma {:induction false} TinyCalm(l: Log, s: State, a: Spec, steps: seq<Step>, s': State, a': Spec)
    requires l.size <= 1 && Runs(l, s, a, steps, s', a')
    ensures Calm(l, s, steps)
    decreases |steps|
  {
    hide Shape, Enabled, Do, SpecDo;
    if steps != [] { TinyCalm(l, Do(l, s, steps[0]), SpecDo(s, a, steps[0]), steps[1..], s', a'); }
  }
}
