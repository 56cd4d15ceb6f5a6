/** Several CPUs running processes out of one process table: every interleaving of
    fork, exit, wait, sleep, wakeup, kill, yield and the schedulers. */
module ProcessSystem {
  import opened Common
  import opened ProcessTable

  /** Whose stack a CPU is on: its scheduler's or a process's. */
  datatype Cpu = Idle | On(p: nat)

  /** exits and reaps record the pids of processes that have called exit and that
      wait has returned. */
  datatype State = State(
    proc: seq<Proc>, nextpid: nat, cpu: seq<Cpu>, lock: Option<nat>, init: nat,
    exits: seq<nat>, reaps: seq<nat>)

  /** Steps of CPU c. Each critical section that ends where it began is one step;
      exit, wait, sleep and yield hand ptable.lock over to the scheduler. */
  datatype Step =
    | Alloc(c: nat, np: Option<nat>)         // allocproc in fork
    | Stack(c: nat, ok: bool)                // kalloc of the stack
    | Copy(c: nat, ok: bool)                 // copyuvm and, if it succeeds, the child's parent is set
    | Ready(c: nat)                          // the child is made runnable
    | Exit(c: nat)
    | Enter(c: nat)                          // wait acquires the lock
    | Pass(c: nat, r: Scan)                  // one pass of wait over the table
    | Doze(c: nat, k: nat)                   // sleep on something else
    | Yield(c: nat)
    | Switch(c: nat)                         // swtch to the scheduler
    | Pick(c: nat, q: nat)                   // the scheduler switches to q
    | Resume(c: nat)                         // back in the process
    | Open(c: nat)                           // the scheduler releases the lock
    | Close(c: nat)                          // and takes it again
    | Notify(c: nat, k: nat)                 // wakeup, by a process or an interrupt
    | Slay(c: nat, i: nat)                   // kill finds slot i

  ghost predicate Running(s: State, c: nat)
  {
    c < |s.cpu| && s.cpu[c].On? && s.cpu[c].p < |s.proc|
  }

  /** c runs a process outside any critical section of ptable.lock. */
  ghost predicate Free(s: State, c: nat)
  {
    Running(s, c) && s.lock != Some(c) && s.proc[s.cpu[c].p].state == RUNNING
    && (s.proc[s.cpu[c].p].context.User? || s.proc[s.cpu[c].p].context.Forking?)
  }

  ghost predicate InUser(s: State, c: nat)
  {
    Free(s, c) && s.proc[s.cpu[c].p].context.User?
  }

  ghost predicate InFork(s: State, c: nat, stage: nat)
  {
    Free(s, c) && s.proc[s.cpu[c].p].context.Forking? && s.proc[s.cpu[c].p].context.stage == stage
    && s.proc[s.cpu[c].p].context.np < |s.proc|
  }

  ghost predicate Enabled(s: State, e: Step)
  {
    match e
    case Alloc(c, np) =>
      && InUser(s, c) && s.lock.None?
      && (match np
          case None => forall i | 0 <= i < |s.proc| :: s.proc[i].state != UNUSED
          case Some(i) => 
             i < |s.proc| && s.proc[i].state == UNUSED && forall j | 0 <= j < i :: s.proc[j].state != UNUSED)
    case Stack(c, _) => InFork(s, c, 0)
    case Copy(c, _) => InFork(s, c, 1)
    case Ready(c) => InFork(s, c, 2) && s.lock.None?
    case Exit(c) => InUser(s, c) && s.lock.None? && s.cpu[c].p != s.init
    case Enter(c) => InUser(s, c) && s.lock.None?
    case Pass(c, r) =>
      && Running(s, c) && s.lock == Some(c) && s.proc[s.cpu[c].p].state == RUNNING
      && s.proc[s.cpu[c].p].context.Scanning? && IsScan(s.proc, s.cpu[c].p, r)
    case Doze(c, _) => InUser(s, c) && s.lock.None?
    case Yield(c) => Free(s, c) && s.lock.None?
    case Switch(c) => Running(s, c) && s.lock == Some(c) && s.proc[s.cpu[c].p].state != RUNNING
    case Pick(c, q) => c < |s.cpu| && s.cpu[c].Idle? && s.lock == Some(c) && q < |s.proc| && s.proc[q].state == RUNNABLE
    case Resume(c) =>
      && Running(s, c) && s.lock == Some(c) && s.proc[s.cpu[c].p].state == RUNNING
      && var x := s.proc[s.cpu[c].p].context; x.Yielding? || x.Sleeping? || x.Waiting? || x.Starting?
    case Open(c) => c < |s.cpu| && s.cpu[c].Idle? && s.lock == Some(c)
    case Close(c) => c < |s.cpu| && s.cpu[c].Idle? && s.lock.None?
    case Notify(c, _) => c < |s.cpu| && s.lock.None?
    case Slay(c, i) => InUser(s, c) && s.lock.None? && i < |s.proc|
  }

  function At(s: State, i: nat, p: Proc): State
    requires i < |s.proc|
  {
    s.(proc := s.proc[i := p])
  }

  ghost function Do(s: State, e: Step): (r: State)
    requires Enabled(s, e)
    ensures |r.proc| == |s.proc| && |r.cpu| == |s.cpu|
  {
    match e
    case Alloc(c, np) =>
      if np.None? then s else
      var p, i := s.cpu[c].p, np.value;
      s.(proc := s.proc[i := s.proc[i].(state := EMBRYO, pid := s.nextpid, context := Starting)]
                       [p := s.proc[p].(context := Forking(i, 0))],
         nextpid := s.nextpid + 1)
    case Stack(c, ok) =>
      var p := s.cpu[c].p;
      var i := s.proc[p].context.np;
      if ok then s.(proc := s.proc[i := s.proc[i].(kstack := true)][p := s.proc[p].(context := Forking(i, 1))])
      else s.(proc := s.proc[i := s.proc[i].(state := UNUSED)][p := s.proc[p].(context := User)])
    case Copy(c, ok) =>
      var p := s.cpu[c].p;
      var i := s.proc[p].context.np;
      if ok then s.(proc := s.proc[i := s.proc[i].(parent := Some(p))][p := s.proc[p].(context := Forking(i, 2))])
      else s.(proc := s.proc[i := s.proc[i].(kstack := false, state := UNUSED)][p := s.proc[p].(context := User)])
    case Ready(c) =>
      var p := s.cpu[c].p;
      var i := s.proc[p].context.np;
      s.(proc := s.proc[i := s.proc[i].(state := RUNNABLE)][p := s.proc[p].(context := User)])
    case Exit(c) =>
      var p := s.cpu[c].p;
      s.(proc := Exited(s.proc, p, s.init), lock := Some(c), exits := s.exits + [s.proc[p].pid])
    case Enter(c) => At(s, s.cpu[c].p, s.proc[s.cpu[c].p].(context := Scanning)).(lock := Some(c))
    case Pass(c, r) =>
      var p := s.cpu[c].p;
      (match r
       case Child(i) =>
         var t := s.proc[i := Reaped(s.proc[i])];
         s.(proc := t[p := t[p].(context := User)], lock := None, reaps := s.reaps + [s.proc[i].pid])
       case Give => At(s, p, s.proc[p].(context := User)).(lock := None)
       case Sleep => At(s, p, s.proc[p].(state := SLEEPING, chan := OnProc(p), context := Waiting)))
    case Doze(c, k) =>
      var p := s.cpu[c].p;
      At(s, p, s.proc[p].(state := SLEEPING, chan := Other(k), context := Sleeping)).(lock := Some(c))
    case Yield(c) =>
      var p := s.cpu[c].p;
      At(s, p, s.proc[p].(state := RUNNABLE, context := Yielding(s.proc[p].context))).(lock := Some(c))
    case Switch(c) => s.(cpu := s.cpu[c := Idle])
    case Pick(c, q) => At(s, q, s.proc[q].(state := RUNNING)).(cpu := s.cpu[c := On(q)])
    case Resume(c) =>
      var p := s.cpu[c].p;
      var x := s.proc[p];
      (match x.context
       case Waiting => At(s, p, x.(chan := NoChan, context := Scanning))
       case Yielding(next) => At(s, p, x.(context := next)).(lock := None)
       case Sleeping => At(s, p, x.(chan := NoChan, context := User)).(lock := None)
       case _ => At(s, p, x.(context := User)).(lock := None))
    case Open(c) => s.(lock := None)
    case Close(c) => s.(lock := Some(c))
    case Notify(c, k) => s.(proc := Woken(s.proc, Other(k)))
    case Slay(c, i) => s.(proc := s.proc[i := Killed(s.proc[i])])
  }

  // ---- what every step keeps ----

  predicate Born(p: Proc) { p.state != UNUSED && p.state != EMBRYO }

  predicate Live(p: Proc) { Born(p) && p.state != ZOMBIE }

  predicate Asleep(p: Proc, q: nat) { p.state == SLEEPING && p.chan == OnProc(q) }

  /** Where a process other than a running one can be. */
  predicate Resumable(x: Context)
  {
    x.Starting? || x.Sleeping? || x.Waiting? || (x.Yielding? && (x.next.User? || x.next.Forking?))
  }

  /** A slot by itself: a parent is alive, only free slots lack a stack, a process
      sleeps where its context says. */
  predicate SlotOk(t: seq<Proc>, init: nat, i: nat)
    requires i < |t|
  {
    var p := t[i];
    && (p.parent.Some? ==> p.parent.value < |t| && p.parent.value != i && Live(t[p.parent.value]))
    && (p.state.UNUSED? ==> p.parent.None? && !p.kstack)
    && (p.state.EMBRYO? ==> p.context.Starting?)
    && (Born(p) ==> p.kstack && (i != init ==> p.parent.Some?)) && (i == init ==> p.parent.None?)
    && (p.state.SLEEPING? ==> (p.context.Sleeping? && p.chan.Other?) || (p.context.Waiting? && p.chan == OnProc(i)))
    && (p.state.RUNNABLE? ==> Resumable(p.context))
    && (p.state.ZOMBIE? ==> p.context.Exiting?)
  }

  ghost predicate SlotsOk(t: seq<Proc>, init: nat)
  {
    && |t| == NPROC && init < NPROC && Live(t[init])
    && forall i {:trigger t[i]} | 0 <= i < |t| :: SlotOk(t, init, i)
  }

  /** A CPU is on the stack of a running process, or, between exit, sleep or yield
      and the switch, of one that is not running any more while the lock is held. */
  ghost predicate CpuOk(t: seq<Proc>, cpu: Cpu, locked: bool)
  {
    cpu.On? ==>
      && cpu.p < |t| && Born(t[cpu.p])
      && (!locked ==> t[cpu.p].state == RUNNING && (t[cpu.p].context.User? || t[cpu.p].context.Forking?))
      && (locked && t[cpu.p].state == RUNNING ==> Resumable(t[cpu.p].context) || t[cpu.p].context.Scanning?)
  }

  ghost predicate CpusOk(t: seq<Proc>, cpu: seq<Cpu>, lock: Option<nat>)
  {
    && (forall c {:trigger cpu[c]} | 0 <= c < |cpu| :: CpuOk(t, cpu[c], lock == Some(c)))
    && (forall c, d {:trigger cpu[c], cpu[d]} | 0 <= c < d < |cpu| && cpu[c].On? && cpu[d].On? :: cpu[c].p != cpu[d].p)
  }

  /** The slot a process is forking into, if any, and how far it is. */
  datatype Fork = NoFork | Fork(np: nat, stage: nat)

  function ForkOf(x: Context): Fork
  {
    match x
    case Forking(np, stage) => Fork(np, stage)
    case Yielding(Forking(np, stage)) => Fork(np, stage)
    case _ => NoFork
  }

  predicate ForkOk(t: seq<Proc>, p: nat)
    requires p < |t|
  {
    var f := ForkOf(t[p].context);
    f.Fork? ==>
      && Live(t[p]) && f.np < |t| && t[f.np].state == EMBRYO && f.stage <= 2
      && (t[f.np].kstack <==> f.stage >= 1) && t[f.np].parent == if f.stage == 2 then Some(p) else None
  }

  ghost predicate ForksOk(t: seq<Proc>)
  {
    && (forall p {:trigger t[p]} | 0 <= p < |t| :: ForkOk(t, p))
    && (forall p, q {:trigger t[p], t[q]} | 0 <= p < q < |t| :: OtherFork(ForkOf(t[p].context), ForkOf(t[q].context)))
  }

  predicate OtherFork(f: Fork, g: Fork) { f.Fork? && g.Fork? ==> f.np != g.np }

  /** No process sleeps in wait while it has a zombie child, and none without a child. */
  ghost predicate WaitOk(t: seq<Proc>)
  {
    forall q {:trigger t[q]} | 0 <= q < |t| && Asleep(t[q], q) :: !AnyZombieChild(t, q) && HasChild(t, q)
  }

  predicate HasChild(t: seq<Proc>, q: nat)
  {
    exists i | 0 <= i < |t| :: t[i].parent == Some(q)
  }

  predicate NoDup(x: seq<nat>)
  {
    forall i, j {:trigger x[i], x[j]} | 0 <= i < j < |x| :: x[i] != x[j]
  }

  /** Pids are unique, and a pid has exited exactly when it is a zombie's or has been returned by wait. */
  ghost predicate PidsOk(t: seq<Proc>, nextpid: nat, exits: seq<nat>, reaps: seq<nat>)
  {
    && 0 < nextpid && NoDup(exits) && NoDup(reaps)
    && (forall i {:trigger t[i]} | 0 <= i < |t| && t[i].state != UNUSED :: PidOk(t[i], nextpid, exits, reaps))
    && (forall i, j {:trigger t[i], t[j]} | 0 <= i < j < |t| && t[i].state != UNUSED && t[j].state != UNUSED ::
          t[i].pid != t[j].pid)
    && (forall x {:trigger x in exits} | x in exits :: x < nextpid && (x in reaps || ZombieWith(t, x)))
    && (forall x {:trigger x in reaps} | x in reaps :: x in exits)
  }

  predicate PidOk(p: Proc, nextpid: nat, exits: seq<nat>, reaps: seq<nat>)
  {
    0 < p.pid < nextpid && p.pid !in reaps && (p.pid in exits <==> p.state == ZOMBIE)
  }

  predicate ZombieWith(t: seq<Proc>, pid: nat)
  {
    exists i | 0 <= i < |t| :: t[i].state == ZOMBIE && t[i].pid == pid
  }

  ghost predicate Inv(s: State)
  {
    && SlotsOk(s.proc, s.init) && CpusOk(s.proc, s.cpu, s.lock) && ForksOk(s.proc) && WaitOk(s.proc)
    && PidsOk(s.proc, s.nextpid, s.exits, s.reaps)
  }

  // One slot changes.

  lemma SlotsPut(t: seq<Proc>, init: nat, i: nat, x: Proc)
    requires SlotsOk(t, init) && i < |t| && SlotOk(t[i := x], init, i) && (Live(t[i]) ==> Live(x))
    ensures SlotsOk(t[i := x], init)
  {
    var t' := t[i := x];
    forall j | 0 <= j < |t| ensures SlotOk(t', init, j) {
      assert SlotOk(t, init, j);
    }
  }

  lemma WaitPut(t: seq<Proc>, i: nat, x: Proc)
    requires WaitOk(t) && i < |t|
    requires forall q {:trigger t[q]} | 0 <= q < |t| && q != i && Asleep(t[q], q) ::
               !ZombieChild(x, q) && (t[i].parent == Some(q) ==> x.parent == Some(q))
    requires Asleep(x, i) ==> !AnyZombieChild(t[i := x], i) && HasChild(t[i := x], i)
    ensures WaitOk(t[i := x])
  {
    var t' := t[i := x];
    forall q | 0 <= q < |t| && Asleep(t'[q], q) ensures !AnyZombieChild(t', q) && HasChild(t', q) {
      if q != i {
        assert Asleep(t[q], q);
        var k :| 0 <= k < |t| && t[k].parent == Some(q);
        assert t'[k].parent == Some(q);
        assert forall j | 0 <= j < |t| :: !ZombieChild(t[j], q);
      }
    }
  }

  lemma WaitSame(t: seq<Proc>, i: nat, x: Proc)
    requires WaitOk(t) && i < |t| && x.parent == t[i].parent && (x.state == ZOMBIE <==> t[i].state == ZOMBIE) &&
             !Asleep(x, i)
    ensures WaitOk(t[i := x])
  {
    forall q {:trigger t[q]} | 0 <= q < |t| && q != i && Asleep(t[q], q) ensures !ZombieChild(x, q) {
      assert !ZombieChild(t[i], q);
    }
    WaitPut(t, i, x);
  }

  lemma ForksPut(t: seq<Proc>, i: nat, x: Proc)
    requires ForksOk(t) && i < |t| && ForkOf(x.context) == ForkOf(t[i].context)
    requires t[i].state == EMBRYO ==> x.state == EMBRYO && x.kstack == t[i].kstack && x.parent == t[i].parent
    requires Live(t[i]) ==> Live(x)
    ensures ForksOk(t[i := x])
  {
    var t' := t[i := x];
    forall p | 0 <= p < |t| ensures ForkOk(t', p) {
      assert ForkOk(t, p);
    }
    forall p, q {:trigger t'[p], t'[q]} | 0 <= p < q < |t|
      ensures OtherFork(ForkOf(t'[p].context), ForkOf(t'[q].context))
    {
      assert OtherFork(ForkOf(t[p].context), ForkOf(t[q].context));
    }
  }

  lemma PidsPut(t: seq<Proc>, nextpid: nat, exits: seq<nat>, reaps: seq<nat>, i: nat, x: Proc)
    requires PidsOk(t, nextpid, exits, reaps) && i < |t| && (t[i].state == ZOMBIE <==> x.state == ZOMBIE)
    requires x.state == UNUSED || (t[i].state != UNUSED && x.pid == t[i].pid)
    ensures PidsOk(t[i := x], nextpid, exits, reaps)
  {
    var t' := t[i := x];
    forall x | x in exits ensures x in reaps || ZombieWith(t', x) {
      if x !in reaps {
        var k :| 0 <= k < |t| && t[k].state == ZOMBIE && t[k].pid == x;
        assert t'[k].state == ZOMBIE && t'[k].pid == x;
      }
    }
  }

  /** The slot of a process that a CPU is on, with the lock taken, kept or given up. */
  lemma CpusPut(t: seq<Proc>, cpu: seq<Cpu>, lock: Option<nat>, lock': Option<nat>, c: nat, x: Proc)
    requires CpusOk(t, cpu, lock) && c < |cpu| && cpu[c].On? && cpu[c].p < |t|
    requires lock' == lock || ((lock.None? || lock == Some(c)) && (lock'.None? || lock' == Some(c)))
    requires CpuOk(t[cpu[c].p := x], cpu[c], lock' == Some(c))
    ensures CpusOk(t[cpu[c].p := x], cpu, lock')
  {
  }

  /** The slot of a process no CPU is on. */
  lemma CpusOff(t: seq<Proc>, cpu: seq<Cpu>, lock: Option<nat>, i: nat, x: Proc)
    requires CpusOk(t, cpu, lock) && i < |t| && forall d {:trigger cpu[d]} | 0 <= d < |cpu| :: cpu[d] != On(i)
    ensures CpusOk(t[i := x], cpu, lock)
  {
  }

  /** The running process of CPU c changes its own slot and maybe the lock. */
  lemma LocalKept(s: State, c: nat, x: Proc, lock: Option<nat>)
    requires Inv(s) && Running(s, c) && (s.lock.None? || s.lock == Some(c)) && (lock.None? || lock == Some(c))
    requires var p := s.cpu[c].p;
             && Live(s.proc[p]) && Live(x) && SlotOk(s.proc[p := x], s.init, p)
             && x.parent == s.proc[p].parent && x.pid == s.proc[p].pid && ForkOf(x.context) == ForkOf(s.proc[p].context)
             && CpuOk(s.proc[p := x], s.cpu[c], lock == Some(c))
             && (Asleep(x, p) ==> !AnyZombieChild(s.proc, p) && HasChild(s.proc, p))
    ensures Inv(s.(proc := s.proc[s.cpu[c].p := x], lock := lock))
  {
    hide SlotsOk, CpusOk, ForksOk, WaitOk, PidsOk;
    var t, p := s.proc, s.cpu[c].p;
    SlotsPut(t, s.init, p, x);
    ForksPut(t, p, x);
    PidsPut(t, s.nextpid, s.exits, s.reaps, p, x);
    CpusPut(t, s.cpu, s.lock, lock, c, x);
    if Asleep(x, p) { ChildrenSame(t, p, x, p); }
    WaitPut(t, p, x);
  }

  lemma ChildrenSame(t: seq<Proc>, i: nat, x: Proc, q: nat)
    requires i < |t| && x.parent == t[i].parent && !ZombieChild(x, q) && !AnyZombieChild(t, q) && HasChild(t, q)
    ensures !AnyZombieChild(t[i := x], q) && HasChild(t[i := x], q)
  {
    var t' := t[i := x];
    var k :| 0 <= k < |t| && t[k].parent == Some(q);
    assert t'[k].parent == Some(q);
    assert forall j | 0 <= j < |t| :: !ZombieChild(t[j], q);
  }

  /** A process that is not running (or no process) and the process forking it. */
  lemma ForkKept(s: State, c: nat, i: nat, y: Proc, x: Proc, nextpid: nat)
    requires Inv(s) && Running(s, c) && s.lock != Some(c) && i < |s.proc| && i != s.cpu[c].p
    requires var p := s.cpu[c].p;
             && Live(s.proc[p]) && x == s.proc[p].(context := x.context) && s.proc[p].state == RUNNING
             && !Live(s.proc[i]) && s.proc[i].state != ZOMBIE
             && SlotOk(s.proc[i := y], s.init, i) && y.state != ZOMBIE
             && CpuOk(s.proc[p := x], s.cpu[c], false)
             && (y.parent == s.proc[i].parent || s.proc[i].parent.None?) && y.state != SLEEPING
             && (ForkOf(s.proc[p].context) == NoFork ==> s.proc[i].state == UNUSED)
             && (ForkOf(s.proc[p].context).Fork? ==> ForkOf(s.proc[p].context).np == i)
             && ForkOf(y.context) == ForkOf(s.proc[i].context)
             && (ForkOf(x.context).Fork? ==> ForkOf(x.context).np == i && ForkOk(s.proc[i := y][p := x], p))
    requires PidsOk(s.proc[i := y], nextpid, s.exits, s.reaps)
    ensures Inv(s.(proc := s.proc[i := y][s.cpu[c].p := x], nextpid := nextpid))
  {
    hide SlotsOk, CpusOk, WaitOk, PidsOk, ForksOk, SlotOk, ForkOk;
    var t, p := s.proc, s.cpu[c].p;
    var t1 := t[i := y];
    NotOn(s, i);
    ForkSlot(t, p, i, y, x);
    SlotsPut(t, s.init, i, y);
    ContextSlot(t1, s.init, p, x);
    SlotsPut(t1, s.init, p, x);
    WaitPut(t, i, y);
    WaitPut(t1, p, x);
    PidsPut(t1, nextpid, s.exits, s.reaps, p, x);
    CpusOff(t, s.cpu, s.lock, i, y);
    CpusPut(t1, s.cpu, s.lock, s.lock, c, x);
  }

  lemma ContextSlot(t: seq<Proc>, init: nat, p: nat, x: Proc)
    requires SlotsOk(t, init) && p < |t| && t[p].state == RUNNING && x == t[p].(context := x.context)
    ensures SlotOk(t[p := x], init, p)
  {
    assert SlotOk(t, init, p);
  }

  lemma NotOn(s: State, i: nat)
    requires Inv(s) && i < |s.proc| && (s.proc[i].state != RUNNING)
    requires Born(s.proc[i]) ==> s.lock.None? || (s.lock.value < |s.cpu| && s.cpu[s.lock.value] != On(i))
    ensures forall d {:trigger s.cpu[d]} | 0 <= d < |s.cpu| :: s.cpu[d] != On(i)
  {
  }

  lemma ForkSlot(t: seq<Proc>, p: nat, i: nat, y: Proc, x: Proc)
    requires ForksOk(t) && p < |t| && i < |t| && p != i && ForkOf(y.context) == ForkOf(t[i].context)
    requires !Live(t[i]) && x == t[p].(context := x.context) && Live(x)
    requires ForkOf(t[p].context) == NoFork ==> t[i].state == UNUSED
    requires ForkOf(t[p].context).Fork? ==> ForkOf(t[p].context).np == i
    requires ForkOf(x.context).Fork? ==> ForkOf(x.context).np == i && ForkOk(t[i := y][p := x], p)
    ensures ForksOk(t[i := y][p := x])
  {
    var t' := t[i := y][p := x];
    forall q | 0 <= q < |t| ensures ForkOk(t', q) &&
        (q != p ==> OtherFork(ForkOf(t'[p].context), ForkOf(t'[q].context))) {
      assert ForkOk(t, q) && ForkOk(t, p);
      if p < q { assert OtherFork(ForkOf(t[p].context), ForkOf(t[q].context)); }
      if q < p { assert OtherFork(ForkOf(t[q].context), ForkOf(t[p].context)); }
    }
    forall q, r {:trigger t'[q], t'[r]} | 0 <= q < r < |t|
      ensures OtherFork(ForkOf(t'[q].context), ForkOf(t'[r].context))
    {
      assert OtherFork(ForkOf(t[q].context), ForkOf(t[r].context));
    }
  }

  lemma AllocPids(t: seq<Proc>, nextpid: nat, exits: seq<nat>, reaps: seq<nat>, i: nat, x: Proc)
    requires PidsOk(t, nextpid, exits, reaps) && i < |t| && t[i].state == UNUSED && x.state == EMBRYO &&
             x.pid == nextpid
    ensures PidsOk(t[i := x], nextpid + 1, exits, reaps)
  {
    var t' := t[i := x];
    forall y | y in exits ensures y in reaps || ZombieWith(t', y) {
      if y !in reaps {
        var k :| 0 <= k < |t| && t[k].state == ZOMBIE && t[k].pid == y;
        assert t'[k] == t[k];
      }
    }
    assert nextpid !in exits && nextpid !in reaps;
  }

  lemma AllocKept(s: State, c: nat, i: nat)
    requires Inv(s) && Enabled(s, Alloc(c, Some(i)))
    ensures Inv(Do(s, Alloc(c, Some(i))))
  {
    hide WaitOk, PidsOk;
    var p := s.cpu[c].p;
    var y := s.proc[i].(state := EMBRYO, pid := s.nextpid, context := Starting);
    assert SlotOk(s.proc, s.init, i) && ForkOk(s.proc, i);
    AllocPids(s.proc, s.nextpid, s.exits, s.reaps, i, y);
    ForkKept(s, c, i, y, s.proc[p].(context := Forking(i, 0)), s.nextpid + 1);
  }

  /** The three later steps of fork: y is what the new slot becomes. */
  lemma ForkingKept(s: State, c: nat, stage: nat, y: Proc, x: Context)
    requires Inv(s) && InFork(s, c, stage)
    requires var p := s.cpu[c].p;
             var i := s.proc[p].context.np;
             && y.pid == s.proc[i].pid && y.context == s.proc[i].context && y.chan == s.proc[i].chan &&
                 y.killed == s.proc[i].killed
             && (|| (x == User && stage < 2 && y.state == UNUSED && !y.kstack && y.parent == s.proc[i].parent)
                 || (x == User && stage == 2 && y.state == RUNNABLE && y.kstack == s.proc[i].kstack &&
                     y.parent == s.proc[i].parent)
                 || (x == Forking(i, stage + 1) && stage < 2 && y.state == EMBRYO && y.kstack
                     && y.parent == if stage == 1 then Some(p) else s.proc[i].parent))
    ensures var p := s.cpu[c].p;
            Inv(s.(proc := s.proc[s.proc[p].context.np := y][p := s.proc[p].(context := x)]))
  {
    hide WaitOk, PidsOk;
    var p := s.cpu[c].p;
    var i := s.proc[p].context.np;
    assert ForkOk(s.proc, p) && SlotOk(s.proc, s.init, i) && SlotOk(s.proc, s.init, p);
    PidsPut(s.proc, s.nextpid, s.exits, s.reaps, i, y);
    ForkKept(s, c, i, y, s.proc[p].(context := x), s.nextpid);
  }

  lemma ReapPids(t: seq<Proc>, nextpid: nat, exits: seq<nat>, reaps: seq<nat>, i: nat)
    requires PidsOk(t, nextpid, exits, reaps) && i < |t| && t[i].state == ZOMBIE
    ensures PidsOk(t[i := Reaped(t[i])], nextpid, exits, reaps + [t[i].pid])
  {
    var t', reaps' := t[i := Reaped(t[i])], reaps + [t[i].pid];
    forall y | y in exits ensures y in reaps' || ZombieWith(t', y) {
      if y !in reaps' {
        var k :| 0 <= k < |t| && t[k].state == ZOMBIE && t[k].pid == y;
        assert t'[k] == t[k];
      }
    }
  }

  lemma ReapKept(s: State, c: nat, i: nat)
    requires Inv(s) && Enabled(s, Pass(c, Child(i)))
    ensures Inv(Do(s, Pass(c, Child(i))))
  {
    hide CpusOk, ForksOk, WaitOk, PidsOk, SlotsOk, SlotOk;
    var t, p := s.proc, s.cpu[c].p;
    var y := Reaped(t[i]);
    var t1, x := t[i := y], t[p].(context := User);
    OffStack(s, c, i);
    ReapPids(t, s.nextpid, s.exits, s.reaps, i);
    PidsPut(t1, s.nextpid, s.exits, s.reaps + [t[i].pid], p, x);
    ReapSlot(t, s.init, i);
    SlotsPut(t, s.init, i, y);
    ContextSlot(t1, s.init, p, x);
    SlotsPut(t1, s.init, p, x);
    WaitPut(t, i, y);
    WaitPut(t1, p, x);
    CpusOff(t, s.cpu, s.lock, i, y);
    CpusPut(t1, s.cpu, s.lock, None, c, x);
    ForksPut(t, i, y);
    ForksPut(t1, p, x);
  }

  lemma ReapSlot(t: seq<Proc>, init: nat, i: nat)
    requires SlotsOk(t, init) && i < |t| && t[i].state == ZOMBIE
    ensures SlotOk(t[i := Reaped(t[i])], init, i)
  {
  }

  /** A process that wait takes apart has no CPU on its stack any more. */
  lemma OffStack(s: State, c: nat, i: nat)
    requires Inv(s) && Enabled(s, Pass(c, Child(i)))
    ensures forall d {:trigger s.cpu[d]} | 0 <= d < |s.cpu| :: s.cpu[d] != On(i)
  {
    NotOn(s, i);
  }

  // exit, over the whole table

  lemma ExitSlots(t: seq<Proc>, init: nat, cur: nat)
    requires SlotsOk(t, init) && cur < |t| && cur != init && Live(t[cur])
    ensures SlotsOk(Exited(t, cur, init), init)
  {
    var t' := Exited(t, cur, init);
    assert t'[init] == ExitedAt(t, cur, init, init);
    forall i | 0 <= i < |t| ensures SlotOk(t', init, i) {
      ExitSlot(t, init, cur, i);
    }
  }

  lemma ExitSlot(t: seq<Proc>, init: nat, cur: nat, i: nat)
    requires cur < |t| && init < |t| && i < |t| && cur != init && Live(t[cur]) && Live(t[init]) && SlotOk(t, init, i)
    ensures SlotOk(Exited(t, cur, init), init, i)
  {
    hide Exited;
    var t' := Exited(t, cur, init);
    ExitLeaves(t, cur, init, i);
    ExitLeaves(t, cur, init, init);
    if t[i].parent.Some? {
      ExitLeaves(t, cur, init, t[i].parent.value);
    }
  }

  lemma ExitWait(t: seq<Proc>, init: nat, cur: nat)
    requires WaitOk(t) && cur < |t| && t[cur].state == RUNNING && t[cur].parent != Some(cur)
    ensures WaitOk(Exited(t, cur, init))
  {
    var t' := Exited(t, cur, init);
    forall q | 0 <= q < |t| && Asleep(t'[q], q) ensures !AnyZombieChild(t', q) && HasChild(t', q) {
      assert t'[q] == ExitedAt(t, cur, init, q) && Asleep(t[q], q) && q != cur;
      var k :| 0 <= k < |t| && t[k].parent == Some(q);
      assert t'[k] == ExitedAt(t, cur, init, k) && t'[k].parent == Some(q);
      forall j | 0 <= j < |t| ensures !ZombieChild(t'[j], q) {
        assert t'[j] == ExitedAt(t, cur, init, j) && !ZombieChild(t[j], q);
      }
    }
  }

  lemma ExitForks(t: seq<Proc>, init: nat, cur: nat)
    requires ForksOk(t) && cur < |t| && ForkOf(t[cur].context) == NoFork && t[cur].state == RUNNING
    ensures ForksOk(Exited(t, cur, init))
  {
    var t' := Exited(t, cur, init);
    forall p | 0 <= p < |t| ensures ForkOk(t', p) {
      assert ForkOk(t, p) && t'[p] == ExitedAt(t, cur, init, p);
      var f := ForkOf(t[p].context);
      if f.Fork? { assert t'[f.np] == ExitedAt(t, cur, init, f.np); }
    }
    forall p, q {:trigger t'[p], t'[q]} | 0 <= p < q < |t|
      ensures OtherFork(ForkOf(t'[p].context), ForkOf(t'[q].context))
    {
      assert OtherFork(ForkOf(t[p].context), ForkOf(t[q].context));
    }
  }

  lemma ExitPids(t: seq<Proc>, init: nat, cur: nat, nextpid: nat, exits: seq<nat>, reaps: seq<nat>)
    requires PidsOk(t, nextpid, exits, reaps) && cur < |t| && t[cur].state == RUNNING
    ensures PidsOk(Exited(t, cur, init), nextpid, exits + [t[cur].pid], reaps)
  {
    var t', exits' := Exited(t, cur, init), exits + [t[cur].pid];
    forall i {:trigger t'[i]} | 0 <= i < |t| ensures t'[i] == ExitedAt(t, cur, init, i) && t'[i].pid == t[i].pid
                                                     && (t'[i].state == UNUSED <==> t[i].state == UNUSED)
                                                     && (t'[i].state == ZOMBIE <==> t[i].state == ZOMBIE || i == cur) {
    }
    forall y | y in exits' ensures y < nextpid && (y in reaps || ZombieWith(t', y)) {
      if y in exits && y !in reaps {
        var k :| 0 <= k < |t| && t[k].state == ZOMBIE && t[k].pid == y;
        assert t'[k].state == ZOMBIE && t'[k].pid == y;
      } else if y !in exits {
        assert t'[cur].state == ZOMBIE && t'[cur].pid == y;
      }
    }
  }

  lemma ExitCpus(t: seq<Proc>, init: nat, cpu: seq<Cpu>, c: nat)
    requires CpusOk(t, cpu, None) && c < |cpu| && cpu[c].On? && cpu[c].p < |t|
    ensures CpusOk(Exited(t, cpu[c].p, init), cpu, Some(c))
  {
    var t' := Exited(t, cpu[c].p, init);
    forall d {:trigger cpu[d]} | 0 <= d < |cpu| ensures CpuOk(t', cpu[d], d == c) {
      assert CpuOk(t, cpu[d], false);
      if cpu[d].On? { assert t'[cpu[d].p] == ExitedAt(t, cpu[c].p, init, cpu[d].p); }
    }
  }

  lemma ExitKept(s: State, c: nat)
    requires Inv(s) && Enabled(s, Exit(c))
    ensures Inv(Do(s, Exit(c)))
  {
    hide SlotsOk, CpusOk, ForksOk, WaitOk, PidsOk, Exited;
    var t, p := s.proc, s.cpu[c].p;
    RunningSlot(s, c);
    ExitSlots(t, s.init, p);
    ExitWait(t, s.init, p);
    ExitForks(t, s.init, p);
    ExitPids(t, s.init, p, s.nextpid, s.exits, s.reaps);
    ExitCpus(t, s.init, s.cpu, c);
  }

  lemma NotifyKept(s: State, c: nat, k: nat)
    requires Inv(s) && Enabled(s, Notify(c, k))
    ensures Inv(Do(s, Notify(c, k)))
  {
    var t, t' := s.proc, Woken(s.proc, Other(k));
    forall i {:trigger t'[i]} | 0 <= i < |t| ensures t'[i] == Wake(t[i], Other(k)) {
    }
    assert SlotsOk(t', s.init) by {
      forall i | 0 <= i < |t| ensures SlotOk(t', s.init, i) { assert SlotOk(t, s.init, i); }
    }
    assert CpusOk(t', s.cpu, s.lock) by {
      forall d {:trigger s.cpu[d]} | 0 <= d < |s.cpu| ensures CpuOk(t', s.cpu[d], false) { assert CpuOk(t, s.cpu[d],
          false); }
    }
    NotifyRest(s, t', k);
  }

  lemma NotifyRest(s: State, t': seq<Proc>, k: nat)
    requires Inv(s) && |t'| == |s.proc| &&
             forall i {:trigger t'[i]} | 0 <= i < |t'| :: t'[i] == Wake(s.proc[i], Other(k))
    ensures ForksOk(t') && WaitOk(t') && PidsOk(t', s.nextpid, s.exits, s.reaps)
  {
    hide SlotsOk, CpusOk;
    var t := s.proc;
    forall p | 0 <= p < |t| ensures ForkOk(t', p) { assert ForkOk(t, p); }
    forall p, q {:trigger t'[p], t'[q]} | 0 <= p < q < |t|
      ensures OtherFork(ForkOf(t'[p].context), ForkOf(t'[q].context))
    {
      assert OtherFork(ForkOf(t[p].context), ForkOf(t[q].context));
    }
    forall q | 0 <= q < |t| && Asleep(t'[q], q) ensures !AnyZombieChild(t', q) && HasChild(t', q) {
      assert Asleep(t[q], q);
      var j :| 0 <= j < |t| && t[j].parent == Some(q);
      assert t'[j].parent == Some(q);
      forall j | 0 <= j < |t| ensures !ZombieChild(t'[j], q) { assert !ZombieChild(t[j], q); }
    }
    forall y | y in s.exits ensures y in s.reaps || ZombieWith(t', y) {
      if y !in s.reaps {
        var j :| 0 <= j < |t| && t[j].state == ZOMBIE && t[j].pid == y;
        assert t'[j] == t[j];
      }
    }
  }

  lemma SlayKept(s: State, c: nat, i: nat)
    requires Inv(s) && Enabled(s, Slay(c, i))
    ensures Inv(Do(s, Slay(c, i)))
  {
    hide SlotsOk, SlotOk, ForksOk, WaitOk, PidsOk;
    var t, x := s.proc, Killed(s.proc[i]);
    SlaySlot(t, s.init, i);
    SlotsPut(t, s.init, i, x);
    ForksPut(t, i, x);
    PidsPut(t, s.nextpid, s.exits, s.reaps, i, x);
    WaitSame(t, i, x);
    forall d {:trigger s.cpu[d]} | 0 <= d < |s.cpu| ensures CpuOk(t[i := x], s.cpu[d], false) {
      assert CpuOk(t, s.cpu[d], false);
    }
  }

  lemma SlaySlot(t: seq<Proc>, init: nat, i: nat)
    requires SlotsOk(t, init) && i < |t|
    ensures SlotOk(t[i := Killed(t[i])], init, i)
  {
    assert SlotOk(t, init, i);
  }

  /** The scheduler's choice is on no CPU and has a stack to switch to. */
  lemma PickReady(s: State, c: nat, q: nat)
    requires Inv(s) && Enabled(s, Pick(c, q))
    ensures s.proc[q].kstack && Resumable(s.proc[q].context)
    ensures forall d {:trigger s.cpu[d]} | 0 <= d < |s.cpu| :: s.cpu[d] != On(q)
  {
    assert SlotOk(s.proc, s.init, q);
    NotOn(s, q);
  }

  lemma PickKept(s: State, c: nat, q: nat)
    requires Inv(s) && Enabled(s, Pick(c, q))
    ensures Inv(Do(s, Pick(c, q)))
  {
    hide SlotsOk, CpusOk, ForksOk, WaitOk, PidsOk, SlotOk, CpuOk;
    var t, x := s.proc, s.proc[q].(state := RUNNING);
    PickReady(s, c, q);
    PickSlot(s, c, q);
    SlotsPut(t, s.init, q, x);
    ForksPut(t, q, x);
    PidsPut(t, s.nextpid, s.exits, s.reaps, q, x);
    WaitSame(t, q, x);
    CpusOff(t, s.cpu, s.lock, q, x);
    CpusPick(t[q := x], s.cpu, c, q);
  }

  lemma PickSlot(s: State, c: nat, q: nat)
    requires Inv(s) && Enabled(s, Pick(c, q))
    ensures var t' := s.proc[q := s.proc[q].(state := RUNNING)];
            SlotOk(t', s.init, q) && CpuOk(t', On(q), true)
  {
    assert SlotOk(s.proc, s.init, q);
  }

  lemma CpusPick(t: seq<Proc>, cpu: seq<Cpu>, c: nat, q: nat)
    requires CpusOk(t, cpu, Some(c)) && c < |cpu| && CpuOk(t, On(q), true)
    requires forall d {:trigger cpu[d]} | 0 <= d < |cpu| :: cpu[d] != On(q)
    ensures CpusOk(t, cpu[c := On(q)], Some(c))
  {
  }

  lemma RunningSlot(s: State, c: nat)
    requires Inv(s) && Running(s, c)
    ensures var p := s.cpu[c].p; SlotOk(s.proc, s.init, p) && CpuOk(s.proc, s.cpu[c], s.lock == Some(c))
  {
  }

  lemma StepKept(s: State, e: Step)
    requires Inv(s) && Enabled(s, e)
    ensures Inv(Do(s, e))
  {
    hide SlotsOk, CpusOk, ForksOk, WaitOk, PidsOk;
    match e
    case Alloc(c, np) => if np.Some? { AllocKept(s, c, np.value); }
    case Stack(c, ok) =>
      var y := s.proc[s.proc[s.cpu[c].p].context.np];
      EmbryoSlot(s, c, 0);
      ForkingKept(s, c, 0, if ok then y.(kstack := true) else y.(state := UNUSED),
                  if ok then Forking(s.proc[s.cpu[c].p].context.np, 1) else User);
    case Copy(c, ok) =>
      var y := s.proc[s.proc[s.cpu[c].p].context.np];
      EmbryoSlot(s, c, 1);
      ForkingKept(s, c, 1, if ok then y.(parent := Some(s.cpu[c].p)) else y.(kstack := false, state := UNUSED),
                  if ok then Forking(s.proc[s.cpu[c].p].context.np, 2) else User);
    case Ready(c) =>
      var y := s.proc[s.proc[s.cpu[c].p].context.np];
      ForkingKept(s, c, 2, y.(state := RUNNABLE), User);
    case Exit(c) => ExitKept(s, c);
    case Enter(c) => LocalStep(s, e, c);
    case Pass(c, r) => if r.Child? { ReapKept(s, c, r.i); } else { LocalStep(s, e, c); }
    case Doze(c, k) => LocalStep(s, e, c);
    case Yield(c) => LocalStep(s, e, c);
    case Resume(c) => LocalStep(s, e, c);
    case Switch(c) => IdleStep(s, e);
    case Open(c) => IdleStep(s, e);
    case Close(c) => IdleStep(s, e);
    case Pick(c, q) => PickKept(s, c, q);
    case Notify(c, k) => NotifyKept(s, c, k);
    case Slay(c, i) => SlayKept(s, c, i);
  }

  lemma EmbryoSlot(s: State, c: nat, stage: nat)
    requires Inv(s) && InFork(s, c, stage)
    ensures var i := s.proc[s.cpu[c].p].context.np;
            s.proc[i].state == EMBRYO && (s.proc[i].kstack <==> stage >= 1)
            && s.proc[i].parent == if stage == 2 then Some(s.cpu[c].p) else None
  {
    assert ForkOk(s.proc, s.cpu[c].p);
  }

  lemma LocalStep(s: State, e: Step, c: nat)
    requires Inv(s) && Enabled(s, e)
    requires e == Enter(c) || (e.Pass? && e.c == c && !e.r.Child?) || (e.Doze? &&
             e.c == c) || e == Yield(c) || e == Resume(c)
    ensures Inv(Do(s, e))
  {
    hide SlotsOk, CpusOk, ForksOk, WaitOk, PidsOk;
    RunningSlot(s, c);
    LocalKept(s, c, Do(s, e).proc[s.cpu[c].p], Do(s, e).lock);
  }

  lemma IdleStep(s: State, e: Step)
    requires Inv(s) && Enabled(s, e) && (e.Switch? || e.Open? || e.Close?)
    ensures Inv(Do(s, e))
  {
    hide SlotsOk, ForksOk, WaitOk, PidsOk;
  }

  // ---- runs ----

  /** After userinit: one process, and every CPU in its scheduler. */
  ghost predicate Start(s: State)
  {
    && |s.proc| == NPROC && s.init < NPROC && s.nextpid == 2 && s.lock.None? && s.exits == [] && s.reaps == []
    && (forall i {:trigger s.proc[i]} | 0 <= i < NPROC ::
          s.proc[i] == if i == s.init then Proc(RUNNABLE, 1, None, NoChan, false, true, Starting)
                       else Proc(UNUSED, 0, None, NoChan, false, false, User))
    && forall c {:trigger s.cpu[c]} | 0 <= c < |s.cpu| :: s.cpu[c] == Idle
  }

  ghost predicate IsRun(ss: seq<State>, es: seq<Step>)
  {
    && |ss| == |es| + 1
    && forall k {:trigger es[k]} | 0 <= k < |es| :: Enabled(ss[k], es[k]) && ss[k + 1] == Do(ss[k], es[k])
  }

  lemma StartOk(s: State)
    requires Start(s)
    ensures Inv(s)
  {
    forall i {:trigger s.proc[i]} | 0 <= i < NPROC
      ensures SlotOk(s.proc, s.init, i) && ForkOf(s.proc[i].context) == NoFork &&
              (s.proc[i].state == UNUSED <==> i != s.init)
              && s.proc[i].state != SLEEPING && s.proc[i].state != ZOMBIE && s.proc[i].pid < 2
    {
    }
    assert s.proc[s.init].pid == 1;
    assert forall i | 0 <= i < |s.proc| :: SlotOk(s.proc, s.init, i);
    assert forall i | 0 <= i < |s.proc| :: ForkOk(s.proc, i);
  }

  lemma {:induction false} RunInv(ss: seq<State>, es: seq<Step>, k: nat)
    requires IsRun(ss, es) && k < |ss| && Start(ss[0])
    ensures Inv(ss[k])
  {
    if k == 0 {
      StartOk(ss[0]);
    } else {
      RunInv(ss, es, k - 1);
      assert Enabled(ss[k - 1], es[k - 1]);
      StepKept(ss[k - 1], es[k - 1]);
    }
  }

  /** A process other than init has a live parent; nobody sleeps in wait with a zombie
      child, or without a child; a zombie's stack is in use at most by the CPU that holds
      the lock; and whoever has exited is a zombie still or has been returned by wait, once. */
  ghost predicate Safe(s: State)
  {
    && (forall i | 0 <= i < |s.proc| && Born(s.proc[i]) && i != s.init ::
          s.proc[i].parent.Some? && s.proc[i].parent.value < |s.proc| && Live(s.proc[s.proc[i].parent.value]))
    && (forall q | 0 <= q < |s.proc| && Asleep(s.proc[q], q) :: !AnyZombieChild(s.proc, q) && HasChild(s.proc, q))
    && (forall c | 0 <= c < |s.cpu| && s.cpu[c].On? ::
          s.cpu[c].p < |s.proc| && s.proc[s.cpu[c].p].kstack &&
              (s.proc[s.cpu[c].p].state == RUNNING || s.lock == Some(c)))
    && NoDup(s.exits) && NoDup(s.reaps)
    && (forall x {:trigger x in s.exits} {:trigger ZombieWith(s.proc, x)} ::
          x in s.exits <==> x in s.reaps || ZombieWith(s.proc, x))
    && (forall x | x in s.reaps :: !ZombieWith(s.proc, x))
  }

  lemma InvSafe(s: State)
    requires Inv(s)
    ensures Safe(s)
  {
    forall i | 0 <= i < |s.proc| ensures SlotOk(s.proc, s.init, i) {
    }
    forall c | 0 <= c < |s.cpu| ensures CpuOk(s.proc, s.cpu[c], s.lock == Some(c)) {
    }
    forall x | ZombieWith(s.proc, x) ensures x in s.exits && x !in s.reaps {
      var i :| 0 <= i < |s.proc| && s.proc[i].state == ZOMBIE && s.proc[i].pid == x;
      assert PidOk(s.proc[i], s.nextpid, s.exits, s.reaps);
    }
  }

  /** Every state of every run, whatever the number of CPUs and the interleaving. */
  lemma RunSafe(ss: seq<State>, es: seq<Step>, k: nat)
    requires IsRun(ss, es) && k < |ss| && Start(ss[0])
    ensures Safe(ss[k])
  {
    RunInv(ss, es, k);
    InvSafe(ss[k]);
  }

  /** Leaving wakes a parent that waits. */
  lemma ExitWakes(s: State, c: nat, q: nat)
    requires Inv(s) && Enabled(s, Exit(c)) && q < |s.proc| && s.proc[s.cpu[c].p].parent == Some(q) &&
             Asleep(s.proc[q], q)
    ensures var t := Do(s, Exit(c)).proc;
            t[q].state == RUNNABLE && ZombieChild(t[s.cpu[c].p], q)
  {
    assert SlotOk(s.proc, s.init, s.cpu[c].p);
    var t, p := Do(s, Exit(c)).proc, s.cpu[c].p;
    assert t[q] == ExitedAt(s.proc, p, s.init, q) && t[p] == ExitedAt(s.proc, p, s.init, p);
  }

  /** wakeup leaves nobody asleep on the channel, and changes nothing else. */
  lemma NotifyWakes(s: State, c: nat, k: nat)
    requires Enabled(s, Notify(c, k))
    ensures var s' := Do(s, Notify(c, k));
            && s'.(proc := s.proc) == s && |s'.proc| == |s.proc|
            && forall i | 0 <= i < |s.proc| ::
                 if s.proc[i].state == SLEEPING && s.proc[i].chan == Other(k)
                 then s'.proc[i].state == RUNNABLE && s'.proc[i].(state := SLEEPING) == s.proc[i]
                 else s'.proc[i] == s.proc[i]
  {
  }

  /** What wakes a sleeper: a wakeup on its channel, kill, or an exit of its child or, if
      it is init, of one that leaves it a zombie. */
  ghost predicate Wakes(s: State, e: Step, i: nat)
    requires Enabled(s, e) && i < |s.proc|
  {
    || (e.Notify? && s.proc[i].chan == Other(e.k))
    || (e.Slay? && e.i == i)
    || (e.Exit? && s.proc[i].chan == OnProc(i)
        && (s.proc[s.cpu[e.c].p].parent == Some(i) || (i == s.init && AnyZombieChild(s.proc, s.cpu[e.c].p))))
  }

  /** A sleeper sleeps on until one of these, and then can run. */
  lemma SleeperWoken(s: State, e: Step, i: nat)
    requires Inv(s) && Enabled(s, e) && i < |s.proc| && s.proc[i].state == SLEEPING
    ensures var s' := Do(s, e);
            && |s'.proc| == |s.proc| && s'.proc[i].state == (if Wakes(s, e, i) then RUNNABLE else SLEEPING)
            && s'.proc[i].chan == s.proc[i].chan && s'.proc[i].context == s.proc[i].context
            && s'.proc[i].pid == s.proc[i].pid
  {
    hide SlotsOk, ForksOk, CpusOk, WaitOk, PidsOk, Wakes, Do, Exited;
    if e.Exit? {
      SleeperExit(s, e.c, i);
    } else {
      if e.Stack? || e.Copy? || e.Ready? { ForkFills(s, e.c); }
      SleeperStays(s, e, i);
    }
  }

  lemma SleeperExit(s: State, c: nat, i: nat)
    requires SlotsOk(s.proc, s.init) && Enabled(s, Exit(c)) && i < |s.proc| && s.proc[i].state == SLEEPING
    ensures var t := Do(s, Exit(c)).proc;
            && |t| == |s.proc| && t[i].state == (if Wakes(s, Exit(c), i) then RUNNABLE else SLEEPING)
            && t[i].chan == s.proc[i].chan && t[i].context == s.proc[i].context && t[i].pid == s.proc[i].pid
  {
    hide AnyZombieChild, Exited;
    var p := s.cpu[c].p;
    assert SlotOk(s.proc, s.init, i) && SlotOk(s.proc, s.init, p);
    ExitLeaves(s.proc, p, s.init, i);
  }

  lemma SleeperStays(s: State, e: Step, i: nat)
    requires Enabled(s, e) && !e.Exit? && i < |s.proc| && s.proc[i].state == SLEEPING
    requires e.Stack? || e.Copy? || e.Ready? ==> s.proc[s.proc[s.cpu[e.c].p].context.np].state == EMBRYO
    ensures var t := Do(s, e).proc;
            && |t| == |s.proc| && t[i].state == (if Wakes(s, e, i) then RUNNABLE else SLEEPING)
            && t[i].chan == s.proc[i].chan && t[i].context == s.proc[i].context && t[i].pid == s.proc[i].pid
  {
    hide AnyZombieChild, Exited;
  }

  /** The slot that fork fills is not a sleeper's. */
  lemma ForkFills(s: State, c: nat)
    requires Inv(s) && Running(s, c) && s.proc[s.cpu[c].p].context.Forking?
    ensures var np := s.proc[s.cpu[c].p].context.np; np < |s.proc| && s.proc[np].state == EMBRYO
  {
    assert ForkOk(s.proc, s.cpu[c].p);
  }

  /** Whoever goes to sleep on k is asleep on k until the next wakeup of k or a kill, whatever
      the others do in between. */
  lemma {:induction false} RunDoze(ss: seq<State>, es: seq<Step>, j: nat, m: nat)
    requires IsRun(ss, es) && Start(ss[0]) && j < m <= |es| && es[j].Doze? && Running(ss[j], es[j].c)
    requires forall l | j < l < m :: !(es[l].Notify? && es[l].k == es[j].k)
    requires forall l | j < l < m :: !(es[l].Slay? && es[l].i == ss[j].cpu[es[j].c].p)
    ensures var p := ss[j].cpu[es[j].c].p;
            p < |ss[m].proc| && ss[m].proc[p].state == SLEEPING && ss[m].proc[p].chan == Other(es[j].k)
    decreases m
  {
    hide Inv, Do, Start;
    RunInv(ss, es, m - 1);
    assert Enabled(ss[m - 1], es[m - 1]) && ss[m] == Do(ss[m - 1], es[m - 1]);
    if j == m - 1 {
      DozeSleeps(ss[j], es[j]);
    } else {
      RunDoze(ss, es, j, m - 1);
      SleeperWoken(ss[m - 1], es[m - 1], ss[j].cpu[es[j].c].p);
    }
  }

  lemma DozeSleeps(s: State, e: Step)
    requires Enabled(s, e) && e.Doze?
    ensures var p, s' := s.cpu[e.c].p, Do(s, e);
            && |s'.proc| == |s.proc| && s'.proc[p].state == SLEEPING && s'.proc[p].chan == Other(e.k)
            && s'.lock == Some(e.c)
  {
  }

  // ---- no slot is lost ----

  /** Process p has slot i from allocproc and is still in fork. */
  predicate Fills(t: seq<Proc>, p: nat, i: nat)
  {
    p < |t| && ForkOf(t[p].context).Fork? && ForkOf(t[p].context).np == i
  }

  /** A slot that is neither free nor a process's is being filled. */
  ghost predicate NoneLeaked(t: seq<Proc>)
  {
    forall i {:trigger t[i]} | 0 <= i < |t| && t[i].state == EMBRYO :: exists p :: Fills(t, p, i)
  }

  /** A process leaves fork only by a step of fork. */
  lemma StillFills(s: State, e: Step, p: nat, i: nat)
    requires Inv(s) && Enabled(s, e) && Fills(s.proc, p, i) && !e.Stack? && !e.Copy? && !e.Ready?
    ensures Fills(Do(s, e).proc, p, i)
  {
    hide AnyZombieChild, Exited, ForksOk, WaitOk, PidsOk, SlotsOk, SlotOk;
    if e.Resume? { RunningSlot(s, e.c); }
    if e.Exit? { ExitLeaves(s.proc, s.cpu[e.c].p, s.init, p); }
    FillerLive(s, p, i);
  }

  lemma FillerLive(s: State, p: nat, i: nat)
    requires Inv(s) && Fills(s.proc, p, i)
    ensures Live(s.proc[p])
  {
    assert ForkOk(s.proc, p);
  }

  /** A slot comes to be filled only by allocproc. */
  lemma WasEmbryo(s: State, e: Step, i: nat)
    requires Inv(s) && Enabled(s, e) && i < |Do(s, e).proc| && Do(s, e).proc[i].state == EMBRYO
    ensures |Do(s, e).proc| == |s.proc|
    ensures s.proc[i].state == EMBRYO || (e.Alloc? && e.np == Some(i) && Fills(Do(s, e).proc, s.cpu[e.c].p, i))
  {
    hide AnyZombieChild, Exited, ForksOk, WaitOk, PidsOk, SlotsOk, SlotOk;
    if e.Exit? { ExitLeaves(s.proc, s.cpu[e.c].p, s.init, i); }
    if e.Stack? || e.Copy? || e.Ready? { ForkFills(s, e.c); }
  }

  /** The steps of fork keep filling the slot, or it is free or a process. */
  lemma ForkGoesOn(s: State, e: Step, p: nat, i: nat)
    requires Inv(s) && Enabled(s, e) && Fills(s.proc, p, i) && (e.Stack? || e.Copy? || e.Ready?)
    requires i < |s.proc| && Do(s, e).proc[i].state == EMBRYO
    ensures Fills(Do(s, e).proc, p, i)
  {
    hide CpusOk, WaitOk, PidsOk, SlotsOk, ForksOk;
    ForkFills(s, e.c);
    FillerLive(s, p, i);
    if p != s.cpu[e.c].p { OneFills(s, s.cpu[e.c].p, p); }
  }

  /** No two fill one slot. */
  lemma OneFills(s: State, p: nat, q: nat)
    requires Inv(s) && p < |s.proc| && q < |s.proc| && p != q
    requires ForkOf(s.proc[p].context).Fork? && ForkOf(s.proc[q].context).Fork?
    ensures ForkOf(s.proc[p].context).np != ForkOf(s.proc[q].context).np
  {
    hide CpusOk, WaitOk, PidsOk, SlotsOk;
    var t := s.proc;
    if p < q { assert OtherFork(ForkOf(t[p].context), ForkOf(t[q].context)); }
    if q < p { assert OtherFork(ForkOf(t[q].context), ForkOf(t[p].context)); }
  }

  lemma StepNoneLeaked(s: State, e: Step)
    requires Inv(s) && Enabled(s, e) && NoneLeaked(s.proc)
    ensures NoneLeaked(Do(s, e).proc)
  {
    hide Inv, Do, Fills;
    var t, t' := s.proc, Do(s, e).proc;
    forall i {:trigger t'[i]} | 0 <= i < |t'| && t'[i].state == EMBRYO ensures exists p :: Fills(t', p, i) {
      WasEmbryo(s, e, i);
      if t[i].state == EMBRYO {
        var p :| Fills(t, p, i);
        if e.Stack? || e.Copy? || e.Ready? { ForkGoesOn(s, e, p, i); } else { StillFills(s, e, p, i); }
      }
    }
  }

  /** In every run every slot is free, a process, or being filled by one process that is alive and in fork. */
  lemma {:induction false} RunNoneLeaked(ss: seq<State>, es: seq<Step>, k: nat)
    requires IsRun(ss, es) && k < |ss| && Start(ss[0])
    ensures NoneLeaked(ss[k].proc)
    ensures forall p: nat, q: nat, i: nat | Fills(ss[k].proc, p, i) && Fills(ss[k].proc, q, i) ::
              p == q && Live(ss[k].proc[p])
  {
    hide Inv, Do, NoneLeaked;
    RunInv(ss, es, k);
    forall p: nat, q: nat, i: nat | Fills(ss[k].proc, p, i) && Fills(ss[k].proc, q, i)
      ensures p == q && Live(ss[k].proc[p])
    {
      FillerLive(ss[k], p, i);
      OneFiller(ss[k], p, q, i);
    }
    if k == 0 {
      StartNone(ss[0]);
    } else {
      RunNoneLeaked(ss, es, k - 1);
      RunInv(ss, es, k - 1);
      assert Enabled(ss[k - 1], es[k - 1]);
      StepNoneLeaked(ss[k - 1], es[k - 1]);
    }
  }

  lemma OneFiller(s: State, p: nat, q: nat, i: nat)
    requires Inv(s) && Fills(s.proc, p, i) && Fills(s.proc, q, i)
    ensures p == q
  {
    hide Inv;
    if p != q { OneFills(s, p, q); }
  }

  lemma StartNone(s: State)
    requires Start(s)
    ensures NoneLeaked(s.proc)
  {
  }

  // ---- the lock is always given back ----

  /** The state after the steps, if each of them can be taken. */
  ghost function Reaches(s: State, es: seq<Step>): Option<State>
    decreases |es|
  {
    if es == [] then Some(s)
    else if !Enabled(s, es[0]) then None
    else Reaches(Do(s, es[0]), es[1..])
  }

  /** How many steps at most the holder is away from releasing the lock. */
  function Away(s: State, c: nat): (n: nat)
    requires c < |s.cpu|
    ensures 1 <= n <= 4
  {
    if s.cpu[c].Idle? || s.cpu[c].p >= |s.proc| then 1
    else
      var p := s.proc[s.cpu[c].p];
      if p.state != RUNNING then 2 else if p.context.Scanning? then 3 else if p.context.Waiting? then 4 else 1
  }

  lemma LockStep(s: State, c: nat) returns (e: Step)
    requires Inv(s) && s.lock == Some(c) && c < |s.cpu|
    ensures Enabled(s, e) && e.c == c && c < |Do(s, e).cpu|
    ensures Do(s, e).lock == None || (Do(s, e).lock == Some(c) && Away(Do(s, e), c) < Away(s, c))
  {
    hide SlotsOk, ForksOk, WaitOk, PidsOk;
    if s.cpu[c].Idle? {
      e := Open(c);
    } else {
      RunningOn(s, c);
      var p := s.proc[s.cpu[c].p];
      if p.state != RUNNING {
        e := Switch(c);
      } else if p.context.Scanning? {
        var r := ScanOf(s.proc, s.cpu[c].p);
        e := Pass(c, r);
      } else {
        e := Resume(c);
      }
    }
  }

  lemma RunningOn(s: State, c: nat)
    requires Inv(s) && c < |s.cpu| && s.cpu[c].On?
    ensures Running(s, c) && CpuOk(s.proc, s.cpu[c], s.lock == Some(c))
  {
  }

  /** A pass of wait over the table always finds something. */
  lemma ScanOf(t: seq<Proc>, cur: nat) returns (r: Scan)
    requires cur < |t|
    ensures IsScan(t, cur, r)
  {
    if i: nat :| i < |t| && ZombieChild(t[i], cur) {
      var k := FirstZombie(t, cur, i);
      r := Child(k);
    } else if t[cur].killed || forall j | 0 <= j < |t| :: t[j].parent != Some(cur) {
      r := Give;
    } else {
      r := Sleep;
    }
  }

  lemma {:induction false} FirstZombie(t: seq<Proc>, cur: nat, i: nat) returns (k: nat)
    requires i < |t| && ZombieChild(t[i], cur)
    ensures k <= i && ZombieChild(t[k], cur) && forall j | 0 <= j < k :: !ZombieChild(t[j], cur)
    decreases i
  {
    if j: nat :| j < i && ZombieChild(t[j], cur) { k := FirstZombie(t, cur, j); } else { k := i; }
  }

  /** In every state of a run the CPU that holds ptable.lock can go on by itself until it releases it. */
  lemma {:induction false} LockReleased(s: State, c: nat) returns (es: seq<Step>)
    requires Inv(s) && s.lock == Some(c) && c < |s.cpu|
    ensures |es| <= Away(s, c) && (forall k | 0 <= k < |es| :: es[k].c == c)
    ensures Reaches(s, es).Some? && Reaches(s, es).value.lock == None
    decreases Away(s, c)
  {
    hide Inv, Do, Enabled, Away;
    var e := LockStep(s, c);
    StepKept(s, e);
    if Do(s, e).lock == None {
      es := [e];
      assert es[1..] == [];
    } else {
      var more := LockReleased(Do(s, e), c);
      es := [e] + more;
      assert es[1..] == more;
    }
  }

  // ---- whole calls ----

  /** exit, yield, sleep and wait's sleep leave the CPU with the lock and a process that does not
      run, and so ready to switch to the scheduler. */
  lemma HandsOver(s: State, e: Step)
    requires Inv(s) && Enabled(s, e) && (e.Exit? || e.Yield? || e.Doze? || (e.Pass? && e.r == Sleep))
    ensures Enabled(Do(s, e), Switch(e.c)) && Do(s, e).cpu == s.cpu && Do(s, e).lock == Some(e.c)
    ensures e.Yield? ==> Do(s, e).proc[s.cpu[e.c].p].state == RUNNABLE
  {
    hide SlotsOk, ForksOk, WaitOk, PidsOk, Exited;
    if e.Exit? { ExitLeaves(s.proc, s.cpu[e.c].p, s.init, s.cpu[e.c].p); }
  }

  lemma ReadyToRun(s: State, q: nat)
    requires Inv(s) && q < |s.proc| && s.proc[q].state == RUNNABLE
    ensures Resumable(s.proc[q].context)
  {
    assert SlotOk(s.proc, s.init, q);
  }

  /** A turn of the scheduler of an idle CPU, undisturbed: the runnable process q runs, and has let
      go of the lock unless it goes on with its pass over the table. */
  lemma ScheduleWhole(s: State, c: nat, q: nat) returns (s1: State, s2: State, s': State)
    requires Inv(s) && s.lock.None? && c < |s.cpu| && s.cpu[c].Idle? && q < |s.proc| && s.proc[q].state == RUNNABLE
    ensures Enabled(s, Close(c)) && s1 == Do(s, Close(c)) && Enabled(s1, Pick(c, q)) && s2 == Do(s1, Pick(c, q))
    ensures Enabled(s2, Resume(c)) && s' == Do(s2, Resume(c))
    ensures s'.cpu == s.cpu[c := On(q)] && |s'.proc| == |s.proc| && s'.proc[q].state == RUNNING
    ensures s'.lock == if s.proc[q].context.Waiting? then Some(c) else None
    ensures s.proc[q].context.Sleeping? || s.proc[q].context.Waiting? ==> s'.proc[q].chan == NoChan
    ensures forall i | 0 <= i < |s.proc| && i != q :: s'.proc[i] == s.proc[i]
  {
    hide Inv;
    ReadyToRun(s, q);
    s1 := Do(s, Close(c));
    s2 := Do(s1, Pick(c, q));
    s' := Do(s2, Resume(c));
  }

  /** fork, undisturbed, when kalloc and copyuvm answer ok0 and ok1: the child can run, with the
      next pid and its parent, or its slot is free again; and the parent is back. */
  lemma ForkWhole(s: State, c: nat, i: nat, ok0: bool, ok1: bool) returns (s1: State, s2: State, s3: State, s': State)
    requires Inv(s) && Enabled(s, Alloc(c, Some(i)))
    ensures s1 == Do(s, Alloc(c, Some(i))) && Enabled(s1, Stack(c, ok0)) && s2 == Do(s1, Stack(c, ok0))
    ensures if !ok0 then s3 == s2 else Enabled(s2, Copy(c, ok1)) && s3 == Do(s2, Copy(c, ok1))
    ensures if !ok0 || !ok1 then s' == s3 else Enabled(s3, Ready(c)) && s' == Do(s3, Ready(c))
    ensures var p := s.cpu[c].p;
            && i != p && |s'.proc| == |s.proc| && s'.proc[p] == s.proc[p] && s'.nextpid == s.nextpid + 1
            && s'.lock == s.lock && s'.cpu == s.cpu
            && s'.proc[i].state == (if ok0 && ok1 then RUNNABLE else UNUSED)
            && s'.proc[i].kstack == (ok0 && ok1) && s'.proc[i].pid == s.nextpid
            && s'.proc[i].parent == (if ok0 && ok1 then Some(p) else None)
            && forall j | 0 <= j < |s.proc| && j != i && j != p :: s'.proc[j] == s.proc[j]
  {
    hide CpusOk, ForksOk, WaitOk, PidsOk;
    assert SlotOk(s.proc, s.init, i);
    s1 := Do(s, Alloc(c, Some(i)));
    s2 := Do(s1, Stack(c, ok0));
    s3 := if ok0 then Do(s2, Copy(c, ok1)) else s2;
    s' := if ok0 && ok1 then Do(s3, Ready(c)) else s3;
  }

  // ---- who runs ----

  /** A process that is said to run is on a CPU. */
  ghost predicate AllOn(s: State)
  {
    forall i {:trigger s.proc[i]} | 0 <= i < |s.proc| && s.proc[i].state == RUNNING :: exists c :: Has(s, c, i)
  }

  predicate Has(s: State, c: nat, i: nat) { c < |s.cpu| && s.cpu[c] == On(i) }

  lemma StepAllOn(s: State, e: Step)
    requires Inv(s) && Enabled(s, e) && AllOn(s)
    ensures AllOn(Do(s, e))
  {
    hide Inv, Do, Has;
    var s' := Do(s, e);
    forall i {:trigger s'.proc[i]} | 0 <= i < |s'.proc| && s'.proc[i].state == RUNNING
      ensures exists c :: Has(s', c, i)
    {
      WasRunning(s, e, i);
      if e.Pick? && i == e.q {
        assert Has(s', e.c, i);
      } else {
        var c :| Has(s, c, i);
        StillOn(s, e, c, i);
        assert Has(s', c, i);
      }
    }
  }

  lemma WasRunning(s: State, e: Step, i: nat)
    requires Inv(s) && Enabled(s, e) && i < |Do(s, e).proc| && Do(s, e).proc[i].state == RUNNING
    ensures |Do(s, e).proc| == |s.proc|
    ensures if e.Pick? && i == e.q then Has(Do(s, e), e.c, i) else s.proc[i].state == RUNNING
  {
    hide AnyZombieChild, Exited, ForksOk, WaitOk, PidsOk, SlotsOk, SlotOk;
    if e.Exit? { ExitLeaves(s.proc, s.cpu[e.c].p, s.init, i); }
  }

  lemma StillOn(s: State, e: Step, c: nat, i: nat)
    requires Inv(s) && Enabled(s, e) && Has(s, c, i) && i < |s.proc| && s.proc[i].state == RUNNING
    ensures Has(Do(s, e), c, i)
  {
    hide AnyZombieChild, Exited, ForksOk, WaitOk, PidsOk, SlotsOk, SlotOk;
  }

  /** In every state of a run a process runs exactly if one CPU is on it, and no other; or it is about to
      leave that CPU, which has the lock. */
  lemma {:induction false} RunAllOn(ss: seq<State>, es: seq<Step>, k: nat)
    requires IsRun(ss, es) && k < |ss| && Start(ss[0])
    ensures AllOn(ss[k])
    ensures forall c: nat, d: nat, i: nat | Has(ss[k], c, i) && Has(ss[k], d, i) :: c == d
    ensures forall c: nat, i: nat | Has(ss[k], c, i) && i < |ss[k].proc| ::
              ss[k].proc[i].state == RUNNING || ss[k].lock == Some(c)
  {
    hide Do, AllOn;
    RunInv(ss, es, k);
    if k == 0 {
      StartAllOn(ss[0]);
    } else {
      RunAllOn(ss, es, k - 1);
      RunInv(ss, es, k - 1);
      assert Enabled(ss[k - 1], es[k - 1]);
      StepAllOn(ss[k - 1], es[k - 1]);
    }
    OnePlace(ss[k]);
  }

  lemma StartAllOn(s: State)
    requires Start(s)
    ensures AllOn(s)
  {
  }

  lemma OnePlace(s: State)
    requires Inv(s)
    ensures forall c: nat, d: nat, i: nat | Has(s, c, i) && Has(s, d, i) :: c == d
    ensures forall c: nat, i: nat | Has(s, c, i) && i < |s.proc| :: s.proc[i].state == RUNNING || s.lock == Some(c)
  {
    hide SlotsOk, ForksOk, WaitOk, PidsOk;
    forall c: nat, i: nat | Has(s, c, i) && i < |s.proc| ensures s.proc[i].state == RUNNING || s.lock == Some(c) {
      assert CpuOk(s.proc, s.cpu[c], s.lock == Some(c));
    }
  }
}
