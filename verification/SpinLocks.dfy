/** spinlock.c: several CPUs, several locks, one instruction that matters at a time. */
module SpinLocks {
  import opened Common

  /** Where a CPU is in acquire or release: interrupts off (Pushed), known not to hold
      the lock (Checked), xchg returned 0 (Won); lk->cpu cleared (Cleared), lk->locked
      cleared (Freed). */
  datatype Pc = Out | Pushed(l: nat) | Checked(l: nat) | Won(l: nat) | Cleared(l: nat) | Freed

  /** FL_IF, ncli and intena of a CPU. held are the locks between acquire's return and
      release's start; nest counts pushcli calls of others; saved is FL_IF as it was
      when ncli was last 0. */
  datatype Cpu = Cpu(flag: bool, ncli: int, intena: bool, pc: Pc, held: set<nat>, nest: nat, saved: bool)

  /** owner is the CPU whose xchg succeeded last, until it clears the word again. */
  datatype Lock = Lock(locked: bool, cpu: Option<nat>, owner: Option<nat>)

  datatype State = State(cpus: seq<Cpu>, locks: seq<Lock>)

  function Pushcli(c: Cpu): Cpu
  {
    c.(flag := false, intena := if c.ncli == 0 then c.flag else c.intena, ncli := c.ncli + 1,
       saved := if c.ncli == 0 then c.flag else c.saved)
  }

  predicate PopcliPanics(c: Cpu) { c.flag || c.ncli - 1 < 0 }

  function Popcli(c: Cpu): Cpu
  {
    c.(ncli := c.ncli - 1, flag := c.flag || (c.ncli - 1 == 0 && c.intena))
  }

  predicate Holding(k: Lock, c: nat) { k.locked && k.cpu == Some(c) }

  datatype Step =
    | Push(c: nat)                           // pushcli outside acquire
    | Pop(c: nat)                            // its popcli
    | SetFlag(c: nat, on: bool)              // sti, cli, or a trap, with no pushcli pending
    | Acquire(c: nat, l: nat)                // acquire's pushcli
    | Check(c: nat)                          // its holding test
    | Xchg(c: nat)                           // one try
    | Record(c: nat)                         // the lock's owner is recorded
    | Release(c: nat, l: nat)                // release's holding test, and the record erased
    | Unlock(c: nat)                         // the lock word is cleared
    | Leave(c: nat)                          // release's popcli

  predicate Enabled(s: State, e: Step)
  {
    e.c < |s.cpus| &&
    var c := s.cpus[e.c];
    match e
    case Push(_) => c.pc.Out?
    case Pop(_) => c.pc.Out? && c.nest > 0
    case SetFlag(_, _) => c.pc.Out? && c.ncli == 0
    case Acquire(_, l) => c.pc.Out? && l < |s.locks|
    case Check(_) => c.pc.Pushed? && c.pc.l < |s.locks|
    case Xchg(_) => c.pc.Checked? && c.pc.l < |s.locks|
    case Record(_) => c.pc.Won? && c.pc.l < |s.locks|
    case Release(_, l) => c.pc.Out? && l < |s.locks|
    case Unlock(_) => c.pc.Cleared? && c.pc.l < |s.locks|
    case Leave(_) => c.pc.Freed?
  }

  /** The panics: acquire of a lock this CPU holds, release of one it does not, popcli unbalanced. */
  predicate Panics(s: State, e: Step)
    requires Enabled(s, e)
  {
    var c := s.cpus[e.c];
    match e
    case Check(i) => Holding(s.locks[c.pc.l], i)
    case Release(i, l) => !Holding(s.locks[l], i)
    case Pop(_) => PopcliPanics(c)
    case Leave(_) => PopcliPanics(c)
    case _ => false
  }

  function Do(s: State, e: Step): State
    requires Enabled(s, e) && !Panics(s, e)
  {
    var c := s.cpus[e.c];
    match e
    case Push(i) => s.(cpus := s.cpus[i := Pushcli(c).(nest := c.nest + 1)])
    case Pop(i) => s.(cpus := s.cpus[i := Popcli(c).(nest := c.nest - 1)])
    case SetFlag(i, on) => s.(cpus := s.cpus[i := c.(flag := on)])
    case Acquire(i, l) => s.(cpus := s.cpus[i := Pushcli(c).(pc := Pushed(l))])
    case Check(i) => s.(cpus := s.cpus[i := c.(pc := Checked(c.pc.l))])
    case Xchg(i) =>
      var l := c.pc.l;
      if s.locks[l].locked then s
      else State(s.cpus[i := c.(pc := Won(l))], s.locks[l := s.locks[l].(locked := true, owner := Some(i))])
    case Record(i) =>
      var l := c.pc.l;
      State(s.cpus[i := c.(pc := Out, held := c.held + {l})], s.locks[l := s.locks[l].(cpu := Some(i))])
    case Release(i, l) =>
      State(s.cpus[i := c.(pc := Cleared(l), held := c.held - {l})], s.locks[l := s.locks[l].(cpu := None)])
    case Unlock(i) =>
      var l := c.pc.l;
      State(s.cpus[i := c.(pc := Freed)], s.locks[l := s.locks[l].(locked := false, owner := None)])
    case Leave(i) => s.(cpus := s.cpus[i := Popcli(c).(pc := Out)])
  }

  /** The locks a CPU has won and not yet given up. */
  predicate Owns(c: Cpu, l: nat)
  {
    l in c.held || c.pc == Won(l) || c.pc == Cleared(l)
  }

  /** Every pushcli is accounted for, and while there is one interrupts are off and
      intena is what they were. */
  predicate CpuOk(c: Cpu, n: nat)
  {
    && c.ncli == c.nest + |c.held| + (if c.pc.Out? then 0 else 1)
    && (c.ncli > 0 ==> !c.flag && c.intena == c.saved)
    && (c.pc.Pushed? || c.pc.Checked? || c.pc.Won? || c.pc.Cleared? ==> c.pc.l < n)
    && (c.pc.Checked? || c.pc.Won? || c.pc.Cleared? ==> c.pc.l !in c.held)
    && forall l | l in c.held :: l < n
  }

  ghost predicate Inv(s: State)
  {
    && (forall c {:trigger s.cpus[c]} | 0 <= c < |s.cpus| :: CpuOk(s.cpus[c], |s.locks|))
    && (forall l {:trigger LockOk(s, l)} {:trigger s.locks[l]} | 0 <= l < |s.locks| :: LockOk(s, l))
    && (forall c: nat, l: nat
          {:trigger PairOk(s, c, l)} {:trigger Owns(s.cpus[c], l)} {:trigger s.cpus[c], s.locks[l]} |
          c < |s.cpus| && l < |s.locks| :: PairOk(s, c, l))
  }

  predicate LockOk(s: State, l: nat)
    requires l < |s.locks|
  {
    && (s.locks[l].locked <==> s.locks[l].owner.Some?)
    && (s.locks[l].owner.Some? ==> s.locks[l].owner.value < |s.cpus|)
    && (s.locks[l].cpu.Some? ==> s.locks[l].cpu == s.locks[l].owner)
  }

  /** A lock and a CPU know the same of one another. */
  predicate PairOk(s: State, c: nat, l: nat)
    requires c < |s.cpus| && l < |s.locks|
  {
    && (s.locks[l].owner == Some(c) <==> Owns(s.cpus[c], l))
    && (s.locks[l].cpu == Some(c) <==> l in s.cpus[c].held)
  }

  lemma CpuKept(s: State, e: Step)
    requires Inv(s) && Enabled(s, e) && !Panics(s, e)
    ensures var s' := Do(s, e);
            && |s'.cpus| == |s.cpus| && |s'.locks| == |s.locks| && CpuOk(s'.cpus[e.c], |s'.locks|)
            && forall c | 0 <= c < |s.cpus| && c != e.c :: s'.cpus[c] == s.cpus[c]
  {
    hide PairOk, LockOk;
    CpuStep(s, e);
  }

  lemma CpuStep(s: State, e: Step)
    requires Inv(s) && Enabled(s, e) && !Panics(s, e)
    ensures e.c < |Do(s, e).cpus| && CpuOk(Do(s, e).cpus[e.c], |Do(s, e).locks|)
  {
    hide Inv, Holding, CpuOk, Pushcli, Popcli;
    var c, n := s.cpus[e.c], |s.locks|;
    CpuIs(s, e.c);
    match e
    case Push(_) => CpuPushes(c, n, 0);
    case Acquire(_, l) => CpuPushes(c, n, l);
    case Pop(_) => CpuPops(c, n);
    case Leave(_) => CpuPops(c, n);
    case SetFlag(_, on) => CpuFlag(c, n, on);
    case Check(i) => HoldingExact(s, i, c.pc.l); CpuMoves(c, n);
    case Xchg(_) => CpuMoves(c, n);
    case Record(_) => CpuRecords(c, n);
    case Release(i, l) => HoldingExact(s, i, l); CpuReleases(c, n, l);
    case Unlock(_) => CpuMoves(c, n);
  }

  lemma CpuPushes(c: Cpu, n: nat, l: nat)
    requires CpuOk(c, n) && c.pc.Out?
    ensures CpuOk(Pushcli(c).(nest := c.nest + 1), n)
    ensures l < n ==> CpuOk(Pushcli(c).(pc := Pushed(l)), n)
  {
  }

  lemma CpuPops(c: Cpu, n: nat)
    requires CpuOk(c, n)
    ensures c.pc.Out? && c.nest > 0 ==> CpuOk(Popcli(c).(nest := c.nest - 1), n)
    ensures c.pc.Freed? ==> CpuOk(Popcli(c).(pc := Out), n)
  {
  }

  lemma CpuFlag(c: Cpu, n: nat, on: bool)
    requires CpuOk(c, n) && c.ncli == 0
    ensures CpuOk(c.(flag := on), n)
  {
  }

  lemma CpuMoves(c: Cpu, n: nat)
    requires CpuOk(c, n)
    ensures c.pc.Pushed? && c.pc.l !in c.held ==> CpuOk(c.(pc := Checked(c.pc.l)), n)
    ensures c.pc.Checked? ==> CpuOk(c.(pc := Won(c.pc.l)), n)
    ensures c.pc.Cleared? ==> CpuOk(c.(pc := Freed), n)
  {
  }

  lemma CpuIs(s: State, c: nat)
    requires Inv(s) && c < |s.cpus|
    ensures CpuOk(s.cpus[c], |s.locks|)
  {
  }

  lemma CpuRecords(c: Cpu, n: nat)
    requires CpuOk(c, n) && c.pc.Won?
    ensures CpuOk(c.(pc := Out, held := c.held + {c.pc.l}), n)
  {
    OneMore(c.held, c.pc.l);
  }

  lemma CpuReleases(c: Cpu, n: nat, l: nat)
    requires CpuOk(c, n) && c.pc.Out? && l in c.held
    ensures CpuOk(c.(pc := Cleared(l), held := c.held - {l}), n)
  {
    OneLess(c.held, l);
  }

  lemma OneMore(x: set<nat>, l: nat)
    ensures l !in x ==> |x + {l}| == |x| + 1
  {
  }

  lemma OneLess(x: set<nat>, l: nat)
    ensures l in x ==> |x - {l}| == |x| - 1
  {
  }

  lemma LockKept(s: State, e: Step, l: nat)
    requires Inv(s) && Enabled(s, e) && !Panics(s, e) && l < |s.locks|
    ensures l < |Do(s, e).locks| && LockOk(Do(s, e), l)
  {
    assert LockOk(s, l) && PairOk(s, e.c, l) && CpuOk(s.cpus[e.c], |s.locks|);
  }

  predicate IsOr(o: Option<nat>, c: nat) { o.None? || o == Some(c) }

  /** The step of one CPU leaves the locks of the others alone. */
  lemma OthersLocks(s: State, e: Step, l: nat)
    requires Inv(s) && Enabled(s, e) && !Panics(s, e) && l < |s.locks|
    ensures l < |Do(s, e).locks|
    ensures var k, k' := s.locks[l], Do(s, e).locks[l];
            && (k'.owner == k.owner || (IsOr(k.owner, e.c) && IsOr(k'.owner, e.c)))
            && (k'.cpu == k.cpu || (IsOr(k.cpu, e.c) && IsOr(k'.cpu, e.c)))
  {
    hide CpuOk;
    assert LockOk(s, l) && PairOk(s, e.c, l);
  }

  lemma PairOwn(s: State, e: Step, l: nat)
    requires Inv(s) && Enabled(s, e) && !Panics(s, e) && l < |s.locks|
    ensures e.c < |Do(s, e).cpus| && l < |Do(s, e).locks| && PairOk(Do(s, e), e.c, l)
  {
    assert LockOk(s, l) && PairOk(s, e.c, l) && CpuOk(s.cpus[e.c], |s.locks|);
  }

  lemma PairKept(s: State, e: Step, c: nat, l: nat)
    requires Inv(s) && Enabled(s, e) && !Panics(s, e) && c < |s.cpus| && l < |s.locks|
    ensures c < |Do(s, e).cpus| && l < |Do(s, e).locks| && PairOk(Do(s, e), c, l)
  {
    hide Do, Enabled, Panics, CpuOk, Owns;
    PairOwn(s, e, l);
    OthersLocks(s, e, l);
    CpuKept(s, e);
    assert PairOk(s, c, l);
  }

  lemma StepInv(s: State, e: Step)
    requires Inv(s) && Enabled(s, e) && !Panics(s, e)
    ensures Inv(Do(s, e))
  {
    hide Do, Enabled, Panics, CpuOk, Owns;
    CpuKept(s, e);
    var s' := Do(s, e);
    forall l | 0 <= l < |s'.locks| ensures LockOk(s', l) { LockKept(s, e, l); }
    forall c: nat, l: nat | c < |s'.cpus| && l < |s'.locks| ensures PairOk(s', c, l) { PairKept(s, e, c, l); }
  }

  /** holding(lk) is true on a CPU exactly when that CPU has the lock. */
  lemma HoldingExact(s: State, c: nat, l: nat)
    requires Inv(s) && c < |s.cpus| && l < |s.locks|
    ensures Holding(s.locks[l], c) <==> l in s.cpus[c].held
  {
    assert s.locks[l].owner == Some(c) <==> Owns(s.cpus[c], l);
  }

  /** acquire panics exactly on a lock this CPU already has, release exactly on one it has
      not, and the popclis never. */
  lemma PanicsExactly(s: State, e: Step)
    requires Inv(s) && Enabled(s, e)
    ensures Panics(s, e) <==> match e
                              case Check(c) => s.cpus[c].pc.l in s.cpus[c].held
                              case Release(c, l) => l !in s.cpus[c].held
                              case _ => false
  {
    assert CpuOk(s.cpus[e.c], |s.locks|);
    match e
    case Check(c) => HoldingExact(s, c, s.cpus[c].pc.l);
    case Release(c, l) => HoldingExact(s, c, l);
    case _ =>
  }

  /** Mutual exclusion, from the xchg to the clearing of the word. */
  lemma Exclusive(s: State, c: nat, d: nat, l: nat)
    requires Inv(s) && c < |s.cpus| && d < |s.cpus| && l < |s.locks| && Owns(s.cpus[c], l) && Owns(s.cpus[d], l)
    ensures c == d && s.locks[l].locked
  {
  }

  /** A CPU with a lock has interrupts off: no interrupt handler finds its own CPU holding anything. */
  lemma HolderMasked(s: State, c: nat)
    requires Inv(s) && c < |s.cpus|
    ensures s.cpus[c].held != {} || !s.cpus[c].pc.Out? ==> s.cpus[c].ncli >= 1 && !s.cpus[c].flag
    ensures s.cpus[c].flag ==> s.cpus[c].held == {} && s.cpus[c].pc.Out? && s.cpus[c].nest == 0
  {
    assert CpuOk(s.cpus[c], |s.locks|);
  }

  /** The popcli that matches the outermost pushcli puts the interrupt flag back. */
  lemma PopRestores(s: State, e: Step)
    requires Inv(s) && Enabled(s, e) && (e.Pop? || e.Leave?)
    ensures !Panics(s, e)
    ensures var c := Do(s, e).cpus[e.c]; c.flag == (c.ncli == 0 && s.cpus[e.c].saved)
  {
    assert CpuOk(s.cpus[e.c], |s.locks|);
  }

  ghost predicate Start(s: State)
  {
    && (forall c {:trigger s.cpus[c]} | 0 <= c < |s.cpus| :: s.cpus[c] == Cpu(s.cpus[c].flag, 0, s.cpus[c].intena,
        Out, {}, 0, s.cpus[c].saved))
    && (forall l {:trigger s.locks[l]} | 0 <= l < |s.locks| :: s.locks[l] == Lock(false, None, None))
  }

  ghost predicate IsRun(ss: seq<State>, es: seq<Step>)
  {
    && |ss| == |es| + 1 && Start(ss[0])
    && forall k {:trigger es[k]} | 0 <= k < |es| :: Enabled(ss[k], es[k]) && !Panics(ss[k], es[k]) &&
        ss[k + 1] == Do(ss[k], es[k])
  }

  lemma {:induction false} RunInv(ss: seq<State>, es: seq<Step>, k: nat)
    requires IsRun(ss, es) && k < |ss|
    ensures Inv(ss[k])
  {
    if k > 0 {
      RunInv(ss, es, k - 1);
      assert Enabled(ss[k - 1], es[k - 1]);
      StepInv(ss[k - 1], es[k - 1]);
    }
  }

  /** In every run at most one CPU is between acquire and release of a lock. */
  lemma RunExclusive(ss: seq<State>, es: seq<Step>, k: nat, c: nat, d: nat, l: nat)
    requires IsRun(ss, es) && k < |ss| && c < |ss[k].cpus| && d < |ss[k].cpus| && l < |ss[k].locks|
    requires Owns(ss[k].cpus[c], l) && Owns(ss[k].cpus[d], l)
    ensures c == d
  {
    RunInv(ss, es, k);
    Exclusive(ss[k], c, d, l);
  }

  // ---- whole calls ----

  /** acquire of a free lock, undisturbed: the CPU has the lock, with interrupts off and
      one pushcli more; no other CPU and no other lock changes. */
  lemma AcquireWhole(s: State, c: nat, l: nat) returns (s1: State, s2: State, s3: State, s': State)
    requires Inv(s) && c < |s.cpus| && l < |s.locks| && s.cpus[c].pc.Out? && !s.locks[l].locked
    ensures Enabled(s, Acquire(c, l)) && s1 == Do(s, Acquire(c, l))
    ensures Enabled(s1, Check(c)) && !Panics(s1, Check(c)) && s2 == Do(s1, Check(c))
    ensures Enabled(s2, Xchg(c)) && s3 == Do(s2, Xchg(c)) && Enabled(s3, Record(c)) && s' == Do(s3, Record(c))
    ensures |s'.cpus| == |s.cpus| && Holding(s'.locks[l], c) && s'.locks == s.locks[l := s'.locks[l]]
    ensures forall d | 0 <= d < |s.cpus| && d != c :: s'.cpus[d] == s.cpus[d]
    ensures var a, b := s.cpus[c], s'.cpus[c];
            && b.pc.Out? && b.held == a.held + {l} && !b.flag && b.ncli == a.ncli + 1 && b.nest == a.nest
            && (a.ncli == 0 ==> b.intena == a.flag)
  {
    s1 := Do(s, Acquire(c, l));
    assert LockOk(s, l);
    s2 := Do(s1, Check(c));
    s3 := Do(s2, Xchg(c));
    s' := Do(s3, Record(c));
  }

  /** A try on a taken lock changes nothing. */
  lemma XchgSpins(s: State, c: nat)
    requires Enabled(s, Xchg(c)) && s.locks[s.cpus[c].pc.l].locked
    ensures Do(s, Xchg(c)) == s
  {
  }

  /** release, undisturbed: the lock is free, and interrupts are on again if this was the outermost
      lock and they were on before it. */
  lemma ReleaseWhole(s: State, c: nat, l: nat) returns (s1: State, s2: State, s': State)
    requires Inv(s) && c < |s.cpus| && l < |s.locks| && s.cpus[c].pc.Out? && l in s.cpus[c].held
    ensures Enabled(s, Release(c, l)) && !Panics(s, Release(c, l)) && s1 == Do(s, Release(c, l))
    ensures Enabled(s1, Unlock(c)) && s2 == Do(s1, Unlock(c))
    ensures Enabled(s2, Leave(c)) && !Panics(s2, Leave(c)) && s' == Do(s2, Leave(c))
    ensures |s'.cpus| == |s.cpus| && s'.locks == s.locks[l := Lock(false, None, None)]
    ensures forall d | 0 <= d < |s.cpus| && d != c :: s'.cpus[d] == s.cpus[d]
    ensures var a, b := s.cpus[c], s'.cpus[c];
            && b.pc.Out? && b.held == a.held - {l} && b.ncli == a.ncli - 1 && b.nest == a.nest
            && b.flag == (b.ncli == 0 && a.saved)
  {
    HoldingExact(s, c, l);
    s1 := Do(s, Release(c, l));
    StepInv(s, Release(c, l));
    s2 := Do(s1, Unlock(c));
    StepInv(s1, Unlock(c));
    PanicsExactly(s2, Leave(c));
    PopRestores(s2, Leave(c));
    s' := Do(s2, Leave(c));
  }

  /** pushcli and its popcli leave the interrupt flag and ncli as they were. */
  lemma PushPopWhole(s: State, c: nat) returns (s1: State, s': State)
    requires Inv(s) && c < |s.cpus| && s.cpus[c].pc.Out?
    ensures Enabled(s, Push(c)) && s1 == Do(s, Push(c)) && !s1.cpus[c].flag && s1.cpus[c].ncli == s.cpus[c].ncli + 1
    ensures Enabled(s1, Pop(c)) && !Panics(s1, Pop(c)) && s' == Do(s1, Pop(c))
    ensures |s'.cpus| == |s.cpus| && s'.locks == s.locks
    ensures var a, b := s.cpus[c], s'.cpus[c];
            b.flag == a.flag && b.ncli == a.ncli && b.nest == a.nest && b.held == a.held && b.pc == a.pc
  {
    CpuIs(s, c);
    s1 := Do(s, Push(c));
    s' := Do(s1, Pop(c));
  }
}
