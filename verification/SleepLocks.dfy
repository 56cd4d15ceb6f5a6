/** sleeplock.c over sleep and wakeup of proc.c: one sleep-lock, any number of processes,
    and the two spin locks (lk->lk and ptable.lock) that their steps take in turn. */
module SleepLocks {
  import opened Common

  /** Where a process is. Acquiresleep: spinning for lk->lk (Want), in the while loop
      (Test), in sleep spinning for ptable.lock (Dozing), with it (Both), lk->lk released
      (Alone), switched away (Asleep), made runnable (Woken). Then it has the sleep-lock
      (Holder). Releasesleep: spinning for lk->lk (Giving), the lock cleared and spinning
      for ptable.lock in wakeup (Waking), with it (Calling), done with it (Closing). */
  datatype Pc =
    | Out | Want | Test | Dozing | Both | Alone | Asleep | Woken
    | Holder | Giving | Waking | Calling | Closing

  /** guard is the process with lk->lk, table the one with ptable.lock. */
  datatype State = State(pc: seq<Pc>, pids: seq<nat>, locked: bool, pid: nat, guard: Option<nat>, table: Option<nat>)

  datatype Step =
    | Begin(t: nat)                          // acquiresleep is called
    | Lock(t: nat)                           // the guard is taken, in either function or at the end of sleep
    | Look(t: nat)                           // the loop's test: take the lock or go to sleep
    | Table(t: nat)                          // acquire(&ptable.lock) in sleep or wakeup
    | Drop(t: nat)                           // release(lk) in sleep
    | Park(t: nat)                           // SLEEPING, sched; the scheduler releases ptable.lock
    | Wake(t: nat)                           // wakeup1 and release(&ptable.lock)
    | Yield(t: nat)                          // the holder calls releasesleep
    | Clear(t: nat)                          // locked = 0, pid = 0
    | Close(t: nat)                          // the guard is released

  predicate Enabled(s: State, e: Step)
  {
    e.t < |s.pc| == |s.pids| &&
    match e
    case Begin(t) => s.pc[t] == Out
    case Lock(t) => (s.pc[t] == Want || s.pc[t] == Woken || s.pc[t] == Giving) && s.guard.None?
    case Look(t) => s.pc[t] == Test
    case Table(t) => (s.pc[t] == Dozing || s.pc[t] == Waking) && s.table.None?
    case Drop(t) => s.pc[t] == Both
    case Park(t) => s.pc[t] == Alone
    case Wake(t) => s.pc[t] == Calling
    case Yield(t) => s.pc[t] == Holder
    case Clear(t) => s.pc[t] == Giving && s.guard == Some(t)
    case Close(t) => s.pc[t] == Closing
  }

  function Woke(pc: seq<Pc>): (r: seq<Pc>)
    ensures |r| == |pc|
  {
    seq(|pc|, t requires 0 <= t < |pc| => if pc[t] == Asleep then Woken else pc[t])
  }

  function Do(s: State, e: Step): State
    requires Enabled(s, e)
  {
    match e
    case Begin(t) => s.(pc := s.pc[t := Want])
    case Lock(t) => s.(pc := if s.pc[t] == Giving then s.pc else s.pc[t := Test], guard := Some(t))
    case Look(t) =>
      if s.locked then s.(pc := s.pc[t := Dozing])
      else s.(pc := s.pc[t := Holder], locked := true, pid := s.pids[t], guard := None)
    case Table(t) => s.(pc := s.pc[t := if s.pc[t] == Dozing then Both else Calling], table := Some(t))
    case Drop(t) => s.(pc := s.pc[t := Alone], guard := None)
    case Park(t) => s.(pc := s.pc[t := Asleep], table := None)
    case Wake(t) => s.(pc := Woke(s.pc)[t := Closing], table := None)
    case Yield(t) => s.(pc := s.pc[t := Giving])
    case Clear(t) => s.(pc := s.pc[t := Waking], locked := false, pid := 0)
    case Close(t) => s.(pc := s.pc[t := Out], guard := None)
  }

  /** A process with the sleep-lock, from taking it until clearing it. */
  predicate Has(p: Pc) { p == Holder || p == Giving }

  /** A process between clearing the lock and waking the others. */
  predicate InFlight(p: Pc) { p == Waking || p == Calling }

  predicate Guarding(p: Pc) { p == Test || p == Dozing || p == Both || p == Waking || p == Calling || p == Closing }

  predicate Tabling(p: Pc) { p == Both || p == Alone || p == Calling }

  predicate ProcessOk(s: State, t: nat)
    requires t < |s.pc| == |s.pids|
  {
    && 0 < s.pids[t]
    && (Guarding(s.pc[t]) ==> s.guard == Some(t))
    && (s.guard == Some(t) ==> Guarding(s.pc[t]) || s.pc[t] == Giving)
    && (Tabling(s.pc[t]) <==> s.table == Some(t))
    && (Has(s.pc[t]) ==> s.locked && s.pid == s.pids[t])
    && (s.pc[t] == Dozing || s.pc[t] == Both ==> s.locked)
  }

  ghost predicate Inv(s: State)
  {
    && |s.pids| == |s.pc|
    && (forall t | 0 <= t < |s.pc| :: ProcessOk(s, t))
    && (forall t, u {:trigger s.pids[t], s.pids[u]} | 0 <= t < u < |s.pc| :: s.pids[t] != s.pids[u])
    && (s.locked ==> SomeHas(s.pc)) && (!s.locked ==> s.pid == 0)
    && (!s.locked && SomeOff(s.pc) ==> SomeInFlight(s.pc))
  }

  predicate SomeHas(pc: seq<Pc>) { exists t | 0 <= t < |pc| :: Has(pc[t]) }

  /** A process asleep, or past the point of no return to it. */
  predicate SomeOff(pc: seq<Pc>) { exists t | 0 <= t < |pc| :: pc[t] == Asleep || pc[t] == Alone }

  predicate SomeInFlight(pc: seq<Pc>) { exists t | 0 <= t < |pc| :: InFlight(pc[t]) }

  lemma ProcessKept(s: State, e: Step, t: nat)
    requires Inv(s) && Enabled(s, e) && t < |s.pc|
    ensures ProcessOk(Do(s, e), t)
  {
    hide SomeHas, SomeOff, SomeInFlight, ProcessOk;
    assert ProcessOk(s, t) && ProcessOk(s, e.t);
    if t == e.t {
      OwnStep(s, e);
    } else {
      assert s.pids[t] != s.pids[e.t];
      OthersStep(s, e, t);
    }
  }

  lemma OwnStep(s: State, e: Step)
    requires Enabled(s, e) && ProcessOk(s, e.t) && (!s.locked ==> s.pid == 0)
    ensures ProcessOk(Do(s, e), e.t)
  {
  }

  lemma OthersStep(s: State, e: Step, t: nat)
    requires Enabled(s, e) && t < |s.pc| && t != e.t && ProcessOk(s, t) && ProcessOk(s, e.t) && s.pids[t] != s.pids[e.t]
    ensures ProcessOk(Do(s, e), t)
  {
  }

  lemma OwnerKept(s: State, e: Step)
    requires Inv(s) && Enabled(s, e)
    ensures Do(s, e).locked ==> SomeHas(Do(s, e).pc)
    ensures !Do(s, e).locked ==> Do(s, e).pid == 0
  {
    hide SomeOff, SomeInFlight, ProcessOk;
    var s' := Do(s, e);
    if s.locked {
      var u :| 0 <= u < |s.pc| && Has(s.pc[u]);
      assert s'.locked ==> Has(s'.pc[u]);
    } else if s'.locked {
      assert Has(s'.pc[e.t]);
    }
  }

  lemma FlightKept(s: State, e: Step)
    requires Inv(s) && Enabled(s, e)
    ensures !Do(s, e).locked && SomeOff(Do(s, e).pc) ==> SomeInFlight(Do(s, e).pc)
  {
    hide SomeHas;
    var s', t := Do(s, e), e.t;
    assert ProcessOk(s, t);
    if e.Clear? {
      assert InFlight(s'.pc[t]);
    } else if e.Wake? {
      forall v | 0 <= v < |s.pc| ensures s'.pc[v] != Asleep && s'.pc[v] != Alone { assert ProcessOk(s, v); }
    } else if !s'.locked && SomeOff(s'.pc) {
      var v :| 0 <= v < |s.pc| && (s'.pc[v] == Asleep || s'.pc[v] == Alone);
      assert s.pc[v] == Asleep || s.pc[v] == Alone;
      var u :| 0 <= u < |s.pc| && InFlight(s.pc[u]);
      assert InFlight(s'.pc[u]);
    }
  }

  lemma StepInv(s: State, e: Step)
    requires Inv(s) && Enabled(s, e)
    ensures Inv(Do(s, e))
  {
    hide SomeHas, SomeOff, SomeInFlight, ProcessOk;
    forall t | 0 <= t < |s.pc| ensures ProcessOk(Do(s, e), t) {
      ProcessKept(s, e, t);
    }
    OwnerKept(s, e);
    FlightKept(s, e);
  }

  /** The sleep-lock has one owner, and lk->pid names it. */
  lemma Exclusive(s: State, t: nat, u: nat)
    requires Inv(s) && t < |s.pc| && u < |s.pc| && Has(s.pc[t]) && Has(s.pc[u])
    ensures t == u && s.locked
  {
    assert ProcessOk(s, t) && ProcessOk(s, u);
    assert s.pids[t] == s.pids[u];
  }

  /** holdingsleep is true for the owner and nobody else. */
  lemma HoldingsleepExact(s: State, t: nat)
    requires Inv(s) && t < |s.pc|
    ensures s.locked && s.pid == s.pids[t] <==> Has(s.pc[t])
  {
    assert ProcessOk(s, t);
    if s.locked {
      var u :| 0 <= u < |s.pc| && Has(s.pc[u]);
      assert ProcessOk(s, u);
      if s.pid == s.pids[t] { assert s.pids[u] == s.pids[t]; }
    }
  }

  /** Nobody is left asleep: with the lock free, a sleeper implies a wakeup that will reach it. */
  lemma WakeupInFlight(s: State, t: nat)
    requires Inv(s) && t < |s.pc| && s.pc[t] == Asleep && !s.locked
    ensures exists u | 0 <= u < |s.pc| :: InFlight(s.pc[u])
    ensures forall u | 0 <= u < |s.pc| && s.pc[u] == Calling :: Do(s, Wake(u)).pc[t] == Woken
  {
    assert SomeOff(s.pc) && SomeInFlight(s.pc);
  }

  ghost predicate IsRun(ss: seq<State>, es: seq<Step>)
  {
    && |ss| == |es| + 1
    && |ss[0].pc| == |ss[0].pids| && (forall t {:trigger ss[0].pc[t]} | 0 <= t < |ss[0].pc| :: ss[0].pc[t] == Out)
    && (forall t {:trigger ss[0].pids[t]} | 0 <= t < |ss[0].pids| :: 0 < ss[0].pids[t])
    && (forall t, u {:trigger ss[0].pids[t],
        ss[0].pids[u]} | 0 <= t < u < |ss[0].pids| :: ss[0].pids[t] != ss[0].pids[u])
    && !ss[0].locked && ss[0].pid == 0 && ss[0].guard.None? && ss[0].table.None?
    && forall k {:trigger es[k]} | 0 <= k < |es| :: Enabled(ss[k], es[k]) && ss[k + 1] == Do(ss[k], es[k])
  }

  /** In every run the lock has at most one owner, and no sleeper is forgotten. */
  lemma {:induction false} RunSafe(ss: seq<State>, es: seq<Step>, k: nat)
    requires IsRun(ss, es) && k < |ss|
    ensures Inv(ss[k])
  {
    if k > 0 {
      RunSafe(ss, es, k - 1);
      assert Enabled(ss[k - 1], es[k - 1]);
      StepInv(ss[k - 1], es[k - 1]);
    }
  }

  // ---- whole calls ----

  /** acquiresleep of a free lock, undisturbed: the caller owns it. */
  lemma AcquireWhole(s: State, t: nat) returns (s1: State, s2: State, s': State)
    requires Inv(s) && t < |s.pc| && s.pc[t] == Out && s.guard.None? && !s.locked
    ensures Enabled(s, Begin(t)) && s1 == Do(s, Begin(t)) && Enabled(s1, Lock(t)) && s2 == Do(s1, Lock(t))
    ensures Enabled(s2, Look(t)) && s' == Do(s2, Look(t))
    ensures s' == s.(pc := s.pc[t := Holder], locked := true, pid := s.pids[t])
  {
    s1 := Do(s, Begin(t));
    s2 := Do(s1, Lock(t));
    s' := Do(s2, Look(t));
  }

  /** Of a taken one: the caller ends up asleep, and both spin locks are free. */
  lemma SleepWhole(s: State, t: nat) returns (s1: State, s2: State, s3: State, s4: State, s5: State, s': State)
    requires Inv(s) && t < |s.pc| && s.pc[t] == Out && s.guard.None? && s.table.None? && s.locked
    ensures Enabled(s, Begin(t)) && s1 == Do(s, Begin(t)) && Enabled(s1, Lock(t)) && s2 == Do(s1, Lock(t))
    ensures Enabled(s2, Look(t)) && s3 == Do(s2, Look(t)) && Enabled(s3, Table(t)) && s4 == Do(s3, Table(t))
    ensures Enabled(s4, Drop(t)) && s5 == Do(s4, Drop(t)) && Enabled(s5, Park(t)) && s' == Do(s5, Park(t))
    ensures s' == s.(pc := s.pc[t := Asleep])
  {
    s1 := Do(s, Begin(t));
    s2 := Do(s1, Lock(t));
    s3 := Do(s2, Look(t));
    s4 := Do(s3, Table(t));
    s5 := Do(s4, Drop(t));
    s' := Do(s5, Park(t));
  }

  /** releasesleep, undisturbed: the lock is free and nobody is asleep on it. */
  lemma ReleaseWhole(s: State, t: nat) returns (s1: State, s2: State, s3: State, s4: State, s5: State, s': State)
    requires Inv(s) && t < |s.pc| && s.pc[t] == Holder && s.guard.None? && s.table.None?
    ensures Enabled(s, Yield(t)) && s1 == Do(s, Yield(t)) && Enabled(s1, Lock(t)) && s2 == Do(s1, Lock(t))
    ensures Enabled(s2, Clear(t)) && s3 == Do(s2, Clear(t)) && Enabled(s3, Table(t)) && s4 == Do(s3, Table(t))
    ensures Enabled(s4, Wake(t)) && s5 == Do(s4, Wake(t)) && Enabled(s5, Close(t)) && s' == Do(s5, Close(t))
    ensures !s'.locked && s'.pid == 0 && s'.guard.None? && s'.table.None? && |s'.pc| == |s.pc| && s'.pc[t] == Out
    ensures forall u | 0 <= u < |s.pc| && u != t :: s'.pc[u] == if s.pc[u] == Asleep then Woken else s.pc[u]
  {
    s1 := Do(s, Yield(t));
    s2 := Do(s1, Lock(t));
    s3 := Do(s2, Clear(t));
    s4 := Do(s3, Table(t));
    s5 := Do(s4, Wake(t));
    s' := Do(s5, Close(t));
  }

  /** A woken process that finds the lock free has it. */
  lemma WokenWhole(s: State, t: nat) returns (s1: State, s': State)
    requires Inv(s) && t < |s.pc| && s.pc[t] == Woken && s.guard.None? && !s.locked
    ensures Enabled(s, Lock(t)) && s1 == Do(s, Lock(t)) && Enabled(s1, Look(t)) && s' == Do(s1, Look(t))
    ensures s' == s.(pc := s.pc[t := Holder], locked := true, pid := s.pids[t])
  {
    s1 := Do(s, Lock(t));
    s' := Do(s1, Look(t));
  }
}
