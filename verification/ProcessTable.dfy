/** proc.c: the process table, and the loops over it that run under ptable.lock. */
module ProcessTable {
  import opened Common

  const NPROC: nat := 64

  datatype ProcState = UNUSED | EMBRYO | SLEEPING | RUNNABLE | RUNNING | ZOMBIE

  /** Addresses to sleep on: a process (wait) or anything else. */
  datatype Chan = NoChan | OnProc(p: nat) | Other(k: nat)

  /** Where a process goes on when it next runs. Forking: fork has the slot np,
      then (1) its stack, then (2) its memory and parent. */
  datatype Context =
    | User
    | Forking(np: nat, stage: nat)
    | Yielding(next: Context)
    | Sleeping
    | Scanning
    | Waiting
    | Starting
    | Exiting

  datatype Proc = Proc(state: ProcState, pid: nat, parent: Option<nat>, chan: Chan, killed: bool, kstack: bool,
      context: Context)

  function ChanOf(parent: Option<nat>): Chan
  {
    match parent case None => NoChan case Some(p) => OnProc(p)
  }

  function Wake(p: Proc, ch: Chan): Proc
  {
    if p.state == SLEEPING && p.chan == ch then p.(state := RUNNABLE) else p
  }

  /** wakeup1. */
  function Woken(t: seq<Proc>, ch: Chan): (r: seq<Proc>)
    ensures |r| == |t|
  {
    seq(|t|, i requires 0 <= i < |t| => Wake(t[i], ch))
  }

  function Adopt(p: Proc, cur: nat, init: nat): Proc
  {
    if p.parent == Some(cur) then p.(parent := Some(init)) else p
  }

  predicate ZombieChild(p: Proc, cur: nat)
  {
    p.parent == Some(cur) && p.state == ZOMBIE
  }

  predicate AnyZombieChild(t: seq<Proc>, cur: nat)
  {
    exists i | 0 <= i < |t| :: ZombieChild(t[i], cur)
  }

  /** What exit leaves in slot i: the parent awake, the children with init, and init
      awake if one of them is a zombie. */
  function ExitedAt(t: seq<Proc>, cur: nat, init: nat, i: nat): Proc
    requires cur < |t| && i < |t|
  {
    var p := Adopt(Wake(t[i], ChanOf(t[cur].parent)), cur, init);
    var q := if AnyZombieChild(t, cur) then Wake(p, OnProc(init)) else p;
    if i == cur then q.(state := ZOMBIE, context := Exiting) else q
  }

  function Exited(t: seq<Proc>, cur: nat, init: nat): (r: seq<Proc>)
    requires cur < |t|
    ensures |r| == |t|
  {
    seq(|t|, i requires 0 <= i < |t| => ExitedAt(t, cur, init, i))
  }

  /** What wait leaves of a child it has found: a free slot, without a stack. */
  function Reaped(p: Proc): Proc
  {
    p.(state := UNUSED, pid := 0, parent := None, killed := false, kstack := false)
  }

  /** What one pass of wait over the table finds. */
  datatype Scan = Child(i: nat) | Give | Sleep

  ghost predicate IsScan(t: seq<Proc>, cur: nat, r: Scan)
    requires cur < |t|
  {
    match r
    case Child(i) => i < |t| && ZombieChild(t[i], cur) && forall j | 0 <= j < i :: !ZombieChild(t[j], cur)
    case Give => !AnyZombieChild(t, cur) && (t[cur].killed || forall j | 0 <= j < |t| :: t[j].parent != Some(cur))
    case Sleep => !AnyZombieChild(t, cur) && !t[cur].killed && exists j | 0 <= j < |t| :: t[j].parent == Some(cur)
  }

  class Ptable {
    var proc: seq<Proc>
    var nextpid: nat

    constructor ()
      ensures nextpid == 1 && |proc| == NPROC
      ensures forall i | 0 <= i < NPROC :: proc[i] == Proc(UNUSED, 0, None, NoChan, false, false, User)
    {
      proc := seq(NPROC, _ => Proc(UNUSED, 0, None, NoChan, false, false, User));
      nextpid := 1;
    }

    /** allocproc's critical section: the first free slot. */
    method Allocproc() returns (r: Option<nat>)
      modifies this
      ensures r.None? ==>
                proc == old(proc) && nextpid == old(nextpid) && forall i | 0 <= i < |proc| :: !proc[i].state.UNUSED?
      ensures r.Some? ==>
                && r.value < |old(proc)| && old(proc)[r.value].state.UNUSED?
                && (forall i | 0 <= i < r.value :: !old(proc)[i].state.UNUSED?)
                && proc == old(proc)[r.value := old(proc)[r.value].(state := EMBRYO, pid := old(nextpid),
                    context := Starting)]
                && nextpid == old(nextpid) + 1
    {
      var p := 0;
      while p < |proc|
        invariant p <= |proc| && proc == old(proc) && nextpid == old(nextpid)
        invariant forall i | 0 <= i < p :: !proc[i].state.UNUSED?
      {
        if proc[p].state == UNUSED {
          proc := proc[p := proc[p].(state := EMBRYO, pid := nextpid, context := Starting)];
          nextpid := nextpid + 1;
          return Some(p);
        }
        p := p + 1;
      }
      return None;
    }

    /** All that sleep on ch can run; nothing else changes. */
    method Wakeup1(ch: Chan)
      modifies `proc
      ensures |proc| == |old(proc)|
      ensures forall i | 0 <= i < |proc| ::
                if old(proc)[i].state == SLEEPING && old(proc)[i].chan == ch
                then proc[i].state == RUNNABLE && proc[i].(state := SLEEPING) == old(proc)[i]
                else proc[i] == old(proc)[i]
      ensures proc == Woken(old(proc), ch)
    {
      ghost var t := proc;
      var p := 0;
      while p < |proc|
        invariant p <= |proc| == |t|
        invariant forall i | 0 <= i < |t| :: proc[i] == if i < p then Wake(t[i], ch) else t[i]
      {
        if proc[p].state == SLEEPING && proc[p].chan == ch {
          proc := proc[p := proc[p].(state := RUNNABLE)];
        }
        p := p + 1;
      }
    }

    /** exit's critical section, up to the switch. */
    method Exit(cur: nat, init: nat)
      requires cur < |proc|
      modifies `proc
      ensures |proc| == |old(proc)| && forall i | 0 <= i < |proc| :: Leaves(old(proc), cur, init, i, proc[i])
      ensures proc == Exited(old(proc), cur, init)
    {
      hide Leaves;
      ghost var t := proc;
      Wakeup1(ChanOf(proc[cur].parent));
      ghost var t1 := proc;
      ghost var seen := false;
      var p := 0;
      while p < |proc|
        invariant p <= |proc| == |t| == |t1|
        invariant seen <==> exists i | 0 <= i < p :: ZombieChild(t[i], cur)
        invariant forall i | 0 <= i < |t| :: proc[i] == ExitingAt(t1, cur, init, i, p, seen)
      {
        if proc[p].parent == Some(cur) {
          proc := proc[p := proc[p].(parent := Some(init))];
          if proc[p].state == ZOMBIE {
            Wakeup1(OnProc(init));
            seen := true;
          }
        }
        p := p + 1;
      }
      proc := proc[cur := proc[cur].(state := ZOMBIE, context := Exiting)];
      assert proc == Exited(t, cur, init);
      LeavesAll(t, cur, init);
    }

    /** One pass of wait over the table. */
    method WaitScan(cur: nat) returns (r: Scan, pid: nat)
      requires cur < |proc|
      modifies `proc
      ensures IsScan(old(proc), cur, r)
      ensures proc == if r.Child? then old(proc)[r.i := Reaped(old(proc)[r.i])] else old(proc)
      ensures r.Child? ==> pid == old(proc)[r.i].pid
      ensures r.Child? ==>
                && proc[r.i].state == UNUSED && proc[r.i].pid == 0 && proc[r.i].parent == None
                && !proc[r.i].killed && !proc[r.i].kstack && proc[r.i].chan == old(proc)[r.i].chan
    {
      var havekids := false;
      var p := 0;
      while p < |proc|
        invariant p <= |proc| && proc == old(proc)
        invariant havekids <==> exists j | 0 <= j < p :: proc[j].parent == Some(cur)
        invariant forall j | 0 <= j < p :: !ZombieChild(proc[j], cur)
      {
        if proc[p].parent == Some(cur) {
          havekids := true;
          if proc[p].state == ZOMBIE {
            pid := proc[p].pid;
            proc := proc[p := Reaped(proc[p])];
            return Child(p), pid;
          }
        }
        p := p + 1;
      }
      return if !havekids || proc[cur].killed then Give else Sleep, 0;
    }

    /** kill: the first process with the pid. */
    method Kill(pid: nat) returns (r: Option<nat>)
      modifies `proc
      ensures r.None? ==> proc == old(proc) && forall i | 0 <= i < |proc| :: proc[i].pid != pid
      ensures r.Some? ==> && r.value < |old(proc)| && old(proc)[r.value].pid == pid
                          && (forall i | 0 <= i < r.value :: old(proc)[i].pid != pid)
                          && proc == old(proc)[r.value := Killed(old(proc)[r.value])]
      ensures r.Some? ==>
                && proc[r.value].killed && proc[r.value].state != SLEEPING
                && (old(proc)[r.value].state == SLEEPING ==> proc[r.value].state == RUNNABLE)
                && (old(proc)[r.value].state != SLEEPING ==> proc[r.value].state == old(proc)[r.value].state)
                && proc[r.value].(killed := old(proc)[r.value].killed, state := old(proc)[r.value].state)
                   == old(proc)[r.value]
    {
      var p := 0;
      while p < |proc|
        invariant p <= |proc| && proc == old(proc)
        invariant forall i | 0 <= i < p :: proc[i].pid != pid
      {
        if proc[p].pid == pid {
          proc := proc[p := proc[p].(killed := true)];
          if proc[p].state == SLEEPING {
            proc := proc[p := proc[p].(state := RUNNABLE)];
          }
          return Some(p);
        }
        p := p + 1;
      }
      return None;
    }
  }

  /** What becomes of t[i] when cur exits: cur is a zombie, its children are init's, and
      of the others those can run again that slept for cur, or as init and there is a zombie for it. */
  predicate Leaves(t: seq<Proc>, cur: nat, init: nat, i: nat, q: Proc)
    requires cur < |t| && i < |t|
  {
    var p := t[i];
    && q.pid == p.pid && q.killed == p.killed && q.chan == p.chan && q.kstack == p.kstack
    && q.parent == (if p.parent == Some(cur) then Some(init) else p.parent)
    && if i == cur then q.state == ZOMBIE && q.context == Exiting
       else
         && q.context == p.context
         && if p.state == SLEEPING && (p.chan == ChanOf(t[cur].parent)
                                       || (p.chan == OnProc(init) && AnyZombieChild(t, cur)))
            then q.state == RUNNABLE else q.state == p.state
  }

  lemma ExitLeaves(t: seq<Proc>, cur: nat, init: nat, i: nat)
    requires cur < |t| && i < |t|
    ensures Leaves(t, cur, init, i, Exited(t, cur, init)[i])
  {
    hide AnyZombieChild;
    assert Exited(t, cur, init)[i] == ExitedAt(t, cur, init, i);
  }

  lemma LeavesAll(t: seq<Proc>, cur: nat, init: nat)
    requires cur < |t|
    ensures forall i | 0 <= i < |t| :: Leaves(t, cur, init, i, Exited(t, cur, init)[i])
  {
    hide Exited, Leaves;
    forall i: nat | i < |t| ensures Leaves(t, cur, init, i, Exited(t, cur, init)[i]) { ExitLeaves(t, cur, init, i); }
  }

  /** exit's loop after p slots. */
  ghost function ExitingAt(t1: seq<Proc>, cur: nat, init: nat, i: nat, p: nat, seen: bool): Proc
    requires i < |t1|
  {
    var x := if i < p then Adopt(t1[i], cur, init) else t1[i];
    if seen then Wake(x, OnProc(init)) else x
  }

  function Killed(p: Proc): Proc
  {
    p.(killed := true, state := if p.state == SLEEPING then RUNNABLE else p.state)
  }
}
