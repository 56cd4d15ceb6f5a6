/** Any number of readers and writers on one pipe, taking turns under its lock. */
module PipeSystem {
  import opened Common
  import opened Blocks
  import opened Pipe

  datatype Status = Ready | Asleep | Done(r: int)

  /** A call of pipewrite, at byte i, or of piperead. */
  datatype Thread =
    | Writer(addr: seq<Byte>, i: nat, status: Status)
    | Reader(n: nat, got: seq<Byte>, status: Status)

  datatype State = State(pipe: View, threads: seq<Thread>, killed: set<nat>)

  datatype Step =
    | Call(th: Thread)
    | Turn(t: nat)
    | Close(writable: bool)                  // the last descriptor of an end goes away
    | Kill(t: nat)

  predicate Pending(s: State, t: nat) { t < |s.threads| && !s.threads[t].status.Done? }

  /** A call holds its descriptor, so an end is closed only when all calls on it are over. */
  ghost predicate Enabled(s: State, e: Step)
  {
    match e
    case Call(th) =>
      th.status == Ready && (if th.Writer? then s.pipe.writeopen && th.i == 0 else s.pipe.readopen && th.got == [])
    case Turn(t) => t < |s.threads| && s.threads[t].status == Ready
    case Close(writable) => forall t | 0 <= t < |s.threads| && s.threads[t].Writer? == writable :: !Pending(s, t)
    case Kill(t) => Pending(s, t)
  }

  function After(out: Outcome): Status
  {
    match out case Return(r) => Done(r) case Sleep => Asleep
  }

  /** wakeup of all sleeping readers, or of all sleeping writers. */
  function Woken(ts: seq<Thread>, writers: bool): (r: seq<Thread>)
    ensures |r| == |ts|
  {
    seq(|ts|, t requires 0 <= t < |ts| =>
      if ts[t].Writer? == writers && ts[t].status == Asleep then ts[t].(status := Ready) else ts[t])
  }

  ghost predicate Bounded(s: State)
  {
    |s.pipe.queue| <= PIPESIZE && forall t | 0 <= t < |s.threads| &&
        s.threads[t].Writer? :: s.threads[t].i <= |s.threads[t].addr|
  }

  ghost function Do(s: State, e: Step): State
    requires Bounded(s) && Enabled(s, e)
  {
    match e
    case Call(th) => s.(threads := s.threads + [th])
    case Turn(t) =>
      (match s.threads[t]
       case Writer(addr, i, _) =>
         var (v, j, out, woke) := WriteTurn(s.pipe, addr, i, t in s.killed);
         var ts := s.threads[t := Writer(addr, j, After(out))];
         State(v, if woke then Woken(ts, false) else ts, s.killed)
       case Reader(n, _, _) =>
         var (v, got, out, woke) := ReadTurn(s.pipe, n, t in s.killed);
         var ts := s.threads[t := Reader(n, got, After(out))];
         State(v, if woke then Woken(ts, true) else ts, s.killed))
    case Close(writable) => State(Closed(s.pipe, writable), Woken(s.threads, !writable), s.killed)
    case Kill(t) =>
      var th := s.threads[t];
      s.(killed := s.killed + {t}, threads := if th.status == Asleep then s.threads[t := th.(status := Ready)]
          else s.threads)
  }

  /** Nobody sleeps who could go on: readers only on an empty open pipe, writers only on a full one. */
  predicate ThreadOk(v: View, th: Thread)
  {
    match th
    case Writer(addr, i, status) =>
      (!status.Done? ==> v.writeopen) && (status == Asleep ==> |v.queue| == PIPESIZE && v.readopen)
    case Reader(_, _, status) =>
      (!status.Done? ==> v.readopen) && (status == Asleep ==> v.queue == [] && v.writeopen)
  }

  ghost predicate Inv(s: State)
  {
    && Bounded(s) && s.pipe.written == s.pipe.taken + s.pipe.queue
  }

  ghost predicate NoneLost(s: State)
  {
    forall t | 0 <= t < |s.threads| :: ThreadOk(s.pipe, s.threads[t])
  }

  lemma StepInv(s: State, e: Step)
    requires Inv(s) && Enabled(s, e)
    ensures Inv(Do(s, e))
  {
    hide Put, Take, Bounded;
    StepBounded(s, e);
    if e.Turn? {
      match s.threads[e.t]
      case Writer(addr, i, _) => PutOrder(s.pipe, addr[i..WriteTurn(s.pipe, addr, i, e.t in s.killed).1]);
      case Reader(n, _, _) => TakeOrder(s.pipe, Min(n, |s.pipe.queue|));
    }
  }

  lemma StepBounded(s: State, e: Step)
    requires Bounded(s) && Enabled(s, e)
    ensures Bounded(Do(s, e))
  {
    hide Put, Take;
  }

  lemma PutOrder(v: View, x: seq<Byte>)
    requires v.written == v.taken + v.queue
    ensures Put(v, x).written == Put(v, x).taken + Put(v, x).queue
  {
  }

  lemma TakeOrder(v: View, k: nat)
    requires v.written == v.taken + v.queue && k <= |v.queue|
    ensures Take(v, k).written == Take(v, k).taken + Take(v, k).queue
  {
    assert v.queue == v.queue[..k] + v.queue[k..];
  }

  /** The turns that put a process to sleep for good: a killed writer fills the pipe and
      gives up while a reader sleeps. */
  ghost predicate Stranding(s: State, e: Step)
  {
    && e.Turn? && e.t < |s.threads| && e.t in s.killed
    && s.threads[e.t].Writer? && s.threads[e.t].i + PIPESIZE < |s.threads[e.t].addr|
    && exists u | 0 <= u < |s.threads| :: s.threads[u].Reader? && s.threads[u].status == Asleep
  }

  /** Those turns, and no others, lose a wakeup. */
  lemma StepNoneLost(s: State, e: Step)
    requires Inv(s) && NoneLost(s) && Enabled(s, e)
    ensures NoneLost(Do(s, e)) <==> !Stranding(s, e)
  {
    var s' := Do(s, e);
    if Stranding(s, e) {
      var u :| 0 <= u < |s.threads| && s.threads[u].Reader? && s.threads[u].status == Asleep;
      assert ThreadOk(s.pipe, s.threads[u]);
      assert s'.threads[u] == s.threads[u] && !ThreadOk(s'.pipe, s'.threads[u]);
    } else {
      forall u | 0 <= u < |s'.threads| ensures ThreadOk(s'.pipe, s'.threads[u]) {
        assert u < |s.threads| ==> ThreadOk(s.pipe, s.threads[u]);
        if e.Turn? { assert ThreadOk(s.pipe, s.threads[e.t]); }
        if e.Close? { assert u < |s.threads| && s.threads[u].Writer? == e.writable ==> !Pending(s, u); }
      }
    }
  }

  ghost predicate IsRun(ss: seq<State>, es: seq<Step>)
  {
    && |ss| == |es| + 1 && ss[0] == State(View([], [], [], true, true), [], {})
    && forall k {:trigger es[k]} | 0 <= k < |es| :: Bounded(ss[k]) && Enabled(ss[k], es[k]) &&
        ss[k + 1] == Do(ss[k], es[k])
  }

  /** What has been read is what was written, in order, and the rest is in the pipe. */
  lemma {:induction false} RunFifo(ss: seq<State>, es: seq<Step>, k: nat)
    requires IsRun(ss, es) && k < |ss|
    ensures Inv(ss[k]) && ss[k].pipe.taken <= ss[k].pipe.written &&
            |ss[k].pipe.written| - |ss[k].pipe.taken| <= PIPESIZE
  {
    if k > 0 {
      RunFifo(ss, es, k - 1);
      assert Enabled(ss[k - 1], es[k - 1]);
      StepInv(ss[k - 1], es[k - 1]);
    }
  }

  /** What a call has to show for itself: a writer that returned n has put all of its bytes, one
      that returned -1 not, and it was killed or nobody could read; a reader that returned r >= 0 holds r bytes,
      none of those it asked for only at the end of the file, and one that returned -1 was killed. */
  ghost predicate Returned(s: State, t: nat)
    requires t < |s.threads|
  {
    var v := s.pipe;
    match s.threads[t]
    case Writer(addr, i, status) =>
      && i <= |addr| && (!status.Done? ==> v.writeopen)
      && (status.Done? ==> (status.r == |addr| && i == |addr|)
                           || (status.r == -1 && i < |addr| && (t in s.killed || !v.readopen)))
    case Reader(n, got, status) =>
      if !status.Done? then got == []
      else
        || (status.r == -1 && got == [] && t in s.killed)
        || (status.r == |got| <= n && (got == [] && n > 0 ==> v.queue == [] && !v.writeopen))
  }

  lemma StepReturned(s: State, e: Step, t: nat)
    requires Bounded(s) && Enabled(s, e) && (forall u | 0 <= u < |s.threads| :: Returned(s, u))
    requires t < |Do(s, e).threads|
    ensures Returned(Do(s, e), t)
  {
    hide Returned, Do;
    if e == Turn(t) {
      TurnReturned(s, t);
    } else {
      if e.Turn? { assert Returned(s, e.t); }
      OtherReturned(s, e, t);
    }
  }

  lemma TurnReturned(s: State, t: nat)
    requires Bounded(s) && Enabled(s, Turn(t)) && Returned(s, t)
    ensures Returned(Do(s, Turn(t)), t)
  {
  }

  lemma OtherReturned(s: State, e: Step, t: nat)
    requires Bounded(s) && Enabled(s, e) && t < |Do(s, e).threads| && e != Turn(t)
    requires (t < |s.threads| ==> Returned(s, t)) && (e.Turn? ==> Returned(s, e.t))
    ensures Returned(Do(s, e), t)
  {
    if t < |s.threads| { StepOthers(s, e, t); }
  }

  /** A killed sleeper takes another turn. */
  lemma KillWakes(s: State, t: nat)
    requires Bounded(s) && Enabled(s, Kill(t))
    ensures var s' := Do(s, Kill(t));
            && s'.pipe == s.pipe && s'.killed == s.killed + {t} && |s'.threads| == |s.threads|
            && s'.threads[t] == s.threads[t].(status := Ready)
            && forall u | 0 <= u < |s.threads| && u != t :: s'.threads[u] == s.threads[u]
  {
  }

  /** The others are left as they are, but for being woken. */
  lemma StepOthers(s: State, e: Step, u: nat)
    requires Bounded(s) && Enabled(s, e) && u < |s.threads| && e != Turn(u)
    ensures var s' := Do(s, e);
            && u < |s'.threads| && s'.threads[u].(status := s.threads[u].status) == s.threads[u]
            && (s'.threads[u].status == s.threads[u].status
                || (s.threads[u].status == Asleep && s'.threads[u].status == Ready))
  {
  }

  lemma {:induction false} RunReturned(ss: seq<State>, es: seq<Step>, k: nat, t: nat)
    requires IsRun(ss, es) && k < |ss| && t < |ss[k].threads|
    ensures Returned(ss[k], t)
    decreases k
  {
    hide Returned, Do, Enabled, Bounded;
    if k > 0 {
      var s := ss[k - 1];
      forall u: nat | u < |s.threads| ensures Returned(s, u) { RunReturned(ss, es, k - 1, u); }
      StepReturned(s, es[k - 1], t);
    }
  }

  /** The bytes that readers got and that writers put, turn after turn. */
  ghost function Heard(ss: seq<State>, es: seq<Step>, k: nat): seq<Byte>
    requires k < |ss| && |ss| == |es| + 1
  {
    if k == 0 then []
    else Heard(ss, es, k - 1) + Gets(ss[k - 1], es[k - 1], ss[k])
  }

  ghost function Said(ss: seq<State>, es: seq<Step>, k: nat): seq<Byte>
    requires k < |ss| && |ss| == |es| + 1
  {
    if k == 0 then []
    else Said(ss, es, k - 1) + Puts(ss[k - 1], es[k - 1], ss[k])
  }

  ghost function Gets(s: State, e: Step, s': State): seq<Byte>
  {
    if e.Turn? && e.t < |s.threads| && s.threads[e.t].Reader? && e.t < |s'.threads| && s'.threads[e.t].Reader?
    then s'.threads[e.t].got else []
  }

  ghost function Puts(s: State, e: Step, s': State): seq<Byte>
  {
    if e.Turn? && e.t < |s.threads| && s.threads[e.t].Writer? && e.t < |s'.threads| && s'.threads[e.t].Writer?
       && s.threads[e.t].i <= s'.threads[e.t].i <= |s.threads[e.t].addr|
    then s.threads[e.t].addr[s.threads[e.t].i..s'.threads[e.t].i] else []
  }

  lemma StepHeard(s: State, e: Step)
    requires Bounded(s) && Enabled(s, e)
    ensures var s' := Do(s, e);
            s'.pipe.taken == s.pipe.taken + Gets(s, e, s') && s'.pipe.written == s.pipe.written + Puts(s, e, s')
  {
    if !e.Turn? { assert s.pipe.taken + [] == s.pipe.taken && s.pipe.written + [] == s.pipe.written; }
  }

  lemma {:induction false} RunHeard(ss: seq<State>, es: seq<Step>, k: nat)
    requires IsRun(ss, es) && k < |ss|
    ensures ss[k].pipe.taken == Heard(ss, es, k) && ss[k].pipe.written == Said(ss, es, k)
  {
    hide Do, Enabled, Bounded, Gets, Puts;
    if k > 0 {
      RunHeard(ss, es, k - 1);
      StepHeard(ss[k - 1], es[k - 1]);
    }
  }

  /** Readers have got, in order, what writers have put, but for the last PIPESIZE bytes or fewer. */
  lemma RunDelivers(ss: seq<State>, es: seq<Step>, k: nat)
    requires IsRun(ss, es) && k < |ss|
    ensures Heard(ss, es, k) <= Said(ss, es, k) && |Said(ss, es, k)| - |Heard(ss, es, k)| <= PIPESIZE
    ensures Said(ss, es, k) == Heard(ss, es, k) + ss[k].pipe.queue
  {
    hide Do, Enabled, Heard, Said;
    RunHeard(ss, es, k);
    RunFifo(ss, es, k);
  }

  /** A run loses a wakeup somewhere exactly if it has such a turn. */
  lemma RunNoneLostExactly(ss: seq<State>, es: seq<Step>)
    requires IsRun(ss, es)
    ensures (forall k | 0 <= k < |ss| :: NoneLost(ss[k])) <==> (forall j | 0 <= j < |es| :: !Stranding(ss[j], es[j]))
  {
    hide NoneLost, Stranding, Enabled, Do, Bounded;
    if forall j | 0 <= j < |es| :: !Stranding(ss[j], es[j]) {
      forall k | 0 <= k < |ss| ensures NoneLost(ss[k]) { RunKeeps(ss, es, k); }
    }
    if forall k | 0 <= k < |ss| :: NoneLost(ss[k]) {
      forall j | 0 <= j < |es| ensures !Stranding(ss[j], es[j]) {
        RunFifo(ss, es, j);
        assert Enabled(ss[j], es[j]) && NoneLost(ss[j]) && NoneLost(ss[j + 1]);
        StepNoneLost(ss[j], es[j]);
      }
    }
  }

  lemma {:induction false} RunKeeps(ss: seq<State>, es: seq<Step>, k: nat)
    requires IsRun(ss, es) && k < |ss| && forall j | 0 <= j < |es| :: !Stranding(ss[j], es[j])
    ensures NoneLost(ss[k])
  {
    hide Stranding, Enabled, Do, Bounded, ThreadOk;
    if k > 0 {
      RunKeeps(ss, es, k - 1);
      RunFifo(ss, es, k - 1);
      assert Enabled(ss[k - 1], es[k - 1]);
      StepNoneLost(ss[k - 1], es[k - 1]);
    }
  }

  /** When nobody is killed no wakeup is lost. */
  lemma {:induction false} RunNoneLost(ss: seq<State>, es: seq<Step>, k: nat)
    requires IsRun(ss, es) && k < |ss| && forall j | 0 <= j < |es| :: !es[j].Kill?
    ensures NoneLost(ss[k]) && ss[k].killed == {}
  {
    if k > 0 {
      RunNoneLost(ss, es, k - 1);
      RunFifo(ss, es, k - 1);
      assert Enabled(ss[k - 1], es[k - 1]) && !es[k - 1].Kill?;
      StepNoneLost(ss[k - 1], es[k - 1]);
    }
  }

  /** A run that strands a reader: it sleeps on the empty pipe, and a killed writer with
      more than PIPESIZE bytes leaves it asleep with the pipe full. */
  lemma KilledWriterStrands(addr: seq<Byte>, n: nat) returns (ss: seq<State>, es: seq<Step>)
    requires |addr| > PIPESIZE
    ensures IsRun(ss, es) && ss != []
    ensures var s := ss[|ss| - 1];
            |s.pipe.queue| == PIPESIZE && |s.threads| == 2
            && s.threads[0] == Reader(n, [], Asleep) && s.threads[1].Writer? && s.threads[1].status == Done(-1)
  {
    var s0 := State(View([], [], [], true, true), [], {});
    var r, w := Reader(n, [], Ready), Writer(addr, 0, Ready);
    var s1 := Do(s0, Call(r));
    var s2 := Do(s1, Turn(0));
    assert s2.threads == [Reader(n, [], Asleep)];
    var s3 := Do(s2, Call(w));
    var s4 := Do(s3, Kill(1));
    var s5 := Do(s4, Turn(1));
    es := [Call(r), Turn(0), Call(w), Kill(1), Turn(1)];
    ss := [s0, s1, s2, s3, s4, s5];
  }
}
