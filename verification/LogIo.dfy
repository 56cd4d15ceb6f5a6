/** The commit and the recovery of the whole machine, taken block write by block write,
    are those that Wal.Commit and Wal.RecoverFromLog issue. */
module LogIo {
  import opened Common
  import opened Blocks
  import opened Disk
  import opened LogDisk
  import opened LogSystem

  /** What one Io step writes. */
  function Issues(l: Log, s: State): (ws: seq<Write>)
    requires Shape(l, s) && !s.phase.Idle? && !s.phase.Booting?
  {
    match s.phase
    case Copying(k) => if k < |s.lh| then [Write(l.start + 1 + k, s.view[s.lh[k]])] else []
    case HeadDue => [Write(l.start, Header(s.view[l.start], s.lh))]
    case Installing(k, _) => if k < |s.lh| then [Write(s.lh[k], s.view[l.start + 1 + k])] else []
    case EraseDue(_) => [Write(l.start, Header(s.view[l.start], []))]
  }

  /** ws is what n Io steps from s write, and s' where they lead. */
  ghost predicate Drains(l: Log, s: State, n: nat, ws: seq<Write>, s': State)
    decreases n
  {
    if n == 0 then s' == s && ws == []
    else
      && Shape(l, s) && !s.phase.Idle? && !s.phase.Booting?
      && Issues(l, s) <= ws && Drains(l, DoIo(l, s), n - 1, ws[|Issues(l, s)|..], s')
  }

  /** An Io step does to the disk what it issues. */
  lemma IssuesApplied(l: Log, s: State)
    requires Shape(l, s) && !s.phase.Idle? && !s.phase.Booting?
    ensures DoIo(l, s).disk == Apply(s.disk, Issues(l, s)) && DoIo(l, s).view == Apply(s.view, Issues(l, s))
  {
    ApplyOne(s.disk, Issues(l, s));
    ApplyOne(s.view, Issues(l, s));
  }

  lemma ApplyOne(d: Image, ws: seq<Write>)
    requires |ws| <= 1
    ensures Apply(d, ws) == if ws == [] then d else Put(d, ws[0])
  {
    if |ws| == 1 { ApplyStep(d, ws, 1); assert ws[..1] == ws && ws[..0] == []; assert Apply(d, ws[..0]) == d; }
  }

  /** The copies made so far are in the log area. */
  ghost predicate Staged(l: Log, s: State)
  {
    && Shape(l, s) && Loggable(l, s.view, s.lh)
    && (s.phase.Copying? ==>
          s.phase.k <= |s.lh| && forall i | 0 <= i < s.phase.k :: s.view[l.start + 1 + i] == s.view[s.lh[i]])
    && (s.phase.HeadDue? ==> forall i | 0 <= i < |s.lh| :: s.view[l.start + 1 + i] == s.view[s.lh[i]])
    && (s.phase.Installing? ==> s.phase.k <= |s.lh|)
  }

  /** What is still to be written before the machine is idle. */
  function Pending(l: Log, s: State): (ws: seq<Write>)
    requires Shape(l, s) && !s.phase.Booting?
    requires (s.phase.Copying? || s.phase.Installing?) ==> s.phase.k <= |s.lh|
  {
    var h := s.view[l.start];
    match s.phase
    case Idle => []
    case Copying(k) =>
      if s.lh == [] then []
      else LogWrites(l, s.lh, s.view)[k..] + [Write(l.start, Header(h, s.lh))] + HomeWrites(s.lh, s.view)
           + [Write(l.start, Header(Header(h, s.lh), []))]
    case HeadDue =>
      [Write(l.start, Header(h, s.lh))] + HomeWrites(s.lh, s.view) + [Write(l.start, Header(Header(h, s.lh), []))]
    case Installing(k, _) => InstallWrites(l, s.lh, s.view)[k..] + [Write(l.start, Header(h, []))]
    case EraseDue(_) => [Write(l.start, Header(h, []))]
  }

  lemma PendingNext(l: Log, s: State)
    requires Staged(l, s) && !s.phase.Idle? && !s.phase.Booting?
    ensures Staged(l, DoIo(l, s)) && !DoIo(l, s).phase.Booting?
    ensures Pending(l, s) == Issues(l, s) + Pending(l, DoIo(l, s))
  {
    hide Header;
    match s.phase
    case Copying(k) => CopyingNext(l, s);
    case HeadDue => HeadNext(l, s);
    case Installing(k, r) => InstallingNext(l, s);
    case EraseDue(r) => EraseNext(l, s);
  }

  lemma EraseNext(l: Log, s: State)
    requires Staged(l, s) && s.phase.EraseDue?
    ensures Staged(l, DoIo(l, s)) && Pending(l, s) == Issues(l, s) + Pending(l, DoIo(l, s))
  {
    hide Header;
  }

  lemma Regroup(a: seq<Write>, b: seq<Write>, c: seq<Write>, d: seq<Write>, e: seq<Write>)
    ensures a + (b + c + d + e) == (a + b) + c + d + e
  {
  }

  /** Copying home k to the log changes no home, and so nothing that is still to be copied. */
  lemma HomesKept(l: Log, v: Image, lh: seq<nat>, k: nat)
    requires Loggable(l, v, lh) && k < |lh|
    ensures l.start + 1 + k < |v|
    ensures var v' := v[l.start + 1 + k := v[lh[k]]];
            && Loggable(l, v', lh)
            && LogWrites(l, lh, v') == LogWrites(l, lh, v) && HomeWrites(lh, v') == HomeWrites(lh, v)
            && v'[l.start] == v[l.start]
            && forall i | 0 <= i < |lh| :: v'[lh[i]] == v[lh[i]]
    ensures LogWrites(l, lh, v)[k..] == [Write(l.start + 1 + k, v[lh[k]])] + LogWrites(l, lh, v)[k + 1..]
  {
    var v' := v[l.start + 1 + k := v[lh[k]]];
    forall i | 0 <= i < |lh| ensures v'[lh[i]] == v[lh[i]] { assert !l.Owns(lh[i]); }
    assert LogWrites(l, lh, v') == LogWrites(l, lh, v);
    assert HomeWrites(lh, v') == HomeWrites(lh, v);
  }

  lemma CopyingNext(l: Log, s: State)
    requires Staged(l, s) && s.phase.Copying?
    ensures Staged(l, DoIo(l, s)) && Pending(l, s) == Issues(l, s) + Pending(l, DoIo(l, s))
  {
    hide Header;
    var k, s' := s.phase.k, DoIo(l, s);
    if s.lh == [] {
    } else if k < |s.lh| {
      HomesKept(l, s.view, s.lh, k);
      var c := [Write(l.start, Header(s.view[l.start], s.lh))];
      var e := [Write(l.start, Header(Header(s.view[l.start], s.lh), []))];
      Regroup(Issues(l, s), LogWrites(l, s.lh, s.view)[k + 1..], c, HomeWrites(s.lh, s.view), e);
    } else {
      assert LogWrites(l, s.lh, s.view)[k..] == [];
    }
  }

  lemma HeadNext(l: Log, s: State)
    requires Staged(l, s) && s.phase.HeadDue?
    ensures Staged(l, DoIo(l, s)) && Pending(l, s) == Issues(l, s) + Pending(l, DoIo(l, s))
  {
    hide Header;
    var s' := DoIo(l, s);
    assert InstallWrites(l, s.lh, s'.view) == HomeWrites(s.lh, s.view);
    assert InstallWrites(l, s.lh, s'.view)[0..] == InstallWrites(l, s.lh, s'.view);
  }

  lemma InstallingNext(l: Log, s: State)
    requires Staged(l, s) && s.phase.Installing?
    ensures Staged(l, DoIo(l, s)) && Pending(l, s) == Issues(l, s) + Pending(l, DoIo(l, s))
  {
    hide Header;
    var k, s' := s.phase.k, DoIo(l, s);
    if k < |s.lh| {
      assert !l.Owns(s.lh[k]);
      assert InstallWrites(l, s.lh, s'.view) == InstallWrites(l, s.lh, s.view);
      assert InstallWrites(l, s.lh, s.view)[k..] == Issues(l, s) + InstallWrites(l, s.lh, s.view)[k + 1..];
    } else {
      assert InstallWrites(l, s.lh, s.view)[k..] == [];
    }
  }

  lemma {:induction false} DrainsPending(l: Log, s: State, n: nat, ws: seq<Write>, s': State)
    requires Staged(l, s) && !s.phase.Booting? && Drains(l, s, n, ws, s')
    ensures ws <= Pending(l, s) && (s'.phase.Idle? ==> ws == Pending(l, s))
    ensures s'.disk == Apply(s.disk, ws)
    decreases n
  {
    hide Pending, Issues, DoIo, Loggable, Storable, Apply;
    if n == 0 {
      ApplyOne(s.disk, ws);
      PendingIdle(l, s);
    } else {
      PendingNext(l, s);
      IssuesApplied(l, s);
      var w := Issues(l, s);
      DrainsPending(l, DoIo(l, s), n - 1, ws[|w|..], s');
      assert ws == w + ws[|w|..];
      ApplyConcat(s.disk, w, ws[|w|..]);
    }
  }

  lemma PendingIdle(l: Log, s: State)
    requires Staged(l, s) && !s.phase.Booting?
    ensures s.phase.Idle? ==> Pending(l, s) == []
  {
  }

  /** The Io steps of a commit issue CommitWrites, in order, and all of them if they get to the end. */
  lemma CommitIssued(l: Log, s: State, n: nat, ws: seq<Write>, s': State)
    requires Shape(l, s) && Loggable(l, s.view, s.lh) && s.phase == Copying(0) && Drains(l, s, n, ws, s')
    ensures var all := CommitWrites(l, s.lh, s.view, s.view[l.start]);
            ws <= all && (s'.phase.Idle? ==> ws == all) && s'.disk == Apply(s.disk, ws)
  {
    DrainsPending(l, s, n, ws, s');
    if s.lh != [] {
      hide Header;
      var h, lw, hw := s.view[l.start], LogWrites(l, s.lh, s.view), HomeWrites(s.lh, s.view);
      var c, e := [Write(l.start, Header(h, s.lh))], [Write(l.start, Header(Header(h, s.lh), []))];
      assert lw[0..] == lw;
      assert lw + c + hw + e == (lw + c) + (hw + e);
    }
  }

  /** Those of a recovery issue RecoverWrites. */
  lemma RecoveryIssued(l: Log, d: Image, s: State, n: nat, ws: seq<Write>, s': State)
    requires Readable(l, d) && Shape(l, s) && s.disk == s.view == d && s.lh == HeaderBlocks(d[l.start])
    requires s.phase == Installing(0, true) && Drains(l, s, n, ws, s')
    ensures ws <= RecoverWrites(l, d) && (s'.phase.Idle? ==> ws == RecoverWrites(l, d)) && s'.disk == Apply(d, ws)
  {
    DrainsPending(l, s, n, ws, s');
    assert InstallWrites(l, s.lh, d)[0..] == InstallWrites(l, s.lh, d);
  }

  /** How many Io steps the machine is away from idle. */
  function Left(s: State): nat
    requires (s.phase.Copying? || s.phase.Installing?) ==> s.phase.k <= |s.lh|
  {
    match s.phase
    case Copying(k) => if s.lh == [] then 1 else |s.lh| - k + |s.lh| + 4
    case HeadDue => |s.lh| + 3
    case Installing(k, _) => |s.lh| - k + 2
    case EraseDue(_) => 1
    case _ => 0
  }

  /** The commit and the recovery come to an end: after that many steps, and none fewer, with
      nobody asleep and the list empty. */
  lemma {:induction false} DrainsToIdle(l: Log, s: State) returns (ws: seq<Write>, s': State)
    requires Staged(l, s) && !s.phase.Booting? && !s.phase.Idle?
    ensures Drains(l, s, Left(s), ws, s') && s'.phase.Idle? && s'.lh == [] && s'.asleep == {}
    decreases Left(s)
  {
    hide Pending, Issues, Loggable, Storable, Header;
    PendingNext(l, s);
    var next := DoIo(l, s);
    OneLess(l, s);
    if next.phase.Idle? {
      ws, s' := Issues(l, s), next;
      assert ws[|Issues(l, s)|..] == [];
      assert Drains(l, next, 0, [], s');
    } else {
      var rest;
      rest, s' := DrainsToIdle(l, next);
      ws := Issues(l, s) + rest;
      assert ws[|Issues(l, s)|..] == rest;
    }
  }

  lemma OneLess(l: Log, s: State)
    requires Staged(l, s) && !s.phase.Booting? && !s.phase.Idle?
    ensures var next := DoIo(l, s);
            && ((next.phase.Copying? || next.phase.Installing?) ==> next.phase.k <= |next.lh|)
            && Left(next) == Left(s) - 1 && (next.phase.Idle? <==> Left(s) == 1) && !next.phase.Booting?
            && (next.phase.Idle? ==> next.lh == [] && next.asleep == {})
  {
    hide Header, Loggable;
  }
}
