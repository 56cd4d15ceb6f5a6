/** What the log's block writes mean for the disk: the on-disk format, the
    exact sequence of writes a commit and a recovery issue, and what is left of
    them when the machine stops part way. */
module LogDisk {
  import opened Common
  import opened Blocks
  import opened Disk

  const MAXOPBLOCKS: nat := 10
  const LOGSIZE: nat := MAXOPBLOCKS * 3

  /** log.start and log.size: the header block and the log blocks after it. */
  datatype Log = Log(start: nat, size: nat)
  {
    predicate Owns(b: nat) { start <= b < start + size }
    predicate Fits(d: Image) { 1 <= size && start + size <= |d| }
  }

  predicate Distinct(s: seq<nat>)
  {
    forall i, j | 0 <= i < j < |s| :: s[i] != s[j]
  }

  /** A list of home blocks the log can hold. */
  ghost predicate Loggable(l: Log, d: Image, lh: seq<nat>)
  {
    && l.Fits(d) && Distinct(lh) && |lh| <= LOGSIZE && |lh| < l.size
    && (forall k | 0 <= k < |lh| :: lh[k] < |d| && lh[k] < UINT_LIMIT && !l.Owns(lh[k]))
  }

  ghost predicate SameHomes(l: Log, d: Image, e: Image)
  {
    |d| == |e| && forall b | 0 <= b < |d| && !l.Owns(b) :: d[b] == e[b]
  }

  // ----- the header block -----

  function HeaderCount(h: Block): nat { Word(h, 0) }

  /** The block numbers of the header, as read_head reads them. */
  function HeaderBlocks(h: Block): (lh: seq<nat>)
    requires HeaderCount(h) <= LOGSIZE
    ensures |lh| == HeaderCount(h)
  {
    seq(HeaderCount(h), i requires 0 <= i < HeaderCount(h) => Word(h, 1 + i))
  }

  predicate Storable(lh: seq<nat>)
  {
    |lh| <= LOGSIZE && forall k | 0 <= k < |lh| :: lh[k] < UINT_LIMIT
  }

  /** write_head's assignments: n first, then block[0], block[1], ...; the
      words beyond them keep whatever the header block held before. */
  function HeaderOf(h: Block, lh: seq<nat>, k: nat): (r: Block)
    requires Storable(lh) && k <= |lh|
  {
    if k == 0 then SetWord(h, 0, |lh|)
    else SetWord(HeaderOf(h, lh, k - 1), k, lh[k - 1])
  }

  function Header(h: Block, lh: seq<nat>): Block
    requires Storable(lh)
  {
    HeaderOf(h, lh, |lh|)
  }

  lemma {:induction false} HeaderOfWord(h: Block, lh: seq<nat>, k: nat, i: nat)
    requires Storable(lh) && k <= |lh| && i <= k
    ensures Word(HeaderOf(h, lh, k), i) == if i == 0 then |lh| else lh[i - 1]
  {
    if k == 0 {
      WordOfSetWord(h, 0, |lh|, 0);
    } else {
      WordOfSetWord(HeaderOf(h, lh, k - 1), k, lh[k - 1], i);
      if i < k { HeaderOfWord(h, lh, k - 1, i); }
    }
  }

  /** read_head gets back what write_head stored, over any old header. */
  lemma HeaderRoundTrip(h: Block, lh: seq<nat>)
    requires Storable(lh)
    ensures HeaderCount(Header(h, lh)) == |lh|
    ensures HeaderBlocks(Header(h, lh)) == lh
  {
    HeaderOfWord(h, lh, |lh|, 0);
    assert HeaderCount(Header(h, lh)) == |lh|;
    forall i | 0 <= i < |lh| ensures Word(Header(h, lh), 1 + i) == lh[i] {
      HeaderOfWord(h, lh, |lh|, 1 + i);
    }
  }

  // ----- the write sequences -----

  function LogWrites(l: Log, lh: seq<nat>, view: Image): (ws: seq<Write>)
    requires forall k | 0 <= k < |lh| :: lh[k] < |view|
  {
    seq(|lh|, k requires 0 <= k < |lh| => Write(l.start + 1 + k, view[lh[k]]))
  }

  function InstallWrites(l: Log, lh: seq<nat>, d: Image): (ws: seq<Write>)
    requires l.start + 1 + |lh| <= |d|
  {
    seq(|lh|, k requires 0 <= k < |lh| => Write(lh[k], d[l.start + 1 + k]))
  }

  /** Writing log blocks leaves the home blocks and the header alone ... */
  lemma {:induction false} LogKeepsHomes(l: Log, view: Image, lh: seq<nat>, k: nat, b: nat)
    requires Loggable(l, view, lh) && k <= |lh|
    requires b < |view| && (b == l.start || !l.Owns(b))
    ensures Apply(view, LogWrites(l, lh, view)[..k])[b] == view[b]
  {
    var ws := LogWrites(l, lh, view);
    if k == 0 {
      assert ws[..0] == [];
    } else {
      LogKeepsHomes(l, view, lh, k - 1, b);
      ApplyStep(view, ws, k);
    }
  }

  /** ... and leaves a copy of the i-th home block in the i-th log block. */
  lemma {:induction false} LogHolds(l: Log, view: Image, lh: seq<nat>, k: nat, i: nat)
    requires Loggable(l, view, lh) && i < k <= |lh|
    ensures Apply(view, LogWrites(l, lh, view)[..k])[l.start + 1 + i] == view[lh[i]]
  {
    ApplyStep(view, LogWrites(l, lh, view), k);
    if i < k - 1 { LogHolds(l, view, lh, k - 1, i); }
  }

  /** Writing home blocks leaves the log alone. */
  lemma {:induction false} InstallKeepsLog(l: Log, d: Image, lh: seq<nat>, k: nat, b: nat)
    requires Loggable(l, d, lh) && k <= |lh| && l.Owns(b)
    ensures Apply(d, InstallWrites(l, lh, d)[..k])[b] == d[b]
  {
    var ws := InstallWrites(l, lh, d);
    if k == 0 {
      assert ws[..0] == [];
    } else {
      InstallKeepsLog(l, d, lh, k - 1, b);
      ApplyStep(d, ws, k);
    }
  }

  function HomeWrites(lh: seq<nat>, view: Image): (ws: seq<Write>)
    requires forall k | 0 <= k < |lh| :: lh[k] < |view|
  {
    seq(|lh|, k requires 0 <= k < |lh| => Write(lh[k], view[lh[k]]))
  }

  /** What commit() writes when the cache shows `view`: the log blocks, the
      header, the home blocks, and the header again with n = 0. */
  function CommitWrites(l: Log, lh: seq<nat>, view: Image, h: Block): (ws: seq<Write>)
    requires Storable(lh) && forall k | 0 <= k < |lh| :: lh[k] < |view|
  {
    if lh == [] then [] else
    (LogWrites(l, lh, view) + [Write(l.start, Header(h, lh))])
      + (HomeWrites(lh, view) + [Write(l.start, Header(Header(h, lh), []))])
  }

  /** A disk whose header names a list the log can hold. */
  ghost predicate Readable(l: Log, d: Image)
  {
    l.Fits(d) && HeaderCount(d[l.start]) <= LOGSIZE && Loggable(l, d, HeaderBlocks(d[l.start]))
  }

  /** What recover_from_log() writes. */
  ghost function RecoverWrites(l: Log, d: Image): (ws: seq<Write>)
    requires Readable(l, d)
  {
    InstallWrites(l, HeaderBlocks(d[l.start]), d) + [Write(l.start, Header(d[l.start], []))]
  }

  /** A recovery stopped after k of its writes. */
  ghost function RecoverCut(l: Log, d: Image, k: nat): (r: Image)
    requires Readable(l, d)
    requires k <= |RecoverWrites(l, d)|
  {
    Apply(d, RecoverWrites(l, d)[..k])
  }

  // ----- what a disk will recover to -----

  /** The log is empty and the home blocks are those of cur. */
  ghost predicate Clean(l: Log, d: Image, cur: Image)
  {
    l.Fits(d) && HeaderCount(d[l.start]) == 0 && SameHomes(l, d, cur)
  }

  /** The log holds the transaction lh, and with it the home blocks are those of cur. */
  ghost predicate Logged(l: Log, d: Image, lh: seq<nat>, cur: Image)
  {
    && Loggable(l, d, lh) && |d| == |cur|
    && HeaderCount(d[l.start]) == |lh| && HeaderBlocks(d[l.start]) == lh
    && (forall k | 0 <= k < |lh| :: d[l.start + 1 + k] == cur[lh[k]])
    && (forall b | 0 <= b < |d| && !l.Owns(b) && b !in lh :: d[b] == cur[b])
  }

  /** The home blocks a full recovery will leave, read off the disk alone. */
  ghost predicate Durable(l: Log, d: Image, cur: Image)
  {
    Clean(l, d, cur) || (Readable(l, d) && Logged(l, d, HeaderBlocks(d[l.start]), cur))
  }

  lemma DurableReadable(l: Log, d: Image, cur: Image)
    requires Durable(l, d, cur)
    ensures Readable(l, d)
  {
    if Clean(l, d, cur) {
      assert HeaderBlocks(d[l.start]) == [];
    }
  }

  lemma DurableUnique(l: Log, d: Image, a: Image, b: Image)
    requires Durable(l, d, a) && Durable(l, d, b)
    ensures SameHomes(l, a, b)
  {
    var lh := HeaderBlocks(d[l.start]);
    forall x | 0 <= x < |a| && !l.Owns(x) ensures a[x] == b[x] {
      if x in lh {
        var k :| 0 <= k < |lh| && lh[k] == x;
      }
    }
  }

  // ----- recovery -----

  /** Installing one block of the logged transaction changes nothing durable. */
  lemma InstallStep(l: Log, d: Image, lh: seq<nat>, cur: Image, k: nat)
    requires Logged(l, d, lh, cur) && k < |lh|
    ensures Logged(l, d[lh[k] := d[l.start + 1 + k]], lh, cur)
  {
  }

  /** Clearing the header once every block is installed. */
  lemma EraseStep(l: Log, d: Image, lh: seq<nat>, cur: Image)
    requires Logged(l, d, lh, cur)
    requires forall k | 0 <= k < |lh| :: d[lh[k]] == cur[lh[k]]
    ensures Clean(l, d[l.start := Header(d[l.start], [])], cur)
  {
    HeaderRoundTrip(d[l.start], []);
    forall b | 0 <= b < |d| && !l.Owns(b) ensures d[b] == cur[b] {
      if b in lh {
        var k :| 0 <= k < |lh| && lh[k] == b;
      }
    }
  }

  /** However far a recovery gets, the disk still recovers to the same contents;
      and run to its end it leaves them in place with an empty log. */
  lemma RecoverCutDurable(l: Log, d: Image, cur: Image, k: nat)
    requires Durable(l, d, cur) && Readable(l, d) && k <= |RecoverWrites(l, d)|
    ensures Durable(l, RecoverCut(l, d, k), cur) && Readable(l, RecoverCut(l, d, k))
    ensures k == |RecoverWrites(l, d)| ==> Clean(l, RecoverCut(l, d, k), cur)
  {
    var lh := HeaderBlocks(d[l.start]);
    if Clean(l, d, cur) { CleanLogged(l, d, cur); }
    if k <= |lh| {
      RecoverInstalling(l, d, lh, cur, RecoverWrites(l, d), k);
    } else {
      RecoverErasing(l, d, lh, cur);
    }
    DurableReadable(l, RecoverCut(l, d, k), cur);
  }

  lemma RecoverErasing(l: Log, d: Image, lh: seq<nat>, cur: Image)
    requires Logged(l, d, lh, cur) && Readable(l, d) && lh == HeaderBlocks(d[l.start])
    ensures Clean(l, RecoverCut(l, d, |RecoverWrites(l, d)|), cur)
  {
    var ws := RecoverWrites(l, d);
    RecoverInstalling(l, d, lh, cur, ws, |lh|);
    ApplyStep(d, ws, |ws|);
    EraseStep(l, Apply(d, ws[..|lh|]), lh, cur);
  }

  lemma CleanLogged(l: Log, d: Image, cur: Image)
    requires Clean(l, d, cur)
    ensures Logged(l, d, [], cur)
  {
    assert HeaderBlocks(d[l.start]) == [];
  }

  /** By induction on the number k of home blocks installed so far. */
  lemma {:induction false} RecoverInstalling(l: Log, d: Image, lh: seq<nat>, cur: Image, ws: seq<Write>, k: nat)
    requires Logged(l, d, lh, cur) && k <= |lh| <= |ws|
    requires forall i | 0 <= i < |lh| :: ws[i] == Write(lh[i], d[l.start + 1 + i])
    ensures var e := Apply(d, ws[..k]);
            && Logged(l, e, lh, cur) && e[l.start] == d[l.start]
            && forall i | 0 <= i < k :: e[lh[i]] == cur[lh[i]]
  {
    if k == 0 {
      assert ws[..0] == [];
    } else {
      RecoverInstalling(l, d, lh, cur, ws, k - 1);
      ApplyStep(d, ws, k);
      assert ws[k-1] == Write(lh[k-1], d[l.start + k]);
      assert d[l.start + 1 + (k - 1)] == cur[lh[k-1]];
      InstallPoint(l, Apply(d, ws[..k-1]), lh, cur, k - 1, d[l.start + k]);
    }
  }

  lemma InstallPoint(l: Log, e: Image, lh: seq<nat>, cur: Image, k: nat, v: Block)
    requires Logged(l, e, lh, cur) && k < |lh| && v == cur[lh[k]]
    requires forall i | 0 <= i < k :: e[lh[i]] == cur[lh[i]]
    ensures Logged(l, e[lh[k] := v], lh, cur) && e[lh[k] := v][l.start] == e[l.start]
    ensures forall i | 0 <= i <= k :: e[lh[k] := v][lh[i]] == cur[lh[i]]
  {
    assert e[l.start + 1 + k] == v;
    InstallStep(l, e, lh, cur, k);
  }

  // ----- commit -----

  /** The home blocks once the transaction lh has happened, all at once. */
  ghost function Installed(l: Log, d: Image, lh: seq<nat>, view: Image): (r: Image)
    requires |view| == |d|
    ensures |r| == |d|
    ensures forall b | 0 <= b < |d| :: r[b] == if b in lh then view[b] else d[b]
  {
    seq(|d|, b requires 0 <= b < |d| => if b in lh then view[b] else d[b])
  }

  ghost function CommitCut(l: Log, d: Image, lh: seq<nat>, view: Image, k: nat): (r: Image)
    requires Loggable(l, d, lh) && |view| == |d|
    requires k <= |CommitWrites(l, lh, view, d[l.start])|
  {
    Apply(d, CommitWrites(l, lh, view, d[l.start])[..k])
  }

  /** The state of the disk after k of the commit's 2n+2 writes: d before the
      transaction, cur after it. */
  ghost predicate CommitPoint(l: Log, d: Image, lh: seq<nat>, cur: Image, e: Image, k: nat)
    requires Loggable(l, d, lh) && |cur| == |d|
  {
    && |e| == |d|
    && (k <= |lh| ==>
          Clean(l, e, d) && e[l.start] == d[l.start]
          && forall i | 0 <= i < k :: e[l.start + 1 + i] == cur[lh[i]])
    && (|lh| < k <= 2 * |lh| + 1 ==>
          Logged(l, e, lh, cur) && e[l.start] == Header(d[l.start], lh)
          && forall i | 0 <= i < k - |lh| - 1 :: e[lh[i]] == cur[lh[i]])
    && (k > 2 * |lh| + 1 ==> Clean(l, e, cur))
  }

  lemma LogBlockStep(l: Log, d: Image, lh: seq<nat>, cur: Image, e: Image, k: nat)
    requires Loggable(l, d, lh) && |cur| == |d|
    requires k < |lh| && CommitPoint(l, d, lh, cur, e, k)
    ensures CommitPoint(l, d, lh, cur, e[l.start + 1 + k := cur[lh[k]]], k + 1)
  {
  }

  lemma HeaderStep(l: Log, d: Image, lh: seq<nat>, cur: Image, e: Image)
    requires Loggable(l, d, lh) && |cur| == |d|
    requires forall b | 0 <= b < |d| && b !in lh :: cur[b] == d[b]
    requires CommitPoint(l, d, lh, cur, e, |lh|)
    ensures CommitPoint(l, d, lh, cur, e[l.start := Header(d[l.start], lh)], |lh| + 1)
  {
    HeaderRoundTrip(d[l.start], lh);
  }

  lemma HomeStep(l: Log, d: Image, lh: seq<nat>, cur: Image, e: Image, k: nat)
    requires Loggable(l, d, lh) && |cur| == |d|
    requires k < |lh| && CommitPoint(l, d, lh, cur, e, |lh| + 1 + k)
    ensures CommitPoint(l, d, lh, cur, e[lh[k] := cur[lh[k]]], |lh| + 2 + k)
  {
    InstallPoint(l, e, lh, cur, k, cur[lh[k]]);
  }

  lemma LastStep(l: Log, d: Image, lh: seq<nat>, cur: Image, e: Image)
    requires Loggable(l, d, lh) && |cur| == |d|
    requires CommitPoint(l, d, lh, cur, e, 2 * |lh| + 1)
    ensures CommitPoint(l, d, lh, cur, e[l.start := Header(Header(d[l.start], lh), [])], 2 * |lh| + 2)
  {
    EraseStep(l, e, lh, cur);
  }

  /** ws is the commit of lh that turns the home blocks of d into those of cur. */
  ghost predicate IsCommit(l: Log, d: Image, lh: seq<nat>, cur: Image, ws: seq<Write>)
    requires Loggable(l, d, lh) && |cur| == |d|
  {
    var n := |lh|;
    && |ws| == 2 * n + 2
    && (forall i | 0 <= i < n :: ws[i] == Write(l.start + 1 + i, cur[lh[i]]))
    && ws[n] == Write(l.start, Header(d[l.start], lh))
    && (forall i | 0 <= i < n :: ws[n + 1 + i] == Write(lh[i], cur[lh[i]]))
    && ws[2 * n + 1] == Write(l.start, Header(Header(d[l.start], lh), []))
  }

  lemma CommitShape(l: Log, d: Image, lh: seq<nat>, view: Image)
    requires Loggable(l, d, lh) && |view| == |d| && lh != []
    ensures IsCommit(l, d, lh, Installed(l, d, lh, view), CommitWrites(l, lh, view, d[l.start]))
  {
  }

  lemma {:induction false} CommitReaches(l: Log, d: Image, lh: seq<nat>, cur: Image, ws: seq<Write>, k: nat)
    requires Clean(l, d, d) && Loggable(l, d, lh) && |cur| == |d| && IsCommit(l, d, lh, cur, ws)
    requires forall b | 0 <= b < |d| && b !in lh :: cur[b] == d[b]
    requires k <= |ws|
    ensures CommitPoint(l, d, lh, cur, Apply(d, ws[..k]), k)
  {
    if k == 0 {
      assert ws[..0] == [];
    } else {
      CommitReaches(l, d, lh, cur, ws, k - 1);
      ApplyStep(d, ws, k);
      CommitOne(l, d, lh, cur, ws, Apply(d, ws[..k-1]), k - 1);
    }
  }

  /** The k-th write of the commit. */
  lemma CommitOne(l: Log, d: Image, lh: seq<nat>, cur: Image, ws: seq<Write>, e: Image, k: nat)
    requires Loggable(l, d, lh) && |cur| == |d| && IsCommit(l, d, lh, cur, ws)
    requires forall b | 0 <= b < |d| && b !in lh :: cur[b] == d[b]
    requires k < |ws| && CommitPoint(l, d, lh, cur, e, k)
    ensures ws[k].bno < |d|
    ensures CommitPoint(l, d, lh, cur, e[ws[k].bno := ws[k].data], k + 1)
  {
    hide CommitPoint, Header;
    var n := |lh|;
    if k < n {
      assert ws[k] == Write(l.start + 1 + k, cur[lh[k]]);
      LogBlockStep(l, d, lh, cur, e, k);
    } else if k == n {
      assert ws[k] == Write(l.start, Header(d[l.start], lh));
      HeaderStep(l, d, lh, cur, e);
    } else if k <= 2 * n {
      var i := k - n - 1;
      assert ws[k] == Write(lh[i], cur[lh[i]]) by { assert ws[n + 1 + i] == ws[k]; }
      HomeStep(l, d, lh, cur, e, i);
    } else {
      assert ws[k] == Write(l.start, Header(Header(d[l.start], lh), []));
      LastStep(l, d, lh, cur, e);
    }
  }

  /** The header write is the commit point: a disk stopped before it recovers to
      the old home blocks, one stopped at or after it to the new ones. */
  lemma CommitCutDurable(l: Log, d: Image, lh: seq<nat>, view: Image, k: nat)
    requires Clean(l, d, d) && Loggable(l, d, lh) && |view| == |d|
    requires k <= |CommitWrites(l, lh, view, d[l.start])|
    ensures Durable(l, CommitCut(l, d, lh, view, k),
                    if k <= |lh| then d else Installed(l, d, lh, view))
    ensures k == |CommitWrites(l, lh, view, d[l.start])| ==>
              Clean(l, CommitCut(l, d, lh, view, k), Installed(l, d, lh, view))
  {
    if lh == [] {
      assert CommitWrites(l, lh, view, d[l.start])[..k] == [];
    } else {
      CommitShape(l, d, lh, view);
      CommitReaches(l, d, lh, Installed(l, d, lh, view), CommitWrites(l, lh, view, d[l.start]), k);
    }
  }

  // ----- crashes -----

  /** Recoveries cut short after cuts[0], cuts[1], ... writes, one after another. */
  ghost predicate Survives(l: Log, d: Image, cuts: seq<nat>, e: Image)
    decreases |cuts|
  {
    if cuts == [] then e == d
    else
      && Readable(l, d)
      && cuts[0] <= |RecoverWrites(l, d)|
      && Survives(l, RecoverCut(l, d, cuts[0]), cuts[1..], e)
  }

  lemma {:induction false} SurvivesDurable(l: Log, d: Image, cur: Image, cuts: seq<nat>, e: Image)
    requires Durable(l, d, cur) && Survives(l, d, cuts, e)
    ensures Durable(l, e, cur)
    decreases |cuts|
  {
    if cuts != [] {
      RecoverCutDurable(l, d, cur, cuts[0]);
      SurvivesDurable(l, RecoverCut(l, d, cuts[0]), cur, cuts[1..], e);
    }
  }

  /** Crash atomicity.  Stop a commit after any k writes, then stop any number
      of recoveries anywhere, then let one finish: the log is empty, and the home
      blocks are all the old ones if the header write had not happened, and all
      the transaction's if it had. */
  lemma CrashAtomicity(l: Log, d: Image, lh: seq<nat>, view: Image, k: nat, cuts: seq<nat>, e: Image)
    requires Clean(l, d, d) && Loggable(l, d, lh) && |view| == |d|
    requires k <= |CommitWrites(l, lh, view, d[l.start])|
    requires Survives(l, CommitCut(l, d, lh, view, k), cuts, e)
    ensures Readable(l, e)
    ensures var r := RecoverCut(l, e, |RecoverWrites(l, e)|);
            Clean(l, r, if k <= |lh| then d else Installed(l, d, lh, view))
  {
    var cur := if k <= |lh| then d else Installed(l, d, lh, view);
    CommitCutDurable(l, d, lh, view, k);
    SurvivesDurable(l, CommitCut(l, d, lh, view, k), cur, cuts, e);
    DurableReadable(l, e, cur);
    RecoverCutDurable(l, e, cur, |RecoverWrites(l, e)|);
  }
}
