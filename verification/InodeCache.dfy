/** The inode cache of fs.c under any interleaving: ialloc, iget, idup, ilock, iupdate,
    iunlock and iput, one step for each stretch under a lock. */
module InodeCache {
  import opened Common

  const NINODE := 50

  /** An inode on disk; type 0 is a free one. */
  datatype Dinode = Dinode(typ: nat, nlink: nat, size: nat)

  /** A cache entry; lock is the reference through which its sleep-lock is held. */
  datatype Entry = Entry(inum: nat, ref: nat, valid: bool, copy: Dinode, lock: Option<nat>)

  /** Where the holder of a reference is: keeping it (Held), after ilock (Locked), and in
      iput waiting for the sleep-lock (Putting), with it (Has), having seen that this is
      the last reference and there are no links (Freeing), the inode free on disk (Gone),
      valid cleared (Emptied), or having seen otherwise (Keeping), the lock released and
      the count still to be decremented (Leaving). */
  datatype Pc =
    | Held | Locked | Putting | Has | Freeing | Gone | Emptied | Keeping | Leaving(freed: bool)

  /** A pointer to entry i in some process's hands; read says that ilock has been called
      through it, or through the pointer it was duplicated from. */
  datatype Pointer = Pointer(i: nat, pc: Pc, read: bool)

  /** claims are the inodes ialloc has marked and not yet called iget for. */
  datatype State = State(disk: seq<Dinode>, entry: seq<Entry>, ptr: map<nat, Pointer>, claims: map<nat, nat>)

  /** What is done through one pointer. */
  datatype Action =
    | Lock                                   // ilock
    | Update(d: Dinode)                      // a change followed by iupdate
    | Unlock                                 // iunlock
    | Put                                    // iput is called
    | Acquire                                // its acquiresleep
    | Check                                  // valid, nlink == 0, ref == 1?
    | Free                                   // itrunc, type = 0, iupdate
    | Clear                                  // valid = 0
    | Release                                // releasesleep

  datatype Step =
    | Claim(k: nat, inum: nat, typ: nat)     // ialloc finds a free inode and marks it
    | Get(k: nat, inum: nat, i: nat)         // iget
    | Dup(k: nat, j: nat)                    // idup
    | Act(k: nat, a: Action)
    | Drop(k: nat)                           // iput's ref--

  predicate Caches(e: Entry, inum: nat) { e.ref > 0 && e.inum == inum }

  /** The entry iget settles on: the one with the inode, else the first unused one. */
  predicate Picks(entry: seq<Entry>, inum: nat, i: nat)
  {
    && i < |entry|
    && if entry[i].ref > 0 then Caches(entry[i], inum) && forall j | 0 <= j < i :: !Caches(entry[j], inum)
       else (forall j | 0 <= j < |entry| :: !Caches(entry[j], inum)) && forall j | 0 <= j < i :: entry[j].ref > 0
  }

  function Got(e: Entry, inum: nat): Entry
  {
    if e.ref > 0 then e.(ref := e.ref + 1) else e.(inum := inum, ref := 1, valid := false)
  }

  predicate HasLock(pc: Pc)
  {
    pc.Locked? || pc.Has? || pc.Freeing? || pc.Gone? || pc.Emptied? || pc.Keeping?
  }

  /** A pointer through which the inode has not been freed. */
  predicate Sound(pc: Pc) { !pc.Gone? && !pc.Emptied? && pc != Leaving(true) }

  predicate Enabled(s: State, e: Step)
  {
    match e
    case Claim(k, inum, typ) =>
      k !in s.ptr && k !in s.claims && inum < |s.disk| && s.disk[inum].typ == 0 && typ > 0
    case Get(k, inum, i) =>
      k !in s.ptr && (k in s.claims ==> s.claims[k] == inum) && inum < |s.disk| && Picks(s.entry, inum, i)
    case Dup(k, j) =>
      && k in s.ptr && (s.ptr[k].pc.Held? || s.ptr[k].pc.Locked?) && s.ptr[k].i < |s.entry|
      && j !in s.ptr && j !in s.claims
    case Act(k, a) =>
      && k in s.ptr && s.ptr[k].i < |s.entry| && s.entry[s.ptr[k].i].inum < |s.disk|
      && Ready(s.entry[s.ptr[k].i], s.ptr[k].pc, a)
    case Drop(k) => k in s.ptr && s.ptr[k].pc.Leaving? && s.ptr[k].i < |s.entry| && s.entry[s.ptr[k].i].ref > 0
  }

  predicate Ready(f: Entry, pc: Pc, a: Action)
  {
    match a
    case Lock => pc.Held? && f.lock.None?
    case Update(d) => pc.Locked? && d.typ == f.copy.typ
    case Unlock => pc.Locked?
    case Put => pc.Held?
    case Acquire => pc.Putting? && f.lock.None?
    case Check => pc.Has?
    case Free => pc.Freeing?
    case Clear => pc.Gone?
    case Release => pc.Emptied? || pc.Keeping?
  }

  /** ilock's "no type". */
  predicate Panics(s: State, e: Step)
    requires Enabled(s, e)
  {
    e.Act? && e.a.Lock? && var f := s.entry[s.ptr[e.k].i]; !f.valid && s.disk[f.inum].typ == 0
  }

  /** The pointer's new place, the new entry and the inode on disk after an action. */
  function Acted(k: nat, pc: Pc, f: Entry, d: Dinode, a: Action): (Pc, Entry, Dinode)
  {
    match a
    case Lock => (Locked, if f.valid then f.(lock := Some(k)) else f.(lock := Some(k), valid := true, copy := d), d)
    case Update(d') => (Locked, f.(copy := d'), d')
    case Unlock => (Held, f.(lock := None), d)
    case Put => (Putting, f, d)
    case Acquire => (Has, f.(lock := Some(k)), d)
    case Check => (if f.valid && f.copy.nlink == 0 && f.ref == 1 then Freeing else Keeping, f, d)
    case Free => var d' := Dinode(0, f.copy.nlink, 0); (Gone, f.(copy := d'), d')
    case Clear => (Emptied, f.(valid := false), d)
    case Release => (Leaving(pc.Emptied?), f.(lock := None), d)
  }

  function Do(s: State, e: Step): State
    requires Enabled(s, e)
  {
    match e
    case Claim(k, inum, typ) => s.(disk := s.disk[inum := Dinode(typ, 0, 0)], claims := s.claims[k := inum])
    case Get(k, inum, i) =>
      s.(entry := s.entry[i := Got(s.entry[i], inum)], ptr := s.ptr[k := Pointer(i, Held, false)],
         claims := s.claims - {k})
    case Dup(k, j) =>
      var i := s.ptr[k].i;
      s.(entry := s.entry[i := s.entry[i].(ref := s.entry[i].ref + 1)],
         ptr := s.ptr[j := Pointer(i, Held, s.ptr[k].read)])
    case Act(k, a) =>
      var i := s.ptr[k].i;
      var f := s.entry[i];
      var (pc, f', d') := Acted(k, s.ptr[k].pc, f, s.disk[f.inum], a);
      s.(entry := s.entry[i := f'], ptr := s.ptr[k := Pointer(i, pc, s.ptr[k].read || a.Lock?)],
         disk := s.disk[f.inum := d'])
    case Drop(k) =>
      var i := s.ptr[k].i;
      s.(entry := s.entry[i := s.entry[i].(ref := s.entry[i].ref - 1)], ptr := s.ptr - {k})
  }

  // ----- what every step keeps -----

  /** The pointers to entry i. */
  ghost function On(ptr: map<nat, Pointer>, i: nat): set<nat>
  {
    set k | k in ptr && ptr[k].i == i
  }

  ghost predicate EntryOk(s: State, i: nat)
    requires i < |s.entry|
  {
    var f := s.entry[i];
    && f.ref == |On(s.ptr, i)|
    && (f.lock.Some? ==> f.lock.value in s.ptr && s.ptr[f.lock.value].i == i && HasLock(s.ptr[f.lock.value].pc))
    && (f.ref > 0 ==> f.inum < |s.disk|)
    && (f.ref > 0 && f.valid && !(f.lock.Some? && s.ptr[f.lock.value].pc.Gone?) ==>
          f.copy == s.disk[f.inum] && f.copy.typ != 0)
  }

  /** The holder of the entry's lock has freed the inode and not yet cleared valid. */
  predicate GoneAt(s: State, i: nat)
    requires i < |s.entry|
  {
    s.entry[i].lock.Some? && s.entry[i].lock.value in s.ptr && s.ptr[s.entry[i].lock.value].pc.Gone?
  }

  predicate PointerOk(s: State, k: nat)
    requires k in s.ptr
  {
    var p := s.ptr[k];
    && p.i < |s.entry|
    && var f := s.entry[p.i];
    && f.inum < |s.disk|
    && (HasLock(p.pc) ==> f.lock == Some(k))
    && (Sound(p.pc) ==> s.disk[f.inum].typ != 0)
    && (p.pc.Locked? ==> f.valid)
    && (Sound(p.pc) && p.read ==> f.valid && !GoneAt(s, p.i))
    && (p.pc.Freeing? ==> f.valid && f.copy.nlink == 0 && f.ref == 1)
  }

  predicate ClaimOk(s: State, k: nat)
    requires k in s.claims
  {
    var inum := s.claims[k];
    k !in s.ptr && inum < |s.disk| && s.disk[inum].typ != 0 && s.disk[inum].nlink == 0
  }

  /** Entry i has inode inum, and through pointer k it has not been freed. */
  predicate SoundOn(s: State, k: nat, inum: nat)
  {
    k in s.ptr && s.ptr[k].i < |s.entry| && s.entry[s.ptr[k].i].inum == inum && Sound(s.ptr[k].pc)
  }

  ghost predicate Inv(s: State)
  {
    && (forall i {:trigger EntryOk(s, i)} {:trigger s.entry[i]} | 0 <= i < |s.entry| :: EntryOk(s, i))
    && (forall k {:trigger PointerOk(s, k)} {:trigger s.ptr[k]} | k in s.ptr :: PointerOk(s, k))
    && (forall i, j {:trigger s.entry[i], s.entry[j]} |
          0 <= i < j < |s.entry| && s.entry[i].ref > 0 && s.entry[j].ref > 0 ::
          s.entry[i].inum != s.entry[j].inum)
    && (forall k {:trigger ClaimOk(s, k)} {:trigger s.claims[k]} | k in s.claims :: ClaimOk(s, k))
    && (forall j, k {:trigger s.claims[j], s.claims[k]} | j in s.claims && k in s.claims && j != k ::
          s.claims[j] != s.claims[k])
    && (forall j, k {:trigger s.claims[j], s.ptr[k]} | j in s.claims && k in s.ptr :: !SoundOn(s, k, s.claims[j]))
    && (forall n {:trigger s.disk[n]} | 0 <= n < |s.disk| && s.disk[n].typ == 0 :: s.disk[n].nlink == 0)
  }

  /** Looking up inode inum is a mistake: it is free, being freed, or about to be somebody's new inode. */
  predicate Dead(s: State, k: nat, inum: nat)
  {
    || (inum < |s.disk| && s.disk[inum].typ == 0)
    || (exists t | t in s.ptr :: SoundOn(s, t, inum) && s.ptr[t].pc.Freeing?)
    || (exists j | j in s.claims :: j != k && s.claims[j] == inum)
  }

  predicate Stray(s: State, e: Step) { e.Get? && Dead(s, e.k, e.inum) }

  lemma OnPut(ptr: map<nat, Pointer>, k: nat, p: Pointer, i: nat)
    ensures On(ptr[k := p], i) == if p.i == i then On(ptr, i) + {k} else On(ptr, i) - {k}
  {
  }

  lemma OnDrop(ptr: map<nat, Pointer>, k: nat, i: nat)
    ensures On(ptr - {k}, i) == On(ptr, i) - {k}
  {
  }

  /** The only pointer to an entry with count 1. */
  lemma OnlyOne(s: State, k: nat, t: nat)
    requires Inv(s) && k in s.ptr && t in s.ptr && s.ptr[k].i == s.ptr[t].i && s.ptr[k].i < |s.entry|
    requires s.entry[s.ptr[k].i].ref == 1
    ensures t == k
  {
    var i := s.ptr[k].i;
    assert EntryOk(s, i);
    var x :| On(s.ptr, i) == {x} by { CardOne(On(s.ptr, i)); }
    assert k in On(s.ptr, i) && t in On(s.ptr, i);
  }

  lemma CardOne(a: set<nat>)
    requires |a| == 1
    ensures exists x :: a == {x}
  {
    var x :| x in a;
    assert |a - {x}| == 0;
    assert a == {x};
  }

  /** s' differs from s in where pointer k is, its entry and that entry's inode. */
  ghost predicate Beside(s: State, s': State, k: nat)
  {
    && k in s.ptr && s.ptr[k].i < |s.entry| && s.entry[s.ptr[k].i].inum < |s.disk|
    && s'.claims == s.claims && |s'.entry| == |s.entry| && |s'.disk| == |s.disk| && s'.ptr.Keys == s.ptr.Keys
    && (forall t {:trigger s'.ptr[t]} | t in s.ptr && t != k :: s'.ptr[t] == s.ptr[t])
    && (forall m {:trigger s'.entry[m]} | 0 <= m < |s.entry| && m != s.ptr[k].i :: s'.entry[m] == s.entry[m])
    && (forall n {:trigger s'.disk[n]} | 0 <= n < |s.disk| && n != s.entry[s.ptr[k].i].inum :: s'.disk[n] == s.disk[n])
    && s'.ptr[k].i == s.ptr[k].i && (s'.ptr[k].read ==> s.ptr[k].read || s'.ptr[k].pc.Locked?)
    && s'.entry[s.ptr[k].i].inum == s.entry[s.ptr[k].i].inum && s'.entry[s.ptr[k].i].ref == s.entry[s.ptr[k].i].ref
  }

  /** How: only with the lock, which it takes or gives back; and freeing only as the sole pointer. */
  predicate Fair(k: nat, pc: Pc, f: Entry, d: Dinode, pc': Pc, f': Entry, d': Dinode)
  {
    && (f'.lock == Some(k) <==> HasLock(pc')) && (f'.lock == f.lock || f'.lock.None? || f.lock.None?)
    && (f'.lock.Some? && f'.lock != Some(k) ==> f'.lock == f.lock)
    && (f.lock != Some(k) && f'.lock != Some(k) ==> f' == f && d' == d)
    && (f.lock == Some(k) <==> HasLock(pc))
    && (d' != d ==> f.lock == Some(k) && d.typ != 0 && (d'.typ == 0 ==> f.ref == 1 && d'.nlink == 0) && Sound(pc))
    && (Sound(pc') ==> Sound(pc) && d'.typ != 0)
    && (f'.valid && !pc'.Gone? && (f'.lock == Some(k) || f.lock == Some(k)) ==> f'.copy == d' && d'.typ != 0)
    && (pc'.Locked? ==> f'.valid) && (pc'.Freeing? ==> f'.valid && f'.copy.nlink == 0 && f'.ref == 1)
    && (f.valid && !f'.valid ==> pc.Gone?) && (pc'.Gone? ==> f.ref == 1) && (d' != d ==> f'.valid)
    && f'.inum == f.inum && f'.ref == f.ref
  }

  ghost predicate FairTo(s: State, s': State, k: nat)
    requires Beside(s, s', k)
  {
    var i := s.ptr[k].i;
    var n := s.entry[i].inum;
    Fair(k, s.ptr[k].pc, s.entry[i], s.disk[n], s'.ptr[k].pc, s'.entry[i], s'.disk[n])
  }

  lemma ActedFair(k: nat, pc: Pc, f: Entry, d: Dinode, a: Action)
    requires Ready(f, pc, a) && (a.Lock? && !f.valid ==> d.typ != 0)
    requires (f.lock == Some(k) <==> HasLock(pc)) && (Sound(pc) ==> d.typ != 0)
    requires (pc.Locked? ==> f.valid) && (pc.Freeing? ==> f.valid && f.copy.nlink == 0 && f.ref == 1)
    requires f.valid && !pc.Gone? && (f.lock.None? || f.lock == Some(k)) ==> f.copy == d && d.typ != 0
    ensures var (pc', f', d') := Acted(k, pc, f, d, a); Fair(k, pc, f, d, pc', f', d') && (a.Lock? ==> pc'.Locked?)
  {
  }

  lemma ActFair(s: State, k: nat, a: Action)
    requires Inv(s) && Enabled(s, Act(k, a)) && !Panics(s, Act(k, a))
    ensures Beside(s, Do(s, Act(k, a)), k) && FairTo(s, Do(s, Act(k, a)), k)
  {
    hide Acted, Fair, Inv;
    ActBasis(s, k, a);
    var i := s.ptr[k].i;
    var f := s.entry[i];
    var (pc', f', d') := Acted(k, s.ptr[k].pc, f, s.disk[f.inum], a);
    ActedFair(k, s.ptr[k].pc, f, s.disk[f.inum], a);
    FairSame(k, s.ptr[k].pc, f, s.disk[f.inum], pc', f', d');
  }

  /** What an action starts from. */
  lemma ActBasis(s: State, k: nat, a: Action)
    requires Inv(s) && Enabled(s, Act(k, a)) && !Panics(s, Act(k, a))
    ensures var i := s.ptr[k].i;
            && i < |s.entry| && s.entry[i].inum < |s.disk|
            && var f, pc, d := s.entry[i], s.ptr[k].pc, s.disk[s.entry[i].inum];
               && Ready(f, pc, a) && (a.Lock? && !f.valid ==> d.typ != 0)
               && (f.lock == Some(k) <==> HasLock(pc)) && (Sound(pc) ==> d.typ != 0)
               && (pc.Locked? ==> f.valid) && (pc.Freeing? ==> f.valid && f.copy.nlink == 0 && f.ref == 1)
               && (f.valid && !pc.Gone? && (f.lock.None? || f.lock == Some(k)) ==> f.copy == d && d.typ != 0)
  {
    hide ClaimOk, SoundOn;
    var i := s.ptr[k].i;
    assert EntryOk(s, i) && PointerOk(s, k) && k in On(s.ptr, i);
    assert s.entry[i].ref > 0;
  }

  lemma FairSame(k: nat, pc: Pc, f: Entry, d: Dinode, pc': Pc, f': Entry, d': Dinode)
    requires Fair(k, pc, f, d, pc', f', d')
    ensures f'.inum == f.inum && f'.ref == f.ref
  {
  }

  lemma ActEntry(s: State, s': State, k: nat, m: nat)
    requires Inv(s) && Beside(s, s', k) && FairTo(s, s', k) && m < |s.entry|
    ensures EntryOk(s', m)
  {
    hide PointerOk, ClaimOk, SoundOn;
    assert EntryOk(s, m) && EntryOk(s, s.ptr[k].i);
    assert k in On(s.ptr, s.ptr[k].i);
    SameOn(s, s', k, m);
  }

  lemma SameOn(s: State, s': State, k: nat, m: nat)
    requires Beside(s, s', k)
    ensures On(s'.ptr, m) == On(s.ptr, m)
  {
    forall t | t in s.ptr ensures s'.ptr[t].i == s.ptr[t].i { if t != k { } }
  }

  lemma ActPointer(s: State, s': State, k: nat, t: nat)
    requires Inv(s) && Beside(s, s', k) && FairTo(s, s', k) && t in s.ptr
    ensures PointerOk(s', t)
  {
    assert PointerOk(s, t) && PointerOk(s, k) && EntryOk(s, s.ptr[k].i) && EntryOk(s, s.ptr[t].i);
    assert k in On(s.ptr, s.ptr[k].i) && t in On(s.ptr, s.ptr[t].i);
    if s.entry[s.ptr[k].i].ref == 1 && s.ptr[t].i == s.ptr[k].i { OnlyOne(s, k, t); }
  }

  lemma ActRest(s: State, s': State, k: nat)
    requires Inv(s) && Beside(s, s', k) && FairTo(s, s', k)
    requires forall i | 0 <= i < |s'.entry| :: EntryOk(s', i)
    requires forall t | t in s'.ptr :: PointerOk(s', t)
    ensures Inv(s')
  {
    hide EntryOk, PointerOk;
    assert s.ptr[k] == s.ptr[k];
    forall j | j in s'.claims ensures ClaimOk(s', j) { assert ClaimOk(s, j); assert !SoundOn(s, k, s.claims[j]); }
    forall j, t {:trigger s'.claims[j], s'.ptr[t]} | j in s'.claims && t in s'.ptr
      ensures !SoundOn(s', t, s'.claims[j]) {
      assert !SoundOn(s, t, s.claims[j]);
    }
  }

  lemma ActKept(s: State, k: nat, a: Action)
    requires Inv(s) && Enabled(s, Act(k, a)) && !Panics(s, Act(k, a))
    ensures Inv(Do(s, Act(k, a)))
  {
    hide Inv, FairTo, EntryOk, PointerOk;
    var s' := Do(s, Act(k, a));
    ActFair(s, k, a);
    forall m | 0 <= m < |s'.entry| ensures EntryOk(s', m) { ActEntry(s, s', k, m); }
    forall t | t in s'.ptr ensures PointerOk(s', t) { ActPointer(s, s', k, t); }
    ActRest(s, s', k);
  }

  lemma LockedUsed(s: State, i: nat)
    requires Inv(s) && i < |s.entry|
    ensures s.entry[i].lock.Some? ==> s.entry[i].lock.value in On(s.ptr, i)
  {
    assert EntryOk(s, i);
  }

  lemma UnusedEntry(s: State, i: nat)
    requires Inv(s) && i < |s.entry| && s.entry[i].ref == 0
    ensures On(s.ptr, i) == {} && s.entry[i].lock.None? && forall t | t in s.ptr :: s.ptr[t].i != i
  {
    assert EntryOk(s, i);
    assert On(s.ptr, i) == {};
    forall t | t in s.ptr ensures s.ptr[t].i != i { assert t !in On(s.ptr, i); }
    LockedUsed(s, i);
  }

  lemma GetEntry(s: State, k: nat, inum: nat, i: nat, m: nat)
    requires Inv(s) && Enabled(s, Get(k, inum, i)) && m < |s.entry|
    ensures EntryOk(Do(s, Get(k, inum, i)), m)
  {
    assert EntryOk(s, m);
    OnPut(s.ptr, k, Pointer(i, Held, false), m);
    assert k !in On(s.ptr, m);
    if s.entry[m].ref == 0 { UnusedEntry(s, m); }
  }

  lemma GetPointer(s: State, k: nat, inum: nat, i: nat, t: nat)
    requires Inv(s) && Enabled(s, Get(k, inum, i)) && !Dead(s, k, inum) && (t in s.ptr || t == k)
    ensures PointerOk(Do(s, Get(k, inum, i)), t)
  {
    if t != k {
      assert PointerOk(s, t);
      if s.ptr[t].i == i {
        if s.entry[i].ref == 0 { UnusedEntry(s, i); }
        assert SoundOn(s, t, inum) ==> !s.ptr[t].pc.Freeing?;
      }
    }
  }

  lemma GetRest(s: State, k: nat, inum: nat, i: nat)
    requires Inv(s) && Enabled(s, Get(k, inum, i)) && !Dead(s, k, inum)
    requires var s' := Do(s, Get(k, inum, i));
             (forall m | 0 <= m < |s'.entry| :: EntryOk(s', m)) && (forall t | t in s'.ptr :: PointerOk(s', t))
    ensures Inv(Do(s, Get(k, inum, i)))
  {
    hide EntryOk, PointerOk;
    var s' := Do(s, Get(k, inum, i));
    forall j | j in s'.claims ensures ClaimOk(s', j) { assert ClaimOk(s, j); }
    forall j, t {:trigger s'.claims[j], s'.ptr[t]} | j in s'.claims && t in s'.ptr
      ensures !SoundOn(s', t, s'.claims[j]) {
      if t != k {
        assert !SoundOn(s, t, s.claims[j]);
        if s.entry[i].ref == 0 { UnusedEntry(s, i); }
      }
    }
  }

  /** iget is sound exactly when the inode it is given is alive. */
  lemma GetKept(s: State, k: nat, inum: nat, i: nat)
    requires Inv(s) && Enabled(s, Get(k, inum, i))
    ensures Inv(Do(s, Get(k, inum, i))) <==> !Dead(s, k, inum)
  {
    var s' := Do(s, Get(k, inum, i));
    if Dead(s, k, inum) {
      GetBreaks(s, k, inum, i);
    } else {
      forall m | 0 <= m < |s'.entry| ensures EntryOk(s', m) { GetEntry(s, k, inum, i, m); }
      forall t | t in s'.ptr ensures PointerOk(s', t) { GetPointer(s, k, inum, i, t); }
      GetRest(s, k, inum, i);
    }
  }

  lemma GetBreaks(s: State, k: nat, inum: nat, i: nat)
    requires Inv(s) && Enabled(s, Get(k, inum, i)) && Dead(s, k, inum)
    ensures !Inv(Do(s, Get(k, inum, i)))
  {
    var s' := Do(s, Get(k, inum, i));
    if s.disk[inum].typ == 0 {
      assert !PointerOk(s', k);
    } else if j :| j in s.claims && j != k && s.claims[j] == inum {
      assert SoundOn(s', k, s'.claims[j]) && s'.ptr[k].i == i;
    } else {
      var t :| t in s.ptr && SoundOn(s, t, inum) && s.ptr[t].pc.Freeing?;
      assert PointerOk(s, t) && EntryOk(s, s.ptr[t].i) && s.entry[s.ptr[t].i].ref == 1;
      assert Caches(s.entry[s.ptr[t].i], inum);
      assert s.ptr[t].i == i;
      assert !PointerOk(s', t);
    }
  }

  lemma DupEntry(s: State, k: nat, j: nat, m: nat)
    requires Inv(s) && Enabled(s, Dup(k, j)) && m < |s.entry|
    ensures EntryOk(Do(s, Dup(k, j)), m) && s.entry[s.ptr[k].i].ref > 0
  {
    var i := s.ptr[k].i;
    assert EntryOk(s, m) && EntryOk(s, i) && k in On(s.ptr, i);
    OnPut(s.ptr, j, Pointer(i, Held, s.ptr[k].read), m);
    assert j !in On(s.ptr, m);
  }

  lemma DupPointer(s: State, k: nat, j: nat, t: nat)
    requires Inv(s) && Enabled(s, Dup(k, j)) && (t in s.ptr || t == j)
    ensures PointerOk(Do(s, Dup(k, j)), t)
  {
    var i := s.ptr[k].i;
    assert PointerOk(s, k) && s.disk[s.entry[i].inum].typ != 0;
    if t != j { assert PointerOk(s, t); if s.ptr[t].i == i && s.entry[i].ref == 1 { OnlyOne(s, k, t); } }
  }

  lemma DupKept(s: State, k: nat, j: nat)
    requires Inv(s) && Enabled(s, Dup(k, j))
    ensures Inv(Do(s, Dup(k, j)))
  {
    hide EntryOk, PointerOk, Inv;
    var s' := Do(s, Dup(k, j));
    DupEntry(s, k, j, s.ptr[k].i);
    forall m | 0 <= m < |s'.entry| ensures EntryOk(s', m) { DupEntry(s, k, j, m); }
    forall t | t in s'.ptr ensures PointerOk(s', t) { DupPointer(s, k, j, t); }
    Grown(s, s', s.ptr[k].i, k, j);
  }

  lemma Grown(s: State, s': State, i: nat, k: nat, j: nat)
    requires Inv(s) && k in s.ptr && s.ptr[k].i == i < |s.entry| && Sound(s.ptr[k].pc) && j !in s.ptr && j !in s.claims
    requires s.entry[i].ref > 0
    requires s' == s.(entry := s.entry[i := s.entry[i].(ref := s.entry[i].ref + 1)],
                      ptr := s.ptr[j := Pointer(i, Held, s.ptr[k].read)])
    requires (forall m | 0 <= m < |s'.entry| :: EntryOk(s', m)) && (forall t | t in s'.ptr :: PointerOk(s', t))
    ensures Inv(s')
  {
    hide EntryOk, PointerOk;
    forall c | c in s'.claims ensures ClaimOk(s', c) { assert ClaimOk(s, c); }
    forall c, t {:trigger s'.claims[c], s'.ptr[t]} | c in s'.claims && t in s'.ptr
      ensures !SoundOn(s', t, s'.claims[c]) {
      assert !SoundOn(s, if t == j then k else t, s.claims[c]);
    }
  }

  lemma DropEntry(s: State, k: nat, m: nat)
    requires Inv(s) && Enabled(s, Drop(k)) && m < |s.entry|
    ensures EntryOk(Do(s, Drop(k)), m)
  {
    hide EntryOk, ClaimOk, SoundOn;
    assert PointerOk(s, k) && EntryOk(s, s.ptr[k].i) && EntryOk(s, m);
    Dropped(s, k, m);
  }

  /** Entry m loses pointer k, which is not its lock's holder, or does not have it. */
  lemma Dropped(s: State, k: nat, m: nat)
    requires k in s.ptr && s.ptr[k].i < |s.entry| && m < |s.entry| && EntryOk(s, s.ptr[k].i) && EntryOk(s, m)
    requires !HasLock(s.ptr[k].pc)
    ensures s.entry[s.ptr[k].i].ref > 0
    ensures EntryOk(s.(entry := s.entry[s.ptr[k].i := s.entry[s.ptr[k].i].(ref := s.entry[s.ptr[k].i].ref - 1)],
                       ptr := s.ptr - {k}), m)
  {
    OnDrop(s.ptr, k, m);
    assert k in On(s.ptr, s.ptr[k].i);
    assert k in On(s.ptr, m) <==> m == s.ptr[k].i;
  }

  lemma DropPointer(s: State, k: nat, t: nat)
    requires Inv(s) && Enabled(s, Drop(k)) && t in s.ptr && t != k
    ensures PointerOk(Do(s, Drop(k)), t)
  {
    assert PointerOk(s, k) && PointerOk(s, t);
    if s.ptr[t].i == s.ptr[k].i && s.entry[s.ptr[k].i].ref == 1 { OnlyOne(s, k, t); }
  }

  lemma DropKept(s: State, k: nat)
    requires Inv(s) && Enabled(s, Drop(k))
    ensures Inv(Do(s, Drop(k)))
  {
    hide EntryOk, PointerOk, Inv;
    var s' := Do(s, Drop(k));
    forall m | 0 <= m < |s'.entry| ensures EntryOk(s', m) { DropEntry(s, k, m); }
    forall t | t in s'.ptr ensures PointerOk(s', t) { DropPointer(s, k, t); }
    DropRest(s, k);
  }

  lemma DropRest(s: State, k: nat)
    requires Inv(s) && Enabled(s, Drop(k))
    requires var s' := Do(s, Drop(k));
             (forall m | 0 <= m < |s'.entry| :: EntryOk(s', m)) && (forall t | t in s'.ptr :: PointerOk(s', t))
    ensures Inv(Do(s, Drop(k)))
  {
    hide EntryOk, PointerOk;
    var s' := Do(s, Drop(k));
    forall c | c in s'.claims ensures ClaimOk(s', c) { assert ClaimOk(s, c); }
    forall c, t {:trigger s'.claims[c], s'.ptr[t]} | c in s'.claims && t in s'.ptr
      ensures !SoundOn(s', t, s'.claims[c]) {
      assert !SoundOn(s, t, s.claims[c]);
    }
  }

  lemma ClaimKept(s: State, k: nat, inum: nat, typ: nat)
    requires Inv(s) && Enabled(s, Claim(k, inum, typ))
    ensures Inv(Do(s, Claim(k, inum, typ)))
  {
    var s' := Do(s, Claim(k, inum, typ));
    forall m | 0 <= m < |s'.entry| ensures EntryOk(s', m) { assert EntryOk(s, m); }
    forall t | t in s'.ptr ensures PointerOk(s', t) { assert PointerOk(s, t); }
    ClaimRest(s, k, inum, typ);
  }

  lemma ClaimRest(s: State, k: nat, inum: nat, typ: nat)
    requires Inv(s) && Enabled(s, Claim(k, inum, typ))
    requires var s' := Do(s, Claim(k, inum, typ));
             (forall m | 0 <= m < |s'.entry| :: EntryOk(s', m)) && (forall t | t in s'.ptr :: PointerOk(s', t))
    ensures Inv(Do(s, Claim(k, inum, typ)))
  {
    hide EntryOk;
    var s' := Do(s, Claim(k, inum, typ));
    forall c | c in s'.claims ensures ClaimOk(s', c) { if c != k { assert ClaimOk(s, c); } }
    forall c, t {:trigger s'.claims[c], s'.ptr[t]} | c in s'.claims && t in s'.ptr
      ensures !SoundOn(s', t, s'.claims[c]) {
      assert PointerOk(s, t);
      if c != k { assert !SoundOn(s, t, s.claims[c]); }
    }
    forall c, d {:trigger s'.claims[c], s'.claims[d]} | c in s'.claims && d in s'.claims && c != d
      ensures s'.claims[c] != s'.claims[d] {
      if c != k { assert ClaimOk(s, c); }
      if d != k { assert ClaimOk(s, d); }
    }
  }

  /** Every step but a lookup of a dead inode keeps the invariant, and that one never does. */
  lemma StepKept(s: State, e: Step)
    requires Inv(s) && Enabled(s, e) && !Panics(s, e)
    ensures Inv(Do(s, e)) <==> !Stray(s, e)
  {
    hide Inv;
    match e
    case Claim(k, inum, typ) => ClaimKept(s, k, inum, typ);
    case Get(k, inum, i) => GetKept(s, k, inum, i);
    case Dup(k, j) => DupKept(s, k, j);
    case Act(k, a) => ActKept(s, k, a);
    case Drop(k) => DropKept(s, k);
  }

  /** ilock finds a type: whoever has a pointer that it may lock has an inode that is allocated. */
  lemma NoPanic(s: State, e: Step)
    requires Inv(s) && Enabled(s, e)
    ensures !Panics(s, e)
  {
    if e.Act? && e.a.Lock? { assert PointerOk(s, e.k); }
  }

  /** An inode on disk changes in three ways: ialloc gives a free one the type it is asked for,
      who has it locked may change all but the type, and iput frees one without links. */
  lemma StepDisk(s: State, e: Step, n: nat)
    requires Inv(s) && Enabled(s, e) && n < |s.disk|
    ensures |Do(s, e).disk| == |s.disk|
    ensures var d, d' := s.disk[n], Do(s, e).disk[n];
            if e.Claim? && e.inum == n then d.typ == 0 && d' == Dinode(e.typ, 0, 0)
            else if e.Act? && s.entry[s.ptr[e.k].i].inum == n && e.a.Update? then
              s.ptr[e.k].pc == Locked && d' == e.a.d && d'.typ == d.typ != 0
            else if e.Act? && s.entry[s.ptr[e.k].i].inum == n && e.a.Free? then
              s.ptr[e.k].pc == Freeing && d.typ != 0 && d.nlink == 0 && d' == Dinode(0, 0, 0)
            else d' == d
  {
    hide ClaimOk, SoundOn;
    if e.Act? { assert PointerOk(s, e.k) && EntryOk(s, s.ptr[e.k].i) && e.k in On(s.ptr, s.ptr[e.k].i); }
  }

  // ----- what it means -----

  /** An inode is in one entry only, and its sleep-lock in one pair of hands. */
  lemma OneEntry(s: State, t: nat, u: nat)
    requires Inv(s) && t in s.ptr && u in s.ptr && s.ptr[t].i < |s.entry| && s.ptr[u].i < |s.entry|
    requires s.entry[s.ptr[t].i].inum == s.entry[s.ptr[u].i].inum
    ensures s.ptr[t].i == s.ptr[u].i
    ensures HasLock(s.ptr[t].pc) && HasLock(s.ptr[u].pc) ==> t == u
  {
    assert PointerOk(s, t) && PointerOk(s, u) && EntryOk(s, s.ptr[t].i) && EntryOk(s, s.ptr[u].i);
    assert t in On(s.ptr, s.ptr[t].i) && u in On(s.ptr, s.ptr[u].i);
  }

  /** After ilock the copy in memory is the inode on disk, and it is allocated. */
  lemma LockedAgrees(s: State, k: nat)
    requires Inv(s) && k in s.ptr && s.ptr[k].pc.Locked?
    ensures s.ptr[k].i < |s.entry|
    ensures var f := s.entry[s.ptr[k].i]; f.inum < |s.disk| && f.valid && f.copy == s.disk[f.inum] && f.copy.typ != 0
  {
    assert PointerOk(s, k) && EntryOk(s, s.ptr[k].i) && k in On(s.ptr, s.ptr[k].i);
  }

  /** iput frees an inode that nothing names and to which it has the only pointer. */
  lemma FreedAlone(s: State, k: nat)
    requires Inv(s) && Enabled(s, Act(k, Free))
    ensures var n := s.entry[s.ptr[k].i].inum;
            && s.disk[n].nlink == 0 && s.disk[n].typ != 0 && Do(s, Act(k, Free)).disk[n] == Dinode(0, 0, 0)
            && Do(s, Act(k, Free)).entry[s.ptr[k].i].copy == Dinode(0, 0, 0)
            && (forall t | t in s.ptr && s.ptr[t].i < |s.entry| && s.entry[s.ptr[t].i].inum == n :: t == k)
            && forall j | j in s.claims :: s.claims[j] != n
  {
    var n := s.entry[s.ptr[k].i].inum;
    assert PointerOk(s, k) && EntryOk(s, s.ptr[k].i);
    forall t | t in s.ptr && s.ptr[t].i < |s.entry| && s.entry[s.ptr[t].i].inum == n ensures t == k {
      OneEntry(s, k, t);
      OnlyOne(s, k, t);
    }
    forall j | j in s.claims ensures s.claims[j] != n { assert !SoundOn(s, k, s.claims[j]); }
  }

  // ----- who frees an inode without links -----

  /** Pointer t will come to iput's check for inode n, or is past it and about to free. */
  predicate Tends(s: State, t: nat, n: nat)
  {
    t in s.ptr && s.ptr[t].i < |s.entry| && s.entry[s.ptr[t].i].inum == n
    && (s.ptr[t].pc.Held? || s.ptr[t].pc.Locked? || s.ptr[t].pc.Putting? || s.ptr[t].pc.Has? || s.ptr[t].pc.Freeing?)
  }

  ghost predicate Tended(s: State, n: nat) { exists t :: Tends(s, t, n) }

  ghost predicate Claimed(s: State, n: nat) { exists j :: j in s.claims && s.claims[j] == n }

  /** No inode is allocated without a link, a claim or somebody to free it. */
  ghost predicate NoOrphan(s: State)
  {
    forall n {:trigger s.disk[n]} | 0 <= n < |s.disk| && s.disk[n].typ != 0 && s.disk[n].nlink == 0 ::
      Claimed(s, n) || Tended(s, n)
  }

  /** iput's check finds no links but another reference, when nobody else will check. */
  ghost predicate Forgets(s: State, e: Step)
    requires Enabled(s, e)
  {
    e.Act? && e.a.Check? &&
    var f := s.entry[s.ptr[e.k].i];
    && s.disk[f.inum].nlink == 0 && !(f.valid && f.ref == 1)
    && forall t | t in s.ptr && t != e.k && s.ptr[t].i == s.ptr[e.k].i :: s.ptr[t].pc.Leaving?
  }

  /** At the check every other pointer to the entry is in front of its own, or past the lock. */
  lemma LeavingOrTends(s: State, k: nat, t: nat)
    requires Inv(s) && Enabled(s, Act(k, Check)) && t in s.ptr && t != k
    ensures Tends(s, t, s.entry[s.ptr[k].i].inum) <==> s.ptr[t].i == s.ptr[k].i && !s.ptr[t].pc.Leaving?
  {
    assert PointerOk(s, k) && PointerOk(s, t);
    if Tends(s, t, s.entry[s.ptr[k].i].inum) { OneEntry(s, k, t); }
  }

  lemma OrphanAct(s: State, k: nat, a: Action, n: nat)
    requires Inv(s) && NoOrphan(s) && Enabled(s, Act(k, a)) && !Panics(s, Act(k, a)) && n < |s.disk|
    requires var d := Do(s, Act(k, a)).disk[n]; d.typ != 0 && d.nlink == 0
    requires !Forgets(s, Act(k, a))
    ensures Claimed(Do(s, Act(k, a)), n) || Tended(Do(s, Act(k, a)), n)
  {
    hide Inv, EntryOk, PointerOk, Acted;
    var s' := Do(s, Act(k, a));
    ActFair(s, k, a);
    TendsOn(s, s', k);
    if s.entry[s.ptr[k].i].inum != n {
      if Claimed(s, n) {
        var j :| j in s.claims && s.claims[j] == n;
        assert j in s'.claims && s'.claims[j] == n;
      } else {
        var t :| Tends(s, t, n);
        assert Tends(s', t, n);
      }
    } else {
      OrphanOwn(s, k, a);
    }
  }

  lemma TendsOn(s: State, s': State, k: nat)
    requires Beside(s, s', k)
    ensures forall t, n :: t != k && Tends(s, t, n) ==> Tends(s', t, n)
  {
    forall t, n | t != k && Tends(s, t, n) ensures Tends(s', t, n) {
      assert s'.ptr[t] == s.ptr[t];
    }
  }

  lemma CheckAgrees(s: State, k: nat)
    requires Inv(s) && Enabled(s, Act(k, Check))
    ensures var f := s.entry[s.ptr[k].i];
            && (f.valid ==> f.copy == s.disk[f.inum]) && s.disk[f.inum].typ != 0 && !Claimed(s, f.inum)
            && Tends(s, k, f.inum)
  {
    assert PointerOk(s, k) && EntryOk(s, s.ptr[k].i) && k in On(s.ptr, s.ptr[k].i);
    var n := s.entry[s.ptr[k].i].inum;
    forall j | j in s.claims ensures s.claims[j] != n { assert !SoundOn(s, k, s.claims[j]); }
  }

  lemma OrphanOwn(s: State, k: nat, a: Action)
    requires Inv(s) && NoOrphan(s) && Enabled(s, Act(k, a)) && !Panics(s, Act(k, a))
    requires var d := Do(s, Act(k, a)).disk[s.entry[s.ptr[k].i].inum]; d.typ != 0 && d.nlink == 0
    requires !Forgets(s, Act(k, a))
    requires forall t, n :: t != k && Tends(s, t, n) ==> Tends(Do(s, Act(k, a)), t, n)
    ensures var n := s.entry[s.ptr[k].i].inum; Claimed(Do(s, Act(k, a)), n) || Tended(Do(s, Act(k, a)), n)
  {
    hide Inv;
    var s', n := Do(s, Act(k, a)), s.entry[s.ptr[k].i].inum;
    if Tends(s', k, n) {
    } else {
      assert s'.disk[n] == s.disk[n];
      if a.Check? {
        CheckAgrees(s, k);
        var t :| t in s.ptr && t != k && s.ptr[t].i == s.ptr[k].i && !s.ptr[t].pc.Leaving?;
        LeavingOrTends(s, k, t);
        assert Tends(s', t, n);
      } else if Claimed(s, n) {
        var j :| j in s.claims && s.claims[j] == n;
        assert j in s'.claims && s'.claims[j] == n;
      } else {
        var t :| Tends(s, t, n);
        assert Tends(s', t, n);
      }
    }
  }

  lemma OrphanOther(s: State, e: Step, n: nat)
    requires Inv(s) && NoOrphan(s) && Enabled(s, e) && !e.Act? && n < |s.disk|
    requires var d := Do(s, e).disk[n]; d.typ != 0 && d.nlink == 0
    ensures Claimed(Do(s, e), n) || Tended(Do(s, e), n)
  {
    hide Inv;
    var s' := Do(s, e);
    if e.Claim? && e.inum == n {
      assert e.k in s'.claims && s'.claims[e.k] == n;
    } else if e.Get? && e.inum == n {
      assert Tends(s', e.k, n);
    } else if Claimed(s, n) {
      var j :| j in s.claims && s.claims[j] == n;
      assert j in s'.claims && s'.claims[j] == n;
    } else {
      var t :| Tends(s, t, n);
      if e.Get? && s.entry[e.i].ref == 0 { UnusedEntry(s, e.i); }
      assert Tends(s', t, n);
    }
  }

  lemma ForgetsOrphan(s: State, e: Step)
    requires Inv(s) && Enabled(s, e) && Forgets(s, e)
    ensures !NoOrphan(Do(s, e))
  {
    hide Inv;
    var s', k, n := Do(s, e), e.k, s.entry[s.ptr[e.k].i].inum;
    CheckAgrees(s, k);
    assert s'.disk[n] == s.disk[n];
    forall t ensures !Tends(s', t, n) {
      if t != k && t in s.ptr { LeavingOrTends(s, k, t); }
    }
    forall j | j in s'.claims ensures s'.claims[j] != n { assert s.claims[j] != n; }
    assert !Claimed(s', n) && !Tended(s', n);
  }

  /** iput forgets an inode exactly when its check finds no links and another reference
      (or the inode never read), and every other pointer to the entry is in an iput that
      has let go of the lock and not yet counted down. */
  lemma StepNoOrphan(s: State, e: Step)
    requires Inv(s) && NoOrphan(s) && Enabled(s, e) && !Panics(s, e)
    ensures NoOrphan(Do(s, e)) <==> !Forgets(s, e)
  {
    hide Inv, Forgets, Tended, Claimed;
    var s' := Do(s, e);
    if Forgets(s, e) {
      ForgetsOrphan(s, e);
    } else {
      forall n | 0 <= n < |s'.disk| && s'.disk[n].typ != 0 && s'.disk[n].nlink == 0
        ensures Claimed(s', n) || Tended(s', n) {
        if e.Act? { OrphanAct(s, e.k, e.a, n); } else { OrphanOther(s, e, n); }
      }
    }
  }

  lemma Another(a: set<nat>, k: nat) returns (t: nat)
    requires k in a && |a| != 1
    ensures t in a && t != k
  {
    assert |a - {k}| == |a| - 1;
    t :| t in a - {k};
  }

  /** So there is such an iput, unless the inode was never read. */
  lemma ForgetsOverlap(s: State, e: Step)
    requires Inv(s) && Enabled(s, e) && Forgets(s, e) && s.entry[s.ptr[e.k].i].valid
    ensures exists t :: t in s.ptr && t != e.k && s.ptr[t].i == s.ptr[e.k].i && s.ptr[t].pc.Leaving?
  {
    var k, i := e.k, s.ptr[e.k].i;
    assert PointerOk(s, k) && EntryOk(s, i) && k in On(s.ptr, i);
    var t := Another(On(s.ptr, i), k);
    assert t in s.ptr && s.ptr[t].i == i;
  }

  /** A free inode looked up all the same, as the ".." of a removed directory may name one:
      the ilock that follows panics. */
  lemma StrayPanics(s: State, k: nat, inum: nat, i: nat)
    requires Inv(s) && Enabled(s, Get(k, inum, i)) && s.disk[inum].typ == 0
    requires forall j | 0 <= j < |s.entry| :: !Caches(s.entry[j], inum)
    ensures var s' := Do(s, Get(k, inum, i)); Enabled(s', Act(k, Lock)) && Panics(s', Act(k, Lock))
  {
    UnusedEntry(s, i);
  }

  // ----- runs -----

  /** Nothing is cached; a free inode has no links. */
  ghost predicate Start(s: State)
  {
    && |s.entry| == NINODE && s.ptr == map[] && s.claims == map[]
    && (forall i {:trigger s.entry[i]} | 0 <= i < NINODE :: s.entry[i].ref == 0 && s.entry[i].lock.None?)
    && forall n {:trigger s.disk[n]} | 0 <= n < |s.disk| && s.disk[n].typ == 0 :: s.disk[n].nlink == 0
  }

  ghost predicate IsRun(ss: seq<State>, es: seq<Step>)
  {
    && |ss| == |es| + 1 && Start(ss[0])
    && forall k {:trigger es[k]} | 0 <= k < |es| ::
         Enabled(ss[k], es[k]) && !Panics(ss[k], es[k]) && ss[k + 1] == Do(ss[k], es[k])
  }

  /** iget is called by ialloc for its claim, and otherwise for an inode that has a link. */
  predicate Named(s: State, e: Step)
  {
    e.Get? ==> e.k in s.claims || (e.inum < |s.disk| && s.disk[e.inum].nlink > 0)
  }

  lemma ClaimAlone(s: State, j: nat, t: nat)
    requires Inv(s) && j in s.claims && t in s.ptr
    ensures !SoundOn(s, t, s.claims[j])
  {
  }

  /** What has a name, or is one's own new inode, is alive. */
  lemma NamedAlive(s: State, e: Step)
    requires Inv(s) && Enabled(s, e) && Named(s, e)
    ensures !Stray(s, e)
  {
    if e.Get? {
      forall t | t in s.ptr && SoundOn(s, t, e.inum) ensures !s.ptr[t].pc.Freeing? {
        assert PointerOk(s, t) && EntryOk(s, s.ptr[t].i) && t in On(s.ptr, s.ptr[t].i);
        if e.k in s.claims { ClaimAlone(s, e.k, t); }
      }
      forall j | j in s.claims && j != e.k ensures s.claims[j] != e.inum {
        assert ClaimOk(s, j);
      }
      if e.k in s.claims { assert ClaimOk(s, e.k); }
    }
  }

  lemma StartOk(s: State)
    requires Start(s)
    ensures Inv(s)
  {
    forall i | 0 <= i < |s.entry| ensures EntryOk(s, i) { assert On(s.ptr, i) == {}; }
  }

  /** However the processes interleave, as long as they look up inodes by name. */
  lemma {:induction false} RunSafe(ss: seq<State>, es: seq<Step>, k: nat)
    requires IsRun(ss, es) && k < |ss| && forall j | 0 <= j < |es| :: Named(ss[j], es[j])
    ensures Inv(ss[k])
    ensures k < |es| ==> !Stray(ss[k], es[k])
  {
    hide Inv, Stray, Named, Start, Do, Panics, Enabled;
    if k == 0 {
      StartOk(ss[0]);
    } else {
      RunSafe(ss, es, k - 1);
      assert Enabled(ss[k - 1], es[k - 1]);
      StepKept(ss[k - 1], es[k - 1]);
    }
    if k < |es| {
      assert Enabled(ss[k], es[k]);
      NamedAlive(ss[k], es[k]);
    }
  }

  /** Pointer k leads to inode inum. */
  predicate LeadsTo(s: State, k: nat, inum: nat)
  {
    k in s.ptr && s.ptr[k].i < |s.entry| && s.entry[s.ptr[k].i].inum == inum
  }

  /** iget gives a pointer to the inode, idup one to the same, and a pointer leads there
      until it is dropped. */
  lemma StepLeads(s: State, e: Step, k: nat, inum: nat)
    requires Inv(s) && Enabled(s, e) && LeadsTo(s, k, inum)
    ensures e != Drop(k) <==> LeadsTo(Do(s, e), k, inum)
    ensures e.Dup? && e.k == k ==> LeadsTo(Do(s, e), e.j, inum)
  {
    hide Inv, Acted;
    Referenced(s, k);
    if e.Act? {
      var f := s.entry[s.ptr[e.k].i];
      ActedSame(e.k, s.ptr[e.k].pc, f, s.disk[f.inum], e.a);
    }
  }

  lemma Referenced(s: State, k: nat)
    requires Inv(s) && k in s.ptr
    ensures s.ptr[k].i < |s.entry| && s.entry[s.ptr[k].i].ref > 0
  {
    hide ClaimOk, SoundOn;
    assert PointerOk(s, k) && EntryOk(s, s.ptr[k].i) && k in On(s.ptr, s.ptr[k].i);
  }

  lemma {:induction false} RunLeads(ss: seq<State>, es: seq<Step>, j: nat, m: nat)
    requires IsRun(ss, es) && j < m <= |es| && es[j].Get? && forall l | 0 <= l < |es| :: Named(ss[l], es[l])
    requires forall l | j < l < m :: es[l] != Drop(es[j].k)
    ensures LeadsTo(ss[m], es[j].k, es[j].inum)
    decreases m
  {
    hide Inv, Named, Start, Panics, LeadsTo, Do;
    RunSafe(ss, es, m - 1);
    assert Enabled(ss[m - 1], es[m - 1]) && ss[m] == Do(ss[m - 1], es[m - 1]);
    if j == m - 1 {
      GetLeads(ss[j], es[j]);
    } else {
      RunLeads(ss, es, j, m - 1);
      StepLeads(ss[m - 1], es[m - 1], es[j].k, es[j].inum);
    }
  }

  lemma GetLeads(s: State, e: Step)
    requires Enabled(s, e) && e.Get?
    ensures LeadsTo(Do(s, e), e.k, e.inum)
  {
  }

  /** An iput checks while another, of the same entry, is between releasesleep and ref--. */
  ghost predicate Overlaps(s: State, e: Step)
  {
    e.Act? && e.a.Check? && e.k in s.ptr &&
    exists t :: t in s.ptr && t != e.k && s.ptr[t].i == s.ptr[e.k].i && s.ptr[t].pc.Leaving?
  }

  /** iput is called through a pointer that ilock has been called through, or for an inode
      with a link. */
  predicate PutsRead(s: State, e: Step)
  {
    e.Act? && e.a.Put? && e.k in s.ptr && s.ptr[e.k].i < |s.entry| && s.entry[s.ptr[e.k].i].inum < |s.disk| ==>
      s.ptr[e.k].read || s.disk[s.entry[s.ptr[e.k].i].inum].nlink > 0
  }

  /** Before iput's check the inode has been read, or has a link still. */
  predicate ReadOk(s: State, k: nat)
    requires k in s.ptr
  {
    var p := s.ptr[k];
    (p.pc.Putting? || p.pc.Has?) && p.i < |s.entry| && s.entry[p.i].inum < |s.disk| ==>
      p.read || (s.entry[p.i].valid && !GoneAt(s, p.i)) || s.disk[s.entry[p.i].inum].nlink > 0
  }

  ghost predicate AllRead(s: State)
  {
    forall k | k in s.ptr :: ReadOk(s, k)
  }

  lemma ActReadOk(s: State, s': State, k: nat, t: nat)
    requires Inv(s) && Beside(s, s', k) && FairTo(s, s', k) && t in s.ptr && t != k && ReadOk(s, t)
    ensures ReadOk(s', t)
  {
    assert PointerOk(s, t) && PointerOk(s, k) && EntryOk(s, s.ptr[k].i);
    if s.entry[s.ptr[t].i].inum == s.entry[s.ptr[k].i].inum {
      OneEntry(s, t, k);
      if s.entry[s.ptr[k].i].ref == 1 { OnlyOne(s, k, t); }
    }
  }

  lemma OwnReadOk(s: State, k: nat, a: Action)
    requires Inv(s) && Enabled(s, Act(k, a)) && PutsRead(s, Act(k, a)) && ReadOk(s, k)
    ensures ReadOk(Do(s, Act(k, a)), k)
  {
    assert PointerOk(s, k);
  }

  lemma OtherReadOk(s: State, e: Step, t: nat)
    requires Inv(s) && Enabled(s, e) && !e.Act? && t in s.ptr && t in Do(s, e).ptr && ReadOk(s, t)
    ensures ReadOk(Do(s, e), t)
  {
    assert PointerOk(s, t);
    if e.Get? && s.entry[e.i].ref == 0 { UnusedEntry(s, e.i); }
  }

  lemma AllReadKept(s: State, e: Step)
    requires Inv(s) && AllRead(s) && Enabled(s, e) && !Panics(s, e) && PutsRead(s, e)
    ensures AllRead(Do(s, e))
  {
    hide Inv, PutsRead, FairTo, Acted, Picks;
    var s' := Do(s, e);
    if e.Act? { ActFair(s, e.k, e.a); }
    forall t | t in s'.ptr ensures ReadOk(s', t) {
      if t in s.ptr {
        assert ReadOk(s, t);
        if !e.Act? { OtherReadOk(s, e, t); }
        else if t == e.k { OwnReadOk(s, e.k, e.a); }
        else { ActReadOk(s, s', e.k, t); }
      }
    }
  }

  lemma ReadNotForgotten(s: State, e: Step)
    requires Inv(s) && AllRead(s) && Enabled(s, e) && !Overlaps(s, e)
    ensures !Forgets(s, e)
  {
    if e.Act? && e.a.Check? {
      var k, i := e.k, s.ptr[e.k].i;
      assert PointerOk(s, k) && ReadOk(s, k);
      if Forgets(s, e) { ForgetsOverlap(s, e); }
    }
  }

  /** As long as inodes without links are read before they are put, and iputs of one
      inode do not overlap in that window, each is freed by the last to let go. */
  lemma {:induction false} RunNoOrphan(ss: seq<State>, es: seq<Step>, k: nat)
    requires IsRun(ss, es) && k < |ss| && NoOrphan(ss[0])
    requires forall j | 0 <= j < |es| :: Named(ss[j], es[j]) && PutsRead(ss[j], es[j]) && !Overlaps(ss[j], es[j])
    ensures NoOrphan(ss[k]) && AllRead(ss[k])
  {
    hide Inv, NoOrphan, Forgets, Named, Do, Panics, Enabled, Overlaps, PutsRead, AllRead;
    if k == 0 {
      StartRead(ss[0]);
    } else {
      RunNoOrphan(ss, es, k - 1);
      RunSafe(ss, es, k - 1);
      assert Enabled(ss[k - 1], es[k - 1]);
      ReadNotForgotten(ss[k - 1], es[k - 1]);
      StepNoOrphan(ss[k - 1], es[k - 1]);
      AllReadKept(ss[k - 1], es[k - 1]);
    }
  }

  lemma StartRead(s: State)
    requires Start(s)
    ensures AllRead(s)
  {
  }

  // ----- two runs -----

  /** A run that ends in s, all of whose lookups are by name. */
  ghost predicate Leads(ss: seq<State>, es: seq<Step>, s: State)
  {
    IsRun(ss, es) && ss[|ss| - 1] == s && forall j | 0 <= j < |es| :: Named(ss[j], es[j])
  }

  lemma Go(ss: seq<State>, es: seq<Step>, s: State, e: Step) returns (ss': seq<State>, es': seq<Step>, s': State)
    requires Leads(ss, es, s) && Enabled(s, e) && !Panics(s, e) && Named(s, e)
    ensures s' == Do(s, e) && Leads(ss', es', s')
  {
    hide Start, Enabled, Panics, Do, Named;
    s' := Do(s, e);
    ss', es' := ss + [s'], es + [e];
    forall k {:trigger es'[k]} | 0 <= k < |es'|
      ensures Enabled(ss'[k], es'[k]) && !Panics(ss'[k], es'[k]) && ss'[k + 1] == Do(ss'[k], es'[k]) {
      if k < |es| { assert es'[k] == es[k]; }
    }
    forall j | 0 <= j < |es'| ensures Named(ss'[j], es'[j]) {
      if j < |es| { assert es'[j] == es[j]; }
    }
  }

  /** Two processes have inode n open in entry 0. */
  ghost predicate Shared(s: State, n: nat, f: Entry, p: Pc, q: Pc)
  {
    && |s.entry| == NINODE && n < |s.disk| && s.claims == map[] && s.entry[0] == f && f.inum == n
    && s.ptr.Keys == {0, 1} && s.ptr[0].i == 0 && s.ptr[0].pc == p && s.ptr[1].i == 0 && s.ptr[1].pc == q
  }

  lemma OpenTwice(s: State, n: nat) returns (ss: seq<State>, es: seq<Step>, s': State, c: Dinode)
    requires Start(s) && n < |s.disk| && s.disk[n].nlink > 0
    ensures Leads(ss, es, s') && s'.disk == s.disk && Shared(s', n, Entry(n, 2, false, c, None), Held, Held)
  {
    c := s.entry[0].copy;
    ss, es, s' := [s], [], s;
    ss, es, s' := Go(ss, es, s', Get(0, n, 0));
    assert s'.entry[0] == Entry(n, 1, false, s.entry[0].copy, None) && s'.ptr == map[0 := Pointer(0, Held, false)];
    ss, es, s' := Go(ss, es, s', Get(1, n, 0));
  }

  lemma Turn(ss0: seq<State>, es0: seq<Step>, s: State, n: nat, f: Entry, p: Pc, q: Pc, k: nat, a: Action)
    returns (ss: seq<State>, es: seq<Step>, s': State)
    requires Leads(ss0, es0, s) && Shared(s, n, f, p, q) && k < 2 && s.disk[n].typ != 0
    requires Ready(f, if k == 0 then p else q, a)
    ensures var (pc, f', d) := Acted(k, if k == 0 then p else q, f, s.disk[n], a);
            && Leads(ss, es, s') && Shared(s', n, f', if k == 0 then pc else p, if k == 1 then pc else q)
            && s'.disk == s.disk[n := d]
  {
    hide Leads, Ready, Acted;
    ActedSame(k, if k == 0 then p else q, f, s.disk[n], a);
    ss, es, s' := Go(ss0, es0, s, Act(k, a));
  }

  lemma ActedSame(k: nat, pc: Pc, f: Entry, d: Dinode, a: Action)
    ensures Acted(k, pc, f, d, a).1.inum == f.inum
  {
  }

  /** The first unlinks the file: it locks, counts the links down and unlocks. */
  lemma UnlinkIt(ss0: seq<State>, es0: seq<Step>, s: State, n: nat, c: Dinode)
    returns (ss: seq<State>, es: seq<Step>, s': State, f: Entry)
    requires Leads(ss0, es0, s) && Shared(s, n, Entry(n, 2, false, c, None), Held, Held) && s.disk[n].typ != 0
    ensures Leads(ss, es, s') && Shared(s', n, f, Held, Held) && f.ref == 2 && f.lock.None?
    ensures n < |s'.disk| && s'.disk[n].typ != 0 && s'.disk[n].nlink == 0
  {
    hide Leads, Shared;
    SharedSize(s, n, Entry(n, 2, false, c, None), Held, Held);
    var d := s.disk[n];
    ss, es, s' := Turn(ss0, es0, s, n, Entry(n, 2, false, c, None), Held, Held, 0, Lock);
    f := Entry(n, 2, true, d, Some(0));
    ss, es, s' := Turn(ss, es, s', n, f, Locked, Held, 0, Update(d.(nlink := 0)));
    ss, es, s' := Turn(ss, es, s', n, f.(copy := d.(nlink := 0)), Locked, Held, 0, Unlock);
    f := Entry(n, 2, true, d.(nlink := 0), None);
  }

  lemma SharedSize(s: State, n: nat, f: Entry, p: Pc, q: Pc)
    requires Shared(s, n, f, p, q)
    ensures n < |s.disk|
  {
  }

  /** One's iput as far as the release of the lock: there are two references. */
  lemma PutHalf(ss0: seq<State>, es0: seq<Step>, s: State, n: nat, f: Entry, k: nat, o: Pc)
    returns (ss: seq<State>, es: seq<Step>, s': State)
    requires k < 2 && n < |s.disk| && f.ref == 2 && f.lock.None? && s.disk[n].typ != 0
    requires Leads(ss0, es0, s) && Shared(s, n, f, if k == 0 then Held else o, if k == 1 then Held else o)
    ensures Leads(ss, es, s') && s'.disk == s.disk
    ensures Shared(s', n, f, if k == 0 then Leaving(false) else o, if k == 1 then Leaving(false) else o)
  {
    hide Leads, Shared;
    var g := f.(lock := Some(k));
    ss, es, s' := Turn(ss0, es0, s, n, f, if k == 0 then Held else o, if k == 1 then Held else o, k, Put);
    ss, es, s' := Turn(ss, es, s', n, f, if k == 0 then Putting else o, if k == 1 then Putting else o, k, Acquire);
    ss, es, s' := Turn(ss, es, s', n, g, if k == 0 then Has else o, if k == 1 then Has else o, k, Check);
    ss, es, s' := Turn(ss, es, s', n, g, if k == 0 then Keeping else o, if k == 1 then Keeping else o, k, Release);
  }

  lemma DropBoth(ss0: seq<State>, es0: seq<Step>, s: State, n: nat, f: Entry)
    returns (ss: seq<State>, es: seq<Step>, s': State)
    requires Leads(ss0, es0, s) && Shared(s, n, f, Leaving(false), Leaving(false)) && f.ref == 2
    ensures Leads(ss, es, s') && s'.disk == s.disk && s'.ptr == map[] && s'.claims == map[]
  {
    hide Leads;
    ss, es, s' := Go(ss0, es0, s, Drop(0));
    assert s'.ptr.Keys == {1} && s'.ptr[1].i == 0;
    ss, es, s' := Go(ss, es, s', Drop(1));
  }

  /** From any start with a file: two iputs at a time leave it allocated on disk, with no
      link to it and no reference. */
  lemma OrphanReachable(s: State, n: nat) returns (ss: seq<State>, es: seq<Step>, s': State)
    requires Start(s) && n < |s.disk| && s.disk[n].typ != 0 && s.disk[n].nlink > 0
    ensures Leads(ss, es, s') && s'.ptr == map[] && s'.claims == map[]
    ensures n < |s'.disk| && s'.disk[n].typ != 0 && s'.disk[n].nlink == 0
  {
    hide Leads, Shared, Start;
    var f, c;
    ss, es, s', c := OpenTwice(s, n);
    ss, es, s', f := UnlinkIt(ss, es, s', n, c);
    ss, es, s' := PutHalf(ss, es, s', n, f, 0, Held);
    ss, es, s' := PutHalf(ss, es, s', n, f, 1, Leaving(false));
    ss, es, s' := DropBoth(ss, es, s', n, f);
  }

  class Icache {
    var inode: seq<Entry>

    constructor ()
      ensures |inode| == NINODE && forall i | 0 <= i < NINODE :: inode[i].ref == 0 && inode[i].lock.None?
    {
      inode := seq(NINODE, _ => Entry(0, 0, false, Dinode(0, 0, 0), None));
    }

    /** iget; None is the panic, with every entry in use for another inode. */
    method Iget(inum: nat) returns (r: Option<nat>)
      modifies this
      ensures r.None? <==> forall j | 0 <= j < |old(inode)| :: old(inode)[j].ref > 0 && !Caches(old(inode)[j], inum)
      ensures r.None? ==> inode == old(inode)
      ensures r.Some? ==> Picks(old(inode), inum, r.value)
      ensures r.Some? ==> inode == old(inode)[r.value := Got(old(inode)[r.value], inum)]
      ensures r.Some? && r.value < |old(inode)| == |inode| ==>
                && inode[r.value].inum == inum && inode[r.value].ref == old(inode)[r.value].ref + 1
                && (old(inode)[r.value].ref > 0 ==>
                     inode[r.value].(ref := old(inode)[r.value].ref) == old(inode)[r.value])
                && (old(inode)[r.value].ref == 0 ==> !inode[r.value].valid)
    {
      var empty: Option<nat> := None;
      var i := 0;
      while i < |inode|
        invariant i <= |inode| && inode == old(inode)
        invariant forall j | 0 <= j < i :: !Caches(inode[j], inum)
        invariant empty.None? ==> forall j | 0 <= j < i :: inode[j].ref > 0
        invariant empty.Some? ==> empty.value < i && inode[empty.value].ref == 0
        invariant empty.Some? ==> forall j | 0 <= j < empty.value :: inode[j].ref > 0
      {
        if inode[i].ref > 0 && inode[i].inum == inum {
          inode := inode[i := inode[i].(ref := inode[i].ref + 1)];
          return Some(i);
        }
        if empty.None? && inode[i].ref == 0 { empty := Some(i); }
        i := i + 1;
      }
      if empty.None? { return None; }
      i := empty.value;
      inode := inode[i := inode[i].(inum := inum, ref := 1, valid := false)];
      return Some(i);
    }
  }
}
