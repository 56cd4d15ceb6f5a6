/** string.c and skipelem of fs.c: names of at most DIRSIZ characters and the paths made
    of them. A string argument is given without its NUL. */
module Names {
  const DIRSIZ: nat := 14

  function Ch(s: seq<char>, i: nat): char { if i < |s| then s[i] else '\0' }

  /** What of a string counts when n characters are looked at. */
  function Key(s: seq<char>, n: nat): (r: string)
    ensures |r| <= n && forall k | 0 <= k < |r| :: r[k] != '\0'
    decreases n
  {
    if n == 0 || Ch(s, 0) == '\0' then "" else [s[0]] + Key(s[1..], n - 1)
  }

  /** It is the string up to its NUL, its end or its n-th character. */
  lemma {:induction false} KeyExactly(s: seq<char>, n: nat, m: nat)
    requires m <= n && m <= |s| && (forall k | 0 <= k < m :: s[k] != '\0')
    requires m == n || m == |s| || s[m] == '\0'
    ensures Key(s, n) == s[..m]
    decreases n
  {
    if m > 0 {
      KeyExactly(s[1..], n - 1, m - 1);
      assert s[..m] == [s[0]] + s[1..][..m - 1];
    }
  }

  function NameKey(s: seq<char>): string { Key(s, DIRSIZ) }

  lemma {:induction false} KeyDiffers(p: seq<char>, q: seq<char>, n: nat, i: nat)
    requires i < n && (forall k | 0 <= k < i :: Ch(p, k) == Ch(q, k) != '\0')
    requires Ch(p, i) != Ch(q, i) || Ch(p, i) == '\0'
    ensures Key(p, n) == Key(q, n) <==> Ch(p, i) == Ch(q, i)
    decreases n
  {
    if i > 0 {
      assert Ch(p, 0) == Ch(q, 0) != '\0';
      forall k | 0 <= k < i - 1 ensures Ch(p[1..], k) == Ch(q[1..], k) != '\0' {
        assert Ch(p, k + 1) == Ch(q, k + 1) != '\0';
      }
      KeyDiffers(p[1..], q[1..], n - 1, i - 1);
      assert Key(p, n)[1..] == Key(p[1..], n - 1) && Key(q, n)[1..] == Key(q[1..], n - 1);
    } else {
      assert Ch(p, 0) != '\0' && Ch(q, 0) != '\0' ==> Key(p, n)[0] == Ch(p, 0) && Key(q, n)[0] == Ch(q, 0);
    }
  }

  lemma {:induction false} KeySame(p: seq<char>, q: seq<char>, n: nat)
    requires forall k | 0 <= k < n :: Ch(p, k) == Ch(q, k) || (exists j | 0 <= j < k :: Ch(p, j) == Ch(q, j) == '\0')
    ensures Key(p, n) == Key(q, n)
    decreases n
  {
    if n > 0 && Ch(p, 0) != '\0' {
      assert Ch(p, 0) == Ch(q, 0);
      forall k | 0 <= k < n - 1
        ensures Ch(p[1..], k) == Ch(q[1..], k) || (exists j | 0 <= j < k :: Ch(p[1..], j) == Ch(q[1..], j) == '\0')
      {
        if Ch(p, k + 1) != Ch(q, k + 1) {
          var j :| 0 <= j < k + 1 && Ch(p, j) == Ch(q, j) == '\0';
          assert Ch(p[1..], j - 1) == Ch(q[1..], j - 1) == '\0';
        }
      }
      KeySame(p[1..], q[1..], n - 1);
    } else if n > 0 {
      assert Ch(q, 0) == '\0';
    }
  }

  /** strncmp is 0 exactly for strings alike in what n characters can tell. */
  method Strncmp(p: seq<char>, q: seq<char>, n: nat) returns (r: int)
    ensures r == 0 <==> Key(p, n) == Key(q, n)
  {
    var i := 0;
    while i < n && Ch(p, i) != '\0' && Ch(p, i) == Ch(q, i)
      invariant i <= n && forall k | 0 <= k < i :: Ch(p, k) == Ch(q, k) != '\0'
    {
      i := i + 1;
    }
    if i == n {
      KeySame(p, q, n);
      return 0;
    }
    KeyDiffers(p, q, n, i);
    return (Ch(p, i) as int) - (Ch(q, i) as int);
  }

  /** strncpy into a field of s.Length characters, padded with NULs. */
  method Strncpy(s: array<char>, t: seq<char>)
    modifies s
    ensures Key(s[..], s.Length) == Key(t, s.Length)
    ensures forall k, j | 0 <= j < k < s.Length && s[j] == '\0' :: s[k] == '\0'
  {
    var i := 0;
    var going := true;
    while i < s.Length && going
      invariant i <= s.Length && (forall k | 0 <= k < i :: s[k] == Ch(t, k))
      invariant forall k | 0 <= k < i - 1 :: s[k] != '\0'
      invariant going <==> i == 0 || s[i - 1] != '\0'
      decreases s.Length - i, going
    {
      s[i] := Ch(t, i);
      going := s[i] != '\0';
      i := i + 1;
    }
    ghost var e := i;
    while i < s.Length
      invariant e <= i <= s.Length && (forall k | 0 <= k < e :: s[k] == Ch(t, k)) &&
                (forall k | e <= k < i :: s[k] == '\0')
      invariant forall k | 0 <= k < e - 1 :: s[k] != '\0'
      invariant e < s.Length ==> e > 0 && s[e - 1] == '\0'
    {
      s[i] := '\0';
      i := i + 1;
    }
    forall k | 0 <= k < s.Length
      ensures Ch(s[..], k) == Ch(t, k) || (exists j | 0 <= j < k :: Ch(s[..], j) == Ch(t, j) == '\0')
    {
      if k >= e { assert Ch(s[..], e - 1) == Ch(t, e - 1) == '\0'; }
    }
    KeySame(s[..], t, s.Length);
  }

  /** memmove inside one array: the two regions may overlap. */
  method Memmove(a: array<char>, dst: nat, src: nat, n: nat)
    requires dst + n <= a.Length && src + n <= a.Length
    modifies a
    ensures a[dst..dst + n] == old(a[src..src + n])
    ensures forall k | 0 <= k < a.Length && !(dst <= k < dst + n) :: a[k] == old(a[k])
  {
    if src < dst && src + n > dst {
      var i := n;
      while i > 0
        invariant 0 <= i <= n
        invariant forall k | 0 <= k < a.Length :: a[k] == if dst + i <= k < dst + n then old(a[k - dst + src])
                  else old(a[k])
      {
        i := i - 1;
        a[dst + i] := a[src + i];
      }
    } else {
      var i := 0;
      while i < n
        invariant 0 <= i <= n
        invariant forall k | 0 <= k < a.Length :: a[k] == if dst <= k < dst + i then old(a[k - dst + src])
                  else old(a[k])
      {
        a[dst + i] := a[src + i];
        i := i + 1;
      }
    }
  }

  // ---- paths ----

  /** A path as its elements: the runs of characters between slashes. */
  function Elements(path: string): seq<string>
    decreases |path|
  {
    if path == "" then []
    else if path[0] == '/' then Elements(path[1..])
    else
      var n := Run(path);
      [path[..n]] + Elements(path[n..])
  }

  /** How long the element at the front is. */
  function Run(path: string): (n: nat)
    ensures n <= |path| && (n < |path| ==> path[n] == '/') && (forall k | 0 <= k < n :: path[k] != '/')
    ensures path != "" && path[0] != '/' ==> n > 0
  {
    if path == "" || path[0] == '/' then 0 else 1 + Run(path[1..])
  }

  /** path is the elements, each of them non-empty and without a slash, with slashes between
      and as many as one likes around. */
  ghost predicate Splits(path: string, elems: seq<string>)
    decreases |elems|
  {
    if elems == [] then forall k | 0 <= k < |path| :: path[k] == '/'
    else exists i, j | 0 <= i < j <= |path| ::
      SlashesTo(path, i) && IsElement(path, i, j) && path[i..j] == elems[0] && Splits(path[j..], elems[1..])
  }

  predicate SlashesTo(path: string, i: nat)
    requires i <= |path|
  {
    forall k | 0 <= k < i :: path[k] == '/'
  }

  /** Between i and j there is no slash, and there is one, or the end, after it. */
  predicate IsElement(path: string, i: nat, j: nat)
    requires i <= j <= |path|
  {
    (forall k | i <= k < j :: path[k] != '/') && (j < |path| ==> path[j] == '/')
  }

  /** Slashes at the front do not matter. */
  lemma {:induction false} SlashesFirst(path: string, i: nat)
    requires i <= |path| && forall k | 0 <= k < i :: path[k] == '/'
    ensures Elements(path) == Elements(path[i..])
    decreases i
  {
    if i > 0 {
      SlashesFirst(path[1..], i - 1);
      assert path[1..][i - 1..] == path[i..];
    } else {
      assert path[0..] == path;
    }
  }

  lemma {:induction false} RunIs(path: string, n: nat)
    requires n <= |path| && (forall k | 0 <= k < n :: path[k] != '/') && (n < |path| ==> path[n] == '/')
    ensures Run(path) == n
    decreases n
  {
    if n > 0 { RunIs(path[1..], n - 1); }
  }

  /** There is one way to split a path. */
  lemma ElementsExactly(path: string, elems: seq<string>)
    ensures Splits(path, elems) <==> elems == Elements(path)
  {
    ElementsSplit(path);
    if Splits(path, elems) { SplitOnly(path, elems); }
  }

  lemma {:induction false} SplitOnly(path: string, elems: seq<string>)
    requires Splits(path, elems)
    ensures elems == Elements(path)
    decreases |elems|
  {
    hide Elements;
    if elems == [] {
      ElementsNone(path);
    } else {
      var i, j :| 0 <= i < j <= |path| && SlashesTo(path, i) && IsElement(path, i, j) && path[i..j] == elems[0]
                  && Splits(path[j..], elems[1..]);
      ElementsHead(path, i, j);
      SplitOnly(path[j..], elems[1..]);
    }
  }

  lemma ElementsNone(path: string)
    requires SlashesTo(path, |path|)
    ensures Elements(path) == []
  {
    SlashesFirst(path, |path|);
  }

  lemma ElementsHead(path: string, i: nat, j: nat)
    requires i < j <= |path| && SlashesTo(path, i) && IsElement(path, i, j)
    ensures Elements(path) == [path[i..j]] + Elements(path[j..])
  {
    hide Run;
    SlashesFirst(path, i);
    var p := path[i..];
    RunAt(path, i, j);
    assert p[..j - i] == path[i..j] && p[j - i..] == path[j..];
  }

  lemma RunAt(path: string, i: nat, j: nat)
    requires i < j <= |path| && IsElement(path, i, j)
    ensures Run(path[i..]) == j - i && path[i..][0] != '/'
  {
    var p := path[i..];
    assert forall k | 0 <= k < |p| :: p[k] == path[i + k];
    RunIs(p, j - i);
  }

  lemma {:induction false} ElementsSplit(path: string)
    ensures Splits(path, Elements(path))
    decreases |path|
  {
    hide Elements, Run;
    var i := Slashes(path);
    if i == |path| {
      ElementsNone(path);
    } else {
      var j := RunFrom(path, i);
      ElementsHead(path, i, j);
      ElementsSplit(path[j..]);
      assert Elements(path)[1..] == Elements(path[j..]);
    }
  }

  lemma RunFrom(path: string, i: nat) returns (j: nat)
    requires i < |path| && path[i] != '/'
    ensures i < j <= |path| && IsElement(path, i, j)
  {
    var p := path[i..];
    j := i + Run(p);
    assert forall k | i <= k < j :: path[k] == p[k - i];
    assert j < |path| ==> path[j] == p[j - i];
  }

  function Slashes(path: string): (i: nat)
    ensures i <= |path| && SlashesTo(path, i) && (i < |path| ==> path[i] != '/')
  {
    if path != "" && path[0] == '/' then 1 + Slashes(path[1..]) else 0
  }

  function Trim(path: string): (r: string)
    ensures |r| <= |path| && (r != "" ==> r[0] != '/') && Elements(r) == Elements(path)
  {
    if path != "" && path[0] == '/' then Trim(path[1..]) else path
  }

  /** Past the slashes at the front. */
  method SkipSlashes(path: string, i: nat) returns (j: nat)
    requires i <= |path|
    ensures i <= j <= |path| && path[j..] == Trim(path[i..])
  {
    j := i;
    while j < |path| && path[j] == '/'
      invariant i <= j <= |path| && Trim(path[j..]) == Trim(path[i..])
    {
      assert path[j..][1..] == path[j + 1..];
      j := j + 1;
    }
  }

  /** Past the element at the front. */
  method SkipRun(path: string, i: nat) returns (j: nat)
    requires i <= |path|
    ensures i <= j <= |path| && j - i == Run(path[i..])
  {
    j := i;
    while j < |path| && path[j] != '/'
      invariant i <= j <= |path| && (j - i) + Run(path[j..]) == Run(path[i..])
    {
      assert path[j..][1..] == path[j + 1..];
      j := j + 1;
    }
  }

  method CopyName(name: array<char>, elem: string)
    requires name.Length == DIRSIZ && forall k | 0 <= k < |elem| :: elem[k] != '\0'
    modifies name
    ensures NameKey(name[..]) == NameKey(elem)
  {
    var n := if |elem| >= DIRSIZ then DIRSIZ else |elem|;
    var j := 0;
    while j < n
      invariant j <= n && forall k | 0 <= k < j :: name[k] == elem[k]
    {
      name[j] := elem[j];
      j := j + 1;
    }
    if |elem| < DIRSIZ { name[|elem|] := '\0'; }
    NameIs(name[..], elem);
  }

  /** skipelem: the first element into name (of DIRSIZ characters), the rest of the path
      without leading slashes; found is false if there is no element. */
  method Skipelem(path: string, name: array<char>) returns (rest: string, found: bool)
    requires name.Length == DIRSIZ && forall k | 0 <= k < |path| :: path[k] != '\0'
    modifies name
    ensures found <==> Elements(path) != []
    ensures found ==> Elements(path) != [] && NameKey(name[..]) == NameKey(Elements(path)[0])
    ensures found ==> Elements(rest) == Elements(path)[1..] && (rest != "" ==> rest[0] != '/') && |rest| < |path|
    ensures forall k | 0 <= k < |rest| :: rest[k] != '\0'
  {
    hide NameKey, Run;
    var s := SkipSlashes(path, 0);
    assert path[0..] == path;
    if s == |path| { return "", false; }
    var e := SkipRun(path, s);
    assert path[s..][..e - s] == path[s..e] && path[s..][e - s..] == path[e..];
    CopyName(name, path[s..e]);
    var r := SkipSlashes(path, e);
    return path[r..], true;
  }

  lemma NameIs(name: seq<char>, elem: string)
    requires |name| == DIRSIZ && (forall k | 0 <= k < |elem| :: elem[k] != '\0')
    requires forall k | 0 <= k < |elem| && k < DIRSIZ :: name[k] == elem[k]
    requires |elem| < DIRSIZ ==> name[|elem|] == '\0'
    ensures NameKey(name) == NameKey(elem)
  {
    forall k | 0 <= k < DIRSIZ
      ensures Ch(name, k) == Ch(elem, k) || (exists j | 0 <= j < k :: Ch(name, j) == Ch(elem, j) == '\0')
    {
      if k > |elem| { assert Ch(name, |elem|) == Ch(elem, |elem|) == '\0'; }
    }
    KeySame(name, elem, DIRSIZ);
  }
}
