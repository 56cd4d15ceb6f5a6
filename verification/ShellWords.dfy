/** sh.c: the trees the parser builds, and nulterminate, which cuts the line into their words. */
module ShellWords {
  import opened Shell
  import opened ShellText

  /** A word of the line: as long as it can be at its end. */
  predicate IsToken(s: string, w: Span)
  {
    && w.q < w.e <= |s| && (forall k | w.q <= k < w.e :: Plain(s[k])) && (w.e < |s| ==> !Plain(s[w.e]))
  }

  /** Every word of the tree is one of the line's, and there are few enough. */
  predicate Good(s: string, c: Cmd<Span>)
  {
    match c
    case Exec(argv) => |argv| < MAXARGS && forall k | 0 <= k < |argv| :: IsToken(s, argv[k])
    case Redir(d, file, mode, fd) =>
      Good(s, d) && IsToken(s, file) && ((mode == O_RDONLY && fd == 0) || (mode == O_WRONLY + O_CREATE && fd == 1))
    case Pipe(l, r) => Good(s, l) && Good(s, r)
    case List(l, r) => Good(s, l) && Good(s, r)
    case Back(d) => Good(s, d)
  }

  /** n arguments under redirections. */
  predicate Simple(c: Cmd<Span>, n: nat)
  {
    match c
    case Exec(argv) => |argv| == n
    case Redir(d, _, _, _) => Simple(d, n)
    case _ => false
  }

  lemma {:induction false} AddArgGood(s: string, c: Cmd<Span>, n: nat, w: Span)
    requires Good(s, c) && Simple(c, n) && n + 1 < MAXARGS && IsToken(s, w)
    ensures Good(s, AddArg(c, w)) && Simple(AddArg(c, w), n + 1)
    decreases c
  {
    if c.Redir? { AddArgGood(s, c.cmd, n, w); }
  }

  lemma {:induction false} RedirsGood(c: Cmd<Span>, s: string, i: nat, n: nat)
    requires i <= |s| && Line(s) && Good(s, c) && RedirsAt(c, s, i).Ok?
    ensures Good(s, RedirsAt(c, s, i).cmd) && (Simple(c, n) ==> Simple(RedirsAt(c, s, i).cmd, n))
    decreases |s| - i
  {
    if PeekAt(s, i, "<>") {
      var t := TokenAt(s, Skip(s, i));
      var w := TokenAt(s, t.pos);
      RedirsGood(Redir(c, Span(w.q, w.e), ModeOf(t.tok), FdOf(t.tok)), s, w.pos, n);
    }
  }

  lemma TokenIs(s: string, i: nat)
    requires i <= |s| && Line(s)
    ensures TokenAt(s, i).tok == 'a' ==> IsToken(s, Span(TokenAt(s, i).q, TokenAt(s, i).e))
  {
  }

  lemma {:induction false} ArgsGood(c: Cmd<Span>, n: nat, s: string, i: nat)
    requires i <= |s| && Line(s) && Good(s, c) && Simple(c, n) && ArgsAt(c, n, s, i).Ok?
    ensures Good(s, ArgsAt(c, n, s, i).cmd)
    decreases |s| - i
  {
    hide Good, Simple, IsToken, TokenAt, Skip, PeekAt, RedirsAt, AddArg;
    var t := TokenAt(s, Skip(s, i));
    if !PeekAt(s, i, "|)&;") && t.tok != '\0' {
      TokenIs(s, Skip(s, i));
      var d := AddArg(c, Span(t.q, t.e));
      AddArgGood(s, c, n, Span(t.q, t.e));
      RedirsGood(d, s, t.pos, n + 1);
      ArgsGood(RedirsAt(d, s, t.pos).cmd, n + 1, s, RedirsAt(d, s, t.pos).pos);
    }
  }

  lemma {:induction false} BacksGood(c: Cmd<Span>, s: string, i: nat)
    requires i <= |s| && Line(s) && Good(s, c)
    ensures Good(s, BacksAt(c, s, i).0)
    decreases |s| - i
  {
    if PeekAt(s, i, "&") { BacksGood(Back(c), s, TokenAt(s, i).pos); }
  }

  lemma {:induction false} LineGood(s: string, i: nat)
    requires i <= |s| && Line(s) && LineAt(s, i).Ok?
    ensures Good(s, LineAt(s, i).cmd)
    decreases |s| - i, 3
  {
    PipeGood(s, i);
    var l := PipeAt(s, i);
    BacksGood(l.cmd, s, l.pos);
    var p := BacksAt(l.cmd, s, l.pos).1;
    if PeekAt(s, p, ";") { LineGood(s, TokenAt(s, p).pos); }
  }

  lemma {:induction false} PipeGood(s: string, i: nat)
    requires i <= |s| && Line(s) && PipeAt(s, i).Ok?
    ensures Good(s, PipeAt(s, i).cmd)
    decreases |s| - i, 2
  {
    ExecGood(s, i);
    var l := ExecAt(s, i);
    if PeekAt(s, l.pos, "|") { PipeGood(s, TokenAt(s, l.pos).pos); }
  }

  lemma {:induction false} ExecGood(s: string, i: nat)
    requires i <= |s| && Line(s) && ExecAt(s, i).Ok?
    ensures Good(s, ExecAt(s, i).cmd)
    decreases |s| - i, 1
  {
    if PeekAt(s, i, "(") {
      var p := Skip(s, i);
      LineGood(s, TokenAt(s, p).pos);
      var r := LineAt(s, TokenAt(s, p).pos);
      RedirsGood(r.cmd, s, TokenAt(s, r.pos).pos, 0);
    } else {
      RedirsGood(Exec([]), s, i, 0);
      ArgsGood(RedirsAt(Exec([]), s, i).cmd, 0, s, RedirsAt(Exec([]), s, i).pos);
    }
  }

  lemma {:induction false} GoodPrintable(s: string, c: Cmd<Span>)
    requires Good(s, c)
    ensures Printable(Text(s, c))
    decreases c
  {
    match c
    case Exec(argv) => WordsPlain(s, argv);
    case Redir(d, file, _, _) => GoodPrintable(s, d);
    case Pipe(l, r) => GoodPrintable(s, l); GoodPrintable(s, r);
    case List(l, r) => GoodPrintable(s, l); GoodPrintable(s, r);
    case Back(d) => GoodPrintable(s, d);
  }

  lemma {:induction false} WordsPlain(s: string, ws: seq<Span>)
    requires forall k | 0 <= k < |ws| :: IsToken(s, ws[k])
    ensures PlainWords(Words(s, ws))
  {
    if ws != [] {
      WordsPlain(s, ws[..|ws| - 1]);
      assert PlainWord(Word(s, ws[|ws| - 1]));
    }
  }

  /** The printable trees are those that parsing can give, and no others. */
  lemma ParserImage(c: Cmd<string>)
    ensures Printable(c) <==> exists s :: Line(s) && Parse(s).Ok? && Text(s, Parse(s).cmd) == c
  {
    if Printable(c) {
      RoundTrip(c);
    }
    forall s | Line(s) && Parse(s).Ok? ensures Printable(Text(s, Parse(s).cmd)) {
      LineGood(s, 0);
      GoodPrintable(s, Parse(s).cmd);
    }
  }

  // ---- nulterminate ----

  /** k is where a word of the tree ends. */
  predicate EndsAt(c: Cmd<Span>, k: nat)
  {
    match c
    case Exec(argv) => exists j | 0 <= j < |argv| :: argv[j].e == k
    case Redir(d, file, _, _) => EndsAt(d, k) || file.e == k
    case Pipe(l, r) => EndsAt(l, k) || EndsAt(r, k)
    case List(l, r) => EndsAt(l, k) || EndsAt(r, k)
    case Back(d) => EndsAt(d, k)
  }

  predicate HasWord(c: Cmd<Span>, w: Span)
  {
    match c
    case Exec(argv) => w in argv
    case Redir(d, file, _, _) => HasWord(d, w) || file == w
    case Pipe(l, r) => HasWord(l, w) || HasWord(r, w)
    case List(l, r) => HasWord(l, w) || HasWord(r, w)
    case Back(d) => HasWord(d, w)
  }

  method Nulterminate(c: Cmd<Span>, buf: array<char>, ghost s: string)
    requires Good(s, c) && buf.Length == |s| + 1
    modifies buf
    ensures forall k | 0 <= k < buf.Length :: buf[k] == if EndsAt(c, k) then '\0' else old(buf[k])
    decreases c
  {
    match c
    case Exec(argv) =>
      var i := 0;
      while i < |argv|
        invariant i <= |argv|
        invariant forall k | 0 <= k < buf.Length ::
                    buf[k] == if exists j | 0 <= j < i :: argv[j].e == k then '\0' else old(buf[k])
      {
        assert IsToken(s, argv[i]);
        buf[argv[i].e] := '\0';
        i := i + 1;
      }
    case Redir(d, file, _, _) =>
      Nulterminate(d, buf, s);
      buf[file.e] := '\0';
    case Pipe(l, r) =>
      Nulterminate(l, buf, s);
      Nulterminate(r, buf, s);
    case List(l, r) =>
      Nulterminate(l, buf, s);
      Nulterminate(r, buf, s);
    case Back(d) =>
      Nulterminate(d, buf, s);
  }

  /** The C string at i. */
  function CString(b: seq<char>, i: nat): string
    requires i <= |b|
    decreases |b| - i
  {
    if i == |b| || b[i] == '\0' then "" else [b[i]] + CString(b, i + 1)
  }

  /** After nulterminate every argv and file points to a C string that is its word. */
  lemma Terminated(s: string, c: Cmd<Span>, b: seq<char>, w: Span)
    requires Line(s) && Good(s, c) && HasWord(c, w) && |b| == |s| + 1
    requires forall k | 0 <= k < |b| :: b[k] == if EndsAt(c, k) || k == |s| then '\0' else s[k]
    ensures w.q <= |s| && CString(b, w.q) == Word(s, w)
  {
    hide EndsAt, HasWord, Good;
    WordKept(s, c, w);
    CStringIs(b, w.q, w.e);
    assert b[w.q..w.e] == s[w.q..w.e];
  }

  lemma {:induction false} CStringIs(b: seq<char>, i: nat, e: nat)
    requires i <= e < |b| && b[e] == '\0' && forall k | i <= k < e :: b[k] != '\0'
    ensures CString(b, i) == b[i..e]
    decreases e - i
  {
    if i < e {
      CStringIs(b, i + 1, e);
      assert b[i..e] == [b[i]] + b[i + 1..e];
    }
  }

  /** No word ends inside a word. */
  lemma WordKept(s: string, c: Cmd<Span>, w: Span)
    requires Good(s, c) && HasWord(c, w)
    ensures IsToken(s, w) && EndsAt(c, w.e) && forall k | w.q <= k < w.e :: !EndsAt(c, k)
  {
    WordIsToken(s, c, w);
    forall k | w.q <= k < w.e ensures !EndsAt(c, k) {
      if EndsAt(c, k) { EndNotPlain(s, c, k); }
    }
  }

  lemma {:induction false} WordIsToken(s: string, c: Cmd<Span>, w: Span)
    requires Good(s, c) && HasWord(c, w)
    ensures IsToken(s, w) && EndsAt(c, w.e)
    decreases c
  {
    match c
    case Exec(argv) => var j :| 0 <= j < |argv| && argv[j] == w;
    case Redir(d, file, _, _) => if HasWord(d, w) { WordIsToken(s, d, w); }
    case Pipe(l, r) => if HasWord(l, w) { WordIsToken(s, l, w); } else { WordIsToken(s, r, w); }
    case List(l, r) => if HasWord(l, w) { WordIsToken(s, l, w); } else { WordIsToken(s, r, w); }
    case Back(d) => WordIsToken(s, d, w);
  }

  lemma {:induction false} EndNotPlain(s: string, c: Cmd<Span>, k: nat)
    requires Good(s, c) && EndsAt(c, k)
    ensures k <= |s| && (k < |s| ==> !Plain(s[k]))
    decreases c
  {
    match c
    case Exec(argv) => var j :| 0 <= j < |argv| && argv[j].e == k; assert IsToken(s, argv[j]);
    case Redir(d, file, _, _) => if EndsAt(d, k) { EndNotPlain(s, d, k); }
    case Pipe(l, r) => if EndsAt(l, k) { EndNotPlain(s, l, k); } else { EndNotPlain(s, r, k); }
    case List(l, r) => if EndsAt(l, k) { EndNotPlain(s, l, k); } else { EndNotPlain(s, r, k); }
    case Back(d) => EndNotPlain(s, d, k);
  }
}
